# registry — a Dafny model

This project models the Python package `registry`, an in-memory registration
and lookup facility. Every registry class owns a **metadata center**: a
Python `dict` from a registered key (a class or a function) to its metadata.
Lookups scan the center in insertion order and return the first match.

There are two registration strategies, and each exists in a current and an
earlier generation:

- **Annotation registry** (`Registry`): `register(**meta)` returns a decorator.
  Applying the decorator to an item stores `item -> metadata` and returns the
  item or a replacement value.
  - The current version (`src/registry/registry.py`) builds the metadata with
    the registry's metadata class and adds a predicate option to `query`.
  - The earlier version (`src/registry/__init__.py`) stores the keyword dict
    itself.
- **Inheritance registry** (`SubclassRegistry`): defining a subclass runs
  `__init_subclass__`. The hook resolves an owning registry class from the
  base-class graph and files the new class under the owner.
  - The current version (`src/registry/subclass_registry.py`) files it under
    the root of its lineage, the class whose own registry base is
    `SubclassRegistry`.
  - The earlier version calls `center()` on the class's first
    registry-typed base instead. Because `_center` is an inherited class
    attribute, that call returns the root's dict whenever the base has no
    dict of its own but the root has one. The model does not follow that
    lookup: it gives every class its own center.

Files and modules:

- `centers.dfy` (`Centers`) holds the pieces both strategies share:
  - the center as a value, `Center(order, items)`, where `order` lists the keys
    in iteration order and `items` maps each key to its value;
  - the Python `dict` object that holds a center (`Dict`);
  - the metadata values;
  - the metadata class as a constructor that may reject its keywords
    (`MetaShape`);
  - the first-match scan (`FirstMatch`, with the loop `FindFirst`);
  - the partial-match test `query.items() <= meta.items()` (`Superset`, `Matcher`).
- `class_graph.dfy` (`ClassGraph`) is the class graph as an arena.
  - Classes are numbered in definition order, so every base has a smaller
    number than the class that names it.
  - Class 0 is `SubclassRegistry`.
  - The module also defines `issubclass(c, SubclassRegistry)` and the first
    registry-typed base of a list of bases.
- `annotation_registry.dfy` (`AnnotationRegistry`) is the current `Registry`.
  Its `_center` is a nullable `Dict` field, so the model can state that an
  empty center is replaced by a fresh dict.
- `inheritance_registry.dfy` (`InheritanceRegistry`) is the current
  `SubclassRegistry`. It defines owner resolution (`Owner`) and the `Hierarchy`
  class, which holds every defined class and every class's center. Defining a
  class is an explicit `DefineClass` call.
- `legacy_registry.dfy` (`LegacyRegistry`) holds both registries of
  `src/registry/__init__.py`. It also has lemmas that compare the two
  owner-resolution policies.
- `scenarios.dfy` (`Scenarios`) holds the two scenarios of
  `tests/test_registery.py`, stated as postconditions.

Two facts of the code shape the model:

- `src/registry/subclass_registry.py` defines no `register`, `unregister` or
  `registered`, so the inheritance registries model only class definition,
  `query`, `meta_of` and `center`.
- The only metadata hook is the registry's metadata class (`_meta_cls()`),
  called as `meta_cls(**meta)` (src/registry/registry.py:37-40). A metadata
  class that rejects its keywords is `ConstructionError`.

## Model

| member | source | states |
|---|---|---|
| Centers.Construct | src/registry/registry.py:37-40 | without a declared metadata class the metadata is a dict equal to the keywords; a declared class builds it or rejects the keywords |
| Centers.Empty | src/registry/registry.py:93-94 | a new `dict()` is a well-formed center with no items |
| Centers.Center.Items | src/registry/registry.py:79 | `center.items()` has one pair per key, each pairing a key of the center with its stored value, and every key of the center appears |
| Centers.Center.Put | src/registry/registry.py:40 | `center[k] = v`: afterwards `k` maps to `v`, every other key keeps its value, no other key appears, and the center stays well formed |
| Centers.Center.Remove | src/registry/registry.py:48 | `del center[k]`: afterwards `k` is absent, every other key keeps its value, no key appears, and the center stays well formed |
| Centers.Center.Drop | src/registry/registry.py:48 | dropping the key at one position leaves a well-formed center whose items lack exactly that key |
| Centers.DropItems | src/registry/registry.py:48 | the items left after dropping a position are those before it followed by those after it |
| Centers.PutKeepsPositions | src/registry/registry.py:40 | overwriting keeps every item in its position and changes only that key's value; a new key is appended as the last item |
| Centers.RemoveDropsOneItem | src/registry/registry.py:48 | deleting a present key drops exactly the one item holding it; the other items keep their values and relative order |
| Centers.NoItemsIsEmpty | src/registry/registry.py:93 | a center without items is the empty center, which is what `not cls._center` detects |
| Centers.FirstMatch | src/registry/registry.py:79-83 | the scan returns `None` exactly when no item satisfies the predicate, and otherwise the key of a satisfying item |
| Centers.FindFirst | src/registry/registry.py:79-83 | the early-return loop over `center.items()` computes `FirstMatch` |
| Centers.FirstMatchAt | src/registry/registry.py:79-81 | if item `i` is the first satisfying item, the scan returns item `i`'s key |
| Centers.FirstIndex | src/registry/registry.py:79-81 | any satisfying item has a first satisfying item at or before it |
| Centers.FoundKeyIsPresent | src/registry/registry.py:79-81 | a key the scan returns is registered in the center |
| Centers.QueryResultMatches | src/registry/registry.py:76-81 | a keyword query returns only a key whose metadata holds every queried pair |
| Centers.Superset | src/registry/registry.py:76-77 | `query.items() <= meta.items()`: an empty query holds of any metadata, metadata holds itself, and a holding query names only fields the metadata has |
| Centers.Matcher | src/registry/subclass_registry.py:49-50 | `fn or (lambda …)`: a given predicate is used as is; without one the test is `Superset` against the query, which the query itself passes |
| Centers.SupersetIffFieldsAgree | src/registry/registry.py:76-77 | `query.items() <= meta.items()` holds exactly when every queried name is in the metadata with an equal value |
| Centers.EmptyQueryFindsFirst | src/registry/registry.py:76-83 | a query with no keywords returns the first registered key, or `None` on an empty center |
| Centers.QueryFindsSuperset | src/registry/registry.py:76-83 | if some item's metadata holds every queried pair, the query returns a key at or before that item |
| Centers.Dict.constructor | src/registry/registry.py:94 | `dict()` starts empty |
| Centers.Dict.SetItem | src/registry/registry.py:40 | `d[k] = v` replaces the contents by their `Put` |
| Centers.Dict.DelItem | src/registry/registry.py:48 | `del d[k]` removes a present key, or raises `KeyError` and leaves the dict unchanged |
| Centers.Dict.GetItem | src/registry/registry.py:88 | `d[k]` returns the stored value or raises `KeyError` |
| Centers.Dict.Contains | src/registry/registry.py:53 | `k in d` is key membership |
| ClassGraph.Extend | src/registry/subclass_registry.py:21 | defining a class appends its bases; earlier classes keep theirs and the graph stays acyclic |
| ClassGraph.DerivesRegistry | src/registry/subclass_registry.py:77 | `issubclass(c, SubclassRegistry)`: holds of `SubclassRegistry` itself, and any other class it holds of has at least one base |
| ClassGraph.FirstRegistryBase | src/registry/__init__.py:87-93 | `_base_of`: `None` exactly when no base is a `SubclassRegistry` subtype, otherwise a base that is one |
| ClassGraph.FirstRegistryBaseAt | src/registry/__init__.py:89-91 | the loop returns the first base, in declaration order, that is a `SubclassRegistry` subtype |
| ClassGraph.RegistryClassHasRegistryBase | src/registry/__init__.py:87-93 | every registry class other than `SubclassRegistry` has a registry-typed base, so the hook always finds one |
| ClassGraph.DerivesRegistryStable | src/registry/subclass_registry.py:77 | defining more classes does not change whether an existing class is a `SubclassRegistry` subtype |
| ClassGraph.FirstRegistryBaseStable | src/registry/__init__.py:87-93 | defining more classes does not change the first registry-typed base of existing bases |
| InheritanceRegistry.Owner | src/registry/subclass_registry.py:71-80 | `_base_that_directly_derive_registry`: the owner is an earlier registry class other than `SubclassRegistry` |
| InheritanceRegistry.OwnerAmong | src/registry/subclass_registry.py:73-80 | the scan over the bases yields a registry class other than `SubclassRegistry`, defined before the class |
| InheritanceRegistry.Lineage | src/registry/subclass_registry.py:78 | the chain of first registry-typed bases starts at the class itself |
| InheritanceRegistry.OwnerAmongByFirstRegistryBase | src/registry/subclass_registry.py:73-80 | the scan skips non-registry bases and decides at the first registry-typed base: `None` if it is `SubclassRegistry`, else that base's owner, or the base itself when it has none |
| InheritanceRegistry.OwnerByFirstRegistryBase | src/registry/subclass_registry.py:71-80 | the same characterisation for a class's own bases |
| InheritanceRegistry.RootHasNoOwner | src/registry/subclass_registry.py:74-75 | a class whose first registry-typed base is `SubclassRegistry` has no owner and is not registered |
| InheritanceRegistry.GrandchildSharesOwner | src/registry/subclass_registry.py:78 | a class resolves to the same owner as its first registry-typed parent when that parent has one |
| InheritanceRegistry.OwnerIsRoot | src/registry/subclass_registry.py:78 | an owner is a registry root and has no owner itself, so owners are never registered |
| InheritanceRegistry.LineageEndsAtSentinel | src/registry/subclass_registry.py:77-78 | the lineage of a registry class ends at `SubclassRegistry` |
| InheritanceRegistry.OwnerIsTopOfLineage | src/registry/subclass_registry.py:71-80 | the owner is the last class of the lineage before `SubclassRegistry`, or none when the lineage is shorter than three |
| InheritanceRegistry.OwnerStable | src/registry/subclass_registry.py:71-80 | defining more classes does not change the owner of an existing class |
| InheritanceRegistry.FiledStable | src/registry/subclass_registry.py:21-25 | a center whose classes all resolve to its owner keeps that property when more classes are defined |
| InheritanceRegistry.AllFiledStable | src/registry/subclass_registry.py:21-25 | defining more classes keeps every center holding only classes its owner owns |
| InheritanceRegistry.FileClass | src/registry/subclass_registry.py:24-25 | filing a class in its owner's center keeps every center holding only classes its owner owns |
| InheritanceRegistry.Hierarchy.constructor | src/registry/subclass_registry.py:19 | only `SubclassRegistry` exists and no center has been created |
| InheritanceRegistry.Hierarchy.DefineClass | src/registry/subclass_registry.py:21-25 | defining `C`: when `C` has an owner, `C -> metadata` is put into the owner's center and no other center changes; a rejecting metadata class defines nothing; without an owner only the class is added; every center holds only classes it owns |
| InheritanceRegistry.Hierarchy.Center | src/registry/subclass_registry.py:63-69 | `center()` creates an empty center only when there is none, and otherwise returns the existing one with all its items |
| InheritanceRegistry.Hierarchy.Query | src/registry/subclass_registry.py:27-56 | the first class in center order whose metadata satisfies `fn`, or without `fn` holds every queried pair; `None` when nothing matches; the result is registered there |
| InheritanceRegistry.Hierarchy.MetaOf | src/registry/subclass_registry.py:58-61 | the stored metadata, or `KeyError` when the class is not in the center |
| AnnotationRegistry.Registry.constructor | src/registry/registry.py:18 | a new registry has no center (`_center = None`) |
| AnnotationRegistry.Registry.Center | src/registry/registry.py:90-95 | `center()` returns a fresh dict when there is none or the current one is empty, and the same dict otherwise; it never adds or removes items |
| AnnotationRegistry.Registry.Register | src/registry/registry.py:20-43 | the decorator puts `item -> meta_cls(**meta)` into the center and returns the item, or `default_return` when `return_annotated` is false; a rejecting metadata class changes nothing; a missing or empty center dict is replaced by a fresh one, a non-empty one stays the same object, and a replaced dict keeps its contents |
| AnnotationRegistry.Registry.Unregister | src/registry/registry.py:45-48 | removes exactly the item, or raises `KeyError` on an absent item and leaves the items as they were; a missing or empty center dict is replaced by a fresh one, a non-empty one stays the same object, and a replaced dict keeps its contents |
| AnnotationRegistry.Registry.Registered | src/registry/registry.py:50-53 | true exactly when the item is in the center; the items do not change; a missing or empty center dict is replaced by a fresh one, a non-empty one stays the same object, and a replaced dict keeps its contents |
| AnnotationRegistry.Registry.MetaOf | src/registry/registry.py:85-88 | the stored metadata, or `KeyError`; the items do not change; a missing or empty center dict is replaced by a fresh one, a non-empty one stays the same object, and a replaced dict keeps its contents |
| AnnotationRegistry.Registry.Query | src/registry/registry.py:55-83 | the first item in center order whose metadata satisfies `fn`, or without `fn` holds every queried pair; `None` when nothing matches; any result is registered; a missing or empty center dict is replaced by a fresh one, a non-empty one stays the same object, and a replaced dict keeps its contents |
| LegacyRegistry.Registry.constructor | src/registry/__init__.py:20 | a new registry has no center |
| LegacyRegistry.Registry.Center | src/registry/__init__.py:51-55 | a fresh dict when there is none or the current one is empty, the same dict otherwise; it never adds or removes items |
| LegacyRegistry.Registry.Register | src/registry/__init__.py:22-28 | the decorator puts `item -> meta` (the keyword dict itself) into the center and returns the item, or `default_return` when `return_class` is false; a missing or empty center dict is replaced by a fresh one, a non-empty one stays the same object, and a replaced dict keeps its contents |
| LegacyRegistry.Registry.Unregister | src/registry/__init__.py:30-32 | removes exactly the item, or raises `KeyError` on an absent item; a missing or empty center dict is replaced by a fresh one, a non-empty one stays the same object, and a replaced dict keeps its contents |
| LegacyRegistry.Registry.Registered | src/registry/__init__.py:34-36 | true exactly when the item is in the center; a missing or empty center dict is replaced by a fresh one, a non-empty one stays the same object, and a replaced dict keeps its contents |
| LegacyRegistry.Registry.MetaOf | src/registry/__init__.py:47-49 | the stored metadata, or `KeyError`; a missing or empty center dict is replaced by a fresh one, a non-empty one stays the same object, and a replaced dict keeps its contents |
| LegacyRegistry.Registry.Query | src/registry/__init__.py:38-45 | the first item whose metadata holds every queried pair, or `None`; there is no predicate option; a missing or empty center dict is replaced by a fresh one, a non-empty one stays the same object, and a replaced dict keeps its contents |
| LegacyRegistry.Owner | src/registry/__init__.py:61-64 | the hook calls `center()` on the class's first registry-typed base, and on nothing when that base is `SubclassRegistry` |
| LegacyRegistry.AgreeBelowRoot | src/registry/__init__.py:87-93 | for a child of a registry root, the earlier and the current generation call `center()` on the same class, the root |
| LegacyRegistry.DisagreeBelowSecondLevel | src/registry/__init__.py:87-93 | below the second level `_base_of` returns the parent while the current resolution returns the parent's owner, and the two classes differ |
| LegacyRegistry.OwnerIsParentInLineage | src/registry/__init__.py:87-93 | the earlier owner is the class one step up the lineage, unless that is `SubclassRegistry` |
| LegacyRegistry.FiledStable | src/registry/__init__.py:61-64 | a center whose classes all resolve to its owner keeps that property when more classes are defined |
| LegacyRegistry.AllFiledStable | src/registry/__init__.py:61-64 | defining more classes keeps every center holding only classes its owner owns |
| LegacyRegistry.FileClass | src/registry/__init__.py:63-64 | filing a class in its owner's center keeps every center holding only classes its owner owns |
| LegacyRegistry.Hierarchy.constructor | src/registry/__init__.py:59 | only `SubclassRegistry` exists and no center has been created |
| LegacyRegistry.Hierarchy.DefineClass | src/registry/__init__.py:61-64 | defining `C` puts `C -> meta` into the own center of the class `_base_of(C)` returns, when that is not `SubclassRegistry`, and changes no other center |
| LegacyRegistry.Hierarchy.Center | src/registry/__init__.py:80-85 | creates an empty center only when there is none |
| LegacyRegistry.Hierarchy.Query | src/registry/__init__.py:66-74 | first match by `fn`, or by a superset of the query without `fn`; `None` when nothing matches |
| LegacyRegistry.Hierarchy.MetaOf | src/registry/__init__.py:76-78 | the stored metadata, or `KeyError` |
| Scenarios.DecoratedTools | tests/test_registery.py:5-32 | `ToolOne` is kept and `ToolTwo` is bound to `None`; queries by name find both, and `ToolOne`'s metadata is `dict(name='one', limit=9)` |
| Scenarios.ToolOwners | tests/test_registery.py:35-45 | `FakeTool` has no owner, and `ToolOne` and `ToolTwo` are owned by `FakeTool` |
| Scenarios.DefineTools | tests/test_registery.py:35-45 | after the three class statements, `FakeTool`'s center holds `ToolOne` then `ToolTwo` with their keyword metadata |
| Scenarios.DefineFakeTool | tests/test_registery.py:36-39 | defining `FakeTool` creates no center |
| Scenarios.DefineToolOne | tests/test_registery.py:41-42 | defining `ToolOne` creates `FakeTool`'s center holding only `ToolOne` |
| Scenarios.DefineToolTwo | tests/test_registery.py:44-45 | defining `ToolTwo` appends it after `ToolOne` |
| Scenarios.SubclassedTools | tests/test_registery.py:47-60 | queries by name find `ToolOne` and `ToolTwo`, and `ToolOne`'s metadata is `dict(name='one', limit=9)` |
| Scenarios.Lookups | tests/test_registery.py:47-52 | over two items with those metadata, `name='one'` finds the first and `name='two'` the second |

## Left out

- Package version lookup through `importlib.metadata` (src/registry/__init__.py:5-14) is environment I/O.
- Resolving the metadata class by typing reflection (`_meta_cls`, `_generic_args`, `_orig_base_that_derive_register`) is left out. The metadata class is a `MetaShape` given to each registry or class. The dataclass `__dict__` fallback of `query` is covered by representing any metadata as its field map.
- `src/registry/types.py` holds only type variables and a typing protocol, and has no behaviour.
- Python class-attribute inheritance of `_center` is left out.
  - In Python, a class without its own `_center` sees an ancestor's dict, so an intermediate class's `center()` can return its ancestor's center.
  - The model keeps one explicit center per class.
- LegacyRegistry.Hierarchy.DefineClass: files a class below the second level in its parent's own center. In the source, the parent usually has no `_center` of its own, so `parent.center()` (src/registry/__init__.py:64, 82-85) returns the root's dict, and the entry ends up there, as in the current generation. A query on the root then finds such a class in both generations; in the model only the parent's center holds it.
- The `__init_subclass__` mechanism is replaced by an explicit `DefineClass` call.
  - The class's metaclass, MRO consistency and hashability are not modelled.
  - A class that does not derive `SubclassRegistry` is just added to the arena, with no owner.
- InheritanceRegistry.Hierarchy.Center: returns the center as a value, not a live dict. Callers that mutate the returned dict are not modelled, and neither are the entries it might alias.
- LegacyRegistry.Hierarchy.Center: returns the center as a value, not the live `_center` dict that `center()` returns (src/registry/__init__.py:80-85). Callers that mutate the returned dict are not modelled.
- Centers.Construct: metadata is a value. The identity of the metadata object is not modelled: `dict(**meta)` (src/registry/registry.py:40) builds a new dict on every application of the decorator, which the model does not distinguish from the keywords themselves.
- LegacyRegistry.Registry.Register: stores the metadata as a value. In the source every item one decorator is applied to stores the same `meta` dict object (src/registry/__init__.py:25), so mutating one item's metadata changes the others'; that aliasing is not modelled.
- LegacyRegistry.Registry.MetaOf: returns the metadata as a value, not the live dict, so a caller's mutation of it is not modelled.
- AnnotationRegistry.Registry.MetaOf: returns the metadata as a value, not the live object stored in the center.
- InheritanceRegistry.Hierarchy.MetaOf: returns the metadata as a value, not the live object stored in the center.
- LegacyRegistry.Hierarchy.MetaOf: returns the metadata as a value, not the live dict stored in the center.
- AnnotationRegistry.Registry.Register: `default_return` may be any object (src/registry/registry.py:21); the model narrows it to `Option<K>`, an item of the registry's key type or `None`.
- LegacyRegistry.Registry.Register: narrows `default_return` (src/registry/__init__.py:23) to `Option<K>` in the same way.
- Metadata values are `None`, booleans, integers and strings, compared structurally. Python's cross-type equalities such as `1 == True` are not modelled.
- A predicate `fn` is a total Dafny function. A predicate that raises, or that is falsy as an object (so that `fn or ...` falls back to the keyword query), is not modelled.
- The earlier `SubclassRegistry` would fail with an attribute error if `_base_of` found no registry base. The hook never runs for such a class, so the model does not include that path.
