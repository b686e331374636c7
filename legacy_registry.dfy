/**
 * The earlier `Registry` and `SubclassRegistry` of src/registry/__init__.py.
 *
 * The annotation registry stores the keyword dict itself (there is no
 * metadata class, so registering never fails) and its `query` has no
 * predicate option. The inheritance registry's hook calls `center()` on the
 * new class's first registry-typed base (`_base_of`), where the current
 * generation calls it on the root of the lineage. The model gives every class
 * a center of its own, so the entry goes into that base's own center; in
 * Python `_center` is an inherited class attribute, and a base below the
 * second level hands out its ancestor's dict once that ancestor has one.
 */
module LegacyRegistry {
  import opened Centers
  import opened ClassGraph
  import InheritanceRegistry

  /* ---------------------------------------------------------------------- */
  /* Annotation registry                                                    */
  /* ---------------------------------------------------------------------- */

  class Registry<K(==)> {
    /** `cls._center`, `None` (null) until `center()` first runs. */
    var store: Dict?<K, Meta>

    ghost predicate Valid()
      reads this, store
    {
      store != null ==> store.Valid()
    }

    /** The items `center()` would show. */
    function Entries(): Center<K, Meta>
      reads this, store
    {
      if store == null then Empty() else store.contents
    }

    constructor ()
      ensures Valid() && store == null
    {
      store := null;
    }

    /** `cls.center()`: a fresh dict when there is none or the current one is
        empty (`not cls._center`), otherwise the current dict itself. */
    method Center() returns (d: Dict<K, Meta>)
      requires Valid()
      modifies this
      ensures Valid() && store == d && d.contents == old(Entries())
      ensures store == old(store) || fresh(store)
      ensures old(store) != null && old(store.contents.items) != map[] ==> store == old(store)
      ensures old(store) != null && store != old(store) ==> old(store).contents == old(store.contents)
      ensures old(store) == null || old(store.contents.items) == map[] ==> fresh(d)
      ensures old(store) != null && old(store.contents.items) != map[] ==> d == old(store)
    {
      if store == null || store.contents.items == map[] {
        if store != null {
          NoItemsIsEmpty(store.contents);
        }
        store := new Dict();
      }
      d := store;
    }

    /** `cls.register(return_class, default_return, **meta)(item)`: stores the
        keyword dict itself as `item`'s metadata and returns `item`, or
        `default_return` when `return_class` is false. */
    method Register(item: K, returnClass: bool, defaultReturn: Option<K>, meta: Meta) returns (r: Option<K>)
      requires Valid()
      modifies this, store
      ensures Valid() && (store == old(store) || fresh(store))
      ensures old(store) != null && old(store.contents.items) != map[] ==> store == old(store)
      ensures old(store) == null || old(store.contents.items) == map[] ==> fresh(store)
      ensures old(store) != null && store != old(store) ==> old(store).contents == old(store.contents)
      ensures r == if returnClass then Some(item) else defaultReturn
      ensures Entries() == old(Entries()).Put(item, meta)
    {
      var d := Center();
      d.SetItem(item, meta);
      r := if returnClass then Some(item) else defaultReturn;
    }

    /** `cls.unregister(item)`: removes exactly `item`, or raises `KeyError`. */
    method Unregister(item: K) returns (o: Outcome)
      requires Valid()
      modifies this, store
      ensures Valid() && (store == old(store) || fresh(store))
      ensures old(store) != null && old(store.contents.items) != map[] ==> store == old(store)
      ensures old(store) == null || old(store.contents.items) == map[] ==> fresh(store)
      ensures old(store) != null && store != old(store) ==> old(store).contents == old(store.contents)
      ensures item in old(Entries().items) ==> o == Pass && Entries() == old(Entries()).Remove(item)
      ensures item !in old(Entries().items) ==> o == Fail(KeyError) && Entries() == old(Entries())
    {
      var d := Center();
      o := d.DelItem(item);
    }

    /** `cls.registered(item)` */
    method Registered(item: K) returns (b: bool)
      requires Valid()
      modifies this
      ensures Valid() && Entries() == old(Entries())
      ensures store == old(store) || fresh(store)
      ensures old(store) != null && old(store.contents.items) != map[] ==> store == old(store)
      ensures old(store) == null || old(store.contents.items) == map[] ==> fresh(store)
      ensures old(store) != null && store != old(store) ==> old(store).contents == old(store.contents)
      ensures b <==> item in old(Entries().items)
    {
      var d := Center();
      b := d.Contains(item);
    }

    /** `cls.meta_of(item)`: the stored metadata, or `KeyError`. */
    method MetaOf(item: K) returns (r: Result<Meta>)
      requires Valid()
      modifies this
      ensures Valid() && Entries() == old(Entries())
      ensures store == old(store) || fresh(store)
      ensures old(store) != null && old(store.contents.items) != map[] ==> store == old(store)
      ensures old(store) == null || old(store.contents.items) == map[] ==> fresh(store)
      ensures old(store) != null && store != old(store) ==> old(store).contents == old(store.contents)
      ensures item !in old(Entries().items) ==> r == Failure(KeyError)
      ensures item in old(Entries().items) ==> r == Success(old(Entries().items[item]))
    {
      var d := Center();
      r := d.GetItem(item);
    }

    /** `cls.query(**query)`: the first item whose metadata holds every
        queried pair, or `None`. */
    method Query(query: Meta) returns (r: Option<K>)
      requires Valid()
      modifies this
      ensures Valid() && Entries() == old(Entries())
      ensures store == old(store) || fresh(store)
      ensures old(store) != null && old(store.contents.items) != map[] ==> store == old(store)
      ensures old(store) == null || old(store.contents.items) == map[] ==> fresh(store)
      ensures old(store) != null && store != old(store) ==> old(store).contents == old(store.contents)
      ensures r == FirstMatch(old(Entries()).Items(), Matcher(None, query))
      ensures r.Some? ==> r.value in old(Entries().items) && Superset(old(Entries().items[r.value]), query)
    {
      var d := Center();
      FoundKeyIsPresent(d.contents, Matcher(None, query));
      QueryResultMatches(d.contents, query);
      r := FindFirst(d.contents.Items(), Matcher(None, query));
    }
  }

  /* ---------------------------------------------------------------------- */
  /* Inheritance registry                                                   */
  /* ---------------------------------------------------------------------- */

  /** `SubclassRegistry._base_of(cls)` as used by the hook: the first
      registry-typed base, unless that is `SubclassRegistry` itself. */
  function Owner(t: Table, c: ClassId): (r: Option<ClassId>)
    requires WellFormed(t) && c < |t|
    ensures r.Some? ==> r.value < c && r.value != Sentinel && DerivesRegistry(t, r.value)
    ensures r.Some? ==> FirstRegistryBase(t, t[c]) == r
    ensures r.None? ==> FirstRegistryBase(t, t[c]) in {None, Some(Sentinel)}
  {
    match FirstRegistryBase(t, t[c])
    case None => None
    case Some(p) => if p == Sentinel then None else Some(p)
  }

  /** The two generations agree on the children of a registry root: both
      resolve such a class to that root, whose `center()` is called. */
  lemma AgreeBelowRoot(t: Table, c: ClassId)
    requires WellFormed(t) && c < |t|
    requires FirstRegistryBase(t, t[c]).Some?
    requires var p := FirstRegistryBase(t, t[c]).value; p < |t| && FirstRegistryBase(t, t[p]) == Some(Sentinel)
    ensures Owner(t, c) == InheritanceRegistry.Owner(t, c)
  {
    var p := FirstRegistryBase(t, t[c]).value;
    InheritanceRegistry.OwnerByFirstRegistryBase(t, c);
    InheritanceRegistry.RootHasNoOwner(t, p);
  }

  /** Below the second level the two owner functions part: `_base_of`
      returns the parent, the current resolution the parent's owner. They
      differ in whose `center()` is called; which dict that call yields
      depends on the inheritance of `_center`, which the model leaves out. */
  lemma DisagreeBelowSecondLevel(t: Table, c: ClassId)
    requires WellFormed(t) && c < |t|
    requires FirstRegistryBase(t, t[c]).Some?
    requires var p := FirstRegistryBase(t, t[c]).value; p < |t| && InheritanceRegistry.Owner(t, p).Some?
    ensures Owner(t, c) == FirstRegistryBase(t, t[c])
    ensures InheritanceRegistry.Owner(t, c) == InheritanceRegistry.Owner(t, FirstRegistryBase(t, t[c]).value)
    ensures Owner(t, c) != InheritanceRegistry.Owner(t, c)
  {
    InheritanceRegistry.OwnerByFirstRegistryBase(t, c);
  }

  /** The earlier owner is the class one step up the lineage, when that class
      is not `SubclassRegistry`. */
  lemma OwnerIsParentInLineage(t: Table, c: ClassId)
    requires WellFormed(t) && c < |t|
    ensures var l := InheritanceRegistry.Lineage(t, c);
      Owner(t, c) == if |l| >= 2 && l[1] != Sentinel then Some(l[1]) else None
  {
  }

  /* The filing invariant below has the same shape as the one in
     InheritanceRegistry but is stated over this generation's `Owner`. The
     owner policy is not a parameter because it is a partial function of the
     table (it requires `WellFormed(t)`), and passing it as an argument would
     drag that precondition into every quantifier. */

  /** Every class filed in center `ce` is defined and has `o` as its owner. */
  ghost predicate Filed(t: Table, ce: Center<ClassId, Meta>, o: ClassId)
    requires WellFormed(t)
  {
    ce.Valid() && forall k :: k in ce.items ==> k < |t| && Owner(t, k) == Some(o)
  }

  lemma FiledStable(t: Table, t': Table, ce: Center<ClassId, Meta>, o: ClassId)
    requires WellFormed(t) && WellFormed(t') && t <= t' && Filed(t, ce, o)
    ensures Filed(t', ce, o)
  {
    forall k | k in ce.items
      ensures Owner(t', k) == Some(o)
    {
      assert t'[k] == t[k];
      FirstRegistryBaseStable(t, t', t[k]);
    }
  }

  /** Every center belongs to a defined class and holds only classes that
      class owns. */
  ghost predicate AllFiled(t: Table, cs: map<ClassId, Center<ClassId, Meta>>)
    requires WellFormed(t)
  {
    forall o :: o in cs ==> o < |t| && Filed(t, cs[o], o)
  }

  lemma AllFiledStable(t: Table, t': Table, cs: map<ClassId, Center<ClassId, Meta>>)
    requires WellFormed(t) && WellFormed(t') && t <= t' && AllFiled(t, cs)
    ensures AllFiled(t', cs)
  {
    forall o | o in cs
      ensures Filed(t', cs[o], o)
    {
      FiledStable(t, t', cs[o], o);
    }
  }

  /** Filing class `c` in the center of its owner `o` keeps every center filed. */
  lemma FileClass(t: Table, cs: map<ClassId, Center<ClassId, Meta>>, o: ClassId, c: ClassId, m: Meta)
    requires WellFormed(t) && AllFiled(t, cs)
    requires o < |t| && c < |t| && Owner(t, c) == Some(o)
    ensures AllFiled(t, cs[o := (if o in cs then cs[o] else Empty()).Put(c, m)])
  {
    var ce := if o in cs then cs[o] else Empty();
    FiledPut(t, ce, o, c, m);
    ReplaceFiled(t, cs, o, ce.Put(c, m));
  }

  lemma FiledPut(t: Table, ce: Center<ClassId, Meta>, o: ClassId, c: ClassId, m: Meta)
    requires WellFormed(t) && Filed(t, ce, o)
    requires c < |t| && Owner(t, c) == Some(o)
    ensures Filed(t, ce.Put(c, m), o)
  {
    var ce' := ce.Put(c, m);
    forall k | k in ce'.items
      ensures k < |t| && Owner(t, k) == Some(o)
    {
      if k != c {
        assert k in ce.items;
      }
    }
  }

  lemma ReplaceFiled(t: Table, cs: map<ClassId, Center<ClassId, Meta>>, o: ClassId, ce: Center<ClassId, Meta>)
    requires WellFormed(t) && AllFiled(t, cs)
    requires o < |t| && Filed(t, ce, o)
    ensures AllFiled(t, cs[o := ce])
  {
    var cs' := cs[o := ce];
    forall o' | o' in cs'
      ensures o' < |t| && Filed(t, cs'[o'], o')
    {
      if o' != o {
        assert cs'[o'] == cs[o'];
      }
    }
  }

  /** Every class defined so far under the earlier `SubclassRegistry`
      (class 0), and the `_center` of each class whose center exists. */
  class Hierarchy {
    var bases: Table
    var centers: map<ClassId, Center<ClassId, Meta>>

    ghost predicate Valid()
      reads this
    {
      && WellFormed(bases)
      && AllFiled(bases, centers)
    }

    /** The center of class `o` as `center()` would return it. */
    function CenterOf(o: ClassId): Center<ClassId, Meta>
      reads this
    {
      if o in centers then centers[o] else Empty()
    }

    constructor ()
      ensures Valid() && bases == [[]] && centers == map[]
    {
      bases := [[]];
      centers := map[];
    }

    /** `class C(*bs, **meta)`: `__init_subclass__` files `C` with the keyword
        dict under its owner, if it has one. */
    method DefineClass(bs: seq<ClassId>, meta: Meta) returns (c: ClassId)
      requires Valid() && Defined(bases, bs)
      modifies this
      ensures Valid()
      ensures c == old(|bases|) && bases == Extend(old(bases), bs)
      ensures Owner(bases, c).None? ==> centers == old(centers)
      ensures Owner(bases, c).Some? ==>
        var o := Owner(bases, c).value;
        && c !in old(CenterOf(o)).items
        && centers == old(centers)[o := old(CenterOf(o)).Put(c, meta)]
    {
      c := |bases|;
      var t := Extend(bases, bs);
      var owner := Owner(t, c);
      assert owner.Some? ==> c !in CenterOf(owner.value).items;
      AllFiledStable(bases, t, centers);
      bases := t;
      if owner.Some? {
        var o := owner.value;
        FileClass(t, centers, o, c, meta);
        centers := centers[o := CenterOf(o).Put(c, meta)];
      }
    }

    /** `cls.center()`: created only when there is none (`is None`). */
    method Center(cls: ClassId) returns (ce: Center<ClassId, Meta>)
      requires Valid() && cls < |bases|
      modifies this
      ensures Valid() && bases == old(bases)
      ensures ce == old(CenterOf(cls)) && centers == old(centers)[cls := ce]
      ensures cls in old(centers) ==> centers == old(centers)
    {
      if cls !in centers {
        centers := centers[cls := Empty()];
      }
      ce := centers[cls];
    }

    /** `cls.query(fn=fn, **query)` */
    method Query(cls: ClassId, fn: Option<Meta -> bool>, query: Meta) returns (r: Option<ClassId>)
      requires Valid() && cls < |bases|
      modifies this
      ensures Valid() && bases == old(bases)
      ensures centers == old(centers)[cls := old(CenterOf(cls))]
      ensures r == FirstMatch(old(CenterOf(cls)).Items(), Matcher(fn, query))
      ensures r.Some? ==> r.value in old(CenterOf(cls)).items
      ensures fn.None? && r.Some? ==> Superset(old(CenterOf(cls)).items[r.value], query)
    {
      var ce := Center(cls);
      FoundKeyIsPresent(ce, Matcher(fn, query));
      QueryResultMatches(ce, query);
      r := FindFirst(ce.Items(), Matcher(fn, query));
    }

    /** `cls.meta_of(subclass)`: the stored metadata, or `KeyError`. */
    method MetaOf(cls: ClassId, subclass: ClassId) returns (r: Result<Meta>)
      requires Valid() && cls < |bases|
      modifies this
      ensures Valid() && bases == old(bases)
      ensures centers == old(centers)[cls := old(CenterOf(cls))]
      ensures subclass !in old(CenterOf(cls)).items ==> r == Failure(KeyError)
      ensures subclass in old(CenterOf(cls)).items ==> r == Success(old(CenterOf(cls)).items[subclass])
    {
      var ce := Center(cls);
      if subclass in ce.items {
        r := Success(ce.items[subclass]);
      } else {
        r := Failure(KeyError);
      }
    }
  }
}
