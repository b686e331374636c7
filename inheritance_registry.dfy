/**
 * `SubclassRegistry` (src/registry/subclass_registry.py): a class registers
 * itself by deriving, directly or transitively, from a registry class. When
 * a class is defined, its `__init_subclass__` hook resolves the owning
 * registry, the root class of its lineage (the class whose own registry base
 * is `SubclassRegistry`), and files the class with its keyword metadata in
 * the owner's center.
 *
 * Class definition is an explicit `DefineClass` call on a `Hierarchy`, the
 * arena of every class defined so far.
 */
module InheritanceRegistry {
  import opened Centers
  import opened ClassGraph

  /* ---------------------------------------------------------------------- */
  /* Owner resolution: `_base_that_directly_derive_registry`                 */
  /* ---------------------------------------------------------------------- */

  /** `c._base_that_directly_derive_registry()`: the owning registry of `c`,
      or `None` when `c` has none. */
  function Owner(t: Table, c: ClassId): (r: Option<ClassId>)
    requires WellFormed(t) && c < |t|
    ensures r.Some? ==> r.value < c && r.value != Sentinel && DerivesRegistry(t, r.value)
    decreases c, 1
  {
    OwnerAmong(t, t[c], c)
  }

  /** The loop of `_base_that_directly_derive_registry` over the bases `bs`,
      all of which are defined before class `bound`: the first base that is
      `SubclassRegistry` ends the search with `None`; the first other
      registry-typed base yields its own owner, or itself when it has none. */
  function OwnerAmong(t: Table, bs: seq<ClassId>, bound: nat): (r: Option<ClassId>)
    requires WellFormed(t) && bound <= |t|
    requires forall i :: 0 <= i < |bs| ==> bs[i] < bound
    ensures r.Some? ==> r.value < bound && r.value != Sentinel && DerivesRegistry(t, r.value)
    decreases bound, 0, |bs|
  {
    if bs == [] then None
    else if bs[0] == Sentinel then None
    else if DerivesRegistry(t, bs[0]) then
      match Owner(t, bs[0])
      case Some(o) => Some(o)
      case None => Some(bs[0])
    else OwnerAmong(t, bs[1..], bound)
  }

  /** The chain of first registry-typed bases from `c` upward: `c`, its first
      registry-typed base, that class's first registry-typed base, and so on. */
  function Lineage(t: Table, c: ClassId): (l: seq<ClassId>)
    requires WellFormed(t) && c < |t|
    ensures |l| >= 1 && l[0] == c
    decreases c
  {
    match FirstRegistryBase(t, t[c])
    case None => [c]
    case Some(p) => [c] + Lineage(t, p)
  }

  /** Owner resolution looks only at the first registry-typed base `p`: if it
      is `SubclassRegistry` there is no owner, otherwise the owner is `p`'s
      owner, or `p` itself when `p` has none. Non-registry bases are skipped. */
  lemma {:induction false} OwnerAmongByFirstRegistryBase(t: Table, bs: seq<ClassId>, bound: nat)
    requires WellFormed(t) && bound <= |t|
    requires forall i :: 0 <= i < |bs| ==> bs[i] < bound
    ensures Defined(t, bs)
    ensures OwnerAmong(t, bs, bound) ==
      match FirstRegistryBase(t, bs)
      case None => None
      case Some(p) => if p == Sentinel then None else Some(Owner(t, p).GetOr(p))
  {
    if bs != [] && bs[0] != Sentinel && !DerivesRegistry(t, bs[0]) {
      OwnerAmongByFirstRegistryBase(t, bs[1..], bound);
    }
  }

  lemma OwnerByFirstRegistryBase(t: Table, c: ClassId)
    requires WellFormed(t) && c < |t|
    ensures Owner(t, c) ==
      match FirstRegistryBase(t, t[c])
      case None => None
      case Some(p) => if p == Sentinel then None else Some(Owner(t, p).GetOr(p))
  {
    OwnerAmongByFirstRegistryBase(t, t[c], c);
  }

  /** A class whose first registry-typed base is `SubclassRegistry` itself
      (a registry root) has no owner and is not registered. */
  lemma RootHasNoOwner(t: Table, c: ClassId)
    requires WellFormed(t) && c < |t|
    requires FirstRegistryBase(t, t[c]) == Some(Sentinel)
    ensures Owner(t, c) == None
  {
    OwnerByFirstRegistryBase(t, c);
  }

  /** A grandchild resolves to the same owner as its parent. */
  lemma GrandchildSharesOwner(t: Table, c: ClassId, p: ClassId)
    requires WellFormed(t) && c < |t|
    requires FirstRegistryBase(t, t[c]) == Some(p) && p < |t| && Owner(t, p).Some?
    ensures Owner(t, c) == Owner(t, p)
  {
    OwnerByFirstRegistryBase(t, c);
  }

  /** The owner is a registry root: its first registry-typed base is
      `SubclassRegistry`, and it resolves to no owner itself, so an owner is
      never registered anywhere. */
  lemma {:induction false} OwnerIsRoot(t: Table, c: ClassId)
    requires WellFormed(t) && c < |t| && Owner(t, c).Some?
    ensures FirstRegistryBase(t, t[Owner(t, c).value]) == Some(Sentinel)
    ensures Owner(t, Owner(t, c).value) == None
    decreases c
  {
    OwnerByFirstRegistryBase(t, c);
    var p := FirstRegistryBase(t, t[c]).value;
    if Owner(t, p).Some? {
      OwnerIsRoot(t, p);
    } else {
      RegistryClassHasRegistryBase(t, p);
      OwnerByFirstRegistryBase(t, p);
    }
  }

  /** The lineage of a registry class ends at `SubclassRegistry`. */
  lemma {:induction false} LineageEndsAtSentinel(t: Table, c: ClassId)
    requires WellFormed(t) && c < |t| && DerivesRegistry(t, c)
    ensures Lineage(t, c)[|Lineage(t, c)| - 1] == Sentinel
    decreases c
  {
    if c != Sentinel {
      RegistryClassHasRegistryBase(t, c);
      LineageEndsAtSentinel(t, FirstRegistryBase(t, t[c]).value);
    }
  }

  /** The owner is the last class of the lineage before `SubclassRegistry`:
      the walk goes all the way up to the root, not to the nearest registry. */
  lemma {:induction false} OwnerIsTopOfLineage(t: Table, c: ClassId)
    requires WellFormed(t) && c < |t|
    ensures var l := Lineage(t, c);
      Owner(t, c) == if |l| >= 3 then Some(l[|l| - 2]) else None
    decreases c
  {
    OwnerByFirstRegistryBase(t, c);
    match FirstRegistryBase(t, t[c])
    case None =>
    case Some(p) =>
      if p != Sentinel {
        RegistryClassHasRegistryBase(t, p);
        OwnerIsTopOfLineage(t, p);
      }
  }

  /** Defining more classes does not change the owner of an existing class. */
  lemma {:induction false} OwnerStable(t: Table, t': Table, c: ClassId)
    requires WellFormed(t) && WellFormed(t') && t <= t' && c < |t|
    ensures Owner(t', c) == Owner(t, c)
    decreases c
  {
    assert t'[c] == t[c];
    OwnerByFirstRegistryBase(t, c);
    OwnerByFirstRegistryBase(t', c);
    FirstRegistryBaseStable(t, t', t[c]);
    match FirstRegistryBase(t, t[c])
    case None =>
    case Some(p) =>
      if p != Sentinel {
        OwnerStable(t, t', p);
      }
  }

  /* ---------------------------------------------------------------------- */
  /* The hierarchy of classes and their centers                             */
  /* ---------------------------------------------------------------------- */

  /** Every class filed in center `ce` is defined and has `o` as its owner. */
  ghost predicate Filed(t: Table, ce: Center<ClassId, Meta>, o: ClassId)
    requires WellFormed(t)
  {
    ce.Valid() && forall k :: k in ce.items ==> k < |t| && Owner(t, k) == Some(o)
  }

  lemma FiledStable(t: Table, t': Table, ce: Center<ClassId, Meta>, o: ClassId)
    requires WellFormed(t) && WellFormed(t') && t <= t' && Filed(t, ce, o)
    ensures Filed(t', ce, o)
  {
    forall k | k in ce.items
      ensures Owner(t', k) == Some(o)
    {
      OwnerStable(t, t', k);
    }
  }

  /** Every center belongs to a defined class and holds only classes that
      class owns. */
  ghost predicate AllFiled(t: Table, cs: map<ClassId, Center<ClassId, Meta>>)
    requires WellFormed(t)
  {
    forall o :: o in cs ==> o < |t| && Filed(t, cs[o], o)
  }

  lemma AllFiledStable(t: Table, t': Table, cs: map<ClassId, Center<ClassId, Meta>>)
    requires WellFormed(t) && WellFormed(t') && t <= t' && AllFiled(t, cs)
    ensures AllFiled(t', cs)
  {
    forall o | o in cs
      ensures Filed(t', cs[o], o)
    {
      FiledStable(t, t', cs[o], o);
    }
  }

  /** Filing class `c` in the center of its owner `o` keeps every center filed. */
  lemma FileClass(t: Table, cs: map<ClassId, Center<ClassId, Meta>>, o: ClassId, c: ClassId, m: Meta)
    requires WellFormed(t) && AllFiled(t, cs)
    requires o < |t| && c < |t| && Owner(t, c) == Some(o)
    ensures AllFiled(t, cs[o := (if o in cs then cs[o] else Empty()).Put(c, m)])
  {
    var ce := if o in cs then cs[o] else Empty();
    FiledPut(t, ce, o, c, m);
    ReplaceFiled(t, cs, o, ce.Put(c, m));
  }

  lemma FiledPut(t: Table, ce: Center<ClassId, Meta>, o: ClassId, c: ClassId, m: Meta)
    requires WellFormed(t) && Filed(t, ce, o)
    requires c < |t| && Owner(t, c) == Some(o)
    ensures Filed(t, ce.Put(c, m), o)
  {
    var ce' := ce.Put(c, m);
    forall k | k in ce'.items
      ensures k < |t| && Owner(t, k) == Some(o)
    {
      if k != c {
        assert k in ce.items;
      }
    }
  }

  lemma ReplaceFiled(t: Table, cs: map<ClassId, Center<ClassId, Meta>>, o: ClassId, ce: Center<ClassId, Meta>)
    requires WellFormed(t) && AllFiled(t, cs)
    requires o < |t| && Filed(t, ce, o)
    ensures AllFiled(t, cs[o := ce])
  {
    var cs' := cs[o := ce];
    forall o' | o' in cs'
      ensures o' < |t| && Filed(t, cs'[o'], o')
    {
      if o' != o {
        assert cs'[o'] == cs[o'];
      }
    }
  }

  /**
   * Every class defined so far under `SubclassRegistry` (class 0), the
   * metadata class each declares, and the `_center` of each class whose
   * center exists.
   */
  class Hierarchy {
    var bases: Table
    var shapes: seq<MetaShape>
    var centers: map<ClassId, Center<ClassId, Meta>>

    ghost predicate Valid()
      reads this
    {
      && WellFormed(bases)
      && |shapes| == |bases|
      && AllFiled(bases, centers)
    }

    /** The center of class `o` as `center()` would return it. */
    function CenterOf(o: ClassId): Center<ClassId, Meta>
      reads this
    {
      if o in centers then centers[o] else Empty()
    }

    /** A fresh interpreter in which only `SubclassRegistry` is defined. */
    constructor ()
      ensures Valid() && bases == [[]] && shapes == [PlainDict] && centers == map[]
    {
      bases := [[]];
      shapes := [PlainDict];
      centers := map[];
    }

    /**
     * `class C(*bs, **meta)`, declaring `shape` as its metadata class (the
     * generic argument of `SubclassRegistry[M]`): the class is
     * created, then `__init_subclass__` resolves its owner and, if there is
     * one, files `C` in the owner's center with metadata built by the owner's
     * metadata class. When that metadata class rejects the keywords the class
     * statement fails and nothing is defined.
     */
    method DefineClass(bs: seq<ClassId>, shape: MetaShape, meta: Meta) returns (r: Result<ClassId>)
      requires Valid() && Defined(bases, bs)
      modifies this
      ensures Valid()
      ensures r.Success? ==> r.value == old(|bases|) && bases == Extend(old(bases), bs) && shapes == old(shapes) + [shape]
      ensures r.Failure? ==> r.error == ConstructionError && bases == old(bases) && shapes == old(shapes) && centers == old(centers)
      ensures Owner(Extend(old(bases), bs), old(|bases|)).None? ==> r.Success? && centers == old(centers)
      ensures Owner(Extend(old(bases), bs), old(|bases|)).Some? ==>
        var o := Owner(Extend(old(bases), bs), old(|bases|)).value;
        match Construct(old(shapes)[o], meta)
        case None => r.Failure?
        case Some(m) =>
          && r.Success?
          && old(|bases|) !in old(CenterOf(o)).items
          && centers == old(centers)[o := old(CenterOf(o)).Put(old(|bases|), m)]
    {
      var c := |bases|;
      var t := Extend(bases, bs);
      var owner := Owner(t, c);
      var m := meta;
      if owner.Some? {
        var built := Construct(shapes[owner.value], meta);
        if built.None? {
          return Failure(ConstructionError);
        }
        m := built.value;
      }
      assert owner.Some? ==> c !in CenterOf(owner.value).items;
      AllFiledStable(bases, t, centers);
      bases, shapes := t, shapes + [shape];
      if owner.Some? {
        var o := owner.value;
        FileClass(t, centers, o, c, m);
        centers := centers[o := CenterOf(o).Put(c, m)];
      }
      r := Success(c);
    }

    /** `cls.center()`: creates the center of `cls` when it has none (`is None`),
        and otherwise returns the existing one with all its entries. */
    method Center(cls: ClassId) returns (ce: Center<ClassId, Meta>)
      requires Valid() && cls < |bases|
      modifies this
      ensures Valid() && bases == old(bases) && shapes == old(shapes)
      ensures ce == old(CenterOf(cls)) && centers == old(centers)[cls := ce]
      ensures cls in old(centers) ==> centers == old(centers)
    {
      if cls !in centers {
        centers := centers[cls := Empty()];
      }
      ce := centers[cls];
    }

    /** `cls.query(fn=fn, **query)`: the first class in the center of `cls`
        whose metadata satisfies `fn`, or when `fn` is `None` contains every
        queried pair; `None` when there is no such class. */
    method Query(cls: ClassId, fn: Option<Meta -> bool>, query: Meta) returns (r: Option<ClassId>)
      requires Valid() && cls < |bases|
      modifies this
      ensures Valid() && bases == old(bases) && shapes == old(shapes)
      ensures centers == old(centers)[cls := old(CenterOf(cls))]
      ensures r == FirstMatch(old(CenterOf(cls)).Items(), Matcher(fn, query))
      ensures r.Some? ==> r.value in old(CenterOf(cls)).items
      ensures fn.None? && r.Some? ==> Superset(old(CenterOf(cls)).items[r.value], query)
    {
      var ce := Center(cls);
      FoundKeyIsPresent(ce, Matcher(fn, query));
      QueryResultMatches(ce, query);
      r := FindFirst(ce.Items(), Matcher(fn, query));
    }

    /** `cls.meta_of(subclass)`: the stored metadata, or `KeyError`. */
    method MetaOf(cls: ClassId, subclass: ClassId) returns (r: Result<Meta>)
      requires Valid() && cls < |bases|
      modifies this
      ensures Valid() && bases == old(bases) && shapes == old(shapes)
      ensures centers == old(centers)[cls := old(CenterOf(cls))]
      ensures subclass !in old(CenterOf(cls)).items ==> r == Failure(KeyError)
      ensures subclass in old(CenterOf(cls)).items ==> r == Success(old(CenterOf(cls)).items[subclass])
    {
      var ce := Center(cls);
      if subclass in ce.items {
        r := Success(ce.items[subclass]);
      } else {
        r := Failure(KeyError);
      }
    }
  }
}
