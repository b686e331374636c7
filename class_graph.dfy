/**
 * The Python class graph the inheritance registries walk, as an arena of
 * class descriptors. A class is identified by its position in the order in
 * which classes were defined, and a class can only name already defined
 * classes as bases, so every base has a smaller identifier than the class
 * that names it: the graph is acyclic and the identifier is a depth measure.
 * Class 0 is `SubclassRegistry` itself.
 */
module ClassGraph {
  import opened Centers

  type ClassId = nat

  /** `SubclassRegistry`, the base every registry class derives from. */
  const Sentinel: ClassId := 0

  /** `__bases__` of every class defined so far, in declaration order. */
  type Table = seq<seq<ClassId>>

  predicate WellFormed(t: Table) {
    && |t| > 0
    && t[Sentinel] == []
    && forall c, i :: 0 <= c < |t| && 0 <= i < |t[c]| ==> t[c][i] < c
  }

  /** Every class named in `bs` has already been defined. */
  predicate Defined(t: Table, bs: seq<ClassId>) {
    forall i :: 0 <= i < |bs| ==> bs[i] < |t|
  }

  /** `t` followed by one more class, whose bases are `bs`. */
  function Extend(t: Table, bs: seq<ClassId>): (t': Table)
    requires WellFormed(t) && Defined(t, bs)
    ensures WellFormed(t') && |t'| == |t| + 1 && t <= t' && t'[|t|] == bs
  {
    t + [bs]
  }

  /** `issubclass(c, SubclassRegistry)` */
  predicate DerivesRegistry(t: Table, c: ClassId): (r: bool)
    requires WellFormed(t) && c < |t|
    ensures c == Sentinel ==> r
    ensures r && c != Sentinel ==> |t[c]| > 0
    decreases c
  {
    c == Sentinel || exists i :: 0 <= i < |t[c]| && DerivesRegistry(t, t[c][i])
  }

  /** The first of the bases `bs`, in declaration order, that is a
      `SubclassRegistry` subtype (possibly `SubclassRegistry` itself). */
  function FirstRegistryBase(t: Table, bs: seq<ClassId>): (r: Option<ClassId>)
    requires WellFormed(t) && Defined(t, bs)
    ensures r.None? <==> forall i :: 0 <= i < |bs| ==> !DerivesRegistry(t, bs[i])
    ensures r.Some? ==> r.value in bs && DerivesRegistry(t, r.value)
  {
    if bs == [] then None
    else if DerivesRegistry(t, bs[0]) then Some(bs[0])
    else
      var r := FirstRegistryBase(t, bs[1..]);
      assert forall i :: 1 <= i < |bs| ==> bs[i] == bs[1..][i - 1];
      r
  }

  /** The scan stops at the first registry-typed base: if base `i` derives
      `SubclassRegistry` and no earlier base does, base `i` is the result. */
  lemma {:induction false} FirstRegistryBaseAt(t: Table, bs: seq<ClassId>, i: nat)
    requires WellFormed(t) && Defined(t, bs)
    requires i < |bs| && DerivesRegistry(t, bs[i])
    requires forall j :: 0 <= j < i ==> !DerivesRegistry(t, bs[j])
    ensures FirstRegistryBase(t, bs) == Some(bs[i])
  {
    if i > 0 {
      assert !DerivesRegistry(t, bs[0]);
      FirstRegistryBaseAt(t, bs[1..], i - 1);
    }
  }

  /** A class below the sentinel has a registry-typed base. */
  lemma RegistryClassHasRegistryBase(t: Table, c: ClassId)
    requires WellFormed(t) && c < |t| && c != Sentinel && DerivesRegistry(t, c)
    ensures FirstRegistryBase(t, t[c]).Some?
  {
    var i :| 0 <= i < |t[c]| && DerivesRegistry(t, t[c][i]);
  }

  /** Defining more classes does not change whether an existing class derives
      `SubclassRegistry`. */
  lemma {:induction false} DerivesRegistryStable(t: Table, t': Table, c: ClassId)
    requires WellFormed(t) && WellFormed(t') && t <= t' && c < |t|
    ensures DerivesRegistry(t', c) == DerivesRegistry(t, c)
    decreases c
  {
    assert t'[c] == t[c];
    forall i | 0 <= i < |t[c]|
      ensures DerivesRegistry(t', t[c][i]) == DerivesRegistry(t, t[c][i])
    {
      DerivesRegistryStable(t, t', t[c][i]);
    }
  }

  /** Defining more classes does not change the first registry-typed base of
      an existing list of bases. */
  lemma {:induction false} FirstRegistryBaseStable(t: Table, t': Table, bs: seq<ClassId>)
    requires WellFormed(t) && WellFormed(t') && t <= t'
    requires Defined(t, bs)
    ensures FirstRegistryBase(t', bs) == FirstRegistryBase(t, bs)
  {
    if bs != [] {
      DerivesRegistryStable(t, t', bs[0]);
      FirstRegistryBaseStable(t, t', bs[1..]);
    }
  }
}
