/**
 * The metadata center every registry owns: Python's insertion-ordered `dict`
 * from a registered key to its metadata, the metadata values themselves, and
 * the first-match scan that `query` runs over the center.
 */
module Centers {

  datatype Option<T> = None | Some(value: T) {
    function GetOr(default: T): T {
      if Some? then value else default
    }
  }

  /** The exceptions the registries let escape: `KeyError` from a lookup or a
      deletion in a center, and whatever a metadata class raises when it
      rejects the keywords it is built from. */
  datatype Error = KeyError | ConstructionError

  datatype Result<T> = Success(value: T) | Failure(error: Error)

  datatype Outcome = Pass | Fail(error: Error)

  /** A metadata field value, compared with Python's `==`. */
  datatype Value = NoneValue | BoolValue(b: bool) | IntValue(i: int) | StrValue(s: string)

  /** Metadata: field name to value. A dataclass instance is represented by its `__dict__`. */
  type Meta = map<string, Value>

  /** What `_meta_cls()` yields: `dict` when the registry declares no metadata
      class, otherwise a record class whose constructor either rejects the
      keywords (`None`) or builds the instance from them. */
  datatype MetaShape = PlainDict | Record(build: Meta -> Option<Meta>)

  /** `meta_cls(**meta)` */
  function Construct(shape: MetaShape, kwargs: Meta): (r: Option<Meta>)
    ensures shape == PlainDict ==> r == Some(kwargs)
  {
    match shape
    case PlainDict => Some(kwargs)
    case Record(build) => build(kwargs)
  }

  /** No element occurs twice. */
  ghost predicate Distinct<K>(s: seq<K>) {
    forall i, j :: 0 <= i < j < |s| ==> s[i] != s[j]
  }

  /** The position of `k` in `s`. */
  function IndexOf<K(==)>(s: seq<K>, k: K): (i: nat)
    requires k in s
    ensures i < |s| && s[i] == k
    ensures forall j :: 0 <= j < i ==> s[j] != k
  {
    if s[0] == k then 0 else 1 + IndexOf(s[1..], k)
  }

  /**
   * A Python dict: its keys in iteration order, and the value of each key.
   * Overwriting a key keeps its position; a new key goes to the end.
   */
  datatype Center<K(==), V> = Center(order: seq<K>, items: map<K, V>) {

    ghost predicate Valid() {
      && Distinct(order)
      && (forall k :: k in order ==> k in items)
      && (forall k :: k in items ==> k in order)
    }

    /** `center.items()`: the (key, value) pairs in iteration order. */
    function Items(): (r: seq<(K, V)>)
      requires Valid()
      ensures |r| == |order|
      ensures forall i :: 0 <= i < |r| ==> r[i].0 == order[i]
      ensures forall i :: 0 <= i < |r| ==> r[i].0 in items && r[i].1 == items[r[i].0]
      ensures forall k :: k in items ==> exists i :: 0 <= i < |r| && r[i].0 == k
    {
      var r := seq(|order|, i requires 0 <= i < |order| => (order[i], items[order[i]]));
      assert forall k :: k in items ==> r[IndexOf(order, k)].0 == k;
      r
    }

    /** `center[k] = v` */
    function Put(k: K, v: V): (r: Center<K, V>)
      requires Valid()
      ensures r.Valid()
      ensures k in r.items && r.items[k] == v
      ensures forall k' :: k' in items && k' != k ==> k' in r.items && r.items[k'] == items[k']
      ensures forall k' :: k' in r.items ==> k' == k || k' in items
    {
      Center(if k in items then order else order + [k], items[k := v])
    }

    /** `del center[k]` for a key that is present (an absent key is left to the
        caller, which raises `KeyError`). */
    function Remove(k: K): (r: Center<K, V>)
      requires Valid()
      ensures r.Valid()
      ensures k !in r.items
      ensures forall k' :: k' in items && k' != k ==> k' in r.items && r.items[k'] == items[k']
      ensures forall k' :: k' in r.items ==> k' in items
    {
      if k in items then Drop(IndexOf(order, k)) else this
    }

    /** The center without the key at position `i`. */
    function Drop(i: nat): (r: Center<K, V>)
      requires Valid() && i < |order|
      ensures r.Valid()
      ensures r.items == items - {order[i]}
    {
      DropValid(this, i);
      Center(order[..i] + order[i + 1..], items - {order[i]})
    }
  }

  /** Dropping the key at position `i` from the order and from the items
      leaves a well-formed center. */
  lemma DropValid<K, V>(c: Center<K, V>, i: nat)
    requires c.Valid() && i < |c.order|
    ensures Center(c.order[..i] + c.order[i + 1..], c.items - {c.order[i]}).Valid()
  {
    var k := c.order[i];
    var o := c.order[..i] + c.order[i + 1..];
    var r := Center(o, c.items - {k});
    assert |o| == |c.order| - 1;
    forall j | 0 <= j < |o|
      ensures o[j] == c.order[if j < i then j else j + 1]
    {
    }
    forall a, b | 0 <= a < b < |o|
      ensures o[a] != o[b]
    {
      assert o[a] == c.order[if a < i then a else a + 1];
      assert o[b] == c.order[if b < i then b else b + 1];
    }
    forall x | x in o
      ensures x in r.items
    {
      var j :| 0 <= j < |o| && o[j] == x;
      var j' := if j < i then j else j + 1;
      assert x == c.order[j'] && j' != i;
    }
    forall x | x in r.items
      ensures x in o
    {
      assert x in c.order;
      var m :| 0 <= m < |c.order| && c.order[m] == x;
      assert m != i;
      if m < i {
        assert o[m] == x;
      } else {
        assert o[m - 1] == x;
      }
    }
  }

  function Empty<K(==), V>(): (c: Center<K, V>)
    ensures c.Valid() && c.items == map[]
  {
    Center([], map[])
  }

  /** The key of the first item, in iteration order, whose value satisfies `p`. */
  function FirstMatch<K, V>(es: seq<(K, V)>, p: V -> bool): (r: Option<K>)
    ensures r.None? <==> forall i :: 0 <= i < |es| ==> !p(es[i].1)
    ensures r.Some? ==> exists i :: 0 <= i < |es| && es[i].0 == r.value && p(es[i].1)
  {
    if es == [] then None
    else if p(es[0].1) then Some(es[0].0)
    else
      var r := FirstMatch(es[1..], p);
      assert r.Some? ==> exists i :: 1 <= i < |es| && es[i].0 == r.value && p(es[i].1) by {
        if r.Some? {
          var i :| 0 <= i < |es[1..]| && es[1..][i].0 == r.value && p(es[1..][i].1);
          assert es[i + 1] == es[1..][i];
        }
      }
      r
  }

  /** `for key, meta in center.items(): if p(meta): return key`, then `return None`. */
  method FindFirst<K, V>(es: seq<(K, V)>, p: V -> bool) returns (r: Option<K>)
    ensures r == FirstMatch(es, p)
  {
    var i := 0;
    while i < |es|
      invariant 0 <= i <= |es|
      invariant forall j :: 0 <= j < i ==> !p(es[j].1)
    {
      if p(es[i].1) {
        FirstMatchAt(es, p, i);
        return Some(es[i].0);
      }
      i := i + 1;
    }
    return None;
  }

  /** `query.items() <= meta.items()`: every (name, value) pair of the query is in the metadata. */
  predicate Superset(meta: Meta, query: Meta): (r: bool)
    ensures query == map[] ==> r
    ensures meta == query ==> r
    ensures r ==> query.Keys <= meta.Keys
  {
    assert forall k :: k in query ==> (k, query[k]) in query.Items;
    query.Items <= meta.Items
  }

  /** `fn or (lambda meta: query.items() <= meta.items())` */
  function Matcher(fn: Option<Meta -> bool>, query: Meta): (r: Meta -> bool)
    ensures fn.Some? ==> r == fn.value
    ensures fn.None? ==> r(query)
    ensures fn.None? ==> forall m: Meta :: r(m) == Superset(m, query)
  {
    if fn.Some? then fn.value else (m: Meta) => Superset(m, query)
  }

  /* ---------------------------------------------------------------------- */
  /* Lemmas                                                                  */
  /* ---------------------------------------------------------------------- */

  /** The scan returns the key of the first satisfying item: if item `i`
      satisfies `p` and no earlier one does, the scan returns item `i`'s key. */
  lemma {:induction false} FirstMatchAt<K, V>(es: seq<(K, V)>, p: V -> bool, i: nat)
    requires i < |es| && p(es[i].1)
    requires forall j :: 0 <= j < i ==> !p(es[j].1)
    ensures FirstMatch(es, p) == Some(es[i].0)
  {
    if i > 0 {
      FirstMatchAt(es[1..], p, i - 1);
    }
  }

  /** Overwriting a key keeps every item where it was and changes only that
      key's value; a new key is appended as the last item. */
  lemma PutKeepsPositions<K, V>(c: Center<K, V>, k: K, v: V)
    requires c.Valid()
    ensures k in c.items ==> |c.Put(k, v).Items()| == |c.Items()|
    ensures k !in c.items ==> c.Put(k, v).Items() == c.Items() + [(k, v)]
    ensures forall i :: 0 <= i < |c.order| ==>
      c.Put(k, v).Items()[i] == if c.order[i] == k then (k, v) else c.Items()[i]
  {
    var r := c.Put(k, v);
    if k !in c.items {
      assert r.Items() == c.Items() + [(k, v)] by {
        forall i | 0 <= i < |r.order|
          ensures r.Items()[i] == (c.Items() + [(k, v)])[i]
        {
        }
      }
    }
  }

  /** `del center[k]` on a present key drops exactly the one item that holds
      `k`; the others keep their values and their relative order. */
  lemma RemoveDropsOneItem<K, V>(c: Center<K, V>, k: K)
    requires c.Valid() && k in c.items
    ensures var i := IndexOf(c.order, k);
      c.order[i] == k && c.Remove(k).Items() == c.Items()[..i] + c.Items()[i + 1..]
  {
    DropItems(c, IndexOf(c.order, k));
  }

  /** The items left after dropping position `i` are the items before and
      after it. */
  lemma DropItems<K, V>(c: Center<K, V>, i: nat)
    requires c.Valid() && i < |c.order|
    ensures c.Drop(i).Items() == c.Items()[..i] + c.Items()[i + 1..]
  {
    var r := c.Drop(i);
    var all := c.Items();
    var rest := all[..i] + all[i + 1..];
    var items := r.Items();
    assert r.order == c.order[..i] + c.order[i + 1..];
    assert |items| == |rest|;
    forall j | 0 <= j < |rest|
      ensures items[j] == rest[j]
    {
      var j' := if j < i then j else j + 1;
      assert r.order[j] == c.order[j'];
      assert c.order[j'] != c.order[i];
      assert rest[j] == all[j'];
    }
  }

  /** `query.items() <= meta.items()` holds exactly when every queried name is
      present in the metadata with an equal value. */
  lemma SupersetIffFieldsAgree(meta: Meta, query: Meta)
    ensures Superset(meta, query) <==> forall n :: n in query ==> n in meta && meta[n] == query[n]
  {
    if forall n :: n in query ==> n in meta && meta[n] == query[n] {
      forall item | item in query.Items
        ensures item in meta.Items
      {
        assert item.0 in query && query[item.0] == item.1;
      }
    }
    if Superset(meta, query) {
      forall n | n in query
        ensures n in meta && meta[n] == query[n]
      {
        assert (n, query[n]) in query.Items;
      }
    }
  }

  /** A center without items has no keys in its order either. */
  lemma NoItemsIsEmpty<K, V>(c: Center<K, V>)
    requires c.Valid() && c.items == map[]
    ensures c == Empty()
  {
    if c.order != [] {
      KeyInOrderIsPresent(c, 0);
    }
  }

  lemma KeyInOrderIsPresent<K, V>(c: Center<K, V>, i: nat)
    requires c.Valid() && i < |c.order|
    ensures c.order[i] in c.items
  {
  }

  /** A scan over a center only ever returns a key that is in the center. */
  lemma FoundKeyIsPresent<K, V>(c: Center<K, V>, p: V -> bool)
    requires c.Valid()
    ensures FirstMatch(c.Items(), p).Some? ==> FirstMatch(c.Items(), p).value in c.items
  {
    var r := FirstMatch(c.Items(), p);
    if r.Some? {
      var i :| 0 <= i < |c.Items()| && c.Items()[i].0 == r.value && p(c.Items()[i].1);
      assert c.order[i] in c.order;
    }
  }

  /** A keyword query only returns an item whose metadata holds every queried pair. */
  lemma QueryResultMatches<K>(c: Center<K, Meta>, query: Meta)
    requires c.Valid()
    ensures var r := FirstMatch(c.Items(), Matcher(None, query));
      r.Some? ==> r.value in c.items && Superset(c.items[r.value], query)
  {
    var r := FirstMatch(c.Items(), Matcher(None, query));
    if r.Some? {
      var i :| 0 <= i < |c.Items()| && c.Items()[i].0 == r.value && Matcher(None, query)(c.Items()[i].1);
      assert c.Items()[i] == (c.order[i], c.items[c.order[i]]);
    }
  }

  /** A keyword query with no keywords matches every item, so it returns the
      first key of the center, or `None` on an empty center. */
  lemma EmptyQueryFindsFirst<K>(es: seq<(K, Meta)>)
    ensures FirstMatch(es, Matcher(None, map[])) == if es == [] then None else Some(es[0].0)
  {
    if es != [] {
      assert Superset(es[0].1, map[]);
      FirstMatchAt(es, Matcher(None, map[]), 0);
    }
  }

  /** A keyword query finds something whenever an item's metadata contains all
      queried pairs, and what it finds sits no later in the center than that item. */
  lemma QueryFindsSuperset<K>(es: seq<(K, Meta)>, i: nat, query: Meta)
    requires i < |es| && Superset(es[i].1, query)
    ensures exists j :: 0 <= j <= i && FirstMatch(es, Matcher(None, query)) == Some(es[j].0)
  {
    var p := Matcher(None, query);
    assert p(es[i].1);
    var j := FirstIndex(es, p, i);
    FirstMatchAt(es, p, j);
  }

  /** The least index whose item satisfies `p`, given that item `i` does. */
  lemma {:induction false} FirstIndex<K, V>(es: seq<(K, V)>, p: V -> bool, i: nat) returns (j: nat)
    requires i < |es| && p(es[i].1)
    ensures j <= i && p(es[j].1) && forall l :: 0 <= l < j ==> !p(es[l].1)
  {
    if p(es[0].1) {
      j := 0;
    } else {
      assert i > 0;
      var j' := FirstIndex(es[1..], p, i - 1);
      j := j' + 1;
      assert forall l :: 1 <= l < j ==> es[l] == es[1..][l - 1];
    }
  }

  /* ---------------------------------------------------------------------- */
  /* Python's dict as an object, whose identity a registry holds             */
  /* ---------------------------------------------------------------------- */

  class Dict<K(==), V> {
    var contents: Center<K, V>

    ghost predicate Valid()
      reads this
    {
      contents.Valid()
    }

    /** `dict()` */
    constructor ()
      ensures Valid() && contents == Empty()
    {
      contents := Empty();
    }

    /** `d[k] = v` */
    method SetItem(k: K, v: V)
      requires Valid()
      modifies this
      ensures Valid() && contents == old(contents).Put(k, v)
    {
      contents := contents.Put(k, v);
    }

    /** `del d[k]`, raising `KeyError` on an absent key. */
    method DelItem(k: K) returns (o: Outcome)
      requires Valid()
      modifies this
      ensures Valid()
      ensures k in old(contents.items) ==> o == Pass && contents == old(contents).Remove(k)
      ensures k !in old(contents.items) ==> o == Fail(KeyError) && contents == old(contents)
    {
      if k in contents.items {
        contents := contents.Remove(k);
        o := Pass;
      } else {
        o := Fail(KeyError);
      }
    }

    /** `d[k]`, raising `KeyError` on an absent key. */
    method GetItem(k: K) returns (r: Result<V>)
      ensures k !in contents.items ==> r == Failure(KeyError)
      ensures k in contents.items ==> r == Success(contents.items[k])
    {
      if k in contents.items {
        r := Success(contents.items[k]);
      } else {
        r := Failure(KeyError);
      }
    }

    /** `k in d` */
    method Contains(k: K) returns (b: bool)
      ensures b <==> k in contents.items
    {
      b := k in contents.items;
    }
  }
}
