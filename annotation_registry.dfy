/**
 * `Registry` (src/registry/registry.py): a registry class whose center is
 * filled by a decorator. `register(**meta)` captures the metadata; applying
 * the decorator to an item builds the metadata with the registry's metadata
 * class and stores `item -> metadata` in the center.
 *
 * The center is the class attribute `_center`, a `dict` object created on
 * first use. Because `center()` tests `not cls._center`, an existing but
 * empty dict is replaced by a fresh one, so the identity of the dict is part
 * of the model.
 */
module AnnotationRegistry {
  import opened Centers

  /** A registry class whose registered items have type `K`. */
  class Registry<K(==)> {
    /** The metadata class the registry declares as its type argument
        (`dict` when it declares none). */
    const shape: MetaShape
    /** `cls._center`, `None` (null) until `center()` first runs. */
    var store: Dict?<K, Meta>

    ghost predicate Valid()
      reads this, store
    {
      store != null ==> store.Valid()
    }

    /** The items `center()` would show. */
    function Entries(): Center<K, Meta>
      reads this, store
    {
      if store == null then Empty() else store.contents
    }

    /** `class R(Registry[shape])`: a registry without a center yet. */
    constructor (shape: MetaShape)
      ensures Valid() && this.shape == shape && store == null
    {
      this.shape := shape;
      store := null;
    }

    /** `cls.center()`: a fresh dict when there is none or the current one is
        empty, otherwise the current dict itself. Never adds or removes items. */
    method Center() returns (d: Dict<K, Meta>)
      requires Valid()
      modifies this
      ensures Valid() && store == d && d.contents == old(Entries())
      ensures store == old(store) || fresh(store)
      ensures old(store) != null && old(store.contents.items) != map[] ==> store == old(store)
      ensures old(store) != null && store != old(store) ==> old(store).contents == old(store.contents)
      ensures old(store) == null || old(store.contents.items) == map[] ==> fresh(d)
      ensures old(store) != null && old(store.contents.items) != map[] ==> d == old(store)
    {
      if store == null || store.contents.items == map[] {
        if store != null {
          NoItemsIsEmpty(store.contents);
        }
        store := new Dict();
      }
      d := store;
    }

    /**
     * `cls.register(return_annotated, default_return, **meta)(item)`: builds
     * the metadata with the registry's metadata class, stores `item -> meta`
     * (overwriting an earlier registration in place), and returns `item`, or
     * `default_return` when `return_annotated` is false. When the metadata
     * class rejects the keywords, nothing changes, not even the center's
     * creation, since the right-hand side is evaluated first.
     */
    method Register(item: K, returnAnnotated: bool, defaultReturn: Option<K>, meta: Meta) returns (r: Result<Option<K>>)
      requires Valid()
      modifies this, store
      ensures Valid() && (store == old(store) || fresh(store))
      ensures old(store) != null && old(store.contents.items) != map[] ==> store == old(store)
      ensures Construct(shape, meta).Some? && (old(store) == null || old(store.contents.items) == map[]) ==> fresh(store)
      ensures old(store) != null && store != old(store) ==> old(store).contents == old(store.contents)
      ensures Construct(shape, meta).None? ==>
        && r == Failure(ConstructionError)
        && store == old(store)
        && (store != null ==> store.contents == old(store.contents))
      ensures Construct(shape, meta).Some? ==>
        && r == Success(if returnAnnotated then Some(item) else defaultReturn)
        && Entries() == old(Entries()).Put(item, Construct(shape, meta).value)
    {
      var built := Construct(shape, meta);
      if built.None? {
        return Failure(ConstructionError);
      }
      var d := Center();
      d.SetItem(item, built.value);
      r := Success(if returnAnnotated then Some(item) else defaultReturn);
    }

    /** `cls.unregister(item)`: removes exactly `item`, or raises `KeyError`. */
    method Unregister(item: K) returns (o: Outcome)
      requires Valid()
      modifies this, store
      ensures Valid() && (store == old(store) || fresh(store))
      ensures old(store) != null && old(store.contents.items) != map[] ==> store == old(store)
      ensures old(store) == null || old(store.contents.items) == map[] ==> fresh(store)
      ensures old(store) != null && store != old(store) ==> old(store).contents == old(store.contents)
      ensures item in old(Entries().items) ==> o == Pass && Entries() == old(Entries()).Remove(item)
      ensures item !in old(Entries().items) ==> o == Fail(KeyError) && Entries() == old(Entries())
    {
      var d := Center();
      o := d.DelItem(item);
    }

    /** `cls.registered(item)` */
    method Registered(item: K) returns (b: bool)
      requires Valid()
      modifies this
      ensures Valid() && Entries() == old(Entries())
      ensures store == old(store) || fresh(store)
      ensures old(store) != null && old(store.contents.items) != map[] ==> store == old(store)
      ensures old(store) == null || old(store.contents.items) == map[] ==> fresh(store)
      ensures old(store) != null && store != old(store) ==> old(store).contents == old(store.contents)
      ensures b <==> item in old(Entries().items)
    {
      var d := Center();
      b := d.Contains(item);
    }

    /** `cls.meta_of(item)`: the stored metadata, or `KeyError`. */
    method MetaOf(item: K) returns (r: Result<Meta>)
      requires Valid()
      modifies this
      ensures Valid() && Entries() == old(Entries())
      ensures store == old(store) || fresh(store)
      ensures old(store) != null && old(store.contents.items) != map[] ==> store == old(store)
      ensures old(store) == null || old(store.contents.items) == map[] ==> fresh(store)
      ensures old(store) != null && store != old(store) ==> old(store).contents == old(store.contents)
      ensures item !in old(Entries().items) ==> r == Failure(KeyError)
      ensures item in old(Entries().items) ==> r == Success(old(Entries().items[item]))
    {
      var d := Center();
      r := d.GetItem(item);
    }

    /** `cls.query(fn=fn, **query)`: the first registered item, in center
        order, whose metadata satisfies `fn`, or when `fn` is `None` holds
        every queried pair; `None` when nothing matches. */
    method Query(fn: Option<Meta -> bool>, query: Meta) returns (r: Option<K>)
      requires Valid()
      modifies this
      ensures Valid() && Entries() == old(Entries())
      ensures store == old(store) || fresh(store)
      ensures old(store) != null && old(store.contents.items) != map[] ==> store == old(store)
      ensures old(store) == null || old(store.contents.items) == map[] ==> fresh(store)
      ensures old(store) != null && store != old(store) ==> old(store).contents == old(store.contents)
      ensures r == FirstMatch(old(Entries()).Items(), Matcher(fn, query))
      ensures r.Some? ==> r.value in old(Entries().items)
      ensures fn.None? && r.Some? ==> Superset(old(Entries().items[r.value]), query)
    {
      var d := Center();
      FoundKeyIsPresent(d.contents, Matcher(fn, query));
      QueryResultMatches(d.contents, query);
      r := FindFirst(d.contents.Items(), Matcher(fn, query));
    }
  }
}
