/** The staleness validator (`validateCatalogData`): after the page removed
    chat turns, drop the catalog items whose bound element is gone. */
module Staleness {
  import opened Wrappers
  import opened Dom
  import opened Catalog
  import opened CatalogStore

  /** An item survives validation when it has no usable binding (null or the
      empty id, both falsy) or its element is still in the document. */
  predicate StillBound(item: CatalogItem, doc: Document) {
    !HasBinding(item) || IdPresent(doc, item.elementId.value)
  }

  /** `a` can be obtained from `b` by deleting elements. */
  ghost predicate SubsequenceOf<T>(a: seq<T>, b: seq<T>)
    decreases |b|
  {
    if |a| == 0 then true
    else if |b| == 0 then false
    else
      || (a[|a| - 1] == b[|b| - 1] && SubsequenceOf(a[..|a| - 1], b[..|b| - 1]))
      || SubsequenceOf(a, b[..|b| - 1])
  }

  /** The validator's filter: the items that are still bound, each copy
      kept, in their original order. */
  function Prune(items: seq<CatalogItem>, doc: Document): (r: seq<CatalogItem>)
    ensures |r| <= |items|
    ensures forall x :: x in r <==> x in items && StillBound(x, doc)
    ensures SubsequenceOf(r, items)
    ensures |r| == |items| <==> forall j :: 0 <= j < |items| ==> StillBound(items[j], doc)
    ensures |r| == |items| ==> r == items
  {
    if |items| == 0 then []
    else
      var init := items[..|items| - 1];
      var last := items[|items| - 1];
      var rest := Prune(init, doc);
      assert items == init + [last];
      if StillBound(last, doc) then
        assert (rest + [last])[..|rest|] == rest;
        rest + [last]
      else
        assert !(forall j :: 0 <= j < |items| ==> StillBound(items[j], doc));
        rest
  }

  /** The filter keeps every copy of a still-bound item and no copy of a
      stale one: it changes the catalog's multiset by exactly the stale
      items. */
  lemma {:induction false} PruneCounts(items: seq<CatalogItem>, doc: Document, x: CatalogItem)
    ensures multiset(Prune(items, doc))[x] == if StillBound(x, doc) then multiset(items)[x] else 0
  {
    if |items| > 0 {
      var init := items[..|items| - 1];
      var last := items[|items| - 1];
      PruneCounts(init, doc, x);
      PruneStep(items, doc);
      CountLast(items, x);
      if StillBound(last, doc) {
        CountLast(Prune(init, doc) + [last], x);
        assert (Prune(init, doc) + [last])[..|Prune(init, doc)|] == Prune(init, doc);
      }
    }
  }

  /** Pruning a non-empty catalog is pruning all but its last item, then
      keeping that item when it is still bound. */
  lemma PruneStep(items: seq<CatalogItem>, doc: Document)
    requires |items| > 0
    ensures Prune(items, doc) ==
      var rest := Prune(items[..|items| - 1], doc);
      if StillBound(items[|items| - 1], doc) then rest + [items[|items| - 1]] else rest
  {
  }

  /** The last item of a catalog contributes one copy of itself to its
      multiset. */
  lemma CountLast(items: seq<CatalogItem>, x: CatalogItem)
    requires |items| > 0
    ensures multiset(items)[x] ==
      multiset(items[..|items| - 1])[x] + if x == items[|items| - 1] then 1 else 0
  {
    assert items == items[..|items| - 1] + [items[|items| - 1]];
  }

  /** `validateCatalogData`: an empty catalog is left alone; otherwise the
      catalog becomes its still-bound items, and the list is re-rendered
      exactly when an item was dropped while the panel is visible. */
  function Validate(s: Store, doc: Document): (u: Update)
    ensures u.store == s.(catalog := u.store.catalog)
    ensures u.store.catalog == Prune(s.catalog, doc)
    ensures u.rerender <==>
      s.visible && exists j :: 0 <= j < |s.catalog| && !StillBound(s.catalog[j], doc)
    ensures |s.catalog| == 0 ==> u == Update(s, false)
  {
    if |s.catalog| == 0 then Update(s, false)
    else
      var valid := Prune(s.catalog, doc);
      if |valid| != |s.catalog| then Update(s.(catalog := valid), s.visible)
      else Update(s, false)
  }

  /** Pruning keeps the items in their order, so the catalog's positions
      stay strictly increasing. */
  lemma {:induction false} PrunePreservesOrder(items: seq<CatalogItem>, doc: Document)
    requires StrictlyIncreasing(items)
    ensures StrictlyIncreasing(Prune(items, doc))
  {
    if |items| > 0 {
      var init := items[..|items| - 1];
      var last := items[|items| - 1];
      PrunePreservesOrder(init, doc);
      var rest := Prune(init, doc);
      forall x | x in rest ensures x.turnIndex < last.turnIndex {
        var j :| 0 <= j < |init| && init[j] == x;
      }
    }
  }

  /** Validation keeps the store consistent. */
  lemma ValidatePreservesConsistency(s: Store, doc: Document)
    requires Consistent(s)
    ensures Consistent(Validate(s, doc).store)
  {
    PrunePreservesOrder(s.catalog, doc);
  }

  /** Every item left after pruning is still bound, so pruning again
      changes nothing. */
  lemma PruneIdempotent(items: seq<CatalogItem>, doc: Document)
    ensures Prune(Prune(items, doc), doc) == Prune(items, doc)
  {
    var r := Prune(items, doc);
    forall j | 0 <= j < |r| ensures StillBound(r[j], doc) {
      assert r[j] in r;
    }
  }

  /** Validating twice without a document change in between is validating
      once, and the second pass never re-renders. */
  lemma ValidateIdempotent(s: Store, doc: Document)
    ensures Validate(Validate(s, doc).store, doc).store == Validate(s, doc).store
    ensures !Validate(Validate(s, doc).store, doc).rerender
  {
    PruneIdempotent(s.catalog, doc);
    var r := Prune(s.catalog, doc);
    forall j | 0 <= j < |r| ensures StillBound(r[j], doc) {
      assert r[j] in r;
    }
  }
}
