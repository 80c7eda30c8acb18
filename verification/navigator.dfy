/** The lookup half of `navigateToPrompt`: which chat turn a click on a
    catalog entry scrolls to. Scrolling and highlighting are not modelled. */
module Navigator {
  import opened Wrappers
  import opened Dom
  import opened JsValue
  import opened Catalog

  /** How a navigation request ended; positions index the document. */
  datatype Navigation =
    | NotInCatalog      // no item has the requested turn index
    | ById(pos: nat)    // direct tier: the item's bound element
    | ByOrdinal(pos: nat)  // fallback tier: the user-marked turn at the item's ordinal
    | Unmapped          // both tiers missed

  /** The element the navigation scrolls to, if any. */
  function Target(nav: Navigation): Option<nat> {
    match nav
    case ById(p) => Some(p)
    case ByOrdinal(p) => Some(p)
    case _ => None
  }

  /** The ordinal of the first catalog item recording `turnIndex`, as the
      navigator's index search computes it; the item its element search
      returns is the one at this ordinal. */
  function FindOrdinal(items: seq<CatalogItem>, turnIndex: int): (r: Option<nat>)
    ensures r.None? <==> forall k :: 0 <= k < |items| ==> items[k].turnIndex != turnIndex
    ensures r.Some? ==> r.value < |items| && items[r.value].turnIndex == turnIndex
    ensures r.Some? ==> forall k :: 0 <= k < r.value ==> items[k].turnIndex != turnIndex
  {
    FindOrdinalFrom(items, turnIndex, 0)
  }

  function FindOrdinalFrom(items: seq<CatalogItem>, turnIndex: int, i: nat): (r: Option<nat>)
    requires i <= |items|
    ensures r.None? <==> forall k :: i <= k < |items| ==> items[k].turnIndex != turnIndex
    ensures r.Some? ==> i <= r.value < |items| && items[r.value].turnIndex == turnIndex
    ensures r.Some? ==> forall k :: i <= k < r.value ==> items[k].turnIndex != turnIndex
    decreases |items| - i
  {
    if i == |items| then None
    else if items[i].turnIndex == turnIndex then Some(i)
    else FindOrdinalFrom(items, turnIndex, i + 1)
  }

  /** The direct tier: the element carrying the item's id, when the id is
      truthy. */
  function DirectTarget(item: CatalogItem, doc: Document): Option<nat> {
    if HasBinding(item) then ElementById(doc, item.elementId.value)
    else None
  }

  /** `navigateToPrompt(turnIndex)` as a choice of target. With no item for
      the index nothing happens. Otherwise a truthy id whose element exists
      wins; failing that, the user-marked chat turn at the item's ordinal in
      the catalog, when there are that many; otherwise nothing happens. No
      path throws. */
  function Navigate(catalog: seq<CatalogItem>, doc: Document, turnIndex: int): (nav: Navigation)
    ensures nav.NotInCatalog? <==> forall k :: 0 <= k < |catalog| ==> catalog[k].turnIndex != turnIndex
    ensures nav.ById? ==>
      var k := FindOrdinal(catalog, turnIndex).value;
      var id := catalog[k].elementId;
      && id.Some? && id.value != ""
      && nav.pos < |doc| && doc[nav.pos].id == id.value
    ensures nav.ById? ==>
      Some(nav.pos) == DirectTarget(catalog[FindOrdinal(catalog, turnIndex).value], doc)
    ensures nav.ById? <==>
      FindOrdinal(catalog, turnIndex).Some? && DirectTarget(catalog[FindOrdinal(catalog, turnIndex).value], doc).Some?
    ensures nav.ByOrdinal? ==>
      var k := FindOrdinal(catalog, turnIndex).value;
      && k < |UserPositions(doc)|
      && nav.pos == UserPositions(doc)[k]
      && nav.pos < |doc| && doc[nav.pos].isUser
    ensures nav.Unmapped? <==>
      && FindOrdinal(catalog, turnIndex).Some?
      && DirectTarget(catalog[FindOrdinal(catalog, turnIndex).value], doc).None?
      && FindOrdinal(catalog, turnIndex).value >= |UserPositions(doc)|
  {
    var ordinal := FindOrdinal(catalog, turnIndex);
    if ordinal.None? then NotInCatalog
    else
      var item := catalog[ordinal.value];
      var direct := DirectTarget(item, doc);
      if direct.Some? then ById(direct.value)
      else if |doc| == 0 then Unmapped
      else
        var userTurns := UserPositions(doc);
        if ordinal.value < |userTurns| then ByOrdinal(userTurns[ordinal.value])
        else Unmapped
  }

  /** Chat-turn ids are unique, as HTML requires of ids (empty ids aside). */
  predicate UniqueIds(doc: Document) {
    forall p, q :: 0 <= p < q < |doc| && doc[p].id != "" ==> doc[p].id != doc[q].id
  }

  /** Right after extraction against an unchanged page with unique ids,
      navigating to the `k`-th catalog entry reaches the `k`-th user-marked
      chat turn, by either tier, and misses only when the page shows at most
      `k` user turns. */
  lemma NavigateFreshCatalog(items: seq<CatalogItem>, turns: seq<Json>, doc: Document, k: nat)
    requires ExtractFrom(turns, |turns|, doc) == Success(items)
    requires UniqueIds(doc)
    requires k < |items|
    ensures var nav := Navigate(items, doc, items[k].turnIndex);
      var ps := UserPositions(doc);
      && (k < |ps| ==> Target(nav) == Some(ps[k]))
      && (k >= |ps| ==> nav == Unmapped)
  {
    assert ItemFromTurn(items[k], k, turns, doc);
    NavigateBoundItem(items, doc, k);
  }

  /** Navigating to an entry bound by ordinal reaches the user-marked chat
      turn at that ordinal. */
  lemma NavigateBoundItem(items: seq<CatalogItem>, doc: Document, k: nat)
    requires StrictlyIncreasing(items) && k < |items|
    requires items[k].elementId == BoundId(doc, k)
    requires UniqueIds(doc)
    ensures var nav := Navigate(items, doc, items[k].turnIndex);
      var ps := UserPositions(doc);
      && (k < |ps| ==> Target(nav) == Some(ps[k]))
      && (k >= |ps| ==> nav == Unmapped)
  {
    var ps := UserPositions(doc);
    BoundIdIsKthUserTurn(doc, k);
    FindOrdinalOfDistinct(items, k);
    if k < |ps| && doc[ps[k]].id != "" {
      ElementByUniqueId(doc, ps[k]);
      assert DirectTarget(items[k], doc) == Some(ps[k]);
    } else {
      assert DirectTarget(items[k], doc).None?;
    }
  }

  /** In a catalog with strictly increasing positions, looking up the
      position of entry `k` finds entry `k`. */
  lemma FindOrdinalOfDistinct(items: seq<CatalogItem>, k: nat)
    requires StrictlyIncreasing(items) && k < |items|
    ensures FindOrdinal(items, items[k].turnIndex) == Some(k)
  {
  }

  /** With unique ids, looking up a chat turn's non-empty id finds it. */
  lemma ElementByUniqueId(doc: Document, p: nat)
    requires UniqueIds(doc) && p < |doc| && doc[p].id != ""
    ensures ElementById(doc, doc[p].id) == Some(p)
  {
  }

  /** The inline style properties `highlightElement` touches. */
  datatype Style = Style(backgroundColor: string, transition: string)

  const HighlightBackground: string := "rgba(66, 133, 244, 0.1)"
  const HighlightTransition: string := "background-color 0.3s ease"

  /** The element's inline style right after highlighting, after the first
      timer and after the second timer. The emphasis is applied at once; the
      first timer puts back the captured background and the second the
      captured transition, so the element ends with the style it had,
      whatever that was. */
  function HighlightStages(original: Style): (stages: seq<Style>)
    ensures |stages| == 3
    ensures stages[0] == Style(HighlightBackground, HighlightTransition)
    ensures stages[1] == Style(original.backgroundColor, HighlightTransition)
    ensures stages[2] == original
  {
    var highlighted := Style(HighlightBackground, HighlightTransition);
    var faded := highlighted.(backgroundColor := original.backgroundColor);
    var restored := faded.(transition := original.transition);
    [highlighted, faded, restored]
  }

  /** A second highlight of the same element started before the first one's
      timers fired captures the emphasis as its "original" style; when its
      own timers fire last, they restore the emphasis, which therefore
      stays on the element. */
  lemma OverlappingHighlightSticks(original: Style)
    ensures var again := HighlightStages(HighlightStages(original)[0]);
      again[2] == Style(HighlightBackground, HighlightTransition)
    ensures original.backgroundColor != HighlightBackground ==>
      HighlightStages(HighlightStages(original)[0])[2] != original
  {
  }
}
