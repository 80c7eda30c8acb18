/** The prompt extractor: from the decoded turn array to the ordered catalog
    of user prompts, each classified as text, image or file, given display
    text, and bound to a chat-turn element of the page. */
module Catalog {
  import opened Wrappers
  import opened JsValue
  import opened Text
  import opened Dom

  datatype ContentType = TextPrompt | ImagePrompt | FilePrompt

  /** What a user turn shows in the catalog. */
  datatype PromptContent = PromptContent(kind: ContentType, text: string)

  datatype CatalogItem = CatalogItem(
    turnIndex: nat,              // position of the turn in the decoded array
    elementId: Option<string>,   // bound chat-turn id; None is JavaScript null
    promptText: string,
    truncatedText: string,
    contentType: ContentType)

  /** The item has a usable binding: a truthy id, that is, neither `null`
      nor the empty string. */
  predicate HasBinding(item: CatalogItem) {
    item.elementId.Some? && item.elementId.value != ""
  }

  /** The one exception extraction can raise: `.trim()` called on a truthy
      `turn[0]` that is not a string (a TypeError in JavaScript). */
  datatype ExtractError = TrimOnNonString(turnIndex: nat)

  /** Display texts longer than this are cut and given an ellipsis. */
  const MaxDisplayLength: nat := 50

  const UserRole: Json := JStr("user")
  const ModelRole: Json := JStr("model")
  const ImagePlaceholder: string := "[Image]"
  const FilePlaceholder: string := "[File]"

  /** A turn record: an array of at least nine slots. */
  predicate IsTurnRecord(v: Json) {
    v.JArr? && |v.elems| >= 9
  }

  /** A turn record whose role slot (8) is exactly the string `user`. */
  predicate IsUserTurn(v: Json) {
    IsTurnRecord(v) && v.elems[8] == UserRole
  }

  /** Number of user turns in `turns`. */
  function UserTurnCount(turns: seq<Json>): nat {
    if |turns| == 0 then 0
    else UserTurnCount(turns[..|turns| - 1]) + (if IsUserTurn(turns[|turns| - 1]) then 1 else 0)
  }

  /** The text slot, with every falsy value replaced by the empty string. */
  function TextSlot(turn: seq<Json>): Json
    requires |turn| >= 9
  {
    if Truthy(turn[0]) then turn[0] else JStr("")
  }

  /** Extraction throws on this turn: `turn[0]` is truthy but has no `trim`. */
  predicate TrimThrows(turn: seq<Json>)
    requires |turn| >= 9
  {
    Truthy(turn[0]) && !turn[0].JStr?
  }

  /** The image slot is a non-empty array. */
  predicate HasImages(turn: seq<Json>)
    requires |turn| >= 9
  {
    turn[1].JArr? && |turn[1].elems| > 0
  }

  /** Classification of a user turn: trimmed non-empty text wins, then a
      non-empty image array, and every other user turn becomes a file
      placeholder rather than being dropped. */
  function Classify(turn: seq<Json>, index: nat): (r: Result<PromptContent, ExtractError>)
    requires |turn| >= 9
    ensures r.Failure? <==> TrimThrows(turn)
    ensures r.Failure? ==> r.error == TrimOnNonString(index)
    ensures r.Success? ==> r.value.text != ""
    ensures r.Success? ==>
      (r.value.kind == TextPrompt <==> turn[0].JStr? && Trim(turn[0].s) != "")
    ensures r.Success? && r.value.kind == TextPrompt ==> r.value.text == Trim(turn[0].s)
    ensures r.Success? && r.value.kind == ImagePrompt ==>
      r.value.text == ImagePlaceholder && HasImages(turn)
    ensures r.Success? && r.value.kind == FilePrompt ==>
      r.value.text == FilePlaceholder && !HasImages(turn)
  {
    var textContent := TextSlot(turn);
    if Truthy(textContent) && !textContent.JStr? then
      Failure(TrimOnNonString(index))
    else if Truthy(textContent) && Trim(textContent.s) != "" then
      Success(PromptContent(TextPrompt, Trim(textContent.s)))
    else if HasImages(turn) then
      Success(PromptContent(ImagePrompt, ImagePlaceholder))
    else
      Success(PromptContent(FilePrompt, FilePlaceholder))
  }

  /** The catalog item for the turn at `index`, the `ordinal`-th user turn. */
  function MakeItem(index: nat, ordinal: nat, content: PromptContent, doc: Document): CatalogItem {
    CatalogItem(
      index,
      BoundId(doc, ordinal),
      content.text,
      TruncateValue(Some(JStr(content.text)), MaxDisplayLength),
      content.kind)
  }

  /** The catalog's `turnIndex` values strictly increase. */
  predicate StrictlyIncreasing(items: seq<CatalogItem>) {
    forall j, j' :: 0 <= j < j' < |items| ==> items[j].turnIndex < items[j'].turnIndex
  }

  /** Item `k` of the catalog comes from the `k`-th user turn: it records
      that turn's position, its classification and display text, and the id
      of the `k`-th user-marked chat turn. */
  ghost predicate ItemFromTurn(item: CatalogItem, k: nat, turns: seq<Json>, doc: Document) {
    && item.turnIndex < |turns|
    && IsUserTurn(turns[item.turnIndex])
    && UserTurnCount(turns[..item.turnIndex]) == k
    && Classify(turns[item.turnIndex].elems, item.turnIndex)
       == Success(PromptContent(item.contentType, item.promptText))
    && item.truncatedText == Truncate(item.promptText, MaxDisplayLength)
    && item.elementId == BoundId(doc, k)
  }

  /** Every user turn among the first `n` has its item, at the ordinal given
      by the number of user turns before it. */
  ghost predicate CoversUserTurns(items: seq<CatalogItem>, turns: seq<Json>, n: nat)
    requires n <= |turns|
  {
    forall i :: 0 <= i < n && IsUserTurn(turns[i]) ==>
      UserTurnCount(turns[..i]) < |items| && items[UserTurnCount(turns[..i])].turnIndex == i
  }

  /** The `forEach` over the first `n` turns. Every user turn yields exactly
      one item, in turn order, and extraction fails exactly when some user
      turn makes `.trim()` throw. */
  function ExtractFrom(turns: seq<Json>, n: nat, doc: Document): (r: Result<seq<CatalogItem>, ExtractError>)
    requires n <= |turns|
    ensures r.Failure? <==>
      exists i :: 0 <= i < n && IsUserTurn(turns[i]) && TrimThrows(turns[i].elems)
    ensures r.Success? ==> |r.value| == UserTurnCount(turns[..n])
    ensures r.Success? ==> StrictlyIncreasing(r.value)
    ensures r.Success? ==> forall k :: 0 <= k < |r.value| ==>
      r.value[k].turnIndex < n && ItemFromTurn(r.value[k], k, turns, doc)
    ensures r.Success? ==> CoversUserTurns(r.value, turns, n)
    decreases n
  {
    if n == 0 then Success([])
    else
      var prev :- ExtractFrom(turns, n - 1, doc);
      var turn := turns[n - 1];
      if !IsUserTurn(turn) then
        SkipNonUser(prev, turns, n);
        Success(prev)
      else
        var content :- Classify(turn.elems, n - 1);
        var item := MakeItem(n - 1, |prev|, content, doc);
        AppendUser(prev, item, turns, n, doc);
        Success(prev + [item])
  }

  /** One `forEach` step over a user turn: its item is appended, bound by
      the number of items so far. */
  lemma ExtractStepUser(turns: seq<Json>, n: nat, doc: Document, prev: seq<CatalogItem>, content: PromptContent)
    requires 0 < n <= |turns| && IsUserTurn(turns[n - 1])
    requires ExtractFrom(turns, n - 1, doc) == Success(prev)
    requires Classify(turns[n - 1].elems, n - 1) == Success(content)
    ensures ExtractFrom(turns, n, doc) == Success(prev + [MakeItem(n - 1, |prev|, content, doc)])
  {
  }

  /** One `forEach` step over any other turn: the catalog is unchanged. */
  lemma ExtractStepOther(turns: seq<Json>, n: nat, doc: Document)
    requires 0 < n <= |turns| && !IsUserTurn(turns[n - 1])
    ensures ExtractFrom(turns, n, doc) == ExtractFrom(turns, n - 1, doc)
  {
  }

  lemma CountStep(turns: seq<Json>, n: nat)
    requires 0 < n <= |turns|
    ensures UserTurnCount(turns[..n])
      == UserTurnCount(turns[..n - 1]) + (if IsUserTurn(turns[n - 1]) then 1 else 0)
  {
    assert turns[..n][..n - 1] == turns[..n - 1];
  }

  lemma SkipNonUser(prev: seq<CatalogItem>, turns: seq<Json>, n: nat)
    requires 0 < n <= |turns| && !IsUserTurn(turns[n - 1])
    requires |prev| == UserTurnCount(turns[..n - 1])
    requires CoversUserTurns(prev, turns, n - 1)
    ensures |prev| == UserTurnCount(turns[..n])
    ensures CoversUserTurns(prev, turns, n)
  {
    CountStep(turns, n);
  }

  lemma AppendUser(prev: seq<CatalogItem>, item: CatalogItem, turns: seq<Json>, n: nat, doc: Document)
    requires 0 < n <= |turns| && IsUserTurn(turns[n - 1])
    requires |prev| == UserTurnCount(turns[..n - 1])
    requires StrictlyIncreasing(prev)
    requires forall k :: 0 <= k < |prev| ==> prev[k].turnIndex < n - 1 && ItemFromTurn(prev[k], k, turns, doc)
    requires CoversUserTurns(prev, turns, n - 1)
    requires Classify(turns[n - 1].elems, n - 1).Success?
    requires item == MakeItem(n - 1, |prev|, Classify(turns[n - 1].elems, n - 1).value, doc)
    ensures |prev + [item]| == UserTurnCount(turns[..n])
    ensures StrictlyIncreasing(prev + [item])
    ensures forall k :: 0 <= k < |prev + [item]| ==>
      (prev + [item])[k].turnIndex < n && ItemFromTurn((prev + [item])[k], k, turns, doc)
    ensures CoversUserTurns(prev + [item], turns, n)
  {
    CountStep(turns, n);
    var items := prev + [item];
    assert ItemFromTurn(item, |prev|, turns, doc);
    forall k | 0 <= k < |items|
      ensures items[k].turnIndex < n && ItemFromTurn(items[k], k, turns, doc)
    {
      if k < |prev| {
        assert items[k] == prev[k];
      }
    }
  }

  /** `extractUserPrompts`: a non-array yields the empty catalog. */
  function ExtractUserPrompts(turns: Json, doc: Document): (r: Result<seq<CatalogItem>, ExtractError>)
    ensures !turns.JArr? ==> r == Success([])
    ensures turns.JArr? ==> r == ExtractFrom(turns.elems, |turns.elems|, doc)
  {
    if !turns.JArr? then Success([]) else ExtractFrom(turns.elems, |turns.elems|, doc)
  }

  /** Turns that are not arrays of nine slots, or whose role is not `user`,
      yield no catalog item and never raise. */
  lemma {:induction false} NonUserTurnsContributeNothing(turns: seq<Json>, n: nat, doc: Document)
    requires n <= |turns|
    requires forall i :: 0 <= i < n ==> !IsUserTurn(turns[i])
    ensures ExtractFrom(turns, n, doc) == Success([])
    decreases n
  {
    if n > 0 {
      NonUserTurnsContributeNothing(turns, n - 1, doc);
    }
  }
}
