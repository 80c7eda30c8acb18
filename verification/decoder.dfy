/** The payload decoder: the content script's message handler, which reads
    the turns and the title out of an intercepted response according to the
    API keyword, and updates the store. */
module Decoder {
  import opened Wrappers
  import opened JsValue
  import opened Dom
  import opened Catalog
  import opened CatalogStore

  /** The two positional layouts a response can have. */
  datatype Shape =
    | Wrapped   // `ResolveDriveResource`: the record sits at `payload[0]`
    | Direct    // `UpdatePrompt`, `CreatePrompt`: the record is the payload
    | Unknown   // any other keyword: nothing is read

  function ShapeOf(keyword: string): (shape: Shape)
    ensures shape == Wrapped <==> keyword == "ResolveDriveResource"
    ensures shape == Direct <==> keyword == "UpdatePrompt" || keyword == "CreatePrompt"
  {
    if keyword == "ResolveDriveResource" then Wrapped
    else if keyword == "UpdatePrompt" || keyword == "CreatePrompt" then Direct
    else Unknown
  }

  /** The conversation record: the payload's first element in the wrapped
      layout, the payload itself in the direct one. */
  function Record(shape: Shape, payload: Json): Option<Json>
  {
    match shape
    case Wrapped => Get(Some(payload), 0)
    case Direct => Some(payload)
    case Unknown => None
  }

  /** The candidate turns: the first element of the record's slot 13. */
  function TurnsSlot(shape: Shape, payload: Json): Option<Json> {
    Get(Get(Record(shape, payload), 13), 0)
  }

  /** The prompt data, the record's slot 4, whose first element is the
      title. */
  function PromptDataSlot(shape: Shape, payload: Json): Option<Json> {
    Get(Record(shape, payload), 4)
  }

  /** The replacement title, if any: the first element of the prompt data,
      taken only when both the prompt data and that element are truthy.
      Indexing a truthy value cannot throw, so a malformed slot merely yields
      none. */
  function TitleCandidate(shape: Shape, payload: Json): (r: Option<Json>)
    ensures r.Some? ==> Truthy(r.value)
    ensures var promptData := PromptDataSlot(shape, payload);
      r.Some? <==> TruthyOpt(promptData) && TruthyOpt(Get(promptData, 0))
    ensures r.Some? ==> r == Get(PromptDataSlot(shape, payload), 0)
  {
    var promptData := PromptDataSlot(shape, payload);
    if TruthyOpt(promptData) && TruthyOpt(Get(promptData, 0)) then Get(promptData, 0) else None
  }

  /** The message handler. Turns are adopted only when the slot holds an
      array, which also rebuilds the catalog; the title is replaced only by
      a truthy first element of the prompt data; anything else the payload
      lacks leaves the earlier state as it was. It never throws. */
  function HandleMessage(s: Store, payload: Json, keyword: string, doc: Document): (u: Update)
    ensures u.store.visible == s.visible
    ensures ShapeOf(keyword) == Unknown ==> u == Update(s, false)
    ensures IsArray(TurnsSlot(ShapeOf(keyword), payload)) ==>
      var turns := TurnsSlot(ShapeOf(keyword), payload).value;
      && u.store.history == Some(turns.elems)
      && u.store.catalog == UpdateCatalogData(s, turns, doc).store.catalog
      && u.rerender == s.visible
    ensures !IsArray(TurnsSlot(ShapeOf(keyword), payload)) ==>
      u.store.history == s.history && u.store.catalog == s.catalog && !u.rerender
    ensures TitleCandidate(ShapeOf(keyword), payload).Some? ==>
      u.store.title == TitleCandidate(ShapeOf(keyword), payload).value
    ensures TitleCandidate(ShapeOf(keyword), payload).None? ==> u.store.title == s.title
  {
    var shape := ShapeOf(keyword);
    var turns := TurnsSlot(shape, payload);
    var afterTurns :=
      if TruthyOpt(turns) && IsArray(turns) then
        UpdateCatalogData(s.(history := Some(turns.value.elems)), turns.value, doc)
      else
        Update(s, false);
    var title := TitleCandidate(shape, payload);
    if title.Some? then Update(afterTurns.store.(title := title.value), afterTurns.rerender)
    else afterTurns
  }

  /** The `ResolveDriveResource` layout: turns at `data[0][13][0]` and the
      title at `data[0][4][0]`. */
  lemma WrappedLayout(payload: Json, a: seq<Json>, b: seq<Json>, c: seq<Json>, d: seq<Json>)
    requires payload == JArr(a) && |a| > 0 && a[0] == JArr(b)
    requires |b| > 13 && b[13] == JArr(c) && |c| > 0
    requires b[4] == JArr(d) && |d| > 0
    ensures TurnsSlot(ShapeOf("ResolveDriveResource"), payload) == Some(c[0])
    ensures Truthy(d[0]) ==> TitleCandidate(ShapeOf("ResolveDriveResource"), payload) == Some(d[0])
    ensures !Truthy(d[0]) ==> TitleCandidate(ShapeOf("ResolveDriveResource"), payload).None?
  {
  }

  /** The `UpdatePrompt`/`CreatePrompt` layout: turns at `data[13][0]` and the
      title at `data[4][0]`. */
  lemma DirectLayout(keyword: string, payload: Json, b: seq<Json>, c: seq<Json>, d: seq<Json>)
    requires keyword == "UpdatePrompt" || keyword == "CreatePrompt"
    requires payload == JArr(b)
    requires |b| > 13 && b[13] == JArr(c) && |c| > 0
    requires b[4] == JArr(d) && |d| > 0
    ensures TurnsSlot(ShapeOf(keyword), payload) == Some(c[0])
    ensures Truthy(d[0]) ==> TitleCandidate(ShapeOf(keyword), payload) == Some(d[0])
    ensures !Truthy(d[0]) ==> TitleCandidate(ShapeOf(keyword), payload).None?
  {
  }

  /** A payload that is not an array (say `null`) has none of the slots the
      handler reads, so it changes nothing and does not re-render. */
  lemma MalformedPayloadIsIgnored(s: Store, payload: Json, keyword: string, doc: Document)
    requires !payload.JArr? && !payload.JStr?
    ensures HandleMessage(s, payload, keyword, doc) == Update(s, false)
  {
  }

  /** A prompt-data slot holding a non-empty string, rather than an array,
      sets the title to that string's first character. */
  lemma StringTitleSlot(s: Store, keyword: string, b: seq<Json>, t: string, doc: Document)
    requires keyword == "UpdatePrompt" || keyword == "CreatePrompt"
    requires |b| > 4 && b[4] == JStr(t) && t != ""
    ensures HandleMessage(s, JArr(b), keyword, doc).store.title == JStr([t[0]])
  {
    assert Get(Some(JStr(t)), 0) == Some(JStr([t[0]]));
  }

  /** Handling a message keeps the store consistent: a new catalog is built
      in turn order, and a catalog left alone stays as it was. */
  lemma HandleMessagePreservesConsistency(s: Store, payload: Json, keyword: string, doc: Document)
    requires Consistent(s)
    ensures Consistent(HandleMessage(s, payload, keyword, doc).store)
  {
  }
}
