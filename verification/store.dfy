/** The catalog store: the process-wide state of the content script (last
    decoded conversation, title, catalog and panel visibility) and the
    `updateCatalogData` step that replaces the catalog from new turns. */
module CatalogStore {
  import opened Wrappers
  import opened JsValue
  import opened Dom
  import opened Catalog

  datatype Store = Store(
    history: Option<seq<Json>>,  // conversationHistory; None is its initial null
    title: Json,                 // promptTitle; any truthy value the payload supplied
    catalog: seq<CatalogItem>,   // catalogData
    visible: bool)               // catalogVisible

  /** A store after a handler ran, and whether that handler re-rendered the
      prompt list. */
  datatype Update = Update(store: Store, rerender: bool)

  /** The state when the content script starts; `defaultTitle` is the
      localised default title. */
  function Initial(defaultTitle: string): (s: Store)
    ensures s.history.None? && s.catalog == [] && !s.visible
    ensures s.title == JStr(defaultTitle)
  {
    Store(None, JStr(defaultTitle), [], false)
  }

  /** What the store keeps true between handlers: the catalog lists turns in
      increasing position. */
  predicate Consistent(s: Store) {
    StrictlyIncreasing(s.catalog)
  }

  /** `updateCatalogData`: the catalog becomes the extracted prompts, or the
      empty catalog when extraction throws; the list is re-rendered exactly
      when the panel is visible; nothing else in the store changes. */
  function UpdateCatalogData(s: Store, turns: Json, doc: Document): (u: Update)
    ensures u.rerender == s.visible
    ensures u.store == s.(catalog := u.store.catalog)
    ensures ExtractUserPrompts(turns, doc).Failure? ==> u.store.catalog == []
    ensures ExtractUserPrompts(turns, doc).Success? ==>
      u.store.catalog == ExtractUserPrompts(turns, doc).value
    ensures turns.JArr? ==> |u.store.catalog| == 0 || |u.store.catalog| == UserTurnCount(turns.elems)
    ensures Consistent(u.store)
  {
    var extracted := ExtractUserPrompts(turns, doc);
    var items := if extracted.Success? then extracted.value else [];
    assert turns.JArr? ==> turns.elems[..|turns.elems|] == turns.elems;
    Update(s.(catalog := items), s.visible)
  }
}
