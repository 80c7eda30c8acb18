# AI Studio Enhancer: catalog engine model

This project is a Dafny model of the catalog engine of the AI Studio Enhancer
browser extension. The engine has these parts:

- `interceptor.js` picks which intercepted responses to forward. It does this by
  searching the request URL for one of three API keywords.
- The message handler in `content.js` decodes the forwarded conversation. The
  payload is a nested, positional array, and the keyword picks where to look in it.
- The extractor builds a catalog of the user's prompts. Each entry is classified as
  text, image or file and gets display text cut to 50 characters.
- Each entry is bound to the id of the matching `ms-chat-turn` element, matched
  by ordinal.
- After the page removes chat turns, the validator drops entries whose element
  is gone.
- A click on an entry scrolls to a target. The target is chosen in two tiers:
  the bound id first, then the entry's ordinal among the user-marked chat turns.
- The markdown export turns the same decoded turns into a document.

Everything is a pure function over immutable values:

- `Json`: a parsed payload. `Option.None` plays JavaScript's `undefined`.
- `Document`: the page as a sequence of `ChatTurn(id, isUser)`.
- `Store`: the content script's global variables (`conversationHistory`,
  `promptTitle`, `catalogData`, `catalogVisible`).
- `Update`: a handler's new store plus whether it re-rendered the list.

Modules:

- `Wrappers`: `Option`, `Result`.
- `JsValue`: `v?.[i]`, truthiness, `String(v)`.
- `Text`: `trim`, `truncateText`, `includes`.
- `Dom`: user-marked turns, `getElementById`, the binder's scan.
- `Catalog`: classification and `extractUserPrompts`.
- `CatalogStore`: the store and `updateCatalogData`.
- `Staleness`: `validateCatalogData`.
- `Decoder`: the message handler.
- `Navigator`: `navigateToPrompt`, and the style sequence of `highlightElement`.
- `Markdown`: `exportToMarkdown`.
- `Interceptor`: `getTargetKeyword`.
- `Scenarios`: worked examples on small conversations and pages.

The model follows the code as written in three details a reader might not expect:

- The markdown export uses `turn[2]` for a model turn only when it is a non-empty
  string. A present but empty string falls back to `turn[0]`.
- An element id of `''` counts as no binding: the validator keeps the entry, and
  the navigator skips the direct tier. It is not only `null` that does this.
- A title slot that holds a string, not an array, sets the title to that
  string's first character. Any truthy value can become the title; the export
  prints it with JavaScript's `String()` rules (`JsValue.ToJsString`).

## Model

| member | source | states |
|---|---|---|
| JsValue.Get | content.js:97-101 | `v?.[i]` is defined exactly for an in-range index of an array (the element) or a string (the one-character string); `null`, `undefined` and every other value give `undefined` and never throw |
| JsValue.NatToDecimal | content.js:130-137 | a non-negative number prints as digits only, without a leading zero, denoting the number |
| JsValue.ToJsString | content.js:130-137 | `String()` as the template literals apply it: a string is itself, `null` is `null`, booleans are `true`/`false`, an empty array is empty, an object is `[object Object]` |
| JsValue.NumberString | content.js:130-137 | a number prints as its decimal numeral (non-empty, digits only, no leading zero, denoting the number), after a `-` when it is negative |
| JsValue.ArrayString | content.js:130-137 | a non-empty array prints as its first element's string (empty for `null`), followed, when more elements follow, by a comma and the rest's string |
| Text.Trim | content.js:190-192 | `trim()` returns a slice of the text surrounded only by white space, bordered by non-space characters, and empty exactly when the text is all white space |
| Text.TrimIdempotent | content.js:190-192 | trimming a trimmed text changes nothing |
| Text.Truncate | content.js:156-159 | text of at most 50 characters is unchanged; longer text becomes its first 50 characters followed by `...`, 53 characters in all |
| Text.TruncateValue | content.js:156-157 | a falsy or non-string argument yields `''`; a non-empty string is truncated as above |
| Text.Contains | interceptor.js:15 | `url.includes(k)` holds exactly when `k` occurs at some offset of `url` |
| Dom.UserPositions | content.js:377-387 | the user turns list holds exactly the positions of the user-marked chat turns, in document order |
| Dom.ElementById | content.js:275 | lookup by id finds the first chat turn carrying the id, and finds nothing for the empty id or an id no turn carries |
| Dom.BoundIdIsKthUserTurn | content.js:208-223 | the binder's counting scan for entry `k` yields the id of the `k`-th user-marked chat turn, or `null` when there are at most `k` of them |
| Catalog.Classify | content.js:183-205 | a user turn fails exactly when `turn[0]` is truthy but not a string; otherwise it is text (the trimmed `turn[0]`) when that trim is non-empty, else image (`[Image]`) with a non-empty `turn[1]` array, else file (`[File]`); the display text is never empty |
| Catalog.ExtractFrom | content.js:171-239 | one entry per user turn (an array of at least 9 slots with `turn[8] === 'user'`) and no other; entry `k` records the position of the `k`-th user turn, its classification and truncated text, and the `k`-th binding; positions strictly increase; extraction fails exactly when some user turn makes `trim` throw |
| Catalog.ExtractUserPrompts | content.js:166-169 | a turns value that is not an array yields the empty catalog; an array is scanned in full by the extractor above |
| Catalog.NonUserTurnsContributeNothing | content.js:175-182 | short records, non-arrays and non-user roles yield no entry and raise nothing |
| CatalogStore.Initial | content.js:70-73 | the script starts with no history, the default title, an empty catalog and a hidden panel |
| CatalogStore.UpdateCatalogData | content.js:246-263 | the catalog becomes the extracted entries, or `[]` when extraction throws; the list re-renders exactly when visible; nothing else changes; positions stay strictly increasing |
| Staleness.Prune | content.js:273-279 | the filter keeps, in order, exactly the entries with a falsy id or an id still in the document; it keeps all entries exactly when none is stale, and then returns the catalog itself |
| Staleness.PruneCounts | content.js:273-279 | the filter keeps every copy of a still-bound entry and drops every copy of a stale one |
| Staleness.Validate | content.js:268-289 | the catalog becomes its still-bound entries (an empty catalog is untouched); a re-render happens exactly when some entry is stale and the panel is visible; nothing else changes |
| Staleness.PrunePreservesOrder | content.js:273-279 | dropping entries keeps the positions strictly increasing |
| Staleness.ValidatePreservesConsistency | content.js:281-283 | validation keeps the store's catalog in turn order |
| Staleness.PruneIdempotent | content.js:273-279 | filtering a filtered catalog changes nothing |
| Staleness.ValidateIdempotent | content.js:268-289 | a second validation against the same document leaves the store unchanged and does not re-render |
| Decoder.ShapeOf | content.js:96-102 | `ResolveDriveResource` selects the wrapped layout, `UpdatePrompt` and `CreatePrompt` the direct one, any other keyword neither |
| Decoder.TitleCandidate | content.js:112-114 | a replacement title exists exactly when the prompt data and its first element are both truthy, and it is that first element |
| Decoder.HandleMessage | content.js:92-114 | an unknown keyword changes nothing; when the turns slot holds an array, history becomes it and the catalog is rebuilt from it; otherwise history and catalog are left alone; the title changes only to a truthy first element of the prompt data; visibility never changes |
| Decoder.WrappedLayout | content.js:96-98 | with `ResolveDriveResource` the turns are read at `data[0][13][0]` and the title at `data[0][4][0]` |
| Decoder.DirectLayout | content.js:99-101 | with `UpdatePrompt` or `CreatePrompt` the turns are read at `data[13][0]` and the title at `data[4][0]` |
| Decoder.MalformedPayloadIsIgnored | content.js:92-114 | a payload that is neither an array nor a string, such as `null`, changes nothing and does not re-render |
| Decoder.StringTitleSlot | content.js:99-114 | with a direct-layout keyword, a prompt-data slot holding a non-empty string sets the title to that string's first character |
| Decoder.HandleMessagePreservesConsistency | content.js:104-109 | handling a message keeps the catalog's positions strictly increasing |
| Navigator.FindOrdinal | content.js:390 | `findIndex` returns the first entry with the requested position, or nothing when no entry has it |
| Navigator.Navigate | content.js:340-411 | no entry for the position means no target; a truthy bound id present in the page targets the first element carrying it; failing that, the user-marked turn at the entry's catalog ordinal is targeted when it exists; otherwise nothing is targeted, and no path throws |
| Navigator.NavigateBoundItem | content.js:349-403 | for an entry bound by ordinal, either tier reaches the user-marked turn at its ordinal, and navigation misses only when there are too few user turns |
| Navigator.NavigateFreshCatalog | content.js:389-403 | right after extraction against an unchanged page with unique ids, navigating to entry `k` reaches the `k`-th user-marked chat turn |
| Navigator.HighlightStages | content.js:417-435 | the highlight is applied at once; the first timer restores the captured background and the second the captured transition, so one call that no other overlaps ends at the style it captured |
| Navigator.OverlappingHighlightSticks | content.js:417-435 | a highlight that starts while another on the same element is still on captures the emphasis as the original style, so when its timers fire last the emphasis stays |
| Markdown.TurnSection | content.js:131-138 | invalid turns and other roles add nothing; a user turn adds `## content` exactly when its content is truthy; a model turn adds a non-empty string `turn[2]` or else its truthy content, followed by the separator |
| Markdown.MarkdownBody | content.js:130-138 | the document opens with `# title` and a blank line, followed by the turns' sections |
| Markdown.ExportMarkdown | content.js:125-139 | there is nothing to export before a conversation was decoded; otherwise the copied text is a non-empty prefix of the document that opens with the title's `#`, and only white space is cut from its end |
| Markdown.TrimKeepsHeading | content.js:139 | trimming a text that starts with `#` removes only trailing white space |
| Markdown.SectionsAppend | content.js:131-138 | the sections of two consecutive stretches of turns concatenate |
| Markdown.SilentTurnsExportHeaderOnly | content.js:130-138 | a conversation none of whose turns adds a section exports only the title heading |
| Markdown.CatalogTextMatchesHeading | content.js:133-136 | for a user turn whose text slot is a string, the export adds a `##` heading with the untrimmed text exactly when it is non-empty; the catalog classifies the turn without throwing, as text carrying the trimmed text, or as a placeholder only when the text is all white space |
| Interceptor.FindFrom | interceptor.js:15 | `find` returns the first keyword, in list order, contained in the URL, or nothing when none is |
| Interceptor.GetTargetKeyword | interceptor.js:13-16 | a falsy URL gives `null`; a returned keyword is one of the targets and occurs in the URL; `undefined` comes back exactly when no target occurs |
| Interceptor.FirstKeywordWins | interceptor.js:5-15 | when several keywords occur, `CreatePrompt` beats `ResolveDriveResource`, which beats `UpdatePrompt` |
| Interceptor.ForwardedKeywordsAreDecoded | interceptor.js:5-9 | every keyword the interceptor can forward selects one of the decoder's two layouts |
| Scenarios.TextPromptScenario | content.js:182-193 | a user greeting followed by a model reply gives one text entry at position 0 with the greeting as its text |
| Scenarios.PlaceholderScenarios | content.js:194-205 | an empty-text user turn with an image array is an `[Image]` entry, and one without is a `[File]` entry, not skipped |
| Scenarios.ThrowingTurnScenario | content.js:246-257 | a user turn whose text slot is a number makes extraction throw and resets the catalog to empty |
| Scenarios.StaleEntryScenario | content.js:268-289 | when the second of three bound entries loses its element, the visible catalog keeps the first and third in order and re-renders |
| Scenarios.OrdinalFallbackScenario | content.js:368-403 | an unbound second entry is navigated to the second user-marked chat turn |

## Left out

- XHR patching, `JSON.parse` and `window.postMessage` in `interceptor.js`, and
  the script injection and message-origin check in `content.js`: browser I/O. The
  model starts from the parsed payload and its keyword.
- The MutationObserver and its 100 ms `setTimeout`: event and timer plumbing. The
  model states what one validation does, not when it runs.
- `scrollIntoView`, the clipboard write, `alert`, console diagnostics and
  `chrome.i18n`: foreign calls. The default title is a parameter of
  `CatalogStore.Initial`. The diagnostics appear only as the `Navigation` and
  `ExtractError` cases.
- The highlight timers' durations (1500 ms, 300 ms): timing. `HighlightStages`
  keeps only the order of the style writes.
- Navigator.HighlightStages: models one isolated call. Calls that overlap on the
  same element, such as a double click on a catalog entry, interleave their
  timers; when the later call's timers fire last, the emphasis stays on for good
  (`Navigator.OverlappingHighlightSticks`). Restoring the original style is
  promised only for a call that no other call overlaps.
- Panel, list and toolbar construction, rendering, `toggleCatalog` and the
  injection polling: UI plumbing. Only the `visible` flag is kept, plus whether a
  handler re-renders.
- The `role` field of a catalog entry: it is always `'user'`.
- JsValue.Json: objects are opaque and carry no keys. An object in a slot that
  the code indexes numerically reads as `undefined`, even if it has a key such as
  `"0"`. Numbers are integers: fractions, NaN and the exponent form of `String()`
  for very large numbers are not modelled.
- JsValue.Get: indexes strings by code point, not by UTF-16 code unit, so a
  string slot holding a character outside the Basic Multilingual Plane yields
  the whole character where JavaScript yields half of a surrogate pair.
- Text.Trim: works on code points, not UTF-16 code units. Lengths in
  `Text.Truncate` are counted the same way, so a cut inside a surrogate pair is
  not modelled.
- Dom.ElementById: only chat turns are searched. The page's other elements
  that could carry the same id are not modelled.
- Interceptor.GetTargetKeyword: the URL is modelled as an optional string. A
  `URL` object passed to `open`, which has no `includes`, is not modelled.
