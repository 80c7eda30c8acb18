/** The string-building part of `exportToMarkdown`: the document it copies
    to the clipboard, before and after the final trim. */
module Markdown {
  import opened Wrappers
  import opened JsValue
  import opened Text
  import opened Dom
  import opened Catalog
  import opened CatalogStore

  /** Closes every model answer. */
  const Separator: string := "\n\n---\n\n"

  /** A `#` heading with the title, then a blank line. */
  function Header(title: Json): string {
    "# " + ToJsString(title) + "\n\n"
  }

  /** What one turn adds to the document. A turn record's content is its
      text slot, or the empty string when that slot is falsy. A user turn
      with truthy content becomes a `##` heading; a model turn shows
      `turn[2]` when that is a non-empty string and its content otherwise,
      followed by the separator. Everything else adds nothing. */
  function TurnSection(turn: Json): (r: string)
    ensures !IsTurnRecord(turn) ==> r == ""
    ensures IsTurnRecord(turn) && turn.elems[8] == UserRole ==>
      (r != "" <==> Truthy(turn.elems[0]))
    ensures IsTurnRecord(turn) && turn.elems[8] == UserRole && r != "" ==>
      r == "## " + ToJsString(turn.elems[0]) + "\n\n"
    ensures IsTurnRecord(turn) && turn.elems[8] == ModelRole && turn.elems[2].JStr? && turn.elems[2].s != "" ==>
      r == turn.elems[2].s + Separator
    ensures IsTurnRecord(turn) && turn.elems[8] == ModelRole && !(turn.elems[2].JStr? && turn.elems[2].s != "") ==>
      r == (if Truthy(turn.elems[0]) then ToJsString(turn.elems[0]) + Separator else "")
    ensures IsTurnRecord(turn) && turn.elems[8] != UserRole && turn.elems[8] != ModelRole ==> r == ""
  {
    if !IsTurnRecord(turn) then ""
    else
      var xs := turn.elems;
      var content := TextSlot(xs);
      var role := xs[8];
      var finalContent := if Truthy(xs[2]) && xs[2].JStr? then xs[2] else content;
      if role == UserRole && Truthy(content) then "## " + ToJsString(content) + "\n\n"
      else if role == ModelRole && Truthy(finalContent) then ToJsString(finalContent) + Separator
      else ""
  }

  /** The `forEach` appending each turn's section in order. */
  function Sections(turns: seq<Json>): string {
    if |turns| == 0 then "" else Sections(turns[..|turns| - 1]) + TurnSection(turns[|turns| - 1])
  }

  /** The document before the final trim: it always opens with the title
      heading, followed by the turns' sections. */
  function MarkdownBody(title: Json, turns: seq<Json>): (r: string)
    ensures Header(title) <= r
    ensures r[|Header(title)|..] == Sections(turns)
  {
    Header(title) + Sections(turns)
  }

  /** `exportToMarkdown`: nothing to export before a conversation was
      decoded. Otherwise the final trim only cuts trailing white space: the
      copied text is a non-empty prefix of the document that still opens
      with the title heading's `#`. */
  function ExportMarkdown(s: Store): (r: Option<string>)
    ensures r.None? <==> s.history.None?
    ensures r.Some? ==> r.value == Trim(MarkdownBody(s.title, s.history.value))
    ensures r.Some? ==>
      var body := MarkdownBody(s.title, s.history.value);
      && 0 < |r.value| <= |body|
      && r.value == body[..|r.value|]
      && AllSpace(body[|r.value|..])
      && r.value[0] == '#'
  {
    if s.history.None? then None
    else
      var body := MarkdownBody(s.title, s.history.value);
      TrimKeepsHeading(body);
      Some(Trim(body))
  }

  /** Trimming a text that starts with `#` removes only trailing white
      space. */
  lemma TrimKeepsHeading(body: string)
    requires |body| > 0 && body[0] == '#'
    ensures var r := Trim(body);
      0 < |r| <= |body| && r == body[..|r|] && AllSpace(body[|r|..]) && r[0] == '#'
  {
    var r := Trim(body);
    assert !IsSpace(body[0]);
    assert !AllSpace(body);
    var i :| 0 <= i <= |body| - |r| && IsTrimmedSlice(body, r, i);
    assert i == 0;
  }

  /** The sections of consecutive stretches of turns concatenate. */
  lemma {:induction false} SectionsAppend(a: seq<Json>, b: seq<Json>)
    ensures Sections(a + b) == Sections(a) + Sections(b)
    decreases |b|
  {
    if |b| > 0 {
      var b' := b[..|b| - 1];
      assert (a + b)[..|a + b| - 1] == a + b';
      SectionsAppend(a, b');
    } else {
      assert a + b == a;
    }
  }

  /** Turns that are neither user turns with content nor model turns with
      something to show leave the document at its header. */
  lemma {:induction false} SilentTurnsExportHeaderOnly(title: Json, turns: seq<Json>)
    requires forall i :: 0 <= i < |turns| ==> TurnSection(turns[i]) == ""
    ensures MarkdownBody(title, turns) == Header(title)
  {
    SilentSections(turns);
  }

  lemma {:induction false} SilentSections(turns: seq<Json>)
    requires forall i :: 0 <= i < |turns| ==> TurnSection(turns[i]) == ""
    ensures Sections(turns) == ""
  {
    if |turns| > 0 {
      SilentSections(turns[..|turns| - 1]);
    }
  }

  /** The catalog and the export agree on user turns whose text slot is a
      string: the export's heading carries the untrimmed text exactly when it
      is non-empty; the catalog lists the turn as text with the trimmed text
      when that is non-empty, and otherwise as a placeholder, in which case
      the text slot holds only white space. */
  lemma CatalogTextMatchesHeading(turn: Json, index: nat)
    requires IsUserTurn(turn) && turn.elems[0].JStr?
    ensures var text := turn.elems[0].s;
      TurnSection(turn) == if text != "" then "## " + text + "\n\n" else ""
    ensures Classify(turn.elems, index).Success?
    ensures var c := Classify(turn.elems, index).value;
      c.kind == TextPrompt ==> c.text == Trim(turn.elems[0].s)
    ensures var c := Classify(turn.elems, index).value;
      c.kind != TextPrompt ==> AllSpace(turn.elems[0].s)
  {
  }
}
