/** Worked examples of the engine on small conversations and pages. */
module Scenarios {
  import opened Wrappers
  import opened JsValue
  import Text
  import opened Dom
  import opened Catalog
  import opened CatalogStore
  import opened Staleness
  import opened Navigator

  /** A nine-slot turn record with the given text, image and role slots. */
  function Turn(text: Json, images: Json, role: string): (t: Json)
    ensures IsTurnRecord(t) && t.elems[8] == JStr(role)
  {
    JArr([text, images, JNull, JNull, JNull, JNull, JNull, JNull, JStr(role)])
  }

  /** A user prompt without surrounding white space, followed by a model
      reply, gives one text entry: the
      prompt's position 0, its text, and the first user-marked chat turn's
      id. */
  lemma TextPromptScenario(prompt: string, reply: Json, turns: seq<Json>, doc: Document)
    requires prompt != "" && !Text.IsSpace(prompt[0]) && !Text.IsSpace(prompt[|prompt| - 1])
    requires turns == [Turn(JStr(prompt), JNull, "user"), Turn(reply, JNull, "model")]
    ensures ExtractUserPrompts(JArr(turns), doc)
      == Success([CatalogItem(0, BoundId(doc, 0), prompt, Text.Truncate(prompt, MaxDisplayLength), TextPrompt)])
  {
    var content := PromptContent(TextPrompt, prompt);
    var item := MakeItem(0, 0, content, doc);
    assert IsUserTurn(turns[0]) && Classify(turns[0].elems, 0) == Success(content) by {
      var user := turns[0].elems;
      assert user[0] == JStr(prompt) && user[8] == UserRole;
      Text.TrimOfWord(prompt);
    }
    assert ExtractFrom(turns, 1, doc) == Success([item]) by {
      var none: seq<CatalogItem> := [];
      assert ExtractFrom(turns, 0, doc) == Success(none);
      ExtractStepUser(turns, 1, doc, none, content);
      assert none + [item] == [item];
    }
    assert ExtractFrom(turns, 2, doc) == Success([item]) by {
      assert turns[1].elems[8] == JStr("model");
      ExtractStepOther(turns, 2, doc);
    }
    assert item.truncatedText == Text.Truncate(prompt, MaxDisplayLength);
  }

  /** A user turn with empty text but attached images is an `[Image]`
      entry, and one with neither is a `[File]` entry, not skipped. */
  lemma PlaceholderScenarios(images: seq<Json>, turns: seq<Json>, doc: Document)
    requires |images| > 0
    requires turns == [Turn(JStr(""), JArr(images), "user"), Turn(JStr(""), JNull, "user")]
    ensures ExtractUserPrompts(JArr(turns), doc)
      == Success([
        CatalogItem(0, BoundId(doc, 0), "[Image]", "[Image]", ImagePrompt),
        CatalogItem(1, BoundId(doc, 1), "[File]", "[File]", FilePrompt)])
  {
    var image := PromptContent(ImagePrompt, "[Image]");
    var file := PromptContent(FilePrompt, "[File]");
    var none: seq<CatalogItem> := [];
    var t0 := turns[0].elems;
    var t1 := turns[1].elems;
    assert t0[0] == JStr("") && t0[1] == JArr(images) && t0[8] == UserRole;
    assert t1[0] == JStr("") && t1[1] == JNull && t1[8] == UserRole;
    assert Classify(t0, 0) == Success(image);
    assert Classify(t1, 1) == Success(file);
    assert ExtractFrom(turns, 0, doc) == Success(none);
    ExtractStepUser(turns, 1, doc, none, image);
    var first := MakeItem(0, 0, image, doc);
    assert none + [first] == [first];
    ExtractStepUser(turns, 2, doc, [first], file);
    var second := MakeItem(1, 1, file, doc);
    assert first.truncatedText == "[Image]" && second.truncatedText == "[File]";
    assert [first] + [second] == [first, second];
  }

  /** A truthy non-string text slot makes extraction throw, and the store's
      catalog is reset to empty. */
  lemma ThrowingTurnScenario(s: Store)
    ensures UpdateCatalogData(s, JArr([Turn(JNum(7), JNull, "user")]), []).store.catalog == []
  {
  }

  /** Three bound entries; the page loses the second one's element; the
      visible catalog keeps the other two in order and re-renders. */
  lemma StaleEntryScenario()
    ensures var items := [
        CatalogItem(0, Some("a"), "one", "one", TextPrompt),
        CatalogItem(2, Some("b"), "two", "two", TextPrompt),
        CatalogItem(4, Some("c"), "three", "three", TextPrompt)];
      var u := Validate(Store(None, JStr("t"), items, true), [ChatTurn("a", true), ChatTurn("c", true)]);
      u.store.catalog == [items[0], items[2]] && u.rerender
  {
    var items := [
        CatalogItem(0, Some("a"), "one", "one", TextPrompt),
        CatalogItem(2, Some("b"), "two", "two", TextPrompt),
        CatalogItem(4, Some("c"), "three", "three", TextPrompt)];
    var doc := [ChatTurn("a", true), ChatTurn("c", true)];
    assert StillBound(items[0], doc) by { assert ElementById(doc, "a") == Some(0); }
    assert !StillBound(items[1], doc) by { assert ElementById(doc, "b") == None; }
    assert StillBound(items[2], doc) by { assert ElementById(doc, "c") == Some(1); }
    assert items[..1] == [items[0]] && items[..2] == [items[0], items[1]];
    assert Prune(items[..1], doc) == [items[0]] by {
      PruneStep(items[..1], doc);
      assert items[..1][..0] == [];
    }
    assert Prune(items[..2], doc) == [items[0]] by {
      PruneStep(items[..2], doc);
      assert items[..2][..1] == items[..1];
    }
    assert Prune(items, doc) == [items[0], items[2]] by {
      PruneStep(items, doc);
    }
  }

  /** An entry without a binding is found through its ordinal: the second
      entry goes to the second user-marked chat turn. */
  lemma OrdinalFallbackScenario()
    ensures var items := [
        CatalogItem(0, Some("a"), "one", "one", TextPrompt),
        CatalogItem(2, None, "two", "two", TextPrompt)];
      var doc := [ChatTurn("a", true), ChatTurn("m", false), ChatTurn("", true)];
      Navigate(items, doc, 2) == ByOrdinal(2)
  {
  }
}
