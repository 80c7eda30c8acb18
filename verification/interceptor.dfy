/** The interceptor's choice of which responses to forward: the first target
    keyword the request URL contains. */
module Interceptor {
  import opened Wrappers
  import opened Text
  import opened Decoder

  /** The API operations whose responses carry a conversation, in the order
      they are tried. */
  const TargetKeywords: seq<string> := ["CreatePrompt", "ResolveDriveResource", "UpdatePrompt"]

  /** `null` for a falsy URL, `undefined` when no keyword occurs, or the
      keyword found. */
  datatype KeywordMatch = NullUrl | NoKeyword | Keyword(name: string)

  /** The keyword search from position `i` on: the first keyword, in list
      order, that occurs in `url`. */
  function FindFrom(url: string, keywords: seq<string>, i: nat): (r: Option<nat>)
    requires i <= |keywords|
    ensures r.None? <==> forall j :: i <= j < |keywords| ==> !Contains(url, keywords[j])
    ensures r.Some? ==> i <= r.value < |keywords| && Contains(url, keywords[r.value])
    ensures r.Some? ==> forall j :: i <= j < r.value ==> !Contains(url, keywords[j])
    decreases |keywords| - i
  {
    if i == |keywords| then None
    else if Contains(url, keywords[i]) then Some(i)
    else FindFrom(url, keywords, i + 1)
  }

  /** `getTargetKeyword(url)`, where `None` is an absent URL. */
  function GetTargetKeyword(url: Option<string>): (r: KeywordMatch)
    ensures r.NullUrl? <==> url.None? || url.value == ""
    ensures r.Keyword? ==> r.name in TargetKeywords && Contains(url.value, r.name)
    ensures r.NoKeyword? <==> !r.NullUrl? && forall j :: 0 <= j < |TargetKeywords| ==> !Contains(url.value, TargetKeywords[j])
  {
    if url.None? || url.value == "" then NullUrl
    else
      var found := FindFrom(url.value, TargetKeywords, 0);
      if found.None? then NoKeyword else Keyword(TargetKeywords[found.value])
  }

  /** When several keywords occur, the earliest in the list wins:
      `CreatePrompt`, then `ResolveDriveResource`, then `UpdatePrompt`. */
  lemma FirstKeywordWins(url: string)
    requires url != ""
    ensures Contains(url, "CreatePrompt") ==> GetTargetKeyword(Some(url)) == Keyword("CreatePrompt")
    ensures !Contains(url, "CreatePrompt") && Contains(url, "ResolveDriveResource") ==>
      GetTargetKeyword(Some(url)) == Keyword("ResolveDriveResource")
    ensures !Contains(url, "CreatePrompt") && !Contains(url, "ResolveDriveResource") && Contains(url, "UpdatePrompt") ==>
      GetTargetKeyword(Some(url)) == Keyword("UpdatePrompt")
  {
  }

  /** Every keyword the interceptor forwards selects one of the decoder's
      layouts, so no forwarded response is ignored for its keyword. */
  lemma ForwardedKeywordsAreDecoded(url: Option<string>)
    ensures GetTargetKeyword(url).Keyword? ==> ShapeOf(GetTargetKeyword(url).name) != Unknown
  {
  }
}
