/** Content negotiation of app/main.py: ordered substring tests on the
    `Accept` header, not HTTP quality-value negotiation. */
module Negotiation {
  import opened Wrappers

  const JsonMediaType := "application/json"
  const JsonLdMediaType := "application/ld+json"

  /** The three response shapes a handler can produce. */
  datatype Representation = PlainJson | LinkedData | Html

  /** `needle` sits in `hay` starting at index `i`. */
  ghost predicate OccursAt(needle: string, hay: string, i: nat)
  {
    i + |needle| <= |hay| && hay[i..i + |needle|] == needle
  }

  /** Python's `needle in hay` on strings, stated declaratively. */
  ghost predicate OccursIn(needle: string, hay: string)
  {
    exists i: nat :: OccursAt(needle, hay, i)
  }

  /** An occurrence in a non-empty string is either at its front or in its tail. */
  lemma {:induction false} OccursInSplit(needle: string, hay: string)
    requires |hay| > 0
    ensures OccursIn(needle, hay) <==> OccursAt(needle, hay, 0) || OccursIn(needle, hay[1..])
  {
    if OccursIn(needle, hay) && !OccursAt(needle, hay, 0) {
      var i: nat :| OccursAt(needle, hay, i);
      assert i > 0;
      assert hay[1..][i - 1..i - 1 + |needle|] == hay[i..i + |needle|];
      assert OccursAt(needle, hay[1..], i - 1);
    }
    if OccursIn(needle, hay[1..]) {
      var i: nat :| OccursAt(needle, hay[1..], i);
      assert hay[1..][i..i + |needle|] == hay[i + 1..i + 1 + |needle|];
      assert OccursAt(needle, hay, i + 1);
    }
  }

  /** The substring test, computed by scanning the header from the front. */
  function Contains(hay: string, needle: string): (found: bool)
    ensures found <==> OccursIn(needle, hay)
    decreases |hay|
  {
    if |hay| < |needle| then
      assert !OccursIn(needle, hay);
      false
    else if hay[..|needle|] == needle then
      assert OccursAt(needle, hay, 0);
      true
    else
      OccursInSplit(needle, hay);
      Contains(hay[1..], needle)
  }

  /** The handlers' branch order: `application/json` first, then
      `application/ld+json`, otherwise HTML; a missing header reads as "". */
  function Negotiate(accept: Option<string>): (r: Representation)
    ensures r == PlainJson <==> OccursIn(JsonMediaType, accept.GetOr(""))
    ensures r == LinkedData <==>
      !OccursIn(JsonMediaType, accept.GetOr("")) && OccursIn(JsonLdMediaType, accept.GetOr(""))
    ensures r == Html <==>
      !OccursIn(JsonMediaType, accept.GetOr("")) && !OccursIn(JsonLdMediaType, accept.GetOr(""))
  {
    var header := accept.GetOr("");
    if Contains(header, JsonMediaType) then PlainJson
    else if Contains(header, JsonLdMediaType) then LinkedData
    else Html
  }

  /** None of the windows of `application/ld+json` long enough to hold
      `application/json` spells it. */
  lemma JsonLdWindowsDiffer(i: nat)
    requires i + |JsonMediaType| <= |JsonLdMediaType|
    ensures JsonLdMediaType[i..i + |JsonMediaType|] != JsonMediaType
  {
    var window := JsonLdMediaType[i..i + |JsonMediaType|];
    if i == 0 {
      assert window[12] != JsonMediaType[12];
    } else {
      assert window[0] != JsonMediaType[0];
    }
  }

  /** `application/ld+json` does not contain `application/json`, so the
      second test is reachable. */
  lemma JsonLdTypeLacksJsonType()
    ensures !OccursIn(JsonMediaType, JsonLdMediaType)
  {
    forall i: nat | OccursAt(JsonMediaType, JsonLdMediaType, i)
      ensures false
    {
      JsonLdWindowsDiffer(i);
    }
  }

  /** A header asking for JSON-LD alone gets JSON-LD. */
  lemma NegotiateLinkedDataOnly()
    ensures Negotiate(Some(JsonLdMediaType)) == LinkedData
  {
    JsonLdTypeLacksJsonType();
    assert OccursAt(JsonLdMediaType, JsonLdMediaType, 0);
  }

  /** A header holding both media types gets plain JSON: it is tested first. */
  lemma NegotiateBothPrefersJson(header: string)
    requires OccursIn(JsonMediaType, header) && OccursIn(JsonLdMediaType, header)
    ensures Negotiate(Some(header)) == PlainJson
  {
  }

  /** No header at all reads as "" and is answered with HTML. */
  lemma NegotiateAbsentHeaderIsHtml()
    ensures Negotiate(None) == Html
  {
    assert forall i: nat :: !OccursAt(JsonMediaType, "", i);
    assert forall i: nat :: !OccursAt(JsonLdMediaType, "", i);
  }

  /** A header too short to hold either media type, such as `text/plain`, is answered with HTML. */
  lemma NegotiateFallsBackToHtml(header: string)
    requires |header| < |JsonMediaType|
    ensures Negotiate(Some(header)) == Html
  {
    assert forall i: nat :: !OccursAt(JsonMediaType, header, i);
    assert forall i: nat :: !OccursAt(JsonLdMediaType, header, i);
  }

  /** A browser's `Accept` header. */
  const BrowserHeader := "text/html,*/*;q=0.8"

  /** None of the windows of the browser header spells `application/json`. */
  lemma BrowserWindowsLackJsonType(i: nat)
    requires i + |JsonMediaType| <= |BrowserHeader|
    ensures BrowserHeader[i..i + |JsonMediaType|] != JsonMediaType
  {
    assert BrowserHeader[i..i + |JsonMediaType|][0] == BrowserHeader[i];
  }

  /** The only window of the browser header long enough for `application/ld+json` does not spell it. */
  lemma BrowserWindowsLackJsonLdType(i: nat)
    requires i + |JsonLdMediaType| <= |BrowserHeader|
    ensures BrowserHeader[i..i + |JsonLdMediaType|] != JsonLdMediaType
  {
    assert BrowserHeader[i..i + |JsonLdMediaType|][0] == BrowserHeader[i];
  }

  /** A browser asking for `text/html` with a wildcard fallback gets HTML:
      a wildcard does not count as either media type. */
  lemma NegotiateBrowserHeaderIsHtml()
    ensures Negotiate(Some(BrowserHeader)) == Html
  {
    forall i: nat | OccursAt(JsonMediaType, BrowserHeader, i)
      ensures false
    {
      BrowserWindowsLackJsonType(i);
    }
    forall i: nat | OccursAt(JsonLdMediaType, BrowserHeader, i)
      ensures false
    {
      BrowserWindowsLackJsonLdType(i);
    }
  }
}
