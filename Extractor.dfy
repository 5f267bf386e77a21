/**
 * The response extractor, `CustomOutputParser.parse`: the chain hands it the raw
 * text of the language model, and it keeps only what follows the last
 * instruction-end marker, with the surrounding white space removed.
 */
module Extractor {
  import opened Text

  /** The instruction-end marker the parser splits on. */
  const Marker: string := "[/INST]"

  /** `response.split('[/INST]')[-1].strip()`. */
  function Parse(response: string): string
  {
    Strip(Last(Split(response, Marker)))
  }

  /** No proper suffix of the marker is also a prefix of it: its only `[` is its first character. */
  lemma MarkerNoSelfOverlap()
    ensures NoSelfOverlap(Marker)
  {
    forall d | 0 < d < |Marker| ensures Marker[d..] != Marker[..|Marker| - d] {
      assert Marker[..|Marker| - d][0] == '[';
      assert Marker[d..][0] == Marker[d];
    }
  }

  /** The parser keeps exactly the stripped text after the LAST marker (and the whole
      stripped input when there is none), as the right-to-left reference defines it. */
  lemma ParseIsStrippedAfterLast(response: string)
    ensures Parse(response) == Strip(AfterLast(response, Marker))
  {
    MarkerNoSelfOverlap();
    LastPieceIsAfterLast(response, Marker);
  }

  /** What the parser returns never holds the marker and never starts or ends with
      white space. */
  lemma ParseShape(response: string)
    ensures !Contains(Parse(response), Marker)
    ensures Trimmed(Parse(response))
  {
    StripAvoids(Last(Split(response, Marker)), Marker);
  }

  /** Fallback: an input without the marker comes back stripped, and the parser does not fail. */
  lemma ParseWithoutMarker(response: string)
    requires !Contains(response, Marker)
    ensures Parse(response) == Strip(response)
  {
    ParseIsStrippedAfterLast(response);
    AfterLastAbsent(response, Marker);
  }

  /** Echo stripping: whatever comes before a marker, if the text after it has no marker,
      the parser returns that text stripped. */
  lemma ParseAfterMarker(x: string, y: string)
    requires !Contains(y, Marker)
    ensures Parse(x + Marker + y) == Strip(y)
  {
    MarkerNoSelfOverlap();
    ParseIsStrippedAfterLast(x + Marker + y);
    AfterLastAppend(x, Marker, y);
  }

  /** Parsing a parsed reply changes nothing. */
  lemma ParseIdempotent(response: string)
    ensures Parse(Parse(response)) == Parse(response)
  {
    var r := Parse(response);
    ParseShape(response);
    ParseWithoutMarker(r);
    StripTrimmed(r);
  }

  /** The extractor applied to its own output, a marker and more text yields that text stripped. */
  lemma ParseOfParsedThenMarker(x: string, y: string)
    requires !Contains(y, Marker)
    ensures Parse(Parse(x) + Marker + y) == Strip(y)
  {
    ParseAfterMarker(Parse(x), y);
  }

  /** A text without `[` cannot hold the marker. */
  lemma NoBracketNoMarker(s: string)
    requires '[' !in s
    ensures !Contains(s, Marker)
  {
    LacksFirstChar(s, Marker);
  }

  /** The fallback example: an input with no marker at all is returned as it is. */
  lemma ParseNoMarkerExample()
    ensures Parse("no marker here") == "no marker here"
  {
    var s := "no marker here";
    assert Trimmed(s);
    NoBracketNoMarker(s);
    ParseWithoutMarker(s);
    StripTrimmed(s);
  }
}
