/** Printing into memory and parsing what is there, with either printer. */
module JsonPrintAndParse {
  import opened CStrings
  import opened JsonCText
  import opened JsonParse
  import opened JsonTree
  import opened Options
  import JsonParser
  import JsonPrintBuffer
  import JsonPrintNode
  import JsonRoundTrip

  /** Parses the C string that an array holds. */
  method ParseArray(a: array<char>, ghost s: string) returns (r: Option<Parsed<Json>>)
    requires Holds(a, s) && IsText(s)
    ensures r == Parse(s)
  {
    assert s[0..] == s;
    var n := StrLen(a, 0, s);
    r := JsonParser.ParseText(a[..n]);
  }

  /** The tree comes back, and nothing of the text is left. */
  method PrintThenParse(j: Json, fmt: bool) returns (r: Option<Parsed<Json>>)
    requires WellFormed(j)
    ensures r == Some(Parsed(j, ""))
  {
    var out := JsonPrintNode.Print(j, fmt);
    RenderIsText(j, 0, fmt);
    r := ParseArray(out, Render(j, 0, fmt));
    JsonRoundTrip.RoundTrip(j, fmt);
  }

  /** The same with the buffered printer, whatever the initial buffer size. */
  method PrintBufferedThenParse(j: Json, prebuffer: nat, fmt: bool) returns (r: Option<Parsed<Json>>)
    requires WellFormed(j) && |Render(j, 0, fmt)| + JsonPrintBuffer.SLACK <= JsonPrintBuffer.LIMIT
    ensures r == Some(Parsed(j, ""))
  {
    var text, start := JsonPrintBuffer.PrintBuffered(j, prebuffer, fmt);
    RenderIsText(j, 0, fmt);
    r := ParseArray(text, Render(j, 0, fmt));
    JsonRoundTrip.RoundTrip(j, fmt);
  }
}
