/** The MCP server's one tool, `google_search_url`: it builds a search URL
    from a query without opening it. The tool handlers are functions from
    the request to the reply; the reply's JSON text is modelled by the
    datatype it serialises. */
module Mcp {
  import opened Wrappers
  import opened JsStrings
  import Utf8

  const DefaultBaseUrl := "https://www.google.com/search?q="

  // ---------------------------------------------------------------
  // encodeURIComponent
  // ---------------------------------------------------------------

  /** The characters `encodeURIComponent` leaves alone: the unreserved
      characters of section 2.3 of RFC 2396. */
  predicate IsUnreserved(c: char) {
    ('A' <= c <= 'Z') || ('a' <= c <= 'z') || ('0' <= c <= '9')
    || c == '-' || c == '_' || c == '.' || c == '!' || c == '~' || c == '*' || c == '\'' || c == '(' || c == ')'
  }

  predicate IsUpperHex(c: char) {
    ('0' <= c <= '9') || ('A' <= c <= 'F')
  }

  function HexDigit(n: int): (c: char)
    requires 0 <= n < 16
    ensures IsUpperHex(c)
  {
    if n < 10 then ('0' as int + n) as char else ('A' as int + (n - 10)) as char
  }

  function HexValue(c: char): (r: Option<nat>)
    ensures r.Some? <==> IsUpperHex(c)
    ensures r.Some? ==> r.value < 16 && HexDigit(r.value) == c
  {
    if '0' <= c <= '9' then Some(c as int - '0' as int)
    else if 'A' <= c <= 'F' then Some(c as int - 'A' as int + 10)
    else None
  }

  /** `%XY` for one byte, with upper-case hexadecimal digits (section 2.1 of
      RFC 3986). */
  function PercentByte(b: Utf8.Byte): string {
    ['%', HexDigit(b / 16), HexDigit(b % 16)]
  }

  function PercentAll(bytes: seq<Utf8.Byte>): (r: string)
    ensures |r| == 3 * |bytes|
  {
    if bytes == [] then [] else PercentByte(bytes[0]) + PercentAll(bytes[1..])
  }

  /** One character: itself when unreserved, else its UTF-8 bytes as
      `%XY` triples. */
  function EncodeUriChar(c: char): string {
    if IsUnreserved(c) then [c] else PercentAll(Utf8.EncodeChar(c))
  }

  /** `encodeURIComponent`. */
  function EncodeUriComponent(s: string): string {
    if s == [] then [] else EncodeUriChar(s[0]) + EncodeUriComponent(s[1..])
  }

  /** The first byte an encoded component stands for and the number of
      characters it takes: an unreserved character is its own byte and
      `%XY` the byte with hexadecimal value `XY`. */
  function HeadByte(t: string): (r: Option<(Utf8.Byte, nat)>)
    requires t != []
    ensures r.Some? ==> 1 <= r.value.1 <= |t|
  {
    if IsUnreserved(t[0]) then Some((t[0] as int, 1))
    else if t[0] == '%' && |t| >= 3 && HexValue(t[1]).Some? && HexValue(t[2]).Some? then
      Some((HexValue(t[1]).value * 16 + HexValue(t[2]).value, 3))
    else None
  }

  /** The bytes an encoded component stands for; anything but unreserved
      characters and `%XY` triples is not well formed. */
  function PercentDecode(t: string): Option<seq<Utf8.Byte>>
    decreases |t|
  {
    if t == [] then Some([])
    else match HeadByte(t)
      case None => None
      case Some((b, n)) =>
        match PercentDecode(t[n..])
        case None => None
        case Some(rest) => Some([b] + rest)
  }

  lemma HeadByteAppend(a: string, b: string)
    requires a != [] && HeadByte(a).Some?
    ensures HeadByte(a + b) == HeadByte(a)
  {
    assert (a + b)[0] == a[0];
    if !IsUnreserved(a[0]) {
      assert (a + b)[1] == a[1] && (a + b)[2] == a[2];
    }
  }

  /** A well-formed first byte followed by a well-formed rest. */
  lemma PercentDecodeCons(t: string, x: Utf8.Byte, n: nat, rest: seq<Utf8.Byte>)
    requires t != [] && HeadByte(t) == Some((x, n)) && PercentDecode(t[n..]) == Some(rest)
    ensures PercentDecode(t) == Some([x] + rest)
  {
  }

  /** The rest of a well-formed component after its first byte is well formed. */
  lemma PercentDecodeTail(t: string)
    requires t != [] && PercentDecode(t).Some?
    ensures HeadByte(t).Some? && PercentDecode(t[HeadByte(t).value.1..]).Some?
  {
  }

  /** Decoding a well-formed prefix and then a well-formed rest is
      decoding the whole. */
  lemma {:induction false} PercentDecodeAppend(a: string, b: string)
    requires PercentDecode(a).Some? && PercentDecode(b).Some?
    ensures PercentDecode(a + b) == Some(PercentDecode(a).value + PercentDecode(b).value)
    decreases |a|
  {
    if a == [] {
      assert a + b == b;
      assert PercentDecode(a).value + PercentDecode(b).value == PercentDecode(b).value;
    } else {
      HeadByteAppend(a, b);
      var x, n := HeadByte(a).value.0, HeadByte(a).value.1;
      PercentDecodeTail(a);
      var ra, rb := PercentDecode(a[n..]).value, PercentDecode(b).value;
      PercentDecodeCons(a, x, n, ra);
      AppendDrop(a, b, n);
      PercentDecodeAppend(a[n..], b);
      PercentDecodeCons(a + b, x, n, ra + rb);
      ConsAssoc(x, ra, rb);
    }
  }

  lemma ConsAssoc<T>(x: T, r: seq<T>, s: seq<T>)
    ensures [x] + (r + s) == ([x] + r) + s
  {
  }

  lemma AppendDrop(a: string, b: string, n: nat)
    requires n <= |a|
    ensures (a + b)[n..] == a[n..] + b
  {
  }

  lemma PercentByteDecode(b: Utf8.Byte)
    ensures PercentDecode(PercentByte(b)) == Some([b])
  {
    var t := PercentByte(b);
    assert t[0] == '%' && !IsUnreserved('%');
    assert HexValue(t[1]) == Some(b / 16) && HexValue(t[2]) == Some(b % 16);
    assert HeadByte(t) == Some((b, 3));
    assert t[3..] == [];
    assert [b] + [] == [b];
  }

  lemma {:induction false} PercentAllDecode(bytes: seq<Utf8.Byte>)
    ensures PercentDecode(PercentAll(bytes)) == Some(bytes)
  {
    if bytes != [] {
      PercentByteDecode(bytes[0]);
      PercentAllDecode(bytes[1..]);
      PercentDecodeAppend(PercentByte(bytes[0]), PercentAll(bytes[1..]));
      assert [bytes[0]] + bytes[1..] == bytes;
    }
  }

  lemma EncodeUriCharDecode(c: char)
    ensures PercentDecode(EncodeUriChar(c)) == Some(Utf8.EncodeChar(c))
  {
    if IsUnreserved(c) {
      assert [c][0] == c && [c][1..] == [];
      assert HeadByte([c]) == Some((c as int, 1));
      assert Utf8.EncodeChar(c) == [c as int];
      assert [c as int] + [] == [c as int];
    } else {
      PercentAllDecode(Utf8.EncodeChar(c));
    }
  }

  /** Decoding the encoded component gives the UTF-8 bytes of the text. */
  lemma {:induction false} EncodeUriComponentDecode(s: string)
    ensures PercentDecode(EncodeUriComponent(s)) == Some(Utf8.Encode(s))
  {
    if s != [] {
      EncodeUriCharDecode(s[0]);
      EncodeUriComponentDecode(s[1..]);
      PercentDecodeAppend(EncodeUriChar(s[0]), EncodeUriComponent(s[1..]));
    }
  }

  /** Different texts have different encodings. */
  lemma EncodeUriComponentInjective(s: string, t: string)
    requires EncodeUriComponent(s) == EncodeUriComponent(t)
    ensures s == t
  {
    EncodeUriComponentDecode(s);
    EncodeUriComponentDecode(t);
    Utf8.EncodeInjective(s, t);
  }

  /** The characters of a well-formed component are unreserved characters,
      `%` and upper-case hexadecimal digits. */
  lemma {:induction false} PercentDecodeCharset(t: string)
    requires PercentDecode(t).Some?
    ensures forall i :: 0 <= i < |t| ==> IsUnreserved(t[i]) || t[i] == '%' || IsUpperHex(t[i])
    decreases |t|
  {
    if t != [] {
      var n := HeadByte(t).value.1;
      PercentDecodeCharset(t[n..]);
      assert forall i :: n <= i < |t| ==> t[i] == t[n..][i - n];
    }
  }

  /** The encoding is well formed and uses only unreserved characters, `%`
      and upper-case hexadecimal digits. */
  lemma EncodedCharset(s: string)
    ensures PercentDecode(EncodeUriComponent(s)).Some?
    ensures var t := EncodeUriComponent(s);
      forall i :: 0 <= i < |t| ==> IsUnreserved(t[i]) || t[i] == '%' || IsUpperHex(t[i])
  {
    EncodeUriComponentDecode(s);
    PercentDecodeCharset(EncodeUriComponent(s));
  }

  /** Unreserved text is left as it is. */
  lemma {:induction false} UnreservedUnchanged(s: string)
    requires forall i :: 0 <= i < |s| ==> IsUnreserved(s[i])
    ensures EncodeUriComponent(s) == s
  {
    if s != [] {
      UnreservedUnchanged(s[1..]);
      assert s == [s[0]] + s[1..];
    }
  }

  // ---------------------------------------------------------------
  // The tool
  // ---------------------------------------------------------------

  /** `generateSearchUrl`: the base URL followed by the encoded, trimmed
      query. */
  function GenerateSearchUrl(query: string, baseUrl: string): (url: string)
    ensures |baseUrl| <= |url| && url[..|baseUrl|] == baseUrl
    ensures PercentDecode(url[|baseUrl|..]) == Some(Utf8.Encode(Trim(query)))
  {
    EncodeUriComponentDecode(Trim(query));
    assert (baseUrl + EncodeUriComponent(Trim(query)))[|baseUrl|..] == EncodeUriComponent(Trim(query));
    baseUrl + EncodeUriComponent(Trim(query))
  }

  /** With the same base, equal URLs come from queries that are equal once
      trimmed. */
  lemma SearchUrlDeterminesQuery(q1: string, q2: string, baseUrl: string)
    requires GenerateSearchUrl(q1, baseUrl) == GenerateSearchUrl(q2, baseUrl)
    ensures Trim(q1) == Trim(q2)
  {
    var u := GenerateSearchUrl(q1, baseUrl);
    assert u[|baseUrl|..] == EncodeUriComponent(Trim(q1)) == EncodeUriComponent(Trim(q2));
    EncodeUriComponentInjective(Trim(q1), Trim(q2));
  }

  /** A tool argument: a JSON string or some other JSON value. */
  datatype ArgValue = Str(s: string) | NonString

  /** The object a reply's text is the JSON form of. */
  datatype Payload =
    | ErrorPayload(error: string)
    | UrlPayload(url: string, query: string, source: string)

  datatype ToolReply = ToolReply(payload: Payload, isError: bool)

  const InvalidQuery := "Missing or invalid query parameter"

  /** `args?.baseUrl || DEFAULT_BASE_URL`; an absent or empty base URL is
      `None` or `Some("")`. */
  function BaseUrlOrDefault(baseUrl: Option<string>): (r: string)
    ensures baseUrl.Some? && baseUrl.value != "" ==> r == baseUrl.value
    ensures baseUrl.None? || baseUrl.value == "" ==> r == DefaultBaseUrl
  {
    if baseUrl.Some? && baseUrl.value != "" then baseUrl.value else DefaultBaseUrl
  }

  /** A query the tool accepts: a string that is not all whitespace. */
  predicate ValidQuery(query: Option<ArgValue>) {
    query.Some? && query.value.Str? && Trim(query.value.s) != ""
  }

  /** The `CallToolRequest` handler. */
  function CallTool(name: string, query: Option<ArgValue>, baseUrl: Option<string>): (r: ToolReply)
    ensures name != SearchToolName ==> r == ToolReply(ErrorPayload("Unknown tool: " + name), true)
    ensures name == SearchToolName && !ValidQuery(query) ==> r == ToolReply(ErrorPayload(InvalidQuery), true)
    ensures r.isError <==> r.payload.ErrorPayload?
    ensures !r.isError <==> name == SearchToolName && ValidQuery(query)
    ensures !r.isError ==>
              r.payload == UrlPayload(GenerateSearchUrl(query.value.s, BaseUrlOrDefault(baseUrl)),
                                      query.value.s, "kingsman-mcp")
  {
    if name == SearchToolName then
      if !ValidQuery(query) then ToolReply(ErrorPayload(InvalidQuery), true)
      else
        var q := query.value.s;
        ToolReply(UrlPayload(GenerateSearchUrl(q, BaseUrlOrDefault(baseUrl)), q, "kingsman-mcp"), false)
    else ToolReply(ErrorPayload("Unknown tool: " + name), true)
  }

  /** A successful reply's URL starts with the base URL in effect and ends
      with the trimmed query, encoded. */
  lemma CallToolUrl(query: string, baseUrl: Option<string>)
    requires Trim(query) != ""
    ensures var r := CallTool(SearchToolName, Some(Str(query)), baseUrl);
      var base := BaseUrlOrDefault(baseUrl);
      !r.isError && r.payload.query == query
      && |base| <= |r.payload.url| && r.payload.url[..|base|] == base
      && PercentDecode(r.payload.url[|base|..]) == Some(Utf8.Encode(Trim(query)))
  {
  }

  /** A property of a tool's input schema. */
  datatype Property = Property(name: string, jsonType: string, description: string)

  const SearchToolName := "google_search_url"
  const SearchToolDescription := "Generate a Google Search URL for a query. Returns the URL without opening a browser."
  const QueryDescription := "The search query to encode"
  const BaseUrlDescription := "Optional custom base URL (default: https://www.google.com/search?q=)"

  datatype Tool = Tool(name: string, description: string, properties: seq<Property>, required: seq<string>)

  /** The `ListToolsRequest` handler. */
  function ListTools(): (tools: seq<Tool>)
    ensures |tools| == 1 && tools[0].required == ["query"]
  {
    [Tool(SearchToolName, SearchToolDescription,
          [Property("query", "string", QueryDescription), Property("baseUrl", "string", BaseUrlDescription)],
          ["query"])]
  }

  /** The one tool listed is `google_search_url`, and each field it requires
      is declared as a string property. */
  lemma ListToolsSchema()
    ensures |ListTools()| == 1 && ListTools()[0].name == SearchToolName
    ensures forall n :: n in ListTools()[0].required ==>
              exists p :: p in ListTools()[0].properties && p.name == n && p.jsonType == "string"
  {
    var t := ListTools()[0];
    var query := t.properties[0];
    assert query.name == "query" && query.jsonType == "string";
    forall n | n in t.required
      ensures exists p :: p in t.properties && p.name == n && p.jsonType == "string"
    {
      assert n == "query";
      assert query in t.properties;
    }
  }

}
