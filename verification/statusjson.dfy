/** The `aemJSON` status record and its serialisation by `json.Marshal`.
    The struct tags are written `json: "product"`, with a space after the
    colon, which Go's tag lookup does not recognise; the encoder therefore
    falls back to the Go field names `Product`, `Running` and `UpToDate`, in
    declaration order, with no whitespace. */
module StatusJson {
  import opened Wrappers
  import opened Text

  /** The `aemJSON` struct. */
  datatype AemJson = AemJson(product: string, running: bool, upToDate: bool)

  const HexDigits: string := "0123456789abcdef"

  function HexDigit(n: nat): char
    requires n < 16
  {
    HexDigits[n]
  }

  /** The characters `encoding/json` writes unchanged inside a string: all
      of them except control characters, `"`, `\`, the HTML-sensitive `<`,
      `>` and `&`, and the line and paragraph separators U+2028, U+2029. */
  predicate IsPlain(c: char) {
    c >= ' ' && c != '"' && c != '\\' && c != '<' && c != '>' && c != '&' &&
    c != '\U{2028}' && c != '\U{2029}'
  }

  /** How the encoder writes one character: a two-character escape for
      `"`, `\`, newline, carriage return and tab, `\u00XX` in lower-case hex
      for the other control characters and `<`, `>`, `&`, `\u202X` for the
      two separators, and the character itself otherwise. */
  function EscapeChar(c: char): (e: string)
    ensures |e| >= 1
    ensures forall k :: 0 <= k < |e| ==> e[k] >= ' '
  {
    if c == '"' then "\\\""
    else if c == '\\' then "\\\\"
    else if c == '\n' then "\\n"
    else if c == '\r' then "\\r"
    else if c == '\t' then "\\t"
    else if c < ' ' || c == '<' || c == '>' || c == '&' then
      "\\u00" + [HexDigit(c as int / 16), HexDigit(c as int % 16)]
    else if c == '\U{2028}' || c == '\U{2029}' then
      "\\u202" + [HexDigit(c as int % 16)]
    else [c]
  }

  /** The body of a JSON string literal for `s`. It never holds a raw
      control character, and plain characters pass through unchanged. */
  function EscapeString(s: string): (e: string)
    ensures |e| >= |s|
    ensures forall k :: 0 <= k < |e| ==> e[k] >= ' '
    ensures (forall k :: 0 <= k < |s| ==> IsPlain(s[k])) ==> e == s
  {
    if |s| == 0 then []
    else
      var e := EscapeChar(s[0]) + EscapeString(s[1..]);
      assert forall k :: 0 <= k < |e| ==> e[k] >= ' ' by {
        forall k | 0 <= k < |e| ensures e[k] >= ' ' {
          if k >= |EscapeChar(s[0])| {
            assert e[k] == EscapeString(s[1..])[k - |EscapeChar(s[0])|];
          }
        }
      }
      e
  }

  function BoolText(b: bool): string {
    if b then "true" else "false"
  }

  const ProductKey: string := "{\"Product\":\""
  const RunningKey: string := ",\"Running\":"
  const UpToDateKey: string := ",\"UpToDate\":"

  /** What follows the product's closing quote: the two flags and the
      closing brace. */
  function FlagsText(running: bool, upToDate: bool): string {
    RunningKey + (BoolText(running) + (UpToDateKey + (BoolText(upToDate) + "}")))
  }

  /** `json.Marshal(result)`. It cannot fail for a record of one string and
      two booleans. */
  function Marshal(rec: AemJson): (out: string)
    ensures HasPrefix(out, ProductKey)
    ensures out[|out| - 1] == '}'
  {
    ProductKey + (EscapeString(rec.product) + ("\"" + FlagsText(rec.running, rec.upToDate)))
  }

  // ---------------------------------------------------------------------
  // A reader for the serialised record, the partner of `Marshal`.

  function HexValue(c: char): Option<nat> {
    if '0' <= c <= '9' then Some(c as int - '0' as int)
    else if 'a' <= c <= 'f' then Some(c as int - 'a' as int + 10)
    else if 'A' <= c <= 'F' then Some(c as int - 'A' as int + 10)
    else None
  }

  /** The value of the four hex digits `s[0..4]`. */
  function Hex4(s: string): Option<nat>
    requires |s| >= 4
  {
    match (HexValue(s[0]), HexValue(s[1]), HexValue(s[2]), HexValue(s[3]))
    case (Some(a), Some(b), Some(c), Some(d)) => Some(((a * 16 + b) * 16 + c) * 16 + d)
    case _ => None
  }

  /** The character an escape sequence denotes and the number of characters
      it occupies after its backslash. Escapes of lone surrogate halves are
      refused. */
  function DecodeEscape(s: string): (r: Option<(char, nat)>)
    ensures r.Some? ==> 1 <= r.value.1 <= |s|
  {
    if |s| == 0 then None
    else if s[0] == '"' then Some(('"', 1))
    else if s[0] == '\\' then Some(('\\', 1))
    else if s[0] == '/' then Some(('/', 1))
    else if s[0] == 'b' then Some(('\U{8}', 1))
    else if s[0] == 'f' then Some(('\U{c}', 1))
    else if s[0] == 'n' then Some(('\n', 1))
    else if s[0] == 'r' then Some(('\r', 1))
    else if s[0] == 't' then Some(('\t', 1))
    else if s[0] == 'u' && |s| >= 5 then
      match Hex4(s[1..5])
      case Some(v) =>
        if v < 0xD800 || 0xE000 <= v then Some((v as char, 5)) else None
      case None => None
    else None
  }

  function Prepend(c: char, r: Option<(string, string)>): Option<(string, string)> {
    match r
    case Some((body, rest)) => Some(([c] + body, rest))
    case None => None
  }

  /** Reads the body of a string literal up to its closing quote; yields
      the decoded text and what follows the quote. */
  function DecodeBody(s: string): Option<(string, string)>
    decreases |s|
  {
    if |s| == 0 then None
    else if s[0] == '"' then Some(([], s[1..]))
    else if s[0] == '\\' then
      match DecodeEscape(s[1..])
      case Some((c, n)) => Prepend(c, DecodeBody(s[1 + n..]))
      case None => None
    else if s[0] < ' ' then None
    else Prepend(s[0], DecodeBody(s[1..]))
  }

  function ParseBool(s: string): Option<(bool, string)> {
    if HasPrefix(s, "true") then Some((true, s[4..]))
    else if HasPrefix(s, "false") then Some((false, s[5..]))
    else None
  }

  /** Reads the two flags and the closing brace. */
  function ParseFlags(s: string): Option<(bool, bool)> {
    if !HasPrefix(s, RunningKey) then None
    else
      match ParseBool(s[|RunningKey|..])
      case None => None
      case Some((running, s1)) =>
        if !HasPrefix(s1, UpToDateKey) then None
        else
          match ParseBool(s1[|UpToDateKey|..])
          case None => None
          case Some((upToDate, s2)) =>
            if s2 == "}" then Some((running, upToDate)) else None
  }

  /** Reads a serialised status record: the three keys in declaration
      order, nothing else. */
  function ParseRecord(s: string): Option<AemJson> {
    if !HasPrefix(s, ProductKey) then None
    else
      match DecodeBody(s[|ProductKey|..])
      case None => None
      case Some((product, rest)) =>
        match ParseFlags(rest)
        case None => None
        case Some((running, upToDate)) => Some(AemJson(product, running, upToDate))
  }

  lemma HexDigitValue(n: nat)
    requires n < 16
    ensures HexValue(HexDigit(n)) == Some(n)
  {
  }

  /** Reading a backslash escape is reading its character, then the rest. */
  lemma DecodeAfterEscape(s: string, c: char, n: nat)
    requires |s| > 0 && s[0] == '\\'
    requires DecodeEscape(s[1..]) == Some((c, n))
    ensures DecodeBody(s) == Prepend(c, DecodeBody(s[1 + n..]))
  {
  }

  lemma ShortEscapeDecodes(c: char, t: string)
    requires c == '"' || c == '\\' || c == '\n' || c == '\r' || c == '\t'
    ensures DecodeBody(EscapeChar(c) + t) == Prepend(c, DecodeBody(t))
  {
    var s := EscapeChar(c) + t;
    assert |EscapeChar(c)| == 2;
    assert s[1..] == [EscapeChar(c)[1]] + t;
    assert DecodeEscape(s[1..]) == Some((c, 1));
    assert s[2..] == t;
    DecodeAfterEscape(s, c, 1);
  }

  lemma HexEscapeDecodes(c: char, t: string)
    requires c < ' ' || c == '<' || c == '>' || c == '&'
    requires c != '\n' && c != '\r' && c != '\t'
    ensures DecodeBody(EscapeChar(c) + t) == Prepend(c, DecodeBody(t))
  {
    var v := c as int;
    var e := EscapeChar(c);
    assert e == "\\u00" + [HexDigit(v / 16), HexDigit(v % 16)];
    var s := e + t;
    HexDigitValue(v / 16);
    HexDigitValue(v % 16);
    assert s[1..][1..5] == ['0', '0', HexDigit(v / 16), HexDigit(v % 16)];
    assert Hex4(s[1..][1..5]) == Some(v);
    assert DecodeEscape(s[1..]) == Some((c, 5));
    assert s[6..] == t;
    DecodeAfterEscape(s, c, 5);
  }

  lemma SeparatorEscapeDecodes(c: char, t: string)
    requires c == '\U{2028}' || c == '\U{2029}'
    ensures DecodeBody(EscapeChar(c) + t) == Prepend(c, DecodeBody(t))
  {
    var v := c as int;
    var e := EscapeChar(c);
    assert e == "\\u202" + [HexDigit(v % 16)];
    var s := e + t;
    HexDigitValue(v % 16);
    assert s[1..][1..5] == ['2', '0', '2', HexDigit(v % 16)];
    assert Hex4(s[1..][1..5]) == Some(v);
    assert DecodeEscape(s[1..]) == Some((c, 5));
    assert s[6..] == t;
    DecodeAfterEscape(s, c, 5);
  }

  /** Reading back one escaped character. */
  lemma EscapeCharDecodes(c: char, t: string)
    ensures DecodeBody(EscapeChar(c) + t) == Prepend(c, DecodeBody(t))
  {
    if c == '"' || c == '\\' || c == '\n' || c == '\r' || c == '\t' {
      ShortEscapeDecodes(c, t);
    } else if c < ' ' || c == '<' || c == '>' || c == '&' {
      HexEscapeDecodes(c, t);
    } else if c == '\U{2028}' || c == '\U{2029}' {
      SeparatorEscapeDecodes(c, t);
    } else {
      var s := EscapeChar(c) + t;
      assert EscapeChar(c) == [c];
      assert s[0] == c && s[1..] == t;
    }
  }

  /** Reading back an escaped string up to its closing quote gives the
      original string and the text after the quote. */
  lemma {:induction false} EscapeStringDecodes(p: string, rest: string)
    ensures DecodeBody(EscapeString(p) + ("\"" + rest)) == Some((p, rest))
    decreases |p|
  {
    if |p| == 0 {
      assert EscapeString(p) + ("\"" + rest) == "\"" + rest;
    } else {
      var tail := EscapeString(p[1..]) + ("\"" + rest);
      assert EscapeString(p) + ("\"" + rest) == EscapeChar(p[0]) + tail;
      EscapeCharDecodes(p[0], tail);
      EscapeStringDecodes(p[1..], rest);
      assert [p[0]] + p[1..] == p;
    }
  }

  /** `a + b` starts with `a`, and dropping `a` leaves `b`. */
  lemma AfterPrefix(a: string, b: string)
    ensures HasPrefix(a + b, a) && (a + b)[|a|..] == b
  {
    assert (a + b)[..|a|] == a;
  }

  lemma ParseBoolText(b: bool, rest: string)
    ensures ParseBool(BoolText(b) + rest) == Some((b, rest))
  {
    AfterPrefix(BoolText(b), rest);
    if !b {
      assert (BoolText(b) + rest)[0] == 'f';
    }
  }

  lemma ParseFlagsText(running: bool, upToDate: bool)
    ensures ParseFlags(FlagsText(running, upToDate)) == Some((running, upToDate))
  {
    var s1 := UpToDateKey + (BoolText(upToDate) + "}");
    AfterPrefix(RunningKey, BoolText(running) + s1);
    ParseBoolText(running, s1);
    AfterPrefix(UpToDateKey, BoolText(upToDate) + "}");
    ParseBoolText(upToDate, "}");
  }

  /** `Marshal` loses nothing: reading its output gives back the record. */
  lemma MarshalRoundTrip(rec: AemJson)
    ensures ParseRecord(Marshal(rec)) == Some(rec)
  {
    var flags := FlagsText(rec.running, rec.upToDate);
    AfterPrefix(ProductKey, EscapeString(rec.product) + ("\"" + flags));
    EscapeStringDecodes(rec.product, flags);
    ParseFlagsText(rec.running, rec.upToDate);
  }

  /** Two records serialise to the same text only if they are equal. */
  lemma MarshalInjective(a: AemJson, b: AemJson)
    requires Marshal(a) == Marshal(b)
    ensures a == b
  {
    MarshalRoundTrip(a);
    MarshalRoundTrip(b);
  }

  /** HTML-sensitive characters are written as `\u00XX` escapes, quotes and
      backslashes get a backslash, and plain text is copied. */
  lemma EscapeExamples()
    ensures EscapeString("<") == "\\u003c"
    ensures EscapeString("\"") == "\\\""
    ensures EscapeString("Example AV") == "Example AV"
  {
    var p := "Example AV";
    assert forall k :: 0 <= k < |p| ==> IsPlain(p[k]);
  }

  /** The exact bytes written for an installed, running, up-to-date
      product: the keys are the Go field names, capitalised. */
  lemma MarshalExample()
    ensures Marshal(AemJson("Example AV", true, true)) ==
            "{\"Product\":\"Example AV\"" + ",\"Running\":true" + ",\"UpToDate\":true}"
  {
    var p := "Example AV";
    EscapeExamples();
    assert Marshal(AemJson(p, true, true)) == ProductKey + (p + ("\"" + FlagsText(true, true)));
    FlagsExample();
    Regroup(ProductKey, p, "\"", ",\"Running\":true", ",\"UpToDate\":true}");
    ProductExample();
  }

  lemma ProductExample()
    ensures ProductKey + "Example AV" + "\"" == "{\"Product\":\"Example AV\""
  {
    assert ProductKey + "Example AV" == "{\"Product\":\"Example AV";
  }

  lemma Regroup(a: string, b: string, c: string, d: string, e: string)
    ensures a + (b + (c + (d + e))) == a + b + c + d + e
  {
  }

  lemma FlagsExample()
    ensures FlagsText(true, true) == ",\"Running\":true" + ",\"UpToDate\":true}"
  {
    assert BoolText(true) + "}" == "true}";
    assert UpToDateKey + "true}" == ",\"UpToDate\":true}";
    assert BoolText(true) + ",\"UpToDate\":true}" == "true,\"UpToDate\":true}";
  }
}
