/** The quiz server's hand-written JSON text helpers: `escapeJson`,
    `extractJsonField`, `extractJsonArray`, `parseStringArray` and
    `parseIntArray` of FestivalServer.java. */
module JsonScan {
  import opened Wrappers
  import opened JavaText

  // ---------------------------------------------------------------------
  // escapeJson: five `String.replace` calls in a row
  // ---------------------------------------------------------------------

  /** The source's replace chain, in its order: backslash first, then
      quote, newline, carriage return and tab. */
  function EscapeJson(s: string): string {
    Replace(Replace(Replace(Replace(Replace(s, "\\", "\\\\"), "\"", "\\\""), "\n", "\\n"), "\r", "\\r"), "\t", "\\t")
  }

  /** Reference definition: the escape of one character. */
  function EscapeChar(c: char): string {
    match c
    case '\\' => "\\\\"
    case '"' => "\\\""
    case '\n' => "\\n"
    case '\r' => "\\r"
    case '\t' => "\\t"
    case _ => [c]
  }

  /** Reference definition: escape every character on its own. */
  function EscapeEach(s: string): string {
    if s == [] then [] else EscapeChar(s[0]) + EscapeEach(s[1..])
  }

  lemma EscapeJsonAppend(a: string, b: string)
    ensures EscapeJson(a + b) == EscapeJson(a) + EscapeJson(b)
  {
    var r1a, r1b := Replace(a, "\\", "\\\\"), Replace(b, "\\", "\\\\");
    ReplaceCharAppend(a, b, '\\', "\\\\");
    var r2a, r2b := Replace(r1a, "\"", "\\\""), Replace(r1b, "\"", "\\\"");
    ReplaceCharAppend(r1a, r1b, '"', "\\\"");
    var r3a, r3b := Replace(r2a, "\n", "\\n"), Replace(r2b, "\n", "\\n");
    ReplaceCharAppend(r2a, r2b, '\n', "\\n");
    var r4a, r4b := Replace(r3a, "\r", "\\r"), Replace(r3b, "\r", "\\r");
    ReplaceCharAppend(r3a, r3b, '\r', "\\r");
    ReplaceCharAppend(r4a, r4b, '\t', "\\t");
  }

  /** One replace step of the chain applied to a string of two
      characters, the first a backslash and the second not `c`. */
  lemma ReplaceLeavesEscape(e: string, c: char, replacement: string)
    requires |e| == 2 && e[0] == '\\' && e[1] != c && c != '\\'
    ensures Replace(e, [c], replacement) == e
  {
    ReplaceAbsent(e, [c], replacement);
  }

  lemma EscapeJsonChar(x: char)
    ensures EscapeJson([x]) == EscapeChar(x)
  {
    ReplaceCharSingle(x, '\\', "\\\\");
    if x == '\\' {
      ReplaceAbsent("\\\\", "\"", "\\\"");
      ReplaceAbsent("\\\\", "\n", "\\n");
      ReplaceAbsent("\\\\", "\r", "\\r");
      ReplaceAbsent("\\\\", "\t", "\\t");
    } else {
      ReplaceCharSingle(x, '"', "\\\"");
      if x == '"' {
        ReplaceLeavesEscape("\\\"", '\n', "\\n");
        ReplaceLeavesEscape("\\\"", '\r', "\\r");
        ReplaceLeavesEscape("\\\"", '\t', "\\t");
      } else {
        ReplaceCharSingle(x, '\n', "\\n");
        if x == '\n' {
          ReplaceLeavesEscape("\\n", '\r', "\\r");
          ReplaceLeavesEscape("\\n", '\t', "\\t");
        } else {
          ReplaceCharSingle(x, '\r', "\\r");
          if x == '\r' {
            ReplaceLeavesEscape("\\r", '\t', "\\t");
          } else {
            ReplaceCharSingle(x, '\t', "\\t");
          }
        }
      }
    }
  }

  /** The replace chain escapes each character independently: ordering the
      backslash step first keeps the later steps from touching the
      backslashes they insert. */
  lemma {:induction false} EscapeJsonIsPerChar(s: string)
    ensures EscapeJson(s) == EscapeEach(s)
  {
    if s == [] {
      assert Replace([], "\\", "\\\\") == [];
      assert Replace([], "\"", "\\\"") == [];
      assert Replace([], "\n", "\\n") == [];
      assert Replace([], "\r", "\\r") == [];
      assert Replace([], "\t", "\\t") == [];
    } else {
      assert s == [s[0]] + s[1..];
      EscapeJsonAppend([s[0]], s[1..]);
      EscapeJsonChar(s[0]);
      EscapeJsonIsPerChar(s[1..]);
    }
  }

  /** The characters JSON (RFC 8259, section 7) forbids raw inside a string. */
  predicate IsControl(c: char) {
    c < ' '
  }

  /** The escape sequences a JSON reader decodes (section 7 of RFC 8259);
      `\u` escapes are not among them here, since this server never writes one. */
  function UnescapeCode(c: char): Option<char> {
    match c
    case '"' => Some('"')
    case '\\' => Some('\\')
    case '/' => Some('/')
    case 'b' => Some('\U{0008}')
    case 'f' => Some('\U{000C}')
    case 'n' => Some('\n')
    case 'r' => Some('\r')
    case 't' => Some('\t')
    case _ => None
  }

  /** Reference definition: what a JSON reader (such as the browser's
      `JSON.parse`) makes of the text between the quotes of a string literal,
      or None when that text is not well formed. */
  function JsonStringBody(t: string): Option<string>
    decreases |t|
  {
    if t == [] then Some([])
    else if t[0] == '"' || IsControl(t[0]) then None
    else if t[0] == '\\' then
      if |t| < 2 then None
      else match UnescapeCode(t[1])
        case None => None
        case Some(c) =>
          match JsonStringBody(t[2..])
          case None => None
          case Some(rest) => Some([c] + rest)
    else
      match JsonStringBody(t[1..])
      case None => None
      case Some(rest) => Some([t[0]] + rest)
  }

  lemma {:induction false} DecodeEscaped(s: string)
    requires forall i :: 0 <= i < |s| ==> !IsControl(s[i]) || s[i] in "\n\r\t"
    ensures JsonStringBody(EscapeEach(s)) == Some(s)
  {
    if s != [] {
      var x, rest := s[0], s[1..];
      assert forall i :: 0 <= i < |rest| ==> rest[i] == s[i + 1];
      DecodeEscaped(rest);
      DecodeOne(x, EscapeEach(rest), rest);
      assert s == [x] + rest;
    }
  }

  /** One escaped character, then text that reads back as `rest`. */
  lemma DecodeOne(x: char, t: string, rest: string)
    requires !IsControl(x) || x in "\n\r\t"
    requires JsonStringBody(t) == Some(rest)
    ensures JsonStringBody(EscapeChar(x) + t) == Some([x] + rest)
  {
    var u := EscapeChar(x) + t;
    if x in "\\\"\n\r\t" {
      assert u[0] == '\\' && u[2..] == t;
      assert UnescapeCode(u[1]) == Some(x);
    } else {
      assert u[0] == x && u[1..] == t;
    }
  }

  /** escapeJson's output, put between quotes, is a JSON string whose value
      is the input, whenever the input holds no control character other
      than newline, carriage return and tab (those others are copied raw,
      which JSON forbids). */
  lemma EscapeJsonRoundTrip(s: string)
    requires forall i :: 0 <= i < |s| ==> !IsControl(s[i]) || s[i] in "\n\r\t"
    ensures JsonStringBody(EscapeJson(s)) == Some(s)
  {
    EscapeJsonIsPerChar(s);
    DecodeEscaped(s);
  }

  lemma {:induction false} EscapeEachNoBreaks(s: string)
    ensures forall i :: 0 <= i < |EscapeEach(s)| ==> EscapeEach(s)[i] !in "\n\r\t"
  {
    if s != [] {
      EscapeEachNoBreaks(s[1..]);
      var e, t := EscapeChar(s[0]), EscapeEach(s[1..]);
      assert EscapeEach(s) == e + t;
      forall i | 0 <= i < |e + t| ensures (e + t)[i] !in "\n\r\t" {
        if i >= |e| {
          assert (e + t)[i] == t[i - |e|];
        }
      }
    }
  }

  /** escapeJson never leaves a raw newline, carriage return or tab. */
  lemma EscapeJsonNoLineBreaks(s: string)
    ensures forall i :: 0 <= i < |EscapeJson(s)| ==> EscapeJson(s)[i] !in "\n\r\t"
  {
    EscapeJsonIsPerChar(s);
    EscapeEachNoBreaks(s);
  }

  // ---------------------------------------------------------------------
  // extractJsonField / extractJsonArray
  // ---------------------------------------------------------------------

  /** The text the source builds for a string field, `"field"\s*:\s*"`:
      it reads as a regular expression but is searched for literally. */
  function LiteralFieldPattern(field: string): string {
    "\"" + field + "\"\\s*:\\s*\""
  }

  /** The same for an array field, `"field"\s*:\s*\[`. */
  function LiteralArrayPattern(field: string): string {
    "\"" + field + "\"\\s*:\\s*\\["
  }

  /** `\s` of java.util.regex. */
  predicate IsRegexSpace(c: char) {
    c == ' ' || c == '\t' || c == '\n' || c == '\U{000B}' || c == '\U{000C}' || c == '\r'
  }

  function SkipSpaces(s: string, i: nat): (j: nat)
    ensures i <= j && (j == i || j <= |s|)
    ensures forall k :: i <= k < j && k < |s| ==> IsRegexSpace(s[k])
    ensures j < |s| ==> !IsRegexSpace(s[j])
    decreases |s| - i
  {
    if i < |s| && IsRegexSpace(s[i]) then SkipSpaces(s, i + 1) else i
  }

  /** Where the regular expression `"field"\s*:\s*` followed by `opener`
      matches starting at `i`: the index of its final `opener` character. */
  function PatternAt(s: string, field: string, opener: char, i: nat): Option<nat> {
    var key := "\"" + field + "\"";
    if !MatchesAt(s, key, i) then None
    else
      var j := SkipSpaces(s, i + |key|);
      if j < |s| && s[j] == ':' then
        var k := SkipSpaces(s, j + 1);
        if k < |s| && s[k] == opener then Some(k) else None
      else None
  }

  /** `Matcher.find()` for that expression: the leftmost match at or after
      `from`, as (start of the match, index of the opener). */
  function FindPattern(s: string, field: string, opener: char, from: nat): (r: Option<(nat, nat)>)
    ensures r.Some? ==> from <= r.value.0 && PatternAt(s, field, opener, r.value.0) == Some(r.value.1)
    ensures forall i :: from <= i && (r.None? || i < r.value.0) ==> PatternAt(s, field, opener, i).None?
    decreases |s| - from
  {
    if from >= |s| then None
    else match PatternAt(s, field, opener, from)
      case Some(k) => Some((from, k))
      case None => FindPattern(s, field, opener, from + 1)
  }

  /** A quote at `k` that is not preceded by a backslash. */
  predicate ClosesAt(s: string, k: nat)
    requires 1 <= k < |s|
  {
    s[k] == '"' && s[k - 1] != '\\'
  }

  /** The source's closing-quote scan: from `e` on, the first `"` whose
      preceding character is not a backslash, or `|s|` when there is none. */
  function ClosingQuote(s: string, e: nat): (r: nat)
    requires 1 <= e <= |s|
    ensures e <= r <= |s|
    ensures r < |s| ==> ClosesAt(s, r)
    ensures forall k :: e <= k < r ==> !ClosesAt(s, k)
    decreases |s| - e
  {
    if e == |s| || (s[e] == '"' && s[e - 1] != '\\') then e else ClosingQuote(s, e + 1)
  }

  /** The closing-quote loop shared by extractJsonField and
      parseStringArray. */
  method ScanClosingQuote(s: string, e: nat) returns (r: nat)
    requires 1 <= e <= |s|
    ensures r == ClosingQuote(s, e)
  {
    r := e;
    while r < |s|
      invariant e <= r <= |s|
      invariant ClosingQuote(s, e) == ClosingQuote(s, r)
    {
      if s[r] == '"' && s[r - 1] != '\\' {
        break;
      }
      r := r + 1;
    }
  }

  /** The three replacements the source applies to an extracted value. */
  function UnescapeValue(t: string): string {
    Replace(Replace(Replace(t, "\\\"", "\""), "\\n", "\n"), "\\\\", "\\")
  }

  /** The value whose opening quote is at `q`: the text up to the closing
      quote, unescaped; None when no closing quote follows. */
  function ValueAt(json: string, q: nat): Option<string>
    requires q < |json|
  {
    var e := ClosingQuote(json, q + 1);
    if e >= |json| then None else Some(UnescapeValue(json[q + 1..e]))
  }

  /** extractJsonField as written: a literal search for the pattern text. */
  function FieldValueAsWritten(json: string, field: string): Option<string> {
    var pattern := LiteralFieldPattern(field);
    var start := IndexOf(json, pattern, 0);
    if start == -1 then None else ValueAt(json, start + |pattern| - 1)
  }

  /** extractJsonField as evidently intended: a regular-expression search;
      the value starts at the quote that ends the match. */
  function FieldValue(json: string, field: string): Option<string> {
    match FindPattern(json, field, '"', 0)
    case None => None
    case Some(m) => ValueAt(json, m.1)
  }

  /** extractJsonField, with its closing-quote loop; the start of the value
      is found with the corrected search. */
  method ExtractJsonField(json: string, field: string) returns (r: Option<string>)
    ensures r == FieldValue(json, field)
  {
    var m := FindPattern(json, field, '"', 0);
    if m.None? {
      return None;
    }
    var start := m.value.1;
    var end := ScanClosingQuote(json, start + 1);
    if end >= |json| {
      return None;
    }
    r := Some(UnescapeValue(json[start + 1..end]));
  }

  predicate NoBackslash(s: string) {
    forall i :: 0 <= i < |s| ==> s[i] != '\\'
  }

  /** A pattern cannot match where the text differs from it at one place. */
  lemma NoMatchAtDifference(json: string, pattern: string, k: nat, j: nat)
    requires k < |pattern| && (j + k < |json| ==> json[j + k] != pattern[k])
    ensures !MatchesAt(json, pattern, j)
  {
    if j + |pattern| <= |json| {
      assert json[j..j + |pattern|][k] == json[j + k];
    }
  }

  /** As written, extractJsonField finds nothing in any text without a
      backslash, since its pattern text holds `\s`: for ordinary JSON such
      as `{"type":"ping"}` every field reads as missing. */
  lemma FieldValueAsWrittenMissesPlainJson(json: string, field: string)
    requires NoBackslash(json)
    ensures FieldValueAsWritten(json, field) == None
  {
    var pattern := LiteralFieldPattern(field);
    forall j | 0 <= j ensures !MatchesAt(json, pattern, j) {
      NoMatchAtDifference(json, pattern, |field| + 2, j);
    }
  }

  /** The same for extractJsonArray's pattern. */
  lemma ArrayPatternMissesPlainJson(json: string, field: string)
    requires NoBackslash(json)
    ensures IndexOf(json, LiteralArrayPattern(field), 0) == -1
  {
    var pattern := LiteralArrayPattern(field);
    forall j | 0 <= j ensures !MatchesAt(json, pattern, j) {
      NoMatchAtDifference(json, pattern, |field| + 2, j);
    }
  }

  lemma UnescapeValuePlain(t: string)
    requires NoBackslash(t)
    ensures UnescapeValue(t) == t
  {
    ReplaceAbsent(t, "\\\"", "\"");
    ReplaceAbsent(t, "\\n", "\n");
    ReplaceAbsent(t, "\\\\", "\\");
  }

  predicate AllRegexSpace(w: string) {
    forall i :: 0 <= i < |w| ==> IsRegexSpace(w[i])
  }

  lemma SkipSpacesOver(s: string, i: nat, w: string)
    requires i + |w| <= |s| && s[i..i + |w|] == w && AllRegexSpace(w)
    requires i + |w| < |s| && !IsRegexSpace(s[i + |w|])
    ensures SkipSpaces(s, i) == i + |w|
    decreases |w|
  {
    if w != [] {
      assert s[i] == w[0];
      assert s[i + 1..i + 1 + |w[1..]|] == w[1..];
      SkipSpacesOver(s, i + 1, w[1..]);
    }
  }

  /** The match of the corrected search, stated on positions. */
  lemma PatternAtLayout(json: string, field: string, p: nat, colon: nat, q: nat)
    requires MatchesAt(json, "\"" + field + "\"", p)
    requires p + |field| + 2 <= colon < q < |json|
    requires forall k :: p + |field| + 2 <= k < colon ==> IsRegexSpace(json[k])
    requires forall k :: colon < k < q ==> IsRegexSpace(json[k])
    requires json[colon] == ':' && json[q] == '"'
    ensures PatternAt(json, field, '"', p) == Some(q)
  {
  }

  /** A value of the closing-quote scan, stated on positions. */
  lemma ClosingQuoteLayout(json: string, q: nat, e: nat)
    requires q < e < |json|
    requires forall k :: q < k < e ==> json[k] != '"'
    requires json[e] == '"' && json[e - 1] != '\\'
    ensures ClosingQuote(json, q + 1) == e
    decreases e - q
  {
    if q + 1 < e {
      ClosingQuoteLayout(json, q + 1, e);
    }
  }

  /** The corrected extractor on a text laid out as `"field" : "value"`,
      stated on positions. */
  lemma FieldValueLayout(json: string, field: string, p: nat, colon: nat, q: nat, e: nat, value: string)
    requires MatchesAt(json, "\"" + field + "\"", p)
    requires forall i :: 0 <= i < p ==> json[i] != '"'
    requires p + |field| + 2 <= colon < q < e < |json|
    requires forall k :: p + |field| + 2 <= k < colon ==> IsRegexSpace(json[k])
    requires forall k :: colon < k < q ==> IsRegexSpace(json[k])
    requires json[colon] == ':' && json[q] == '"'
    requires json[q + 1..e] == value && NoBackslash(value)
    requires forall k :: q < k < e ==> json[k] != '"'
    requires json[e] == '"' && json[e - 1] != '\\'
    ensures FieldValue(json, field) == Some(value)
  {
    var key := "\"" + field + "\"";
    PatternAtLayout(json, field, p, colon, q);
    forall i | 0 <= i < p ensures PatternAt(json, field, '"', i).None? {
      NoMatchAtDifference(json, key, 0, i);
    }
    var m := FindPattern(json, field, '"', 0);
    assert m == Some((p, q));
    ClosingQuoteLayout(json, q, e);
    UnescapeValuePlain(value);
  }

  /** The corrected extractor reads `"field" : "value"` with any spacing
      around the colon, when nothing before it holds a quote. */
  lemma FieldValueFindsField(prefix: string, field: string, w1: string, w2: string, value: string, rest: string)
    requires forall i :: 0 <= i < |prefix| ==> prefix[i] != '"'
    requires AllRegexSpace(w1) && AllRegexSpace(w2)
    requires NoBackslash(value) && forall i :: 0 <= i < |value| ==> value[i] != '"'
    ensures FieldValue(prefix + "\"" + field + "\"" + w1 + ":" + w2 + "\"" + value + "\"" + rest, field) == Some(value)
  {
    var key := "\"" + field + "\"";
    var tail := "\"" + value + "\"" + rest;
    var head := prefix + key + w1 + ":" + w2;
    var json := head + tail;
    assert json == prefix + "\"" + field + "\"" + w1 + ":" + w2 + "\"" + value + "\"" + rest;
    var p := |prefix|;
    var colon := p + |key| + |w1|;
    var q := |head|;
    var e := q + 1 + |value|;
    assert MatchesAt(json, key, p) by {
      assert json[p..p + |key|] == key;
    }
    forall i | 0 <= i < p ensures json[i] != '"' {
      assert json[i] == prefix[i];
    }
    forall k | p + |key| <= k < colon ensures IsRegexSpace(json[k]) {
      assert json[k] == w1[k - p - |key|];
    }
    forall k | colon < k < q ensures IsRegexSpace(json[k]) {
      assert json[k] == w2[k - colon - 1];
    }
    assert json[colon] == ':';
    assert json[q..] == tail;
    assert json[q + 1..e] == value by {
      assert tail[1..1 + |value|] == value;
    }
    assert json[e] == '"' && json[e - 1] != '\\' by {
      assert tail[1 + |value|] == '"';
      assert json[e - 1] == tail[|value|];
    }
    forall k | q < k < e ensures json[k] != '"' {
      assert json[k] == value[k - q - 1];
    }
    FieldValueLayout(json, field, p, colon, q, e, value);
  }

  /** The input that shows the difference: `{"type":"ping"}`. */
  lemma FieldExtractionCounterexample()
    ensures FieldValueAsWritten("{\"type\":\"ping\"}", "type") == None
    ensures FieldValue("{\"type\":\"ping\"}", "type") == Some("ping")
  {
    var json := "{\"type\":\"ping\"}";
    assert NoBackslash(json);
    FieldValueAsWrittenMissesPlainJson(json, "type");
    assert json[1..7] == "\"type\"";
    assert json[9..13] == "ping";
    FieldValueLayout(json, "type", 1, 7, 8, 13, "ping");
  }
}
