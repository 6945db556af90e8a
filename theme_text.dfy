/** The text handling of the theme server: the exhibit filter, the JSON
    list of exhibits, the escape used in the AI request, the extraction of
    the AI reply's content, the API-key line and the exhibit records read
    from the data file. */
module ThemeText {
  import opened Wrappers
  import opened JavaText
  import JsonScan
  import opened JsonLexer

  /** An exhibit of the museum data, as the data file describes it. */
  datatype Exhibit = Exhibit(id: string, name: string, era: string, theme: string, description: string)

  /** The theme in force before any is saved. */
  const Unset: string := "未設定"

  // ---------------------------------------------------------------------
  // searchExhibits

  /** The filter of `searchExhibits`: the era is equal and the exhibit's
      theme contains the current one, or no theme has been set. */
  predicate Shown(e: Exhibit, theme: string, era: string) {
    e.era == era && (Contains(e.theme, theme) || theme == Unset)
  }

  function SearchExhibits(all: seq<Exhibit>, theme: string, era: string): seq<Exhibit>
    decreases |all|
  {
    if all == [] then []
    else (if Shown(all[0], theme, era) then [all[0]] else []) + SearchExhibits(all[1..], theme, era)
  }

  /** The positions in `all` of the exhibits the filter keeps, in order. */
  function ShownAt(all: seq<Exhibit>, theme: string, era: string, from: nat): seq<nat>
    requires from <= |all|
    decreases |all| - from
  {
    if from == |all| then []
    else (if Shown(all[from], theme, era) then [from] else []) + ShownAt(all, theme, era, from + 1)
  }

  /** The search keeps exactly the exhibits the filter accepts, each at one
      increasing position of the full list: a subsequence in the original
      order. */
  lemma {:induction false} SearchIsSubsequence(all: seq<Exhibit>, theme: string, era: string, from: nat)
    requires from <= |all|
    ensures var r, idx := SearchExhibits(all[from..], theme, era), ShownAt(all, theme, era, from);
      |idx| == |r|
      && (forall k :: 0 <= k < |idx| ==> from <= idx[k] < |all| && r[k] == all[idx[k]])
      && (forall k, l :: 0 <= k < l < |idx| ==> idx[k] < idx[l])
      && (forall i :: from <= i < |all| ==> (Shown(all[i], theme, era) <==> i in idx))
    decreases |all| - from
  {
    if from < |all| {
      SearchIsSubsequence(all, theme, era, from + 1);
      assert all[from..][1..] == all[from + 1..];
      assert all[from..][0] == all[from];
    }
  }

  /** Membership: an exhibit is listed exactly when it is in the data and the
      filter accepts it; with no theme set every exhibit of the era is listed. */
  lemma SearchMembership(all: seq<Exhibit>, theme: string, era: string, e: Exhibit)
    ensures e in SearchExhibits(all, theme, era) <==> e in all && Shown(e, theme, era)
    ensures theme == Unset ==> (e in SearchExhibits(all, theme, era) <==> e in all && e.era == era)
  {
    SearchIsSubsequence(all, theme, era, 0);
    assert all[0..] == all;
    var r, idx := SearchExhibits(all, theme, era), ShownAt(all, theme, era, 0);
    if e in r {
      var k :| 0 <= k < |r| && r[k] == e;
      assert all[idx[k]] == e;
    }
    if e in all && Shown(e, theme, era) {
      var i :| 0 <= i < |all| && all[i] == e;
      assert i in idx;
      var k :| 0 <= k < |idx| && idx[k] == i;
      assert r[k] == e;
    }
  }

  // ---------------------------------------------------------------------
  // convertToJson

  /** `s.replace("\"", "\\\"")`. */
  function QuoteEscape(s: string): string {
    Replace(s, "\"", "\\\"")
  }

  /** The description as `convertToJson` writes it: newlines dropped, then
      quotes escaped. */
  function DescriptionText(s: string): string {
    QuoteEscape(Replace(s, "\n", ""))
  }

  /** One exhibit as `String.format` writes it. */
  function ExhibitJson(e: Exhibit): string {
    Lead + QuoteEscape(e.name) + Middle + DescriptionText(e.description) + Tail
  }

  /** Object `k` as the loop appends it: a comma follows all but the last. */
  function Chunk(list: seq<Exhibit>, k: nat): string
    requires k < |list|
  {
    ExhibitJson(list[k]) + (if k < |list| - 1 then "," else "")
  }

  /** The text appended by the first `i` rounds of the loop. */
  function Chunks(list: seq<Exhibit>, i: nat): string
    requires i <= |list|
    decreases i
  {
    if i == 0 then "" else Chunks(list, i - 1) + Chunk(list, i - 1)
  }

  /** One more round of the loop appends object `i` and its separator. */
  lemma ChunksStep(list: seq<Exhibit>, i: nat)
    requires i < |list|
    ensures "[" + Chunks(list, i + 1) == "[" + Chunks(list, i) + ExhibitJson(list[i]) + (if i < |list| - 1 then "," else "")
  {
    var a, b, c := Chunks(list, i), ExhibitJson(list[i]), if i < |list| - 1 then "," else "";
    assert Chunks(list, i + 1) == a + (b + c);
    Regroup("[", a, b, c);
  }

  lemma Regroup(p: string, a: string, b: string, c: string)
    ensures p + (a + (b + c)) == p + a + b + c
  {
  }

  /** What `convertToJson` returns. */
  function ExhibitsJson(list: seq<Exhibit>): string {
    "[" + Chunks(list, |list|) + "]"
  }

  /** `convertToJson`: the list built in a StringBuilder, a comma after
      every object but the last. */
  method ConvertToJson(list: seq<Exhibit>) returns (r: string)
    ensures r == ExhibitsJson(list)
  {
    r := "[";
    var i := 0;
    while i < |list|
      invariant 0 <= i <= |list|
      invariant r == "[" + Chunks(list, i)
    {
      ChunksStep(list, i);
      r := r + ExhibitJson(list[i]);
      if i < |list| - 1 {
        r := r + ",";
      }
      i := i + 1;
    }
    r := r + "]";
  }

  /** The per-character form of QuoteEscape. */
  function QuoteEach(s: string): string
    decreases |s|
  {
    if s == [] then [] else (if s[0] == '"' then "\\\"" else [s[0]]) + QuoteEach(s[1..])
  }

  lemma {:induction false} QuoteEscapeIsPerChar(s: string)
    ensures QuoteEscape(s) == QuoteEach(s)
    decreases |s|
  {
    if s == [] {
      assert Replace([], "\"", "\\\"") == [];
    } else {
      assert s == [s[0]] + s[1..];
      ReplaceCharAppend([s[0]], s[1..], '"', "\\\"");
      ReplaceCharSingle(s[0], '"', "\\\"");
      QuoteEscapeIsPerChar(s[1..]);
    }
  }

  /** Every quote of `t` has a backslash before it. */
  predicate QuotesEscaped(t: string) {
    forall i :: 0 <= i < |t| && t[i] == '"' ==> i > 0 && t[i - 1] == '\\'
  }

  lemma QuotesEscapedAppend(a: string, b: string)
    requires QuotesEscaped(a) && QuotesEscaped(b)
    ensures QuotesEscaped(a + b)
  {
    forall i | 0 <= i < |a + b| && (a + b)[i] == '"' ensures i > 0 && (a + b)[i - 1] == '\\' {
      if i >= |a| {
        assert (a + b)[i] == b[i - |a|];
        if i > |a| {
          assert (a + b)[i - 1] == b[i - 1 - |a|];
        }
      }
    }
  }

  lemma {:induction false} QuoteEachEscapes(s: string)
    ensures QuotesEscaped(QuoteEach(s))
    ensures QuoteEach(s) == [] || QuoteEach(s)[0] != '"'
    decreases |s|
  {
    if s != [] {
      QuoteEachEscapes(s[1..]);
      var head := if s[0] == '"' then "\\\"" else [s[0]];
      QuotesEscapedAppend(head, QuoteEach(s[1..]));
    }
  }

  /** Reading `\"` back as `"` recovers the text: the escape loses nothing. */
  function QuoteUnescape(t: string): string {
    Replace(t, "\\\"", "\"")
  }

  lemma {:induction false} QuoteEscapeRoundTrip(s: string)
    ensures QuoteUnescape(QuoteEscape(s)) == s
  {
    QuoteEscapeIsPerChar(s);
    QuoteEachRoundTrip(s);
  }

  lemma {:induction false} QuoteEachRoundTrip(s: string)
    ensures QuoteUnescape(QuoteEach(s)) == s
    decreases |s|
  {
    if s != [] {
      var t := QuoteEach(s[1..]);
      QuoteEachRoundTrip(s[1..]);
      QuoteEachEscapes(s[1..]);
      if s[0] == '"' {
        assert QuoteEach(s) == "\\\"" + t;
        assert ("\\\"" + t)[..2] == "\\\"" && ("\\\"" + t)[2..] == t;
      } else {
        var u := [s[0]] + t;
        assert QuoteEach(s) == u && u[1..] == t;
        if |u| >= 2 {
          assert u[..2] != "\\\"" by {
            if s[0] == '\\' {
              assert u[1] == t[0];
            }
          }
        }
      }
      assert s == [s[0]] + s[1..];
    }
  }

  /** The characters of a one-character replacement come from the text,
      other than the replaced one, or from the replacement. */
  lemma {:induction false} ReplaceCharChars(s: string, c: char, replacement: string)
    ensures forall x :: x in Replace(s, [c], replacement) ==> (x in s && x != c) || x in replacement
    decreases |s|
  {
    if s != [] {
      ReplaceCharAppend([s[0]], s[1..], c, replacement);
      ReplaceCharSingle(s[0], c, replacement);
      ReplaceCharChars(s[1..], c, replacement);
      assert s == [s[0]] + s[1..];
    } else {
      assert Replace(s, [c], replacement) == [];
    }
  }

  /** The description written has no newline, every quote in it is
      escaped, and reading the escapes back gives the description without
      its newlines; the name reads back unchanged. */
  lemma FieldsWritten(e: Exhibit)
    ensures '\n' !in DescriptionText(e.description) && QuotesEscaped(DescriptionText(e.description))
    ensures QuoteUnescape(DescriptionText(e.description)) == Replace(e.description, "\n", "")
    ensures QuotesEscaped(QuoteEscape(e.name)) && QuoteUnescape(QuoteEscape(e.name)) == e.name
  {
    var plain := Replace(e.description, "\n", "");
    ReplaceCharChars(e.description, '\n', "");
    ReplaceCharChars(plain, '"', "\\\"");
    QuoteEscapeIsPerChar(plain);
    QuoteEachEscapes(plain);
    QuoteEscapeRoundTrip(plain);
    QuoteEscapeIsPerChar(e.name);
    QuoteEachEscapes(e.name);
    QuoteEscapeRoundTrip(e.name);
  }

  predicate NoBackslash(s: string) {
    forall i :: 0 <= i < |s| ==> s[i] != '\\'
  }

  /** Inside a string, an escaped text without backslashes of its own is
      passed over as string content. */
  lemma {:induction false} QuoteEachInString(s: string, d: int)
    requires NoBackslash(s)
    ensures Run(Lex(d, true, false), QuoteEach(s)) == Lex(d, true, false)
    ensures Count(Lex(d, true, false), QuoteEach(s), ',') == 0
    ensures Count(Lex(d, true, false), QuoteEach(s), '{') == 0
    decreases |s|
  {
    if s != [] {
      var st := Lex(d, true, false);
      var head := if s[0] == '"' then "\\\"" else [s[0]];
      assert QuoteEach(s) == head + QuoteEach(s[1..]);
      RunAppend(st, head, QuoteEach(s[1..]));
      assert Run(st, head) == st && Count(st, head, ',') == 0 && Count(st, head, '{') == 0 by {
        if s[0] == '"' {
          var esc := Lex(d, true, true);
          assert head[0] == '\\' && head[1..] == "\"" && head[1..][0] == '"' && head[1..][1..] == [];
          assert Step(st, '\\') == esc && Step(esc, '"') == st;
          assert Run(esc, head[1..]) == Run(st, []) == st;
          assert Count(esc, head[1..], ',') == 0 && Count(esc, head[1..], '{') == 0;
        } else {
          assert s[0] != '\\';
          assert head[0] == s[0] && head[1..] == [];
          assert Step(st, s[0]) == st;
        }
      }
      assert NoBackslash(s[1..]) by {
        forall i | 0 <= i < |s[1..]| ensures s[1..][i] != '\\' {
          assert s[1..][i] == s[i + 1];
        }
      }
      QuoteEachInString(s[1..], d);
    }
  }

  /** The constant parts of an object of `convertToJson`: `{"name":"`,
      `","description":"` and `"}`. They are written as right-nested
      concatenations rather than single literals because the lexer lemmas
      below (ColonOpenRun, FieldNameRun) take exactly these pieces, so the
      verifier meets the same terms without splitting a literal. */
  const Lead: string := "{" + ("\"" + ("name" + ("\"" + (":" + "\""))))
  const Middle: string := "\"" + ("," + ("\"" + ("description" + ("\"" + (":" + "\"")))))
  const Tail: string := "\"" + "}"

  /** A colon and the quote opening a value, between two strings. */
  lemma ColonOpenRun(out: Lex)
    requires out == Lex(2, false, false)
    ensures Run(out, ":" + "\"") == out.(inString := true)
    ensures Count(out, ":" + "\"", ',') == 0 && Count(out, ":" + "\"", '{') == 0
  {
    NothingRun(out.(inString := true));
    QuoteRun(out, []);
    RunInert(out, ":", "\"");
  }

  /** A field name read inside its string, up to the opening quote of its
      value. */
  lemma FieldNameRun(inn: Lex, w: string)
    requires inn == Lex(2, true, false) && Inert(w)
    ensures Run(inn, w + ("\"" + (":" + "\""))) == inn
    ensures Count(inn, w + ("\"" + (":" + "\"")), ',') == 0 && Count(inn, w + ("\"" + (":" + "\"")), '{') == 0
  {
    ColonOpenRun(inn.(inString := false));
    QuoteRun(inn, ":" + "\"");
    RunInert(inn, w, "\"" + (":" + "\""));
  }

  /** The start of an object, read between the items of the array, opens
      the object and the string of the name. */
  lemma LeadRun(st: Lex)
    requires st == Lex(1, false, false)
    ensures Run(st, Lead) == Lex(2, true, false)
    ensures Count(st, Lead, ',') == 0 && Count(st, Lead, '{') == 1
  {
    var open := st.(depth := 2);
    var t := "name" + ("\"" + (":" + "\""));
    FieldNameRun(open.(inString := true), "name");
    QuoteRun(open, t);
    CharRun(st, '{', "\"" + t);
  }

  /** Between the name and the description: the name's string is closed and
      the description's opened. */
  lemma MiddleRun(inn: Lex)
    requires inn == Lex(2, true, false)
    ensures Run(inn, Middle) == inn
    ensures Count(inn, Middle, ',') == 0 && Count(inn, Middle, '{') == 0
  {
    var out := inn.(inString := false);
    var t := "description" + ("\"" + (":" + "\""));
    FieldNameRun(inn, "description");
    QuoteRun(out, t);
    RunInert(out, ",", "\"" + t);
    QuoteRun(inn, "," + ("\"" + t));
  }

  /** The end of an object closes the description's string and the object. */
  lemma TailRun(inn: Lex)
    requires inn == Lex(2, true, false)
    ensures Run(inn, Tail) == Lex(1, false, false)
    ensures Count(inn, Tail, ',') == 0 && Count(inn, Tail, '{') == 0
  {
    var out := inn.(inString := false);
    NothingRun(out.(depth := 1));
    CharRun(out, '}', []);
    QuoteRun(inn, "}");
  }

  /** A name or description, escaped as `convertToJson` does, is read as
      string content when the original has no backslash. */
  lemma FieldTextRun(inn: Lex, s: string, text: string)
    requires inn == Lex(2, true, false) && NoBackslash(s)
    requires text == QuoteEscape(s) || text == DescriptionText(s)
    ensures Run(inn, text) == inn && Count(inn, text, ',') == 0 && Count(inn, text, '{') == 0
  {
    if text == QuoteEscape(s) {
      QuoteEscapeIsPerChar(s);
      QuoteEachInString(s, 2);
    } else {
      var plain := Replace(s, "\n", "");
      ReplaceCharChars(s, '\n', "");
      assert NoBackslash(plain) by {
        forall i | 0 <= i < |plain| ensures plain[i] != '\\' {
          assert plain[i] in plain;
        }
      }
      QuoteEscapeIsPerChar(plain);
      QuoteEachInString(plain, 2);
    }
  }

  /** Everything of an object after its opening, read inside the name's
      string, closes the object. */
  lemma ObjectRestRun(inn: Lex, e: Exhibit)
    requires inn == Lex(2, true, false)
    requires NoBackslash(e.name) && NoBackslash(e.description)
    ensures var rest := QuoteEscape(e.name) + (Middle + (DescriptionText(e.description) + Tail));
      Run(inn, rest) == Lex(1, false, false) && Count(inn, rest, ',') == 0 && Count(inn, rest, '{') == 0
  {
    var name, desc := QuoteEscape(e.name), DescriptionText(e.description);
    FieldTextRun(inn, e.name, name);
    FieldTextRun(inn, e.description, desc);
    MiddleRun(inn);
    TailRun(inn);
    RunAppend(inn, desc, Tail);
    RunAppend(inn, Middle, desc + Tail);
    RunAppend(inn, name, Middle + (desc + Tail));
  }

  /** An exhibit without backslashes, read between the items of the array,
      is one object holding no comma and no further object at that depth. */
  lemma ObjectRun(st: Lex, e: Exhibit)
    requires st == Lex(1, false, false)
    requires NoBackslash(e.name) && NoBackslash(e.description)
    ensures Run(st, ExhibitJson(e)) == st
    ensures Count(st, ExhibitJson(e), ',') == 0 && Count(st, ExhibitJson(e), '{') == 1
  {
    var rest := QuoteEscape(e.name) + (Middle + (DescriptionText(e.description) + Tail));
    assert ExhibitJson(e) == Lead + rest;
    LeadRun(st);
    ObjectRestRun(st.(depth := 2, inString := true), e);
    RunAppend(st, Lead, rest);
  }

  /** The separator after an object: a comma or nothing. */
  lemma SeparatorRun(st: Lex, sep: string)
    requires st == Lex(1, false, false) && (sep == "," || sep == "")
    ensures Run(st, sep) == st && Count(st, sep, '{') == 0 && Count(st, sep, ',') == |sep|
  {
    NothingRun(st);
    if sep == "," {
      CharRun(st, ',', []);
    }
  }

  /** The first `i` objects of a list without backslashes, read inside the
      array: one object per exhibit, and a separating comma after each but
      the last of the list. */
  lemma {:induction false} ChunksBalanced(list: seq<Exhibit>, i: nat)
    requires i <= |list|
    requires forall e :: e in list ==> NoBackslash(e.name) && NoBackslash(e.description)
    ensures Run(Lex(1, false, false), Chunks(list, i)) == Lex(1, false, false)
    ensures Count(Lex(1, false, false), Chunks(list, i), '{') == i
    ensures Count(Lex(1, false, false), Chunks(list, i), ',') == if i == |list| && i > 0 then i - 1 else i
    decreases i
  {
    if i > 0 {
      var st := Lex(1, false, false);
      var e, sep := list[i - 1], if i - 1 < |list| - 1 then "," else "";
      ChunksBalanced(list, i - 1);
      ObjectRun(st, e);
      SeparatorRun(st, sep);
      RunAppend(st, ExhibitJson(e), sep);
      RunAppend(st, Chunks(list, i - 1), Chunk(list, i - 1));
    }
  }

  /** A text that leaves the reader inside the array where it found it,
      between brackets: read from the top, the reader ends at the top again,
      and meets in the brackets what it meets in the text. */
  lemma BracketedRun(st: Lex, body: string)
    requires st == Lex(0, false, false) && Run(Lex(1, false, false), body) == Lex(1, false, false)
    ensures Run(st, "[" + (body + "]")) == st
    ensures Count(st, "[" + (body + "]"), '{') == Count(Lex(1, false, false), body, '{')
    ensures Count(st, "[" + (body + "]"), ',') == Count(Lex(1, false, false), body, ',')
  {
    var inner := Lex(1, false, false);
    NothingRun(st);
    CharRun(inner, ']', []);
    RunAppend(inner, body, "]");
    CharRun(st, '[', body + "]");
  }

  /** `convertToJson` on exhibits without backslashes: an array holding one
      object per exhibit, separated by one fewer commas, and closed again;
      the empty list gives `[]`. */
  lemma ExhibitsJsonShape(list: seq<Exhibit>)
    requires forall e :: e in list ==> NoBackslash(e.name) && NoBackslash(e.description)
    ensures Run(Lex(0, false, false), ExhibitsJson(list)) == Lex(0, false, false)
    ensures Count(Lex(0, false, false), ExhibitsJson(list), '{') == |list|
    ensures Count(Lex(0, false, false), ExhibitsJson(list), ',') == if list == [] then 0 else |list| - 1
    ensures list == [] <==> ExhibitsJson(list) == "[]"
  {
    var body := Chunks(list, |list|);
    ChunksBalanced(list, |list|);
    BracketedRun(Lex(0, false, false), body);
    assert ExhibitsJson(list) == "[" + (body + "]");
    if list != [] {
      assert |body| >= |Chunk(list, |list| - 1)| >= |ExhibitJson(list[|list| - 1])| > 0;
    }
  }

  /** After an escaping backslash the quote meant to close the name is
      taken as content, and the quotes of the middle part pair up the wrong
      way round: the reader ends outside any string. */
  lemma MiddleAfterEscapeRun(esc: Lex)
    requires esc == Lex(2, true, true)
    ensures Run(esc, Middle) == Lex(2, false, false)
  {
    var inn, out := esc.(escaped := false), esc.(escaped := false, inString := false);
    NothingRun(out);
    QuoteRun(inn, []);
    RunInert(inn, ":", "\"");
    QuoteRun(out, ":" + "\"");
    RunInert(out, "description", "\"" + (":" + "\""));
    QuoteRun(inn, "description" + ("\"" + (":" + "\"")));
    RunInert(inn, ",", "\"" + ("description" + ("\"" + (":" + "\""))));
    CharRun(esc, '"', "," + ("\"" + ("description" + ("\"" + (":" + "\"")))));
  }

  /** A name that is a lone backslash escapes the quote that should close
      it: the reader is left inside a string at the end of the array. */
  lemma BackslashNameBreaksArray(e: Exhibit)
    requires e.name == "\\" && e.description == ""
    ensures Run(Lex(0, false, false), ExhibitsJson([e])).inString
  {
    assert QuoteEscape(e.name) == e.name by {
      ReplaceAbsent(e.name, "\"", "\\\"");
    }
    assert DescriptionText(e.description) == "" by {
      assert Replace(e.description, "\n", "") == "";
      assert Replace("", "\"", "\\\"") == "";
    }
    assert Chunks([e], 1) == ExhibitJson(e) by {
      assert Chunks([e], 0) == "";
    }
    var st := Lex(1, false, false);
    var inn := st.(depth := 2, inString := true);
    var head := "[" + Lead + e.name + Middle;
    assert ExhibitsJson([e]) == head + (Tail + "]");
    LeadRun(st);
    CharRun(inn, '\\', []);
    NothingRun(inn.(escaped := true));
    MiddleAfterEscapeRun(inn.(escaped := true));
    CharRun(st.(depth := 0), '[', []);
    NothingRun(st);
    RunAppend(st.(depth := 0), "[", Lead);
    RunAppend(st.(depth := 0), "[" + Lead, e.name);
    RunAppend(st.(depth := 0), "[" + Lead + e.name, Middle);
    assert Run(st.(depth := 0), head) == inn.(inString := false);
    assert Tail + "]" == "\"" + ("}" + "]");
    NothingRun(inn);
    CharRun(inn, ']', []);
    CharRun(inn, '}', "]");
    QuoteRun(inn.(inString := false), "}" + "]");
    RunAppend(st.(depth := 0), head, Tail + "]");
  }

  // ---------------------------------------------------------------------
  // escapeJson of the theme server

  /** `escapeJson` of the theme server: quotes and newlines are escaped,
      backslashes are not. */
  function EscapeJson(s: string): string {
    Replace(Replace(s, "\"", "\\\""), "\n", "\\n")
  }

  /** Reference definition: the escape of one character. */
  function EscapeChar(c: char): string {
    if c == '"' then "\\\"" else if c == '\n' then "\\n" else [c]
  }

  function EscapeEach(s: string): string
    decreases |s|
  {
    if s == [] then [] else EscapeChar(s[0]) + EscapeEach(s[1..])
  }

  lemma {:induction false} EscapeJsonIsPerChar(s: string)
    ensures EscapeJson(s) == EscapeEach(s)
    decreases |s|
  {
    if s == [] {
      assert Replace([], "\"", "\\\"") == [];
      assert Replace([], "\n", "\\n") == [];
    } else {
      var x := s[0];
      assert s == [x] + s[1..];
      ReplaceCharAppend([x], s[1..], '"', "\\\"");
      ReplaceCharSingle(x, '"', "\\\"");
      var a, b := Replace([x], "\"", "\\\""), Replace(s[1..], "\"", "\\\"");
      ReplaceCharAppend(a, b, '\n', "\\n");
      if x == '"' {
        ReplaceAbsent("\\\"", "\n", "\\n");
      } else {
        ReplaceCharSingle(x, '\n', "\\n");
      }
      EscapeJsonIsPerChar(s[1..]);
    }
  }

  /** The escaped text has no raw newline, and every quote in it has a
      backslash before it. */
  lemma {:induction false} EscapeJsonSafe(s: string)
    ensures '\n' !in EscapeJson(s) && QuotesEscaped(EscapeJson(s))
    decreases |s|
  {
    EscapeJsonIsPerChar(s);
    EscapeEachSafe(s);
  }

  lemma {:induction false} EscapeEachSafe(s: string)
    ensures '\n' !in EscapeEach(s) && QuotesEscaped(EscapeEach(s))
    decreases |s|
  {
    if s != [] {
      EscapeEachSafe(s[1..]);
      var head := EscapeChar(s[0]);
      QuotesEscapedAppend(head, EscapeEach(s[1..]));
    }
  }

  /** A backslash followed by `n` and a newline escape to the same text, so
      a JSON reader of the request body gets a newline for the former. */
  lemma EscapeJsonConflates()
    ensures EscapeJson("\\n") == EscapeJson("\n") == "\\n"
    ensures JsonScan.JsonStringBody(EscapeJson("\\n")) == Some("\n")
  {
    EscapeJsonIsPerChar("\\n");
    EscapeJsonIsPerChar("\n");
    assert "\\n"[1..] == "n" && "n"[1..] == [];
    assert "\n"[1..] == [];
    var t := "\\n";
    assert t[0] == '\\' && t[1] == 'n' && t[2..] == [];
    assert JsonScan.UnescapeCode('n') == Some('\n');
    assert JsonScan.JsonStringBody(t[2..]) == Some([]);
    assert JsonScan.JsonStringBody(t) == Some(['\n'] + []);
    assert ['\n'] + [] == "\n";
    assert EscapeJson("\\n") == t;
  }

  /** Without backslashes, carriage returns and tabs the two servers'
      escapes agree. */
  lemma {:induction false} EscapeEachAgrees(s: string)
    requires NoBackslash(s) && '\r' !in s && '\t' !in s
    ensures EscapeEach(s) == JsonScan.EscapeEach(s)
    decreases |s|
  {
    if s != [] {
      assert s[0] in s && s[0] != '\\';
      assert NoBackslash(s[1..]) && '\r' !in s[1..] && '\t' !in s[1..] by {
        assert forall x :: x in s[1..] ==> x in s;
        forall i | 0 <= i < |s[1..]| ensures s[1..][i] != '\\' {
          assert s[1..][i] == s[i + 1];
        }
      }
      EscapeEachAgrees(s[1..]);
    }
  }

  /** The prompt of the AI request is read back by a JSON reader as
      written, as long as it holds no backslash and no control character
      other than a newline. */
  lemma EscapeJsonReadBack(s: string)
    requires NoBackslash(s)
    requires forall i :: 0 <= i < |s| ==> !JsonScan.IsControl(s[i]) || s[i] == '\n'
    ensures JsonScan.JsonStringBody(EscapeJson(s)) == Some(s)
  {
    assert '\r' !in s && '\t' !in s by {
      forall i | 0 <= i < |s| ensures s[i] != '\r' && s[i] != '\t' {
        assert !JsonScan.IsControl(s[i]) || s[i] == '\n';
      }
    }
    EscapeJsonIsPerChar(s);
    JsonScan.EscapeJsonIsPerChar(s);
    EscapeEachAgrees(s);
    JsonScan.EscapeJsonRoundTrip(s);
  }

  /** The escape of the quiz server, which escapes the backslash first, is
      read back exactly: it keeps the two texts apart. */
  lemma EscapeKeepsApart()
    ensures JsonScan.JsonStringBody(JsonScan.EscapeJson("\\n")) == Some("\\n")
    ensures JsonScan.JsonStringBody(JsonScan.EscapeJson("\n")) == Some("\n")
  {
    JsonScan.EscapeJsonRoundTrip("\\n");
    JsonScan.EscapeJsonRoundTrip("\n");
  }

  // ---------------------------------------------------------------------
  // parseContentFromRawJson

  const Marker: string := "\"content\": \""

  /** The replace chain applied to the content. */
  function UnescapeContent(t: string): string {
    Replace(Replace(Replace(Replace(Replace(t, "\\n", "\n"), "\\r", ""), "\\t", " "), "\\\"", "\""), "\\\\", "\\")
  }

  /** What `parseContentFromRawJson` returns: `{}` when there is no marker,
      or no closing quote after it (the substring throws and is caught);
      otherwise the text up to the first quote that has no backslash
      before it, unescaped. */
  function ContentOf(raw: string): string {
    var at := IndexOf(raw, Marker, 0);
    if at == -1 then "{}"
    else
      var start := at + |Marker|;
      var end := JsonScan.ClosingQuote(raw, start);
      if end == |raw| then "{}" else UnescapeContent(raw[start..end])
  }

  /** From `e` to `f` no quote closes: the scan from `e` goes on at `f`. */
  lemma {:induction false} ClosingQuoteSkips(s: string, e: nat, f: nat)
    requires 1 <= e <= f <= |s|
    requires forall k :: e <= k < f ==> !JsonScan.ClosesAt(s, k)
    ensures JsonScan.ClosingQuote(s, e) == JsonScan.ClosingQuote(s, f)
    decreases f - e
  {
    if e < f {
      ClosingQuoteSkips(s, e + 1, f);
    }
  }

  /** The quote `indexOf` finds from `end` on is the next candidate for the
      closing quote; when there is none, there is no closing quote. */
  lemma NextQuote(raw: string, end: nat, next: int)
    requires 1 <= end <= |raw| && next == IndexOf(raw, "\"", end)
    ensures next == -1 ==> JsonScan.ClosingQuote(raw, end) == |raw|
    ensures next != -1 ==> end <= next < |raw| && raw[next] == '"'
    ensures next != -1 ==> JsonScan.ClosingQuote(raw, end) == JsonScan.ClosingQuote(raw, next)
  {
    IndexOfOneChar(raw, '"', end);
    var f := if next == -1 then |raw| else next;
    forall k | end <= k < f ensures !JsonScan.ClosesAt(raw, k) {
      assert NotAt(raw, '"', k);
    }
    ClosingQuoteSkips(raw, end, f);
  }

  /** One step of the closing-quote scan. */
  lemma ClosingQuoteAt(s: string, e: nat)
    requires 1 <= e < |s|
    ensures JsonScan.ClosingQuote(s, e) == if JsonScan.ClosesAt(s, e) then e else JsonScan.ClosingQuote(s, e + 1)
  {
  }

  /** `parseContentFromRawJson`; the quote loop is `FindContentEnd`. */
  method ParseContentFromRawJson(raw: string) returns (r: string)
    ensures r == ContentOf(raw)
  {
    var at := IndexOf(raw, Marker, 0);
    if at == -1 {
      return "{}";
    }
    var start := at + |Marker|;
    var end := FindContentEnd(raw, start);
    if end == -1 {
      return "{}";
    }
    r := UnescapeContent(raw[start..end]);
  }

  /** The loop of `parseContentFromRawJson` over the quotes after the marker:
      the closing quote of the value, or -1 when none follows. */
  method FindContentEnd(raw: string, start: nat) returns (end: int)
    requires 1 <= start <= |raw|
    ensures var closing := JsonScan.ClosingQuote(raw, start);
      end == if closing == |raw| then -1 else closing
  {
    ghost var closing := JsonScan.ClosingQuote(raw, start);
    end := start;
    while true
      invariant start <= end <= |raw|
      invariant JsonScan.ClosingQuote(raw, end) == closing
      decreases |raw| - end
    {
      var next := IndexOf(raw, "\"", end);
      if next == -1 {
        assert closing == |raw| by {
          NextQuote(raw, end, next);
        }
        return -1;
      }
      assert end <= next < |raw| && raw[next] == '"' && JsonScan.ClosingQuote(raw, next) == closing by {
        NextQuote(raw, end, next);
      }
      if raw[next - 1] != '\\' {
        assert closing == next by {
          ClosingQuoteAt(raw, next);
        }
        return next;
      }
      assert JsonScan.ClosingQuote(raw, next + 1) == closing by {
        ClosingQuoteAt(raw, next);
      }
      end := next + 1;
    }
  }

  /** No marker, no content. */
  lemma NoMarkerNoContent(raw: string)
    requires !Contains(raw, Marker)
    ensures ContentOf(raw) == "{}"
  {
  }

  /** The marker is found right after a prefix without quotes. */
  lemma MarkerAfter(prefix: string, tail: string)
    requires '"' !in prefix
    ensures IndexOf(prefix + Marker + tail, Marker, 0) == |prefix|
  {
    var raw := prefix + Marker + tail;
    assert raw[|prefix|..|prefix| + |Marker|] == Marker;
    assert MatchesAt(raw, Marker, |prefix|);
    forall j | 0 <= j < |prefix| ensures !MatchesAt(raw, Marker, j) {
      assert raw[j] == prefix[j];
      assert prefix[j] in prefix;
      if j + |Marker| <= |raw| {
        assert raw[j..j + |Marker|][0] == raw[j];
      }
    }
  }

  /** Text without backslashes is left alone by the replace chain. */
  lemma UnescapeContentPlain(t: string)
    requires NoBackslash(t)
    ensures UnescapeContent(t) == t
  {
    ReplaceAbsent(t, "\\n", "\n");
    ReplaceAbsent(t, "\\r", "");
    ReplaceAbsent(t, "\\t", " ");
    ReplaceAbsent(t, "\\\"", "\"");
    ReplaceAbsent(t, "\\\\", "\\");
  }

  /** A reply laid out as `...` + marker + content + `"` + rest, where no
      quote comes before the marker and the content has neither a quote nor
      a backslash, yields the content unchanged. */
  lemma ContentOfLayout(prefix: string, content: string, rest: string)
    requires '"' !in prefix && '"' !in content && NoBackslash(content)
    ensures ContentOf(prefix + Marker + content + "\"" + rest) == content
  {
    var tail := content + "\"" + rest;
    var raw := prefix + Marker + content + "\"" + rest;
    var start, e := |prefix| + |Marker|, |prefix| + |Marker| + |content|;
    assert raw == prefix + Marker + tail;
    assert IndexOf(raw, Marker, 0) == |prefix| by {
      MarkerAfter(prefix, tail);
    }
    assert JsonScan.ClosingQuote(raw, start) == e < |raw| && raw[start..e] == content by {
      assert raw[start - 1] == '"' && raw[start..] == tail;
      ClosingAfterContent(raw, start, content, rest);
    }
    ContentOfAt(raw, |prefix|, e);
    UnescapeContentPlain(content);
  }

  /** `ContentOf` once the marker and the closing quote are located. */
  lemma ContentOfAt(raw: string, at: nat, end: nat)
    requires IndexOf(raw, Marker, 0) == at && 1 <= at + |Marker| <= |raw|
    requires JsonScan.ClosingQuote(raw, at + |Marker|) == end < |raw|
    ensures ContentOf(raw) == UnescapeContent(raw[at + |Marker|..end])
  {
  }

  /** After an opening quote, a content free of quotes and backslashes is
      closed by the quote that follows it. */
  lemma ClosingAfterContent(raw: string, start: nat, content: string, rest: string)
    requires 1 <= start <= |raw| && raw[start - 1] == '"' && raw[start..] == content + "\"" + rest
    requires '"' !in content && NoBackslash(content)
    ensures JsonScan.ClosingQuote(raw, start) == start + |content| < |raw|
    ensures raw[start..start + |content|] == content
  {
    var tail := raw[start..];
    var e := start + |content|;
    assert tail[|content|] == '"';
    forall k | start <= k < e ensures raw[k] != '"' {
      assert raw[k] == tail[k - start] == content[k - start];
    }
    assert raw[e] == '"';
    assert raw[e - 1] != '\\' by {
      if |content| > 0 {
        assert raw[e - 1] == tail[|content| - 1] == content[|content| - 1];
      }
    }
    JsonScan.ClosingQuoteLayout(raw, start - 1, e);
    assert raw[start..e] == tail[..|content|];
  }

  /** A marker with no closing quote after it gives `{}`, as the caught
      exception does. */
  lemma UnclosedContent(prefix: string, content: string)
    requires '"' !in prefix && '"' !in content
    ensures ContentOf(prefix + Marker + content) == "{}"
  {
    var raw := prefix + Marker + content;
    MarkerAfter(prefix, content);
    var start := |prefix| + |Marker|;
    forall k | start <= k < |raw| ensures !JsonScan.ClosesAt(raw, k) {
      assert raw[k] == content[k - start];
    }
    ClosingQuoteSkips(raw, start, |raw|);
  }

  /** A content ending in an escaped backslash: the quote after it is taken
      for an escaped one, and with no later quote the reply is `{}`. */
  lemma EscapedBackslashBeforeQuote()
    ensures ContentOf(Marker + "a\\\\\"}") == "{}"
  {
    var tail := "a\\\\\"}";
    var raw := Marker + tail;
    MarkerAfter([], tail);
    assert [] + Marker + tail == raw;
    var start := |Marker|;
    forall k | start <= k < |raw| ensures !JsonScan.ClosesAt(raw, k) {
      assert raw[k] == tail[k - start];
    }
    ClosingQuoteSkips(raw, start, |raw|);
  }

  // ---------------------------------------------------------------------
  // loadApiKey

  const KeyPrefix: string := "OPENAI_API_KEY="

  /** The outcome of reading the key file: a key, no key, or the exception
      `substring(1, 0)` throws for a key that is a lone quote; that one is
      not an IOException, so class loading fails. */
  datatype ApiKey = Key(key: string) | NoKey | KeyFails

  /** The key of a line that starts with the prefix: what follows the first
      `=`, trimmed, with one pair of surrounding quotes removed. */
  function KeyOfLine(line: string): ApiKey
    requires StartsWith(line, KeyPrefix)
  {
    Unquoted(Trim(line[|KeyPrefix|..]))
  }

  /** One pair of surrounding quotes removed, by `substring(1, length - 1)`. */
  function Unquoted(key: string): ApiKey {
    if StartsWith(key, "\"") && EndsWith(key, "\"") then
      if |key| < 2 then KeyFails else Key(key[1..|key| - 1])
    else Key(key)
  }

  /** A line made of the prefix and `tail`: its key is read from `tail`. */
  lemma KeyLine(tail: string)
    ensures StartsWith(KeyPrefix + tail, KeyPrefix)
    ensures KeyOfLine(KeyPrefix + tail) == Unquoted(Trim(tail))
  {
    var line := KeyPrefix + tail;
    assert line[..|KeyPrefix|] == KeyPrefix;
    assert line[|KeyPrefix|..] == tail;
  }

  /** The first line starting with the prefix decides; no such line, no key. */
  function KeyOf(lines: seq<string>): ApiKey
    decreases |lines|
  {
    if lines == [] then NoKey
    else if StartsWith(lines[0], KeyPrefix) then KeyOfLine(lines[0])
    else KeyOf(lines[1..])
  }

  /** `loadApiKey` over the lines of the file, None when there is no file. */
  method LoadApiKey(file: Option<seq<string>>) returns (r: ApiKey)
    ensures file.None? ==> r == NoKey
    ensures file.Some? ==> r == KeyOf(file.value)
  {
    if file.None? {
      return NoKey;
    }
    var lines := file.value;
    var i := 0;
    while i < |lines|
      invariant 0 <= i <= |lines|
      invariant KeyOf(lines) == KeyOf(lines[i..])
    {
      assert lines[i..][1..] == lines[i + 1..];
      if StartsWith(lines[i], KeyPrefix) {
        return KeyOfLine(lines[i]);
      }
      i := i + 1;
    }
    return NoKey;
  }

  predicate Blank(w: string) {
    forall i :: 0 <= i < |w| ==> w[i] <= ' '
  }

  lemma {:induction false} TrimStartBlank(w: string, m: string)
    requires Blank(w) && (m == [] || m[0] > ' ')
    ensures TrimStart(w + m) == m
    decreases |w|
  {
    if w == [] {
      assert w + m == m;
    } else {
      assert (w + m)[1..] == w[1..] + m;
      TrimStartBlank(w[1..], m);
    }
  }

  lemma {:induction false} TrimEndBlank(m: string, w: string)
    requires Blank(w) && (m == [] || m[|m| - 1] > ' ')
    ensures TrimEnd(m + w) == m
    decreases |w|
  {
    if w == [] {
      assert m + w == m;
    } else {
      assert (m + w)[..|m + w| - 1] == m + w[..|w| - 1];
      TrimEndBlank(m, w[..|w| - 1]);
    }
  }

  /** Surrounding blanks are trimmed from a text that starts and ends with a
      visible character. */
  lemma TrimBlanks(w1: string, m: string, w2: string)
    requires Blank(w1) && Blank(w2) && (m == [] || (m[0] > ' ' && m[|m| - 1] > ' '))
    ensures Trim(w1 + m + w2) == m
  {
    if m == [] {
      assert w1 + m + w2 == w1 + w2;
      TrimStartBlank(w1 + w2, []);
      assert w1 + w2 + [] == w1 + w2;
      TrimEndBlank([], []);
    } else {
      TrimStartBlank(w1, m + w2);
      assert w1 + m + w2 == w1 + (m + w2);
      TrimEndBlank(m, w2);
    }
  }

  /** Lines before the key line that do not start with the prefix are
      skipped, and lines after it are never looked at. */
  lemma {:induction false} KeyOfFirstMatch(before: seq<string>, line: string, after: seq<string>)
    requires forall i :: 0 <= i < |before| ==> !StartsWith(before[i], KeyPrefix)
    requires StartsWith(line, KeyPrefix)
    ensures KeyOf(before + [line] + after) == KeyOfLine(line)
    decreases |before|
  {
    var all := before + [line] + after;
    if before == [] {
      assert all[0] == line;
    } else {
      assert all[0] == before[0] && all[1..] == before[1..] + [line] + after;
      KeyOfFirstMatch(before[1..], line, after);
    }
  }

  /** A key written between quotes, with blanks around, is read back as
      written, whatever it holds. */
  lemma QuotedKeyRead(before: seq<string>, w1: string, key: string, w2: string, after: seq<string>)
    requires forall i :: 0 <= i < |before| ==> !StartsWith(before[i], KeyPrefix)
    requires Blank(w1) && Blank(w2)
    ensures KeyOf(before + [KeyPrefix + (w1 + ("\"" + key + "\"") + w2)] + after) == Key(key)
  {
    var q := "\"" + key + "\"";
    KeyLine(w1 + q + w2);
    KeyOfFirstMatch(before, KeyPrefix + (w1 + q + w2), after);
    TrimBlanks(w1, q, w2);
    assert q[1..|q| - 1] == key;
  }

  /** A key written without quotes, with blanks around, is read back as
      written, unless it both starts and ends with a quote. */
  lemma PlainKeyRead(before: seq<string>, w1: string, key: string, w2: string, after: seq<string>)
    requires forall i :: 0 <= i < |before| ==> !StartsWith(before[i], KeyPrefix)
    requires Blank(w1) && Blank(w2) && (key == [] || (key[0] > ' ' && key[|key| - 1] > ' '))
    requires !(StartsWith(key, "\"") && EndsWith(key, "\""))
    ensures KeyOf(before + [KeyPrefix + (w1 + key + w2)] + after) == Key(key)
  {
    KeyLine(w1 + key + w2);
    KeyOfFirstMatch(before, KeyPrefix + (w1 + key + w2), after);
    TrimBlanks(w1, key, w2);
  }

  /** No line starting with the prefix: no key. */
  lemma {:induction false} NoKeyLine(lines: seq<string>)
    requires forall i :: 0 <= i < |lines| ==> !StartsWith(lines[i], KeyPrefix)
    ensures KeyOf(lines) == NoKey
    decreases |lines|
  {
    if lines != [] {
      assert !StartsWith(lines[0], KeyPrefix);
      NoKeyLine(lines[1..]);
    }
  }

  /** A key that is a lone quote, with blanks around, makes
      `substring(1, 0)` throw. */
  lemma LoneQuoteKeyFails(before: seq<string>, w1: string, w2: string, after: seq<string>)
    requires forall i :: 0 <= i < |before| ==> !StartsWith(before[i], KeyPrefix)
    requires Blank(w1) && Blank(w2)
    ensures KeyOf(before + [KeyPrefix + (w1 + "\"" + w2)] + after) == KeyFails
  {
    KeyLine(w1 + "\"" + w2);
    KeyOfFirstMatch(before, KeyPrefix + (w1 + "\"" + w2), after);
    TrimBlanks(w1, "\"", w2);
  }

  // ---------------------------------------------------------------------
  // loadJsonData

  /** The position of the first brace at or after `i`, or `|s|`. */
  function NextBrace(s: string, i: nat): (r: nat)
    requires i <= |s|
    ensures i <= r <= |s| && (r < |s| ==> s[r] in "{}")
    ensures forall k :: i <= k < r ==> s[k] !in "{}"
    decreases |s| - i
  {
    if i == |s| || s[i] in "{}" then i else NextBrace(s, i + 1)
  }

  /** The successive matches of `\{([^{}]*)\}`: a `{` whose next brace is
      a `}`; the text between them is the group, and the search goes on
      after the `}`. */
  function ObjectBodies(s: string): seq<string>
    decreases |s|
  {
    if s == [] then []
    else if s[0] != '{' then ObjectBodies(s[1..])
    else
      var q := NextBrace(s, 1);
      if q < |s| && s[q] == '}' then [s[1..q]] + ObjectBodies(s[q + 1..])
      else ObjectBodies(s[1..])
  }

  predicate NoBraces(s: string) {
    forall i :: 0 <= i < |s| ==> s[i] !in "{}"
  }

  /** The array text `[{b1},{b2},...]` of brace-free bodies. */
  function ArrayOf(bodies: seq<string>): string
    decreases |bodies|
  {
    if bodies == [] then ""
    else "{" + bodies[0] + "}" + (if |bodies| == 1 then "" else "," + ArrayOf(bodies[1..]))
  }

  /** Text without an opening brace holds no match. */
  lemma {:induction false} ObjectBodiesSkip(x: string, y: string)
    requires '{' !in x
    ensures ObjectBodies(x + y) == ObjectBodies(y)
    decreases |x|
  {
    if x == [] {
      assert x + y == y;
    } else {
      assert (x + y)[0] == x[0] && (x + y)[1..] == x[1..] + y;
      ObjectBodiesSkip(x[1..], y);
    }
  }

  lemma ObjectBodiesOne(b: string, y: string)
    requires NoBraces(b)
    ensures ObjectBodies("{" + b + "}" + y) == [b] + ObjectBodies(y)
  {
    var s := "{" + b + "}" + y;
    assert forall k :: 1 <= k < |b| + 1 ==> s[k] == b[k - 1];
    assert NextBrace(s, 1) == |b| + 1 by {
      assert s[|b| + 1] == '}';
    }
    assert s[1..|b| + 1] == b && s[|b| + 2..] == y;
  }

  /** The matches of an array of brace-free objects are their bodies, in
      order. */
  lemma {:induction false} ObjectBodiesOfArray(bodies: seq<string>)
    requires forall i :: 0 <= i < |bodies| ==> NoBraces(bodies[i])
    ensures ObjectBodies("[" + ArrayOf(bodies) + "]") == bodies
  {
    ObjectBodiesSkip("[", ArrayOf(bodies) + "]");
    assert "[" + ArrayOf(bodies) + "]" == "[" + (ArrayOf(bodies) + "]");
    ObjectBodiesOfItems(bodies);
  }

  lemma {:induction false} ObjectBodiesOfItems(bodies: seq<string>)
    requires forall i :: 0 <= i < |bodies| ==> NoBraces(bodies[i])
    ensures ObjectBodies(ArrayOf(bodies) + "]") == bodies
    decreases |bodies|
  {
    if bodies == [] {
      assert ArrayOf(bodies) + "]" == "]";
    } else {
      var b, head := bodies[0], "{" + bodies[0] + "}";
      var more := if |bodies| == 1 then "" else "," + ArrayOf(bodies[1..]);
      var rest := more + "]";
      assert ArrayOf(bodies) + "]" == head + rest by {
        assert ArrayOf(bodies) == head + more;
      }
      assert ObjectBodies(head + rest) == [b] + ObjectBodies(rest) by {
        ObjectBodiesOne(b, rest);
      }
      assert ObjectBodies(rest) == bodies[1..] by {
        if |bodies| == 1 {
          assert rest == "]" && "]"[1..] == [];
        } else {
          var tail := ArrayOf(bodies[1..]);
          assert rest == "," + (tail + "]");
          ObjectBodiesSkip(",", tail + "]");
          ObjectBodiesOfItems(bodies[1..]);
        }
      }
      assert bodies == [b] + bodies[1..];
    }
  }

  /** A missing field is the empty string. */
  function OrEmpty(v: Option<string>): string {
    if v.Some? then v.value else ""
  }

  /** The exhibit `loadJsonData` builds from one object, given the field
      lookup `field(object, key)`: only one with a non-empty name. */
  function ExhibitOf(body: string, field: (string, string) -> Option<string>): Option<Exhibit> {
    var name := field(body, "name");
    if name.Some? && name.value != "" then
      Some(Exhibit(OrEmpty(field(body, "id")), name.value, OrEmpty(field(body, "era")),
                   OrEmpty(field(body, "theme")), OrEmpty(field(body, "description"))))
    else None
  }

  /** The exhibits of all objects, in order. */
  function ExhibitsOf(bodies: seq<string>, field: (string, string) -> Option<string>): seq<Exhibit>
    decreases |bodies|
  {
    if bodies == [] then []
    else
      var rest := ExhibitsOf(bodies[..|bodies| - 1], field);
      match ExhibitOf(bodies[|bodies| - 1], field)
      case Some(e) => rest + [e]
      case None => rest
  }

  /** A record lookup that reports an exhibit's fields, the empty ones as
      missing. */
  function FieldsOf(x: Exhibit): (string, string) -> Option<string> {
    (body: string, key: string) =>
      var v := if key == "id" then x.id else if key == "name" then x.name else if key == "era" then x.era
        else if key == "theme" then x.theme else if key == "description" then x.description else "";
      if v == "" then None else Some(v)
  }

  /** Loading an object whose fields are an exhibit's gives that exhibit
      back when its name is not empty, and nothing when it is; missing
      fields come back as empty strings. */
  lemma ExhibitOfFields(body: string, x: Exhibit)
    ensures ExhibitOf(body, FieldsOf(x)) == if x.name == "" then None else Some(x)
  {
  }

  /** Every loaded exhibit has a name, and each comes from one of the
      objects, in their order. */
  lemma {:induction false} LoadedExhibitsNamed(bodies: seq<string>, field: (string, string) -> Option<string>)
    ensures forall e :: e in ExhibitsOf(bodies, field) ==>
      (e.name != "" && exists i :: 0 <= i < |bodies| && ExhibitOf(bodies[i], field) == Some(e))
    ensures |ExhibitsOf(bodies, field)| <= |bodies|
    decreases |bodies|
  {
    if bodies != [] {
      var init := bodies[..|bodies| - 1];
      LoadedExhibitsNamed(init, field);
      forall e | e in ExhibitsOf(bodies, field)
        ensures e.name != "" && exists i :: 0 <= i < |bodies| && ExhibitOf(bodies[i], field) == Some(e)
      {
        if e in ExhibitsOf(init, field) {
          var i :| 0 <= i < |init| && ExhibitOf(init[i], field) == Some(e);
          assert bodies[i] == init[i];
        } else {
          assert ExhibitOf(bodies[|bodies| - 1], field) == Some(e);
        }
      }
    }
  }
}
