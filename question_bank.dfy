/** The text scanners that turn request bodies and the quiz file into
    question data: extractJsonArray, parseStringArray, parseIntArray and
    parseQuestions. */
module QuestionBank {
  import opened Wrappers
  import opened JavaText
  import opened JsonScan
  import opened QuizModel

  // ---------------------------------------------------------------------
  // extractJsonArray
  // ---------------------------------------------------------------------

  /** From the match at `from`: the text from the first `[` up to and
      including the first `]` after it. */
  function BracketText(json: string, from: nat): Option<string> {
    var open := IndexOfChar(json, '[', from);
    if open == -1 then None
    else
      var close := IndexOfChar(json, ']', open);
      if close == -1 then None else Some(json[open..close + 1])
  }

  /** extractJsonArray as written: a literal search for the pattern text. */
  function ArrayTextAsWritten(json: string, field: string): Option<string> {
    var start := IndexOf(json, LiteralArrayPattern(field), 0);
    if start == -1 then None else BracketText(json, start)
  }

  /** extractJsonArray with the regular-expression search it evidently means. */
  function ArrayText(json: string, field: string): Option<string> {
    match FindPattern(json, field, '[', 0)
    case None => None
    case Some(m) => BracketText(json, m.0)
  }

  /** As written, no array field is ever found in JSON without backslashes. */
  lemma ArrayTextAsWrittenMissesPlainJson(json: string, field: string)
    requires NoBackslash(json)
    ensures ArrayTextAsWritten(json, field) == None
  {
    ArrayPatternMissesPlainJson(json, field);
  }

  /** A found array text runs from a `[` to the first `]` after it. */
  lemma ArrayTextShape(json: string, field: string)
    requires ArrayText(json, field).Some?
    ensures var t := ArrayText(json, field).value;
      |t| >= 2 && t[0] == '[' && t[|t| - 1] == ']'
      && forall k :: 0 < k < |t| - 1 ==> t[k] != ']'
  {
    var m := FindPattern(json, field, '[', 0).value;
    assert ArrayText(json, field) == BracketText(json, m.0);
    BracketTextShape(json, m.0);
  }

  /** The bracket text from any position runs from a `[` to the first `]`. */
  lemma BracketTextShape(json: string, from: nat)
    requires BracketText(json, from).Some?
    ensures var t := BracketText(json, from).value;
      |t| >= 2 && t[0] == '[' && t[|t| - 1] == ']'
      && forall k :: 0 < k < |t| - 1 ==> t[k] != ']'
  {
    var open := IndexOfChar(json, '[', from);
    var close := IndexOfChar(json, ']', open);
    var t := json[open..close + 1];
    assert t[0] == json[open] && t[|t| - 1] == json[close];
    forall k | 0 < k < |t| - 1 ensures t[k] != ']' {
      assert t[k] == json[open + k];
      assert NotAt(json, ']', open + k);
    }
  }

  // ---------------------------------------------------------------------
  // parseStringArray
  // ---------------------------------------------------------------------

  /** The items parseStringArray collects from index `from` on: for each
      `"`, the text up to the next quote not preceded by a backslash, kept
      only when such a quote exists. Escapes stay as they are. */
  function StringItems(s: string, from: nat): seq<string>
    decreases |s| + 1 - from
  {
    match ItemAt(s, from)
    case None => []
    case Some((item, next)) => (if item.Some? then [item.value] else []) + StringItems(s, next)
  }

  /** One round of the outer loop from `from`: none when no quote is left,
      else the item (when a closing quote was found) and where the next
      round starts. */
  function ItemAt(s: string, from: nat): (r: Option<(Option<string>, nat)>)
    ensures r.Some? ==> from < r.value.1 <= |s| + 1
  {
    var start := IndexOfChar(s, '"', from);
    if start == -1 then None
    else
      var end := ClosingQuote(s, start + 1);
      Some((if end < |s| then Some(s[start + 1..end]) else None, end + 1))
  }

  /** parseStringArray, with its two nested scanning loops. */
  method ParseStringArray(arrayJson: string) returns (items: seq<string>)
    ensures items == StringItems(arrayJson, 0)
  {
    items := [];
    var from := 0;
    while true
      invariant from <= |arrayJson| + 1
      invariant items + StringItems(arrayJson, from) == StringItems(arrayJson, 0)
      decreases |arrayJson| + 1 - from
    {
      var start := IndexOfChar(arrayJson, '"', from);
      if start == -1 {
        assert ItemAt(arrayJson, from) == None;
        break;
      }
      var end := ScanClosingQuote(arrayJson, start + 1);
      ghost var before := items;
      if end < |arrayJson| {
        items := items + [arrayJson[start + 1..end]];
      }
      assert items + StringItems(arrayJson, end + 1) == StringItems(arrayJson, 0) by {
        ItemRound(arrayJson, from, start, end);
        if end < |arrayJson| {
          ItemsAssociate(before, [arrayJson[start + 1..end]], StringItems(arrayJson, end + 1));
        }
      }
      from := end + 1;
    }
  }

  /** One round of the outer loop of parseStringArray, on the items it yields. */
  lemma ItemRound(s: string, from: nat, start: int, end: nat)
    requires start == IndexOfChar(s, '"', from) && start != -1
    requires start + 1 <= |s| && end == ClosingQuote(s, start + 1)
    ensures end < |s| ==> StringItems(s, from) == [s[start + 1..end]] + StringItems(s, end + 1)
    ensures end == |s| ==> StringItems(s, from) == StringItems(s, end + 1)
  {
    if end < |s| {
      assert ItemAt(s, from) == Some((Some(s[start + 1..end]), end + 1));
    } else {
      assert ItemAt(s, from) == Some((None, end + 1));
    }
  }

  lemma ItemsAssociate(a: seq<string>, b: seq<string>, c: seq<string>)
    ensures a + (b + c) == a + b + c
  {
  }

  /** An item a client can send unchanged: no quote and no backslash. */
  predicate PlainItem(t: string) {
    forall i :: 0 <= i < |t| ==> t[i] != '"' && t[i] != '\\'
  }

  function Quoted(t: string): string {
    "\"" + t + "\""
  }

  /** The items written as JSON strings separated by commas. */
  function JoinQuoted(items: seq<string>): string
    decreases |items|
  {
    if items == [] then ""
    else if |items| == 1 then Quoted(items[0])
    else Quoted(items[0]) + "," + JoinQuoted(items[1..])
  }

  /** A JSON array of plain strings, as the quiz file holds one. */
  function StringArrayText(items: seq<string>): string {
    "[" + JoinQuoted(items) + "]"
  }

  lemma NoQuoteFrom(s: string, from: nat)
    requires forall k :: from <= k < |s| ==> s[k] != '"'
    ensures StringItems(s, from) == []
  {
    assert ItemAt(s, from) == None;
  }

  /** One item: the first quote from `from` is at `i` and the closing one at `e`. */
  lemma ItemStep(s: string, from: nat, i: nat, e: nat, a: string, next: nat)
    requires from <= i < e < |s| && next == e + 1 && a == s[i + 1..e]
    requires forall k :: from <= k < i ==> s[k] != '"'
    requires s[i] == '"' && s[e] == '"' && s[e - 1] != '\\'
    requires forall k :: i < k < e ==> s[k] != '"'
    ensures StringItems(s, from) == [a] + StringItems(s, next)
  {
    assert !NotAt(s, '"', i);
    assert IndexOfChar(s, '"', from) == i;
    ClosingQuoteLayout(s, i, e);
    assert ItemAt(s, from) == Some((Some(s[i + 1..e]), e + 1));
  }

  /** Where the parts of `pre`, a quoted `a` and `tail` sit in their text. */
  lemma QuotedLayout(pre: string, a: string, tail: string, s: string)
    requires s == pre + Quoted(a) + tail
    ensures |s| == |pre| + |a| + 2 + |tail|
    ensures s[|pre|] == '"' && s[|pre| + |a| + 1] == '"' && s[|pre| + 1..|pre| + |a| + 1] == a
    ensures s[..|pre|] == pre
  {
    var q := Quoted(a);
    assert q[0] == '"' && q[|a| + 1] == '"' && q[1..|a| + 1] == a;
    assert s == pre + (q + tail);
    assert s[|pre|..|pre| + |q|] == q;
  }

  /** The quotes around `a` delimit the first item read from `from`. */
  lemma HeadItemQuotes(pre: string, a: string, tail: string, from: nat, s: string, i: nat, e: nat)
    requires from <= |pre| && forall k :: from <= k < |pre| ==> pre[k] != '"'
    requires PlainItem(a) && s == pre + Quoted(a) + tail
    requires i == |pre| && e == |pre| + |a| + 1
    ensures from <= i < e < |s| && a == s[i + 1..e]
    ensures forall k :: from <= k < i ==> s[k] != '"'
    ensures s[i] == '"' && s[e] == '"' && s[e - 1] != '\\'
    ensures forall k :: i < k < e ==> s[k] != '"'
  {
    QuotedLayout(pre, a, tail, s);
    var body := s[i + 1..e];
    assert s[e - 1] != '\\' by {
      if |a| > 0 { assert s[e - 1] == body[|a| - 1]; }
    }
    forall k | from <= k < i ensures s[k] != '"' {
      assert s[k] == s[..i][k];
    }
    forall k | i < k < e ensures s[k] != '"' {
      assert s[k] == body[k - i - 1];
    }
  }

  /** The first quoted item after `pre`. */
  lemma HeadItem(pre: string, a: string, tail: string, from: nat, s: string)
    requires from <= |pre| && forall k :: from <= k < |pre| ==> pre[k] != '"'
    requires PlainItem(a) && s == pre + Quoted(a) + tail
    ensures StringItems(s, from) == [a] + StringItems(s, |pre| + |a| + 2)
  {
    var i, e := |pre|, |pre| + |a| + 1;
    HeadItemQuotes(pre, a, tail, from, s, i, e);
    ItemStep(s, from, i, e, a, |pre| + |a| + 2);
  }

  lemma OneItem(pre: string, a: string, post: string, from: nat)
    requires from <= |pre| && forall k :: from <= k < |pre| ==> pre[k] != '"'
    requires forall k :: 0 <= k < |post| ==> post[k] != '"'
    requires PlainItem(a)
    ensures StringItems(pre + Quoted(a) + post, from) == [a]
  {
    var s := pre + Quoted(a) + post;
    var e := |pre| + |a| + 1;
    HeadItem(pre, a, post, from, s);
    forall k | e + 1 <= k < |s| ensures s[k] != '"' {
      assert s[k] == post[k - e - 1];
    }
    NoQuoteFrom(s, e + 1);
  }

  lemma {:induction false} JoinedItems(pre: string, items: seq<string>, post: string, from: nat)
    requires from <= |pre| && forall k :: from <= k < |pre| ==> pre[k] != '"'
    requires forall k :: 0 <= k < |post| ==> post[k] != '"'
    requires forall j :: 0 <= j < |items| ==> PlainItem(items[j])
    ensures StringItems(pre + JoinQuoted(items) + post, from) == items
    decreases |items|, 1
  {
    if |items| <= 1 {
      AtMostOneItem(pre, items, post, from);
    } else {
      SeveralItems(pre, items, post, from);
    }
  }

  /** The inductive step: the first item is read, and the rest read back
      from just before the opening quote of the second. */
  lemma {:induction false} SeveralItems(pre: string, items: seq<string>, post: string, from: nat)
    requires from <= |pre| && forall k :: from <= k < |pre| ==> pre[k] != '"'
    requires forall k :: 0 <= k < |post| ==> post[k] != '"'
    requires forall j :: 0 <= j < |items| ==> PlainItem(items[j])
    requires |items| > 1
    ensures StringItems(pre + JoinQuoted(items) + post, from) == items
    decreases |items|, 0
  {
    var pre', rest := pre + Quoted(items[0]) + ",", items[1..];
    FirstOfSeveral(pre, items, post, from, pre');
    JoinedItems(pre', rest, post, |pre'| - 1);
    HeadAndRest(items, rest);
  }

  lemma HeadAndRest(items: seq<string>, rest: seq<string>)
    requires |items| >= 1 && rest == items[1..]
    ensures [items[0]] + rest == items
  {
  }

  lemma AtMostOneItem(pre: string, items: seq<string>, post: string, from: nat)
    requires from <= |pre| && forall k :: from <= k < |pre| ==> pre[k] != '"'
    requires forall k :: 0 <= k < |post| ==> post[k] != '"'
    requires forall j :: 0 <= j < |items| ==> PlainItem(items[j])
    requires |items| <= 1
    ensures StringItems(pre + JoinQuoted(items) + post, from) == items
  {
    if items == [] {
      assert pre + JoinQuoted(items) + post == pre + post;
      NoQuoteFrom(pre + post, from);
    } else {
      assert JoinQuoted(items) == Quoted(items[0]);
      OneItem(pre, items[0], post, from);
      assert items == [items[0]];
    }
  }

  /** Reading two or more items: the first one, then the rest read after
      its closing quote, which ends a prefix ending with the comma. */
  lemma FirstOfSeveral(pre: string, items: seq<string>, post: string, from: nat, pre': string)
    requires from <= |pre| && forall k :: from <= k < |pre| ==> pre[k] != '"'
    requires forall j :: 0 <= j < |items| ==> PlainItem(items[j])
    requires |items| >= 2 && pre' == pre + Quoted(items[0]) + ","
    ensures StringItems(pre + JoinQuoted(items) + post, from)
         == [items[0]] + StringItems(pre' + JoinQuoted(items[1..]) + post, |pre'| - 1)
    ensures |pre'| >= 1 && forall k :: |pre'| - 1 <= k < |pre'| ==> pre'[k] != '"'
    ensures forall j :: 0 <= j < |items[1..]| ==> PlainItem(items[1..][j])
  {
    var a, rest := items[0], items[1..];
    var s := pre + JoinQuoted(items) + post;
    assert StringItems(s, from) == [a] + StringItems(s, |pre| + |a| + 2) by {
      var x := "," + JoinQuoted(rest) + post;
      JoinHead(pre, items, post);
      HeadItem(pre, a, x, from, s);
    }
    assert StringItems(s, |pre| + |a| + 2) == StringItems(pre' + JoinQuoted(rest) + post, |pre'| - 1) by {
      JoinSplit(pre, items, post);
      assert |pre'| - 1 == |pre| + |a| + 2;
    }
    forall j | 0 <= j < |rest| ensures PlainItem(rest[j]) {
      assert rest[j] == items[j + 1];
    }
    forall k | |pre'| - 1 <= k < |pre'| ensures pre'[k] != '"' {
      assert k == |pre'| - 1 && pre'[k] == ',';
    }
  }

  /** The text of two or more items is the first one, a comma and the rest. */
  lemma JoinSplit(pre: string, items: seq<string>, post: string)
    requires |items| >= 2
    ensures pre + JoinQuoted(items) + post == (pre + Quoted(items[0]) + ",") + JoinQuoted(items[1..]) + post
  {
    var q, tail := Quoted(items[0]), JoinQuoted(items[1..]);
    assert JoinQuoted(items) == q + "," + tail;
    Associate(pre, q + ",", tail);
    Associate(pre, q, ",");
  }

  /** The same, read from the first item on. */
  lemma JoinHead(pre: string, items: seq<string>, post: string)
    requires |items| >= 2
    ensures pre + JoinQuoted(items) + post == pre + Quoted(items[0]) + ("," + JoinQuoted(items[1..]) + post)
  {
    var q, tail := Quoted(items[0]), JoinQuoted(items[1..]);
    assert JoinQuoted(items) == q + "," + tail;
    Associate(pre, q, "," + tail + post);
    Associate(q, ",", tail);
    Associate(q + ",", tail, post);
    Associate(",", tail, post);
    Associate(pre, q + "," + tail, post);
  }

  lemma Associate(a: string, b: string, c: string)
    ensures a + (b + c) == a + b + c
  {
  }

  /** parseStringArray reads back every plain item of a JSON string array. */
  lemma StringArrayRoundTrip(items: seq<string>)
    requires forall j :: 0 <= j < |items| ==> PlainItem(items[j])
    ensures StringItems(StringArrayText(items), 0) == items
  {
    JoinedItems("[", items, "]", 0);
  }

  // ---------------------------------------------------------------------
  // parseIntArray
  // ---------------------------------------------------------------------

  predicate KeptChar(c: char) {
    IsDigit(c) || c == ','
  }

  /** `replaceAll("[^0-9,]", "")`: only digits and commas are kept. */
  function KeepDigitsAndCommas(s: string): (r: string)
    ensures forall i :: 0 <= i < |r| ==> KeptChar(r[i])
  {
    if s == [] then [] else (if KeptChar(s[0]) then [s[0]] else []) + KeepDigitsAndCommas(s[1..])
  }

  /** The ids of the non-empty pieces, in order; None when parseInt throws
      on one of them. */
  function IdsOf(pieces: seq<string>): Option<seq<int>>
    decreases |pieces|
  {
    if pieces == [] then Some([])
    else
      match IdsOf(pieces[..|pieces| - 1])
      case None => None
      case Some(xs) =>
        var last := pieces[|pieces| - 1];
        if last == [] then Some(xs)
        else match ParseInt(last)
          case None => None
          case Some(v) => Some(xs + [v])
  }

  /** What parseIntArray returns for `json`, or None when it throws. */
  function ParsedIds(json: string): Option<seq<int>> {
    IdsOf(Split(KeepDigitsAndCommas(json), ","))
  }

  /** parseIntArray, with its loop over the pieces. */
  method ParseIntArray(json: string) returns (r: Option<seq<int>>)
    ensures r == ParsedIds(json)
  {
    var pieces := Split(KeepDigitsAndCommas(json), ",");
    var ids: seq<int> := [];
    var i := 0;
    while i < |pieces|
      invariant i <= |pieces|
      invariant IdsOf(pieces[..i]) == Some(ids)
    {
      assert pieces[..i + 1][..i] == pieces[..i];
      var s := pieces[i];
      if s != [] {
        var v := ParseInt(s);
        if v.None? {
          assert IdsOf(pieces[..i + 1]) == None;
          IdsOfNonePrefix(pieces, i + 1);
          assert pieces[..|pieces|] == pieces;
          return None;
        }
        ids := ids + [v.value];
      }
      i := i + 1;
    }
    assert pieces[..i] == pieces;
    return Some(ids);
  }

  /** Once a prefix throws, the whole list throws. */
  lemma {:induction false} IdsOfNonePrefix(pieces: seq<string>, n: nat)
    requires n <= |pieces| && IdsOf(pieces[..n]) == None
    ensures IdsOf(pieces) == None
    decreases |pieces| - n
  {
    if n < |pieces| {
      assert pieces[..n + 1][..n] == pieces[..n];
      IdsOfNonePrefix(pieces, n + 1);
    } else {
      assert pieces[..n] == pieces;
    }
  }

  lemma {:induction false} IdsOfDigitsOnly(pieces: seq<string>)
    requires forall j, k :: 0 <= j < |pieces| && 0 <= k < |pieces[j]| ==> pieces[j][k] != '-'
    ensures IdsOf(pieces).Some? ==> forall j :: 0 <= j < |IdsOf(pieces).value| ==> IdsOf(pieces).value[j] >= 0
    decreases |pieces|
  {
    if pieces != [] {
      var init := pieces[..|pieces| - 1];
      forall j, k | 0 <= j < |init| && 0 <= k < |init[j]| ensures init[j][k] != '-' {
        assert init[j] == pieces[j];
      }
      IdsOfDigitsOnly(init);
    }
  }

  /** The sign is filtered out with everything else: no id is negative. */
  lemma ParsedIdsNonNegative(json: string)
    ensures ParsedIds(json).Some? ==> forall j :: 0 <= j < |ParsedIds(json).value| ==> ParsedIds(json).value[j] >= 0
  {
    var kept := KeepDigitsAndCommas(json);
    var pieces := Split(kept, ",");
    var all := Pieces(kept, ",");
    assert '-' !in kept by {
      forall m | 0 <= m < |kept| ensures kept[m] != '-' {
        assert KeptChar(kept[m]);
      }
    }
    PiecesWithout(kept, ",", '-');
    assert pieces == all[..|pieces|];
    forall j, k | 0 <= j < |pieces| && 0 <= k < |pieces[j]| ensures pieces[j][k] != '-' {
      assert pieces[j] == all[j];
    }
    IdsOfDigitsOnly(pieces);
  }

  /** `-3` is read as 3: the sign is filtered out. */
  lemma NegativeIdLosesSign()
    ensures ParsedIds("[-3]") == Some([3])
  {
    SignDropped();
    SplitSingle();
    IdsOfSingle();
  }

  lemma SignDropped()
    ensures KeepDigitsAndCommas("[-3]") == "3"
  {
    assert "[-3]"[1..] == "-3]" && "-3]"[1..] == "3]" && "3]"[1..] == "]";
    assert KeepDigitsAndCommas("]") == "";
    assert KeepDigitsAndCommas("3]") == "3";
  }

  lemma SplitSingle()
    ensures Split("3", ",") == ["3"]
  {
    NoChar("3", ',');
  }

  lemma IdsOfSingle()
    ensures IdsOf(["3"]) == Some([3])
  {
    assert ParseInt("3") == Some(3) by {
      assert AllDigits("3");
      assert DigitsValue("3") == DigitsValue("") * 10 + 3;
    }
    assert ["3"][..0] == [] && ["3"][0] == "3";
    assert IdsOf([]) == Some([]);
    assert [] + [3] == [3];
  }

  /** Each id in decimal. */
  function Decimals(ids: seq<nat>): (r: seq<string>)
    ensures |r| == |ids|
    ensures forall i :: 0 <= i < |ids| ==> r[i] == NatToString(ids[i])
  {
    seq(|ids|, i requires 0 <= i < |ids| => NatToString(ids[i]))
  }

  /** The ids written with commas between them. */
  function JoinIds(ids: seq<nat>): string {
    JoinWith(",", Decimals(ids))
  }

  /** A JSON array of ids, as the host page sends it. */
  function IdsText(ids: seq<nat>): string {
    "[" + JoinIds(ids) + "]"
  }

  lemma {:induction false} KeepAppend(a: string, b: string)
    ensures KeepDigitsAndCommas(a + b) == KeepDigitsAndCommas(a) + KeepDigitsAndCommas(b)
    decreases |a|
  {
    if a != [] {
      assert (a + b)[1..] == a[1..] + b;
      KeepAppend(a[1..], b);
    } else {
      assert a + b == b;
    }
  }

  lemma {:induction false} KeepAllKept(s: string)
    requires forall i :: 0 <= i < |s| ==> KeptChar(s[i])
    ensures KeepDigitsAndCommas(s) == s
    decreases |s|
  {
    if s != [] {
      KeepAllKept(s[1..]);
      assert s == [s[0]] + s[1..];
    }
  }

  /** Every character of the ids' text is a digit or a comma. */
  lemma {:induction false} JoinKept(items: seq<string>)
    requires forall i :: 0 <= i < |items| ==> AllDigits(items[i])
    ensures forall i :: 0 <= i < |JoinWith(",", items)| ==> KeptChar(JoinWith(",", items)[i])
    decreases |items|
  {
    if |items| > 1 {
      JoinKept(items[1..]);
      var a := items[0];
      var t := JoinWith(",", items[1..]);
      forall i | 0 <= i < |a + "," + t| ensures KeptChar((a + "," + t)[i]) {
        if i < |a| { assert IsDigit(a[i]); }
        else if i > |a| { assert (a + "," + t)[i] == t[i - |a| - 1]; }
      }
    } else if |items| == 1 {
      assert AllDigits(items[0]);
    }
  }

  lemma {:induction false} IdsOfDecimals(ids: seq<nat>)
    requires forall i :: 0 <= i < |ids| ==> ids[i] <= IntMax
    ensures IdsOf(Decimals(ids)) == Some(ids)
    decreases |ids|
  {
    if ids != [] {
      var n := |ids| - 1;
      assert Decimals(ids)[..n] == Decimals(ids[..n]);
      IdsOfDecimals(ids[..n]);
      ParseIntRoundTrip(ids[n]);
      assert IntToString(ids[n]) == NatToString(ids[n]);
      assert ids == ids[..n] + [ids[n]];
    }
  }

  /** parseIntArray reads back the ids of a JSON array of them. */
  lemma IdsRoundTrip(ids: seq<nat>)
    requires forall i :: 0 <= i < |ids| ==> ids[i] <= IntMax
    ensures ParsedIds(IdsText(ids)) == Some(ids)
  {
    var t := JoinIds(ids);
    var d := Decimals(ids);
    KeepAppend("[" + t, "]");
    KeepAppend("[", t);
    assert forall i :: 0 <= i < |d| ==> AllDigits(d[i]);
    JoinKept(d);
    KeepAllKept(t);
    assert KeepDigitsAndCommas("[") == "" && KeepDigitsAndCommas("]") == "";
    assert KeepDigitsAndCommas(IdsText(ids)) == t;
    if ids == [] {
      NoChar(t, ',');
      assert Split(t, ",") == [""];
      assert [""][..0] == [];
    } else {
      assert forall i :: 0 <= i < |d| ==> ',' !in d[i] by {
        forall i, k | 0 <= i < |d| && 0 <= k < |d[i]| ensures d[i][k] != ',' {
          assert AllDigits(d[i]);
        }
      }
      JoinPieces(',', d);
      assert d[|d| - 1] != "" by { assert |NatToString(ids[|ids| - 1])| > 0; }
      assert Split(t, ",") == d;
      IdsOfDecimals(ids);
    }
  }

  // ---------------------------------------------------------------------
  // parseQuestions
  // ---------------------------------------------------------------------

  /** What one object of the quiz file holds: the question's text, its
      choices, the index of the correct one and the explanation. */
  datatype Content = Content(text: string, choices: seq<string>, correctIndex: nat,
                             explanation: Option<string>)

  /** A question as read from the quiz file, before it becomes an object. */
  datatype Entry = Entry(id: int, text: string, choices: seq<string>, correctIndex: int,
                         explanation: Option<string>)

  /** The entry with id `id` for content `c`. */
  function Numbered(id: int, c: Content): Entry {
    Entry(id, c.text, c.choices, c.correctIndex, c.explanation)
  }

  /** The correct index names a choice whenever there are choices. */
  predicate AnswerInRange(c: Content) {
    c.choices != [] ==> c.correctIndex < |c.choices|
  }

  /** The index of the first choice equal to the answer; 0 when there is no
      answer or no choice equals it. */
  function AnswerIndex(choices: seq<string>, answer: Option<string>): (r: nat)
    ensures r == 0 || r < |choices|
    ensures answer.Some? && answer.value in choices ==> r < |choices| && choices[r] == answer.value
    ensures answer.Some? ==> forall j :: 0 <= j < r && j < |choices| ==> choices[j] != answer.value
    ensures r > 0 ==> answer.Some? && choices[r] == answer.value
  {
    if answer.None? then 0 else FirstIndex(choices, answer.value, 0)
  }

  function FirstIndex(choices: seq<string>, answer: string, i: nat): (r: nat)
    requires i <= |choices|
    ensures r == 0 || i <= r < |choices|
    ensures answer in choices[i..] ==> r < |choices| && choices[r] == answer
    ensures r > 0 ==> choices[r] == answer
    ensures forall j :: i <= j < r ==> choices[j] != answer
    decreases |choices| - i
  {
    if i == |choices| then 0
    else if choices[i] == answer then i
    else FirstIndex(choices, answer, i + 1)
  }

  /** The question's text: the "question" field, else the "text" field. */
  function TextOf(obj: string): Option<string> {
    if FieldValue(obj, "question").Some? then FieldValue(obj, "question") else FieldValue(obj, "text")
  }

  /** The content built from the fields of one object: it needs a text and
      a "choices" array; the answer picks the correct index. */
  function ContentOf(text: Option<string>, choicesText: Option<string>, answer: Option<string>,
                     explanation: Option<string>): (r: Option<Content>)
    ensures r.Some? ==> AnswerInRange(r.value)
  {
    if text.None? || choicesText.None? then None
    else
      var choices := StringItems(choicesText.value, 0);
      Some(Content(text.value, choices, AnswerIndex(choices, answer), explanation))
  }

  /** The content one `{...}` object yields, if any. */
  function ObjectContent(obj: string): (r: Option<Content>)
    ensures r.Some? ==> AnswerInRange(r.value)
  {
    ContentOf(TextOf(obj), ArrayText(obj, "choices"), FieldValue(obj, "answer"), FieldValue(obj, "explanation"))
  }

  /** The next object from `from` on: a `{` and the first `}` after it. */
  function NextObject(json: string, from: nat): (r: Option<(nat, nat)>)
    ensures r.Some? ==> (from <= r.value.0 <= r.value.1 < |json|
      && json[r.value.0] == '{' && json[r.value.1] == '}')
  {
    var start := IndexOfChar(json, '{', from);
    if start == -1 then None
    else
      var end := IndexOfChar(json, '}', start);
      if end == -1 then None else Some((start, end))
  }

  /** The texts of the objects from `from` on, each from a `{` to the first
      `}` after it. */
  function Objects(json: string, from: nat): (r: seq<string>)
    decreases |json| + 1 - from
  {
    match NextObject(json, from)
    case None => []
    case Some((start, end)) => [json[start..end + 1]] + Objects(json, end + 1)
  }

  /** What each of the objects `objs` yields. */
  function Candidates(objs: seq<string>): (r: seq<Option<Content>>)
    ensures |r| == |objs|
  {
    seq(|objs|, i requires 0 <= i < |objs| => ObjectContent(objs[i]))
  }

  /** The contents `cs` that are present, in order, numbered from FirstId. */
  function Number(cs: seq<Option<Content>>): seq<Entry>
    decreases |cs|
  {
    if cs == [] then []
    else
      var done := Number(cs[..|cs| - 1]);
      match cs[|cs| - 1]
      case None => done
      case Some(c) => done + [Numbered(FirstId + |done|, c)]
  }

  /** The questions the quiz file text `json` holds. */
  function Entries(json: string): seq<Entry> {
    Number(Candidates(Objects(json, 0)))
  }

  /** The first id parseQuestions hands out. */
  const FirstId: int := 100

  predicate Describes(q: Question, e: Entry) {
    q.id == e.id && q.text == e.text && q.choices == e.choices
    && q.correctIndex == e.correctIndex && q.explanation == e.explanation
  }

  /** The body of parseQuestions' loop for one object: a new question with
      id `id` when the object has a text and a choices array. */
  method ParseObject(obj: string, id: int) returns (q: Option<Question>)
    ensures q.Some? <==> ObjectContent(obj).Some?
    ensures q.Some? ==> fresh(q.value) && Describes(q.value, Numbered(id, ObjectContent(obj).value))
  {
    var text := ExtractText(obj);
    var choicesText := ArrayText(obj, "choices");
    var answer := ExtractJsonField(obj, "answer");
    var explanation := ExtractJsonField(obj, "explanation");
    q := BuildQuestion(id, text, choicesText, answer, explanation);
  }

  /** The text lookup: "question", and "text" when that is missing. */
  method ExtractText(obj: string) returns (text: Option<string>)
    ensures text == TextOf(obj)
  {
    text := ExtractJsonField(obj, "question");
    if text.None? {
      text := ExtractJsonField(obj, "text");
    }
  }

  /** The question built from the fields of one object. */
  method BuildQuestion(id: int, text: Option<string>, choicesText: Option<string>,
                       answer: Option<string>, explanation: Option<string>) returns (q: Option<Question>)
    ensures q.Some? <==> ContentOf(text, choicesText, answer, explanation).Some?
    ensures q.Some? ==> (fresh(q.value)
      && Describes(q.value, Numbered(id, ContentOf(text, choicesText, answer, explanation).value)))
  {
    if text.None? || choicesText.None? {
      return None;
    }
    var choices := ParseStringArray(choicesText.value);
    var correctIndex := ChoiceIndex(choices, answer);
    var made := new Question(id, text.value, choices, correctIndex, explanation);
    q := Some(made);
  }

  /** parseQuestions' search for the answer among the choices. */
  method ChoiceIndex(choices: seq<string>, answer: Option<string>) returns (correctIndex: nat)
    ensures correctIndex == AnswerIndex(choices, answer)
  {
    correctIndex := 0;
    if answer.Some? {
      var i := 0;
      while i < |choices|
        invariant i <= |choices|
        invariant FirstIndex(choices, answer.value, 0) == FirstIndex(choices, answer.value, i)
      {
        if choices[i] == answer.value {
          correctIndex := i;
          break;
        }
        i := i + 1;
      }
    }
  }

  /** The questions `qs` are the entries `es`, one for one. */
  predicate Built(qs: seq<Question>, es: seq<Entry>) {
    |qs| == |es| && forall i :: 0 <= i < |qs| ==> Describes(qs[i], es[i])
  }

  lemma BuiltAppend(qs: seq<Question>, es: seq<Entry>, q: Question, e: Entry)
    requires Built(qs, es) && Describes(q, e)
    ensures Built(qs + [q], es + [e])
  {
    var qs', es' := qs + [q], es + [e];
    forall i | 0 <= i < |qs'| ensures Describes(qs'[i], es'[i]) {
      if i < |qs| {
        assert qs'[i] == qs[i] && es'[i] == es[i];
      }
    }
  }

  /** parseQuestions: one new question object per entry. */
  method ParseQuestions(json: string) returns (qs: seq<Question>)
    ensures Built(qs, Entries(json))
    ensures forall i :: 0 <= i < |qs| ==> fresh(qs[i])
  {
    qs := [];
    var id := FirstId;
    var from: nat := 0;
    ghost var objs := Objects(json, 0);
    ghost var k := 0;
    while true
      invariant from <= |json| + 1 && k <= |objs|
      invariant Objects(json, from) == objs[k..]
      invariant Built(qs, Number(Candidates(objs[..k]))) && id == FirstId + |qs|
      invariant forall i :: 0 <= i < |qs| ==> fresh(qs[i])
      decreases |json| + 1 - from
    {
      var next;
      ghost var c;
      next, c := ParseNextObject(json, from, id, objs, k);
      if next.None? {
        assert objs[..k] == objs;
        break;
      }
      var (q, after) := next.value;
      BuiltStep(objs, k, qs, c, q);
      ghost var qs0 := qs;
      if q.Some? {
        qs := qs + [q.value];
        id := id + 1;
      }
      assert qs == qs0 + (if q.Some? then [q.value] else []);
      forall i | 0 <= i < |qs| ensures fresh(qs[i]) {
        if i < |qs0| {
          assert qs[i] == qs0[i];
        }
      }
      from := after;
      k := k + 1;
    }
  }

  /** The questions built so far stay in step with the objects read. */
  lemma BuiltStep(objs: seq<string>, k: nat, qs: seq<Question>, c: Option<Content>, q: Option<Question>)
    requires k < |objs| && c == ObjectContent(objs[k]) && (q.Some? <==> c.Some?)
    requires Built(qs, Number(Candidates(objs[..k])))
    requires q.Some? ==> Describes(q.value, Numbered(FirstId + |qs|, c.value))
    ensures Built(qs + (if q.Some? then [q.value] else []), Number(Candidates(objs[..k + 1])))
  {
    var cs := Candidates(objs[..k]);
    CandidatesStep(objs, k, cs, c);
    NumberStep(cs, c);
    if q.Some? {
      BuiltAppend(qs, Number(cs), q.value, Numbered(FirstId + |qs|, c.value));
    }
  }

  /** One turn of parseQuestions' loop: the next object, if any, its
      question, and where the search goes on; `c` is what the object yields. */
  method ParseNextObject(json: string, from: nat, id: int, ghost objs: seq<string>, ghost k: nat)
    returns (r: Option<(Option<Question>, nat)>, ghost c: Option<Content>)
    requires k <= |objs| && Objects(json, from) == objs[k..]
    ensures r.None? ==> k == |objs|
    ensures r.Some? ==> (k < |objs| && from < r.value.1 <= |json| + 1
      && Objects(json, r.value.1) == objs[k + 1..] && c == ObjectContent(objs[k]))
    ensures r.Some? ==> (r.value.0.Some? <==> c.Some?)
    ensures r.Some? && r.value.0.Some? ==> (fresh(r.value.0.value) && Describes(r.value.0.value, Numbered(id, c.value)))
  {
    var next := ScanObject(json, from);
    if next.None? {
      return None, None;
    }
    var (start, end) := next.value;
    var obj := json[start..end + 1];
    ObjectsStep(json, from, start, end, objs, k);
    var q := ParseObject(obj, id);
    c := ObjectContent(obj);
    r := Some((q, end + 1));
  }

  /** The object at `from` is the next one of the list. */
  lemma ObjectsStep(json: string, from: nat, start: nat, end: nat, objs: seq<string>, k: nat)
    requires NextObject(json, from) == Some((start, end))
    requires k <= |objs| && Objects(json, from) == objs[k..]
    ensures k < |objs| && end < |json|
    ensures objs[k] == json[start..end + 1] && Objects(json, end + 1) == objs[k + 1..]
  {
    assert objs[k..][0] == objs[k];
    assert objs[k..][1..] == objs[k + 1..];
  }

  /** One more content adds its entry, if present, with the next id. */
  lemma NumberStep(cs: seq<Option<Content>>, c: Option<Content>)
    ensures Number(cs + [c]) == if c.None? then Number(cs) else Number(cs) + [Numbered(FirstId + |Number(cs)|, c.value)]
  {
    assert (cs + [c])[..|cs|] == cs;
  }

  /** One more object adds what it yields to the candidates. */
  lemma CandidatesStep(objs: seq<string>, k: nat, cs: seq<Option<Content>>, c: Option<Content>)
    requires k < |objs| && cs == Candidates(objs[..k]) && c == ObjectContent(objs[k])
    ensures cs + [c] == Candidates(objs[..k + 1])
  {
    var r := Candidates(objs[..k + 1]);
    forall i | 0 <= i < k + 1 ensures (cs + [c])[i] == r[i] {
      if i < k {
        assert objs[..k + 1][i] == objs[..k][i];
      }
    }
  }

  /** The search for the next `{` and the `}` after it. */
  method ScanObject(json: string, from: nat) returns (r: Option<(nat, nat)>)
    ensures r == NextObject(json, from)
  {
    var start := IndexOfChar(json, '{', from);
    if start == -1 {
      return None;
    }
    var end := IndexOfChar(json, '}', start);
    if end == -1 {
      return None;
    }
    return Some((start, end));
  }

  /** parseQuestions numbers its questions 100, 101, ... in file order. */
  lemma {:induction false} NumberIds(cs: seq<Option<Content>>)
    ensures forall i :: 0 <= i < |Number(cs)| ==> Number(cs)[i].id == FirstId + i
    decreases |cs|
  {
    if cs != [] {
      NumberIds(cs[..|cs| - 1]);
    }
  }

  /** Every entry comes from a content that was present, and keeps its
      correct index within the choices whenever there are choices. */
  lemma {:induction false} NumberAnswers(cs: seq<Option<Content>>)
    requires forall i :: 0 <= i < |cs| && cs[i].Some? ==> AnswerInRange(cs[i].value)
    ensures forall e :: e in Number(cs) ==>
      e.correctIndex >= 0 && (e.choices != [] ==> e.correctIndex < |e.choices|)
    decreases |cs|
  {
    if cs != [] {
      var pre := cs[..|cs| - 1];
      forall i | 0 <= i < |pre| && pre[i].Some? ensures AnswerInRange(pre[i].value) {
        assert pre[i] == cs[i];
      }
      NumberAnswers(pre);
    }
  }

  /** As many entries as objects with a text and a choices array. */
  lemma {:induction false} NumberCount(cs: seq<Option<Content>>)
    ensures |Number(cs)| == |set i | 0 <= i < |cs| && cs[i].Some?|
    decreases |cs|
  {
    if cs != [] {
      var pre := cs[..|cs| - 1];
      NumberCount(pre);
      var before := set i | 0 <= i < |pre| && pre[i].Some?;
      var all := set i | 0 <= i < |cs| && cs[i].Some?;
      assert before == set i | 0 <= i < |cs| - 1 && cs[i].Some?;
      if cs[|cs| - 1].Some? {
        assert all == before + {|cs| - 1};
      } else {
        assert all == before;
      }
    }
  }

  /** The questions of the quiz file are numbered from 100 in file order,
      each correct index is a valid choice when there are choices, and
      there is one question per object that has a text and choices. */
  lemma ParsedQuestionsNumbered(json: string)
    ensures forall i :: 0 <= i < |Entries(json)| ==> Entries(json)[i].id == FirstId + i
    ensures forall e :: e in Entries(json) ==>
      e.correctIndex >= 0 && (e.choices != [] ==> e.correctIndex < |e.choices|)
    ensures |Entries(json)| == |set i | 0 <= i < |Objects(json, 0)| && ObjectContent(Objects(json, 0)[i]).Some?|
  {
    var objs := Objects(json, 0);
    var cs := Candidates(objs);
    forall i | 0 <= i < |objs| ensures cs[i] == ObjectContent(objs[i]) {
    }
    NumberIds(cs);
    NumberAnswers(cs);
    NumberCount(cs);
    var a := set i | 0 <= i < |cs| && cs[i].Some?;
    var b := set i | 0 <= i < |objs| && ObjectContent(objs[i]).Some?;
    assert a == b;
  }
}
