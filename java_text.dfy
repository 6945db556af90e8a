/** The java.lang.String and java.lang.Integer operations the server's
    text handling relies on, with Java's semantics written out. */
module JavaText {
  import opened Wrappers

  const IntMin: int := -0x8000_0000
  const IntMax: int := 0x7FFF_FFFF

  /** `s` holds `pat` starting at index `i`. */
  predicate MatchesAt(s: string, pat: string, i: nat) {
    i + |pat| <= |s| && s[i..i + |pat|] == pat
  }

  /** `s.indexOf(pat, from)`: the leftmost occurrence at or after `from`, or -1.
      An empty pattern is found at `from`, or at `|s|` when `from` is past the end. */
  function IndexOf(s: string, pat: string, from: nat): (r: int)
    ensures r == -1 || (r >= 0 && MatchesAt(s, pat, r))
    ensures r != -1 ==> from <= r || (pat == [] && r == |s|)
    ensures r != -1 ==> forall j :: from <= j < r ==> !MatchesAt(s, pat, j)
    ensures r == -1 ==> pat != [] && forall j :: from <= j ==> !MatchesAt(s, pat, j)
    decreases |s| - from
  {
    if from + |pat| > |s| then (if pat == [] then |s| else -1)
    else if MatchesAt(s, pat, from) then from
    else IndexOf(s, pat, from + 1)
  }

  /** `s.indexOf(c, from)` for a single character: the leftmost `c` at or
      after `from`, or -1. */
  function IndexOfChar(s: string, c: char, from: nat): (r: int)
    ensures r == -1 || (from <= r < |s| && s[r] == c)
    ensures forall j :: from <= j < |s| && (r == -1 || j < r) ==> NotAt(s, c, j)
    decreases |s| - from
  {
    if from >= |s| then -1 else if s[from] == c then from else IndexOfChar(s, c, from + 1)
  }

  /** Position `j` of `s` holds something other than `c`. */
  predicate NotAt(s: string, c: char, j: nat)
    requires j < |s|
  {
    s[j] != c
  }

  /** Searching for a one-character string is searching for that character. */
  lemma IndexOfOneChar(s: string, c: char, from: nat)
    ensures IndexOf(s, [c], from) == IndexOfChar(s, c, from)
  {
    var r1 := IndexOf(s, [c], from);
    var r2 := IndexOfChar(s, c, from);
    forall j | 0 <= j < |s| ensures MatchesAt(s, [c], j) <==> s[j] == c {
      assert s[j..j + 1] == [s[j]];
    }
    if r1 != -1 {
      assert s[r1..r1 + 1] == [c];
      assert !NotAt(s, c, r1);
    }
    if r2 != -1 {
      assert MatchesAt(s, [c], r2);
    }
  }

  /** A text without `c` has no occurrence of it. */
  lemma NoChar(s: string, c: char)
    requires c !in s
    ensures IndexOf(s, [c], 0) == -1
  {
    IndexOfOneChar(s, c, 0);
  }

  predicate StartsWith(s: string, prefix: string) {
    |prefix| <= |s| && s[..|prefix|] == prefix
  }

  predicate EndsWith(s: string, suffix: string) {
    |suffix| <= |s| && s[|s| - |suffix|..] == suffix
  }

  /** `s.contains(sub)`, which Java defines as `indexOf(sub) >= 0`. */
  predicate Contains(s: string, sub: string) {
    IndexOf(s, sub, 0) != -1
  }

  lemma ContainsIff(s: string, sub: string)
    ensures Contains(s, sub) <==> exists i :: 0 <= i && MatchesAt(s, sub, i)
  {
    if Contains(s, sub) {
      var r := IndexOf(s, sub, 0);
      assert MatchesAt(s, sub, r);
    }
  }

  /** `s.replace(target, replacement)` for a non-empty target: the
      occurrences found scanning from the left, without overlap, are replaced. */
  function Replace(s: string, target: string, replacement: string): string
    requires |target| > 0
    decreases |s|
  {
    if |s| < |target| then s
    else if s[..|target|] == target then replacement + Replace(s[|target|..], target, replacement)
    else [s[0]] + Replace(s[1..], target, replacement)
  }

  /** A string in which the first character of `target` never occurs is left alone. */
  lemma {:induction false} ReplaceAbsent(s: string, target: string, replacement: string)
    requires |target| > 0
    requires forall i :: 0 <= i < |s| ==> s[i] != target[0]
    ensures Replace(s, target, replacement) == s
  {
    if |s| >= |target| {
      assert s[..|target|][0] == s[0];
      ReplaceAbsent(s[1..], target, replacement);
    }
  }

  /** Replacing a single character works character by character. */
  lemma {:induction false} ReplaceCharAppend(a: string, b: string, c: char, replacement: string)
    ensures Replace(a + b, [c], replacement) == Replace(a, [c], replacement) + Replace(b, [c], replacement)
  {
    if a != [] {
      assert (a + b)[1..] == a[1..] + b;
      assert (a + b)[..1] == a[..1];
      ReplaceCharAppend(a[1..], b, c, replacement);
    } else {
      assert a + b == b;
    }
  }

  lemma ReplaceCharSingle(x: char, c: char, replacement: string)
    ensures Replace([x], [c], replacement) == if x == c then replacement else [x]
  {
    assert [x][1..] == [];
    assert [x][..1] == [x];
  }

  /** `String.trim()`: drops the characters up to U+0020 at both ends. */
  function TrimStart(s: string): (r: string)
    ensures |r| <= |s| && r == s[|s| - |r|..]
    ensures r == [] || r[0] > ' '
    ensures forall i :: 0 <= i < |s| - |r| ==> s[i] <= ' '
    decreases |s|
  {
    if s != [] && s[0] <= ' ' then TrimStart(s[1..]) else s
  }

  function TrimEnd(s: string): (r: string)
    ensures |r| <= |s| && r == s[..|r|]
    ensures r == [] || r[|r| - 1] > ' '
    ensures forall i :: |r| <= i < |s| ==> s[i] <= ' '
    decreases |s|
  {
    if s != [] && s[|s| - 1] <= ' ' then TrimEnd(s[..|s| - 1]) else s
  }

  function Trim(s: string): string {
    TrimEnd(TrimStart(s))
  }

  predicate IsDigit(c: char) {
    '0' <= c <= '9'
  }

  predicate AllDigits(s: string) {
    forall i :: 0 <= i < |s| ==> IsDigit(s[i])
  }

  function DigitChar(d: nat): (c: char)
    requires d < 10
    ensures IsDigit(c)
  {
    ('0' as int + d) as char
  }

  /** The decimal digits of `n`, as `Integer.toString` writes them. */
  function NatToString(n: nat): (r: string)
    ensures |r| > 0 && AllDigits(r)
  {
    if n < 10 then [DigitChar(n)] else NatToString(n / 10) + [DigitChar(n % 10)]
  }

  /** `Integer.toString(n)` (and `StringBuilder.append(int)`). */
  function IntToString(n: int): string {
    if n < 0 then "-" + NatToString(-n) else NatToString(n)
  }

  /** The value of a string of decimal digits. */
  function DigitsValue(s: string): nat
    requires AllDigits(s)
  {
    if s == [] then 0 else DigitsValue(s[..|s| - 1]) * 10 + (s[|s| - 1] as int - '0' as int)
  }

  /** `Integer.parseInt(s)`: an optional sign, then at least one digit, and a
      value within the 32-bit range; anything else throws
      NumberFormatException, modelled as None. */
  function ParseInt(s: string): (r: Option<int>)
    ensures r.Some? ==> IntMin <= r.value <= IntMax
    ensures r.Some? ==> s != [] && (s[0] != '-' ==> r.value >= 0)
  {
    if s == [] then None
    else
      var digits := if s[0] == '-' || s[0] == '+' then s[1..] else s;
      if digits == [] || !AllDigits(digits) then None
      else
        var d: int := DigitsValue(digits);
        var v := if s[0] == '-' then -d else d;
        if IntMin <= v <= IntMax then Some(v) else None
  }

  lemma {:induction false} DigitsValueOfNat(n: nat)
    ensures DigitsValue(NatToString(n)) == n
  {
    if n >= 10 {
      var s := NatToString(n);
      assert s[..|s| - 1] == NatToString(n / 10);
      DigitsValueOfNat(n / 10);
    }
  }

  /** `Integer.parseInt` reads back what `Integer.toString` writes. */
  lemma ParseIntRoundTrip(n: int)
    requires IntMin <= n <= IntMax
    ensures ParseInt(IntToString(n)) == Some(n)
  {
    var s := IntToString(n);
    if n < 0 {
      DigitsValueOfNat(-n);
      assert s[1..] == NatToString(-n);
      assert s[0] == '-';
    } else {
      DigitsValueOfNat(n);
      assert IsDigit(s[0]);
    }
  }

  /** The texts between the occurrences of `sep` in `s`, found from the
      left without overlap, empty ones included. */
  function Pieces(s: string, sep: string): (r: seq<string>)
    requires sep != []
    ensures |r| >= 1
    decreases |s|
  {
    var k := IndexOf(s, sep, 0);
    if k == -1 then [s] else [s[..k]] + Pieces(s[k + |sep|..], sep)
  }

  /** `String.join(sep, items)`. */
  function JoinWith(sep: string, items: seq<string>): string
    decreases |items|
  {
    if items == [] then ""
    else if |items| == 1 then items[0]
    else items[0] + sep + JoinWith(sep, items[1..])
  }

  /** The array's trailing empty strings removed, as `split` does. */
  function DropTrailingEmpty(p: seq<string>): (r: seq<string>)
    ensures |r| <= |p| && r == p[..|r|]
    ensures r == [] || r[|r| - 1] != ""
    ensures forall i :: |r| <= i < |p| ==> p[i] == ""
    decreases |p|
  {
    if p != [] && p[|p| - 1] == "" then DropTrailingEmpty(p[..|p| - 1]) else p
  }

  /** `s.split(sep)` for a separator holding no regular-expression
      metacharacter: the text itself when `sep` does not occur, otherwise
      its pieces without the trailing empty ones. */
  function Split(s: string, sep: string): seq<string>
    requires sep != []
  {
    if IndexOf(s, sep, 0) == -1 then [s] else DropTrailingEmpty(Pieces(s, sep))
  }

  /** `a[i]`, or None where Java throws ArrayIndexOutOfBoundsException. */
  function At(a: seq<string>, i: nat): Option<string> {
    if i < |a| then Some(a[i]) else None
  }

  lemma Cut(s: string, k: nat, n: nat)
    requires k + n <= |s|
    ensures s == s[..k] + s[k..k + n] + s[k + n..]
  {
  }

  /** Joining the pieces with the separator gives the text back. */
  lemma {:induction false} PiecesJoin(s: string, sep: string)
    requires sep != []
    ensures JoinWith(sep, Pieces(s, sep)) == s
    decreases |s|
  {
    var k := IndexOf(s, sep, 0);
    if k != -1 {
      var rest := s[k + |sep|..];
      PiecesJoin(rest, sep);
      Cut(s, k, |sep|);
    }
  }

  /** A character absent from the text is absent from every piece. */
  lemma {:induction false} PiecesWithout(s: string, sep: string, c: char)
    requires sep != [] && c !in s
    ensures forall j :: 0 <= j < |Pieces(s, sep)| ==> c !in Pieces(s, sep)[j]
    decreases |s|
  {
    var k := IndexOf(s, sep, 0);
    if k != -1 {
      var rest := s[k + |sep|..];
      assert c !in rest by {
        forall j | 0 <= j < |rest| ensures rest[j] != c {
          assert rest[j] == s[k + |sep| + j];
        }
      }
      PiecesWithout(rest, sep, c);
      assert c !in s[..k] by {
        forall j | 0 <= j < k ensures s[..k][j] != c {
          assert s[..k][j] == s[j];
        }
      }
    }
  }

  /** Items free of a one-character separator are the pieces of their join. */
  lemma {:induction false} JoinPieces(c: char, items: seq<string>)
    requires items != []
    requires forall i :: 0 <= i < |items| ==> c !in items[i]
    ensures Pieces(JoinWith([c], items), [c]) == items
    decreases |items|
  {
    var s := JoinWith([c], items);
    IndexOfOneChar(s, c, 0);
    if |items| == 1 {
      assert IndexOfChar(s, c, 0) == -1 by {
        forall j | 0 <= j < |s| ensures s[j] != c {
          assert s[j] in items[0];
        }
      }
    } else {
      var rest := JoinWith([c], items[1..]);
      assert s == items[0] + [c] + rest;
      assert IndexOfChar(s, c, 0) == |items[0]| by {
        var r := IndexOfChar(s, c, 0);
        assert s[|items[0]|] == c && !NotAt(s, c, |items[0]|);
        forall j | 0 <= j < |items[0]| ensures s[j] != c {
          assert s[j] == items[0][j] && items[0][j] in items[0];
        }
        assert r != -1 && r >= |items[0]|;
      }
      assert s[..|items[0]|] == items[0];
      assert s[|items[0]| + 1..] == rest;
      JoinPieces(c, items[1..]);
    }
  }
}
