/** A JSON reader's view of a text: which characters it reads inside
    strings, how deep in brackets it is, and how many of a given character
    it meets between the items of a top-level array. */
module JsonLexer {

  /** The state of a JSON reader: the bracket depth, whether it is inside a
      string, and whether the previous character was an escaping backslash. */
  datatype Lex = Lex(depth: int, inString: bool, escaped: bool)

  function Step(st: Lex, c: char): Lex {
    if st.escaped then st.(escaped := false)
    else if st.inString then
      if c == '"' then st.(inString := false)
      else if c == '\\' then st.(escaped := true)
      else st
    else if c == '"' then st.(inString := true)
    else if c == '{' || c == '[' then st.(depth := st.depth + 1)
    else if c == '}' || c == ']' then st.(depth := st.depth - 1)
    else st
  }

  function Run(st: Lex, s: string): Lex
    decreases |s|
  {
    if s == [] then st else Run(Step(st, s[0]), s[1..])
  }

  /** How many times the reader meets `c` outside strings at depth 1, the
      depth of the items of a top-level array. */
  function Count(st: Lex, s: string, c: char): nat
    decreases |s|
  {
    if s == [] then 0
    else (if !st.inString && st.depth == 1 && s[0] == c then 1 else 0) + Count(Step(st, s[0]), s[1..], c)
  }

  lemma {:induction false} RunAppend(st: Lex, a: string, b: string)
    ensures Run(st, a + b) == Run(Run(st, a), b)
    ensures Count(st, a + b, ',') == Count(st, a, ',') + Count(Run(st, a), b, ',')
    ensures Count(st, a + b, '{') == Count(st, a, '{') + Count(Run(st, a), b, '{')
    decreases |a|
  {
    if a == [] {
      assert a + b == b;
    } else {
      assert (a + b)[0] == a[0] && (a + b)[1..] == a[1..] + b;
      RunAppend(Step(st, a[0]), a[1..], b);
    }
  }

  /** One character read, then the rest. */
  lemma CharRun(st: Lex, c: char, rest: string)
    ensures Run(st, [c] + rest) == Run(Step(st, c), rest)
    ensures Count(st, [c] + rest, ',') == (if !st.inString && st.depth == 1 && c == ',' then 1 else 0) + Count(Step(st, c), rest, ',')
    ensures Count(st, [c] + rest, '{') == (if !st.inString && st.depth == 1 && c == '{' then 1 else 0) + Count(Step(st, c), rest, '{')
  {
    var s := [c] + rest;
    assert s[0] == c && s[1..] == rest;
  }

  /** No character the reader reacts to. */
  predicate Inert(s: string) {
    '"' !in s && '\\' !in s && '{' !in s && '}' !in s && '[' !in s && ']' !in s
  }

  /** Away from depth 1, a text the reader does not react to changes
      nothing and is not counted. */
  lemma {:induction false} RunInert(st: Lex, s: string, rest: string)
    requires !st.escaped && st.depth != 1 && Inert(s)
    ensures Run(st, s + rest) == Run(st, rest)
    ensures Count(st, s + rest, ',') == Count(st, rest, ',') && Count(st, s + rest, '{') == Count(st, rest, '{')
    decreases |s|
  {
    if s != [] {
      assert s[0] in s && forall x :: x in s[1..] ==> x in s;
      assert s + rest == [s[0]] + (s[1..] + rest);
      assert Step(st, s[0]) == st;
      CharRun(st, s[0], s[1..] + rest);
      RunInert(st, s[1..], rest);
    } else {
      assert s + rest == rest;
    }
  }

  lemma NothingRun(st: Lex)
    ensures Run(st, []) == st && Count(st, [], ',') == 0 && Count(st, [], '{') == 0
  {
  }

  /** A quote outside the first depth opens or closes a string and is not
      counted. */
  lemma QuoteRun(st: Lex, rest: string)
    requires !st.escaped && st.depth != 1
    ensures Run(st, "\"" + rest) == Run(st.(inString := !st.inString), rest)
    ensures Count(st, "\"" + rest, ',') == Count(st.(inString := !st.inString), rest, ',')
    ensures Count(st, "\"" + rest, '{') == Count(st.(inString := !st.inString), rest, '{')
  {
    CharRun(st, '"', rest);
  }
}
