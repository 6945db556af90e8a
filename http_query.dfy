/** The query-string reading both servers' handlers do by hand:
    `query.split(key)[1].split("&")[0]`, with Java's `String.split`. */
module HttpQuery {
  import opened Wrappers
  import opened JavaText

  /** `query.split(key)[1].split("&")[0]`; None where an index is out of
      the array's bounds and the handler throws. */
  function ValueAfter(query: string, key: string): Option<string>
    requires key != []
  {
    match At(Split(query, key), 1)
    case None => None
    case Some(v) => At(Split(v, "&"), 0)
  }

  /** A match inside the value is a match inside the whole query. */
  lemma MatchShift(key: string, v: string, j: nat)
    requires MatchesAt(v, key, j)
    ensures MatchesAt(key + v, key, |key| + j)
  {
    var q := key + v;
    assert q[|key| + j..|key| + j + |key|] == v[j..j + |key|];
  }

  /** The query `key` + `v`, where the key occurs only at the start and the
      value holds no `&`, gives the value. */
  lemma SingleParam(key: string, v: string)
    requires key != [] && v != [] && '&' !in v
    requires IndexOf(key + v, key, 1) == -1
    ensures ValueAfter(key + v, key) == Some(v)
  {
    var q := key + v;
    assert q[..|key|] == key && q[|key|..] == v;
    assert MatchesAt(q, key, 0);
    assert IndexOf(v, key, 0) == -1 by {
      var j := IndexOf(v, key, 0);
      if j != -1 {
        MatchShift(key, v, j);
      }
    }
    assert Pieces(q, key) == ["", v];
    assert Split(q, key) == ["", v];
    NoChar(v, '&');
  }

  /** A query whose only `key` ends it has no value after the key: the
      split array has a single element and reading the second one throws. */
  lemma KeyAtEndThrows(pre: string, key: string)
    requires key != []
    requires IndexOf(pre + key, key, 0) == |pre|
    ensures ValueAfter(pre + key, key) == None
  {
    var q := pre + key;
    assert q[..|pre|] == pre && q[|pre| + |key|..] == [];
    assert Pieces([], key) == [[]];
    assert Pieces(q, key) == [pre, []];
  }
}
