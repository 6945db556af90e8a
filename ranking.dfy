/** The ranking of `/api/result`: players ordered by score, highest first,
    and among equal scores by join time, earliest first; ranks are
    positions counted from one; the podium is the first three. */
module Ranking {
  import opened Wrappers
  import opened QuizModel
  import opened JavaText
  import HttpQuery

  /** The comparator is at most zero: `a` may stand before `b`. */
  predicate NotAfter(a: Player, b: Player) {
    a.score > b.score || (a.score == b.score && a.joinedAt <= b.joinedAt)
  }

  /** The comparator is negative: `a` must stand before `b`. */
  predicate Before(a: Player, b: Player) {
    a.score > b.score || (a.score == b.score && a.joinedAt < b.joinedAt)
  }

  predicate Ordered(r: seq<Player>) {
    forall i, j :: 0 <= i < j < |r| ==> NotAfter(r[i], r[j])
  }

  /** `p` placed before the first player it must precede. Placing it after
      the equal ones keeps the sort stable, as `List.sort` is. */
  function Insert(p: Player, r: seq<Player>): seq<Player>
    decreases |r|
  {
    if r == [] || Before(p, r[0]) then [p] + r else [r[0]] + Insert(p, r[1..])
  }

  /** `ranking.sort(...)` of the players in the map's iteration order `ps`. */
  function Sort(ps: seq<Player>): seq<Player>
    decreases |ps|
  {
    if ps == [] then [] else Insert(ps[|ps| - 1], Sort(ps[..|ps| - 1]))
  }

  lemma {:induction false} InsertOrdered(p: Player, r: seq<Player>)
    requires Ordered(r)
    ensures Ordered(Insert(p, r))
    ensures multiset(Insert(p, r)) == multiset(r) + multiset{p}
    ensures forall x :: x in Insert(p, r) ==> x == p || x in r
    decreases |r|
  {
    if r == [] || Before(p, r[0]) {
      forall j | 0 <= j < |r| ensures NotAfter(p, r[j]) {
        if j > 0 {
          assert NotAfter(r[0], r[j]);
        }
      }
      ConsOrdered(p, r);
    } else {
      var rest := Insert(p, r[1..]);
      OrderedTail(r);
      InsertOrdered(p, r[1..]);
      forall j | 0 <= j < |rest| ensures NotAfter(r[0], rest[j]) {
        assert rest[j] in rest;
        if rest[j] != p {
          var k :| 0 <= k < |r[1..]| && r[1..][k] == rest[j];
          assert NotAfter(r[0], r[k + 1]);
        }
      }
      ConsOrdered(r[0], rest);
      assert r == [r[0]] + r[1..];
    }
  }

  /** A player standing before everyone of an ordered list heads it in order. */
  lemma ConsOrdered(x: Player, r: seq<Player>)
    requires Ordered(r) && forall j :: 0 <= j < |r| ==> NotAfter(x, r[j])
    ensures Ordered([x] + r)
  {
    var s := [x] + r;
    forall i, j | 0 <= i < j < |s| ensures NotAfter(s[i], s[j]) {
      assert s[j] == r[j - 1];
      if i > 0 {
        assert s[i] == r[i - 1];
      }
    }
  }

  /** The tail of an ordered list is ordered. */
  lemma OrderedTail(r: seq<Player>)
    requires Ordered(r) && r != []
    ensures Ordered(r[1..])
  {
    forall i, j | 0 <= i < j < |r[1..]| ensures NotAfter(r[1..][i], r[1..][j]) {
      assert r[1..][i] == r[i + 1] && r[1..][j] == r[j + 1];
    }
  }

  /** The sorted list is ordered and holds exactly the players it was given. */
  lemma {:induction false} SortOrdered(ps: seq<Player>)
    ensures Ordered(Sort(ps))
    ensures multiset(Sort(ps)) == multiset(ps)
    decreases |ps|
  {
    if ps != [] {
      var init := ps[..|ps| - 1];
      SortOrdered(init);
      InsertOrdered(ps[|ps| - 1], Sort(init));
      assert ps == init + [ps[|ps| - 1]];
    }
  }

  /** `ranking.indexOf(p) + 1`: 0 when `p` is not in the list. */
  function Rank(r: seq<Player>, p: Player): (n: nat)
    ensures n <= |r|
    ensures n > 0 ==> r[n - 1] == p && forall i :: 0 <= i < n - 1 ==> r[i] != p
    ensures n == 0 ==> p !in r
    decreases |r|
  {
    if r == [] then 0
    else if r[0] == p then 1
    else
      var n := Rank(r[1..], p);
      if n == 0 then 0 else n + 1
  }

  /** The podium: the first `min(3, n)` players of the ranking. */
  function Top3(r: seq<Player>): (t: seq<Player>)
    ensures |t| == if |r| < 3 then |r| else 3
  {
    if |r| < 3 then r else r[..3]
  }

  /** What `/api/result` reports: the requesting player with their rank,
      when the id is known, the podium and the whole ranking. */
  datatype ResultView = ResultView(personal: Option<(Player, nat)>, top3: seq<Player>, ranking: seq<Player>)

  /** The report for the players `players`, iterated in the order `values`,
      and the player id read from the query. */
  function Result(players: map<string, Player>, values: seq<Player>, playerId: Option<string>): ResultView {
    var ranking := Sort(values);
    var personal := if playerId.Some? && playerId.value in players
      then Some((players[playerId.value], Rank(ranking, players[playerId.value])))
      else None;
    ResultView(personal, Top3(ranking), ranking)
  }

  /** `p` stands at position `rank` (counted from one) of `r`, with everyone
      above scoring at least as much and everyone below at most as much. */
  predicate PlacedAt(r: seq<Player>, p: Player, rank: nat) {
    1 <= rank <= |r| && r[rank - 1] == p
    && (forall i :: 0 <= i < rank - 1 ==> r[i].score >= p.score)
    && (forall i :: rank - 1 < i < |r| ==> r[i].score <= p.score)
  }

  /** `r` lists every player of `players` exactly once, and no one else. */
  ghost predicate HoldsEachOnce(r: seq<Player>, players: map<string, Player>) {
    (forall p :: p in r <==> p in players.Values)
    && (forall p :: p in players.Values ==> multiset(r)[p] == 1)
  }

  /** The ranking lists every player once, best first; a player's rank is
      their position plus one, everyone ranked above them has at least
      their score, and everyone below at most. */
  lemma ResultRanks(players: map<string, Player>, values: seq<Player>, playerId: Option<string>)
    requires forall p :: p in values <==> p in players.Values
    requires forall i, j :: 0 <= i < j < |values| ==> values[i] != values[j]
    ensures var v := Result(players, values, playerId);
      Ordered(v.ranking) && multiset(v.ranking) == multiset(values) && HoldsEachOnce(v.ranking, players)
    ensures var v := Result(players, values, playerId);
      v.personal.Some? ==> PlacedAt(v.ranking, v.personal.value.0, v.personal.value.1)
  {
    var v := Result(players, values, playerId);
    assert v.ranking == Sort(values);
    SortOrdered(values);
    RankingHoldsEach(players, values);
    if v.personal.Some? {
      var p := v.personal.value.0;
      assert p in players.Values && v.personal.value.1 == Rank(Sort(values), p);
      RankPlacesPlayer(values, p);
    }
  }

  /** A listed player's rank in the sorted list is their position plus one,
      with everyone above scoring at least as much and everyone below at
      most as much. */
  lemma RankPlacesPlayer(values: seq<Player>, p: Player)
    requires p in values
    ensures PlacedAt(Sort(values), p, Rank(Sort(values), p))
  {
    var r := Sort(values);
    SortOrdered(values);
    assert p in multiset(values);
    assert p in multiset(r);
    var rank := Rank(r, p);
    forall i | 0 <= i < rank - 1 ensures r[i].score >= p.score {
      assert NotAfter(r[i], r[rank - 1]);
    }
    forall i | rank - 1 < i < |r| ensures r[i].score <= p.score {
      assert NotAfter(r[rank - 1], r[i]);
    }
  }

  /** Sorting the map's values, each listed once, ranks every player once. */
  lemma RankingHoldsEach(players: map<string, Player>, values: seq<Player>)
    requires forall p :: p in values <==> p in players.Values
    requires forall i, j :: 0 <= i < j < |values| ==> values[i] != values[j]
    ensures HoldsEachOnce(Sort(values), players)
  {
    SortOrdered(values);
    forall p ensures p in Sort(values) <==> p in players.Values {
      assert p in Sort(values) <==> p in multiset(Sort(values));
      assert p in values <==> p in multiset(values);
    }
    forall p | p in players.Values ensures multiset(Sort(values))[p] == 1 {
      OccursOnce(values, p);
    }
  }

  /** A player listed once in a list without repeats occurs there once. */
  lemma {:induction false} OccursOnce(values: seq<Player>, p: Player)
    requires forall i, j :: 0 <= i < j < |values| ==> values[i] != values[j]
    requires p in values
    ensures multiset(values)[p] == 1
  {
    assert values == [values[0]] + values[1..];
    if values[0] == p {
      assert p !in values[1..] by {
        forall k | 0 <= k < |values[1..]| ensures values[1..][k] != p {
          assert values[1..][k] == values[k + 1];
        }
      }
    } else {
      OccursOnce(values[1..], p);
    }
  }

  /** Every podium player stands at least as high as every other player,
      and the podium is the start of the ranking. */
  lemma PodiumIsBest(players: map<string, Player>, values: seq<Player>, playerId: Option<string>)
    ensures var v := Result(players, values, playerId);
      v.top3 == v.ranking[..|v.top3|]
      && forall i, j :: 0 <= i < |v.top3| <= j < |v.ranking| ==> NotAfter(v.top3[i], v.ranking[j])
  {
    var v := Result(players, values, playerId);
    SortOrdered(values);
    forall i, j | 0 <= i < |v.top3| <= j < |v.ranking| ensures NotAfter(v.top3[i], v.ranking[j]) {
      assert v.top3[i] == v.ranking[i];
    }
  }

  /** Among players with the same score the one who joined first ranks first. */
  lemma EarlierJoinRanksFirst(values: seq<Player>, i: nat, j: nat)
    requires i < |Sort(values)| && j < |Sort(values)|
    requires Sort(values)[i].score == Sort(values)[j].score
    requires Sort(values)[i].joinedAt < Sort(values)[j].joinedAt
    ensures i < j
  {
    SortOrdered(values);
  }

  /** The player id asked for by the query of `/api/result`: `Some(None)`
      when the query names none, `None` when the handler throws because
      the query ends in `playerId=`. */
  function RequestedId(query: Option<string>): Option<Option<string>> {
    if query.Some? && Contains(query.value, "playerId=") then
      match HttpQuery.ValueAfter(query.value, "playerId=")
      case None => None
      case Some(id) => Some(Some(id))
    else Some(None)
  }

  /** `playerId=` followed by an id without `&` asks for that id. */
  lemma RequestedSingleId(id: string)
    requires id != [] && '&' !in id
    requires IndexOf("playerId=" + id, "playerId=", 1) == -1
    ensures RequestedId(Some("playerId=" + id)) == Some(Some(id))
  {
    HttpQuery.SingleParam("playerId=", id);
    assert MatchesAt("playerId=" + id, "playerId=", 0) by {
      assert ("playerId=" + id)[..9] == "playerId=";
    }
  }

  /** A query ending in its only `playerId=` makes the handler throw. */
  lemma EmptyIdThrows(pre: string)
    requires IndexOf(pre + "playerId=", "playerId=", 0) == |pre|
    ensures RequestedId(Some(pre + "playerId=")) == None
  {
    HttpQuery.KeyAtEndThrows(pre, "playerId=");
  }
}
