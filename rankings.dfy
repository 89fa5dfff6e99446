/**
 * get_user_rankings: each user's number of won scores, counted in nested
 * loops, and the list of ranks sorted by that number, highest first, with
 * Python's stable `list.sort`.
 */
module Rankings {
  import opened Models

  /** The User fields the ranking reads: its datastore key and its name. */
  datatype User = User(key: UserKey, name: string)

  datatype UserRank = UserRank(userName: string, winNumber: nat)

  predicate IsWinOf(s: Score, key: UserKey) {
    s.user == key && s.won
  }

  /** The number of won scores of the user with key `key`, counted front to back. */
  function WinCount(key: UserKey, scores: seq<Score>): nat {
    if scores == [] then 0
    else WinCount(key, scores[..|scores| - 1]) + if IsWinOf(scores[|scores| - 1], key) then 1 else 0
  }

  /** WinCount is the number of positions of `scores` that hold a win of the user. */
  lemma {:induction false} WinCountCountsWins(key: UserKey, scores: seq<Score>)
    ensures WinCount(key, scores) == |set i | 0 <= i < |scores| && IsWinOf(scores[i], key)|
  {
    if scores != [] {
      var n := |scores| - 1;
      var prefix := scores[..n];
      WinCountCountsWins(key, prefix);
      var before := set i | 0 <= i < n && IsWinOf(prefix[i], key);
      var after := set i | 0 <= i < |scores| && IsWinOf(scores[i], key);
      if IsWinOf(scores[n], key) {
        assert after == before + {n};
      } else {
        assert after == before;
      }
    }
  }

  /** The ranks in the order the users were fetched, before sorting. */
  function Tally(users: seq<User>, scores: seq<Score>): seq<UserRank> {
    seq(|users|, i requires 0 <= i < |users| => UserRank(users[i].name, WinCount(users[i].key, scores)))
  }

  predicate SortedDesc(ys: seq<UserRank>) {
    forall i, j :: 0 <= i < j < |ys| ==> ys[i].winNumber >= ys[j].winNumber
  }

  /** The ranks with `w` wins, in the order they occur. */
  function WithWins(xs: seq<UserRank>, w: nat): seq<UserRank> {
    if xs == [] then []
    else (if xs[0].winNumber == w then [xs[0]] else []) + WithWins(xs[1..], w)
  }

  /** Puts `x` before the first rank with no more wins than `x`. */
  function Insert(x: UserRank, ys: seq<UserRank>): seq<UserRank> {
    if ys == [] || x.winNumber >= ys[0].winNumber then [x] + ys
    else [ys[0]] + Insert(x, ys[1..])
  }

  /** `items.sort(key=lambda x: x.win_number, reverse=True)`. */
  function SortByWinsDesc(xs: seq<UserRank>): seq<UserRank> {
    if xs == [] then [] else Insert(xs[0], SortByWinsDesc(xs[1..]))
  }

  lemma {:induction false} InsertPermutes(x: UserRank, ys: seq<UserRank>)
    ensures multiset(Insert(x, ys)) == multiset{x} + multiset(ys)
  {
    if ys != [] && x.winNumber < ys[0].winNumber {
      InsertPermutes(x, ys[1..]);
      assert ys == [ys[0]] + ys[1..];
    }
  }

  lemma {:induction false} InsertSorted(x: UserRank, ys: seq<UserRank>)
    requires SortedDesc(ys)
    ensures SortedDesc(Insert(x, ys))
  {
    if ys != [] && x.winNumber < ys[0].winNumber {
      var rest := Insert(x, ys[1..]);
      InsertSorted(x, ys[1..]);
      InsertPermutes(x, ys[1..]);
      forall k | 0 <= k < |rest|
        ensures rest[k].winNumber <= ys[0].winNumber
      {
        assert rest[k] in multiset(rest);
      }
    }
  }

  lemma {:induction false} InsertWithWins(x: UserRank, ys: seq<UserRank>, w: nat)
    requires SortedDesc(ys)
    ensures WithWins(Insert(x, ys), w) == (if x.winNumber == w then [x] else []) + WithWins(ys, w)
  {
    if ys == [] || x.winNumber >= ys[0].winNumber {
      assert ([x] + ys)[1..] == ys;
    } else {
      var rest := Insert(x, ys[1..]);
      assert ([ys[0]] + rest)[1..] == rest;
      InsertWithWins(x, ys[1..], w);
      var tail := WithWins(ys[1..], w);
      assert WithWins(ys, w) == (if ys[0].winNumber == w then [ys[0]] else []) + tail;
      if x.winNumber == w {
        assert ys[0].winNumber != w;
        assert WithWins(Insert(x, ys), w) == [x] + tail;
      } else {
        assert WithWins(Insert(x, ys), w) == (if ys[0].winNumber == w then [ys[0]] else []) + tail;
      }
    }
  }

  /**
   * The sort orders the ranks by win number, highest first, keeps every
   * rank, and keeps ranks with equal win numbers in their original order.
   */
  lemma {:induction false} SortByWinsDescSpec(xs: seq<UserRank>)
    ensures SortedDesc(SortByWinsDesc(xs))
    ensures multiset(SortByWinsDesc(xs)) == multiset(xs)
    ensures forall w: nat :: WithWins(SortByWinsDesc(xs), w) == WithWins(xs, w)
  {
    if xs != [] {
      var sorted := SortByWinsDesc(xs[1..]);
      SortByWinsDescSpec(xs[1..]);
      InsertSorted(xs[0], sorted);
      InsertPermutes(xs[0], sorted);
      assert xs == [xs[0]] + xs[1..];
      forall w: nat
        ensures WithWins(SortByWinsDesc(xs), w) == WithWins(xs, w)
      {
        InsertWithWins(xs[0], sorted, w);
      }
    }
  }

  /** get_user_rankings over the fetched users and scores. */
  method GetUserRankings(users: seq<User>, scores: seq<Score>) returns (items: seq<UserRank>)
    ensures items == SortByWinsDesc(Tally(users, scores))
    ensures |items| == |users|
    ensures SortedDesc(items)
    ensures multiset(items) == multiset(Tally(users, scores))
    ensures forall w: nat :: WithWins(items, w) == WithWins(Tally(users, scores), w)
  {
    items := [];
    for i := 0 to |users|
      invariant items == Tally(users[..i], scores)
    {
      var winNumber := 0;
      for j := 0 to |scores|
        invariant winNumber == WinCount(users[i].key, scores[..j])
      {
        assert scores[..j + 1][..j] == scores[..j];
        if scores[j].user == users[i].key && scores[j].won {
          winNumber := winNumber + 1;
        }
      }
      assert scores[..|scores|] == scores;
      items := items + [UserRank(users[i].name, winNumber)];
    }
    assert users[..|users|] == users;
    var tally := items;
    items := SortByWinsDesc(tally);
    SortByWinsDescSpec(tally);
    assert |items| == |multiset(items)| == |multiset(tally)| == |tally|;
  }
}
