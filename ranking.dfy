/**
 * The result ranking: currentPlayers is sorted in place by ascending score
 * (a comparator returning a.score - b.score, and a stable sort as the
 * language guarantees), then each player is inserted as the new first row
 * of the results table, so the table shows the sorted order reversed.
 */
module Ranking {
  import opened RaceEngine

  /** Scores never decrease along the sequence. */
  predicate SortedByScore(s: seq<Player>)
  {
    forall i, j :: 0 <= i < j < |s| ==> s[i].score <= s[j].score
  }

  /**
   * Places x in front of the first entry whose score is at least x's,
   * so x comes after every lower score and before every equal one.
   */
  function Insert(x: Player, t: seq<Player>): (r: seq<Player>)
    ensures |r| == |t| + 1
    ensures multiset(r) == multiset(t) + multiset{x}
    decreases |t|
  {
    if t == [] || x.score <= t[0].score then [x] + t
    else
      assert t == [t[0]] + t[1..];
      [t[0]] + Insert(x, t[1..])
  }

  /** The stable ascending sort of currentPlayers by score; it is a permutation of its input. */
  function SortByScore(s: seq<Player>): (r: seq<Player>)
    ensures |r| == |s|
    ensures multiset(r) == multiset(s)
    decreases |s|
  {
    if s == [] then []
    else
      assert s == [s[0]] + s[1..];
      Insert(s[0], SortByScore(s[1..]))
  }

  /** The entries of two sequences with the same multiset are the same values. */
  lemma SameEntries(r: seq<Player>, s: seq<Player>, i: nat) returns (j: nat)
    requires multiset(r) == multiset(s)
    requires i < |r|
    ensures j < |s| && s[j] == r[i]
  {
    assert r[i] in r;
    assert r[i] in multiset(s);
    j :| 0 <= j < |s| && s[j] == r[i];
  }

  /** A sequence that starts with a lowest score followed by a sorted rest is sorted. */
  lemma SortedCons(p: Player, rest: seq<Player>)
    requires SortedByScore(rest)
    requires forall m :: 0 <= m < |rest| ==> p.score <= rest[m].score
    ensures SortedByScore([p] + rest)
  {
  }

  /** Inserting into a sorted sequence keeps it sorted. */
  lemma {:induction false} InsertKeepsSorted(x: Player, t: seq<Player>)
    requires SortedByScore(t)
    ensures SortedByScore(Insert(x, t))
    decreases |t|
  {
    if t == [] || x.score <= t[0].score {
      SortedCons(x, t);
    } else {
      var tail := t[1..];
      var rest := Insert(x, tail);
      InsertKeepsSorted(x, tail);
      forall m | 0 <= m < |rest|
        ensures t[0].score <= rest[m].score
      {
        if rest[m] != x {
          assert rest[m] in multiset(tail) by {
            assert rest[m] in multiset(rest);
          }
          var q :| 0 <= q < |tail| && tail[q] == rest[m];
          assert t[q + 1] == rest[m];
        }
      }
      SortedCons(t[0], rest);
    }
  }

  /** The sort orders the players by non-decreasing score. */
  lemma {:induction false} SortByScoreSorted(s: seq<Player>)
    ensures SortedByScore(SortByScore(s))
    decreases |s|
  {
    if s != [] {
      SortByScoreSorted(s[1..]);
      InsertKeepsSorted(s[0], SortByScore(s[1..]));
    }
  }

  /** The entries of s with the given score, in the order they appear in s. */
  function WithScore(s: seq<Player>, v: int): seq<Player>
  {
    if s == [] then []
    else (if s[0].score == v then [s[0]] else []) + WithScore(s[1..], v)
  }

  /** Filtering a sequence that starts with p. */
  lemma WithScoreCons(p: Player, s: seq<Player>, v: int)
    ensures WithScore([p] + s, v) == (if p.score == v then [p] else []) + WithScore(s, v)
  {
  }

  /** Inserting x keeps every other entry of its score where it was relative to the rest, with x first. */
  lemma {:induction false} InsertKeepsEqualOrder(x: Player, t: seq<Player>, v: int)
    ensures WithScore(Insert(x, t), v) == (if x.score == v then [x] else []) + WithScore(t, v)
    decreases |t|
  {
    if t == [] || x.score <= t[0].score {
      WithScoreCons(x, t, v);
    } else {
      var tail := t[1..];
      var rest := Insert(x, tail);
      var head := if t[0].score == v then [t[0]] else [];
      var mine := if x.score == v then [x] else [];
      InsertKeepsEqualOrder(x, tail, v);
      WithScoreCons(t[0], rest, v);
      assert t == [t[0]] + tail;
      WithScoreCons(t[0], tail, v);
      calc {
        WithScore(Insert(x, t), v);
        head + WithScore(rest, v);
        head + (mine + WithScore(tail, v));
        { if x.score == v { assert head == []; } }
        mine + (head + WithScore(tail, v));
        mine + WithScore(t, v);
      }
    }
  }

  /**
   * The sort is stable: for every score, the players with that score appear
   * in the same relative order before and after sorting.
   */
  lemma {:induction false} SortIsStable(s: seq<Player>, v: int)
    ensures WithScore(SortByScore(s), v) == WithScore(s, v)
    decreases |s|
  {
    if s != [] {
      SortIsStable(s[1..], v);
      InsertKeepsEqualOrder(s[0], SortByScore(s[1..]), v);
    }
  }

  /** The rows of the table: each entry in turn becomes the first row. */
  function Reversed(s: seq<Player>): (r: seq<Player>)
    ensures |r| == |s|
    ensures forall i :: 0 <= i < |s| ==> r[i] == s[|s| - 1 - i]
  {
    if s == [] then [] else Reversed(s[1..]) + [s[0]]
  }

  /** The rows of a sorted sequence are ordered by non-increasing score. */
  lemma RowsDescending(s: seq<Player>)
    requires SortedByScore(s)
    ensures forall i, j :: 0 <= i < j < |s| ==> Reversed(s)[i].score >= Reversed(s)[j].score
  {
  }

  /** The table rows are ordered by non-increasing score. */
  lemma TableDescending(ps: seq<Player>)
    ensures forall i, j :: 0 <= i < j < |ps| ==> Reversed(SortByScore(ps))[i].score >= Reversed(SortByScore(ps))[j].score
  {
    SortByScoreSorted(ps);
    RowsDescending(SortByScore(ps));
  }

  /** The sequence without its entry at index w holds the other entries, in order. */
  lemma DropIndex(ps: seq<Player>, w: nat) returns (rest: seq<Player>)
    requires w < |ps|
    ensures |rest| == |ps| - 1
    ensures multiset(ps) == multiset(rest) + multiset{ps[w]}
    ensures forall t :: 0 <= t < |rest| ==> rest[t] == ps[if t < w then t else t + 1]
  {
    rest := ps[..w] + ps[w + 1..];
    assert ps == ps[..w] + [ps[w]] + ps[w + 1..];
  }

  /** Two multisets that are equal once the same entry is added to each are equal. */
  lemma CancelEntry(a: multiset<Player>, b: multiset<Player>, x: Player)
    requires a + multiset{x} == b + multiset{x}
    ensures a == b
  {
    assert a == (a + multiset{x}) - multiset{x};
    assert b == (b + multiset{x}) - multiset{x};
  }

  /** Taking the last entry off a sequence takes it off the multiset. */
  lemma DropLast(r: seq<Player>)
    requires |r| > 0
    ensures multiset(r) == multiset(r[..|r| - 1]) + multiset{r[|r| - 1]}
  {
    assert r == r[..|r| - 1] + [r[|r| - 1]];
  }

  /**
   * A sorted permutation of ps with a strict leader ps[w] ends with the
   * leader, and every earlier entry scores strictly less.
   */
  lemma SortedLeaderLast(r: seq<Player>, ps: seq<Player>, w: nat)
    requires w < |ps|
    requires forall j :: 0 <= j < |ps| && j != w ==> ps[j].score < ps[w].score
    requires |r| == |ps| && multiset(r) == multiset(ps) && SortedByScore(r)
    ensures r[|r| - 1] == ps[w]
    ensures forall m :: 0 <= m < |r| - 1 ==> r[m].score < ps[w].score
  {
    var n := |r|;
    var j := SameEntries(r, ps, n - 1);
    var idx := SameEntries(ps, r, w);
    assert ps[w].score <= r[n - 1].score by {
      if idx < n - 1 {
        assert r[idx].score <= r[n - 1].score;
      }
    }
    assert j == w;
    var rest := DropIndex(ps, w);
    DropLast(r);
    CancelEntry(multiset(r[..n - 1]), multiset(rest), ps[w]);
    forall m | 0 <= m < n - 1
      ensures r[m].score < ps[w].score
    {
      assert r[m] in r[..n - 1];
      assert r[m] in multiset(rest);
      var t :| 0 <= t < |rest| && rest[t] == r[m];
    }
  }

  /** Reversing a sequence that ends with its unique top scorer puts that entry first and the rest below it. */
  lemma RowsBelowTop(r: seq<Player>, top: Player)
    requires |r| > 0 && r[|r| - 1] == top
    requires forall m :: 0 <= m < |r| - 1 ==> r[m].score < top.score
    ensures Reversed(r)[0] == top
    ensures forall j :: 1 <= j < |r| ==> Reversed(r)[j].score < top.score
  {
  }

  /**
   * A player whose score is strictly above everyone else's ends last in the
   * sorted order, so the first row of the table is that player and every
   * other row scores strictly less.
   */
  lemma TableLeaderOnTop(ps: seq<Player>, w: nat)
    requires w < |ps|
    requires forall j :: 0 <= j < |ps| && j != w ==> ps[j].score < ps[w].score
    ensures var rows := Reversed(SortByScore(ps));
      && rows[0] == ps[w]
      && forall j :: 1 <= j < |rows| ==> rows[j].score < ps[w].score
  {
    var r := SortByScore(ps);
    SortByScoreSorted(ps);
    SortedLeaderLast(r, ps, w);
    RowsBelowTop(r, ps[w]);
  }

  /** Sorting and reversing keeps every score within bounds that held before. */
  lemma TableScoresWithin(ps: seq<Player>, lo: int, hi: int)
    requires forall j :: 0 <= j < |ps| ==> lo <= ps[j].score <= hi
    ensures forall j :: 0 <= j < |ps| ==> lo <= Reversed(SortByScore(ps))[j].score <= hi
  {
    var sorted := SortByScore(ps);
    forall j | 0 <= j < |ps|
      ensures lo <= Reversed(sorted)[j].score <= hi
    {
      var q := SameEntries(sorted, ps, |ps| - 1 - j);
    }
  }
}
