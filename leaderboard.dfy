/** The leaderboard update on game over: the final score is pushed onto the
    stored list, the list is sorted in descending numeric order and the first
    100 entries are kept. Reading and writing the stored list are left to the
    caller; the list comes in and goes out as a sequence. */
module Leaderboard {

  /** How many entries the leaderboard keeps. */
  const MaxEntries: nat := 100

  function Min(a: int, b: int): int
  {
    if a <= b then a else b
  }

  /** Non-increasing from left to right. */
  ghost predicate SortedDesc(s: seq<int>)
  {
    forall i, j :: 0 <= i < j < |s| ==> s[i] >= s[j]
  }

  /** Every dropped value is at most every kept one. */
  ghost predicate KeepsTop(kept: seq<int>, dropped: multiset<int>)
  {
    forall x, k :: x in dropped && 0 <= k < |kept| ==> x <= kept[k]
  }

  /** Inserts x into a descending list at its place. */
  function Insert(x: int, s: seq<int>): (r: seq<int>)
    requires SortedDesc(s)
    ensures SortedDesc(r)
    ensures multiset(r) == multiset(s) + multiset{x}
    ensures r != [] && (r[0] == x || (s != [] && r[0] == s[0]))
  {
    if s == [] then [x]
    else if x >= s[0] then [x] + s
    else
      assert s == [s[0]] + s[1..];
      [s[0]] + Insert(x, s[1..])
  }

  /** The list sorted in descending numeric order, as the game's comparator
      `(a, b) => b - a` orders it (an insertion sort; by SortedUnique every
      descending sort of the same values gives this same list). */
  function SortDescending(s: seq<int>): (r: seq<int>)
    ensures SortedDesc(r)
    ensures multiset(r) == multiset(s)
  {
    if s == [] then []
    else
      assert s == [s[0]] + s[1..];
      Insert(s[0], SortDescending(s[1..]))
  }

  /** The sorted prefix of length n keeps the top values: the rest is what
      the prefix leaves out of the whole list, and none of it exceeds a kept
      value. */
  lemma PrefixKeepsTop(s: seq<int>, n: nat)
    requires SortedDesc(s) && n <= |s|
    ensures multiset(s[..n]) <= multiset(s)
    ensures multiset(s) - multiset(s[..n]) == multiset(s[n..])
    ensures KeepsTop(s[..n], multiset(s) - multiset(s[..n]))
  {
    assert s == s[..n] + s[n..];
    forall x, k | x in multiset(s[n..]) && 0 <= k < n
      ensures x <= s[..n][k]
    {
      var j :| n <= j < |s| && s[j] == x by {
        assert x in s[n..];
      }
    }
  }

  /** The leaderboard after a game that ended with `score`: sorted descending,
      min(|stored| + 1, 100) entries long, drawn from the old entries and the
      score, and dropping nothing larger than what it keeps. */
  function UpdatedLeaderboard(stored: seq<int>, score: int): (board: seq<int>)
    ensures SortedDesc(board)
    ensures |board| == Min(|stored| + 1, MaxEntries)
    ensures multiset(board) <= multiset(stored) + multiset{score}
    ensures KeepsTop(board, multiset(stored) + multiset{score} - multiset(board))
  {
    var sorted := SortDescending(stored + [score]);
    assert |sorted| == |multiset(sorted)| == |stored| + 1;
    var n := Min(|sorted|, MaxEntries);
    PrefixKeepsTop(sorted, n);
    sorted[..n]
  }

  /** The head of a descending list is its largest value. */
  lemma HeadIsLargest(s: seq<int>, x: int)
    requires SortedDesc(s) && x in multiset(s)
    ensures s[0] >= x
  {
  }

  /** Taking the head off a list takes it off its values. */
  lemma DropHead(s: seq<int>)
    requires s != []
    ensures multiset(s[1..]) == multiset(s) - multiset{s[0]}
    ensures SortedDesc(s) ==> SortedDesc(s[1..])
  {
    assert s == [s[0]] + s[1..];
  }

  /** Lists with equal heads and equal tails are equal. */
  lemma HeadTailEqual(a: seq<int>, b: seq<int>)
    requires a != [] && b != [] && a[0] == b[0] && a[1..] == b[1..]
    ensures a == b
  {
  }

  /** Two descending lists holding the same values are the same list. */
  lemma {:induction false} SortedUnique(a: seq<int>, b: seq<int>)
    requires SortedDesc(a) && SortedDesc(b)
    requires multiset(a) == multiset(b)
    ensures a == b
    decreases |a|
  {
    assert |a| == |multiset(a)| == |multiset(b)| == |b|;
    if a != [] {
      assert a[0] in multiset(a) && b[0] in multiset(b);
      HeadIsLargest(a, b[0]);
      HeadIsLargest(b, a[0]);
      DropHead(a);
      DropHead(b);
      SortedUnique(a[1..], b[1..]);
      HeadTailEqual(a, b);
    }
  }

  lemma NonEmptyHasElement(m: multiset<int>)
    requires |m| != 0
    ensures exists x :: x in m
  {
    if forall x :: x !in m {
      assert false;
    }
  }

  /** Any sequence listing the values of a multiset. */
  ghost function Enumerate(m: multiset<int>): (s: seq<int>)
    ensures multiset(s) == m
    decreases |m|
  {
    if |m| == 0 then []
    else
      NonEmptyHasElement(m);
      var x :| x in m;
      [x] + Enumerate(m - multiset{x})
  }

  /** A descending list followed by a descending list of values none of which
      exceeds a value of the first is descending. */
  lemma ConcatKeepsOrder(t: seq<int>, u: seq<int>, d: multiset<int>)
    requires SortedDesc(t) && SortedDesc(u)
    requires multiset(u) == d && KeepsTop(t, d)
    ensures SortedDesc(t + u)
  {
    forall i, j | 0 <= i < j < |t + u|
      ensures (t + u)[i] >= (t + u)[j]
    {
      if j >= |t| && i < |t| {
        assert u[j - |t|] in multiset(u);
      }
    }
  }

  /** The contract of UpdatedLeaderboard pins its result down: any list that
      is sorted descending, has the right length, is drawn from the old
      entries and the score, and drops nothing larger than what it keeps, is
      the updated leaderboard. */
  lemma LeaderboardDetermined(stored: seq<int>, score: int, t: seq<int>)
    requires SortedDesc(t)
    requires |t| == Min(|stored| + 1, MaxEntries)
    requires multiset(t) <= multiset(stored) + multiset{score}
    requires KeepsTop(t, multiset(stored) + multiset{score} - multiset(t))
    ensures t == UpdatedLeaderboard(stored, score)
  {
    var all := multiset(stored) + multiset{score};
    var dropped := all - multiset(t);
    var u := SortDescending(Enumerate(dropped));
    ConcatKeepsOrder(t, u, dropped);
    assert multiset(t + u) == all;
    var sorted := SortDescending(stored + [score]);
    assert multiset(sorted) == all;
    SortedUnique(t + u, sorted);
    assert |sorted| == |stored| + 1;
    assert sorted[..|t|] == t;
  }

  /** The number of entries of s strictly greater than v. */
  function CountAbove(s: seq<int>, v: int): (n: nat)
    ensures n <= |s|
  {
    if s == [] then 0 else (if s[0] > v then 1 else 0) + CountAbove(s[1..], v)
  }

  lemma {:induction false} CountAboveAppend(a: seq<int>, b: seq<int>, v: int)
    ensures CountAbove(a + b, v) == CountAbove(a, v) + CountAbove(b, v)
    decreases |a|
  {
    if a == [] {
      assert a + b == b;
    } else {
      assert (a + b)[1..] == a[1..] + b;
      CountAboveAppend(a[1..], b, v);
    }
  }

  /** Counting depends only on which values occur, and more values never
      count fewer. */
  lemma {:induction false} CountAboveMonotone(a: seq<int>, b: seq<int>, v: int)
    requires multiset(a) <= multiset(b)
    ensures CountAbove(a, v) <= CountAbove(b, v)
    decreases |a|
  {
    if a != [] {
      var x := a[0];
      assert a == [x] + a[1..];
      assert x in multiset(b);
      var j :| 0 <= j < |b| && b[j] == x;
      var rest := b[..j] + b[j + 1..];
      assert b == b[..j] + [x] + b[j + 1..];
      CountAboveAppend(b[..j] + [x], b[j + 1..], v);
      CountAboveAppend(b[..j], [x], v);
      CountAboveAppend(b[..j], b[j + 1..], v);
      assert multiset(b) == multiset(rest) + multiset{x};
      assert multiset(a[1..]) <= multiset(rest) by {
        forall y
          ensures multiset(a[1..])[y] <= multiset(rest)[y]
        {
          assert multiset(a)[y] == multiset(a[1..])[y] + multiset{x}[y];
          assert multiset(b)[y] == multiset(rest)[y] + multiset{x}[y];
        }
      }
      CountAboveMonotone(a[1..], rest, v);
    }
  }

  lemma {:induction false} CountAboveAll(s: seq<int>, v: int)
    requires forall k :: 0 <= k < |s| ==> s[k] > v
    ensures CountAbove(s, v) == |s|
    decreases |s|
  {
    if s != [] {
      CountAboveAll(s[1..], v);
    }
  }

  /** When the score is left off, the board is full. */
  lemma DroppedScoreFull(stored: seq<int>, score: int)
    requires score !in UpdatedLeaderboard(stored, score)
    ensures |UpdatedLeaderboard(stored, score)| == MaxEntries
  {
    var sorted := SortDescending(stored + [score]);
    assert |sorted| == |multiset(sorted)| == |stored| + 1;
    assert (stored + [score])[|stored|] == score;
    assert score in multiset(sorted);
    assert UpdatedLeaderboard(stored, score) != sorted;
  }

  /** When the score is left off, every kept entry beats it. */
  lemma DroppedScoreBeaten(stored: seq<int>, score: int)
    requires score !in UpdatedLeaderboard(stored, score)
    ensures var board := UpdatedLeaderboard(stored, score);
            forall k :: 0 <= k < |board| ==> board[k] > score
  {
    var board := UpdatedLeaderboard(stored, score);
    var dropped := multiset(stored) + multiset{score} - multiset(board);
    assert multiset(board)[score] == 0;
    assert score in dropped;
    forall k | 0 <= k < |board|
      ensures board[k] > score
    {
      assert score <= board[k];
      assert board[k] != score;
    }
  }

  /** When the score is left off, every kept entry came from the old list. */
  lemma DroppedScoreFromOld(stored: seq<int>, score: int)
    requires score !in UpdatedLeaderboard(stored, score)
    ensures multiset(UpdatedLeaderboard(stored, score)) <= multiset(stored)
  {
  }

  /** The new score makes the leaderboard whenever fewer than 100 of the old
      entries are strictly greater than it. */
  lemma ScoreKept(stored: seq<int>, score: int)
    requires CountAbove(stored, score) < MaxEntries
    ensures score in UpdatedLeaderboard(stored, score)
  {
    var board := UpdatedLeaderboard(stored, score);
    if score !in board {
      DroppedScoreFull(stored, score);
      DroppedScoreBeaten(stored, score);
      DroppedScoreFromOld(stored, score);
      CountAboveAll(board, score);
      CountAboveMonotone(board, stored, score);
    }
  }

  /** A score above every old entry goes to the front. */
  lemma NewBestFirst(stored: seq<int>, score: int)
    requires forall k :: 0 <= k < |stored| ==> stored[k] < score
    ensures UpdatedLeaderboard(stored, score)[0] == score
  {
    var board := UpdatedLeaderboard(stored, score);
    assert CountAbove(stored, score) == 0 by {
      CountAboveNone(stored, score);
    }
    ScoreKept(stored, score);
    var i :| 0 <= i < |board| && board[i] == score;
    assert board[0] >= score;
    assert board[0] in multiset(stored) + multiset{score};
  }

  lemma {:induction false} CountAboveNone(s: seq<int>, v: int)
    requires forall k :: 0 <= k < |s| ==> s[k] < v
    ensures CountAbove(s, v) == 0
    decreases |s|
  {
    if s != [] {
      CountAboveNone(s[1..], v);
    }
  }

  /** Pushing 50 onto [100, 80, 50] gives [100, 80, 50, 50]. */
  lemma TieExample()
    ensures UpdatedLeaderboard([100, 80, 50], 50) == [100, 80, 50, 50]
  {
    var t := [100, 80, 50, 50];
    assert multiset(t) == multiset([100, 80, 50]) + multiset{50};
    LeaderboardDetermined([100, 80, 50], 50, t);
  }
}
