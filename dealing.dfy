/**
 * Dealing: the pieces the engine deals and the generator draws it makes.
 * The seeded build's Fisher–Yates shuffle as a function of the generator
 * state, and the bag, preview kind, history and generator state as one
 * record with the relations `_pull` and the end of a turn keep between them.
 */
module Dealing {
  import opened Catalog
  import opened Board
  import opened Bag
  import opened Lehmer

  /**
   * The seeded build's shuffle as a function of the generator state: the
   * Fisher–Yates steps from index `i` down to 1 of `_fillBag`, each drawing
   * `nextInt(i + 1)` from the next state. The result is the shuffled sequence
   * and the generator state after the last draw.
   */
  function ShuffleFrom(a: seq<Kind>, i: nat, s: int): (r: (seq<Kind>, int))
    requires i < |a| && InRange(s)
    ensures |r.0| == |a| && InRange(r.1)
    decreases i
  {
    if i == 0 then (a, s)
    else
      NextStateInRange(s);
      var s1 := NextState(s);
      var j := ScaleIndex(s1, i + 1);
      ShuffleFrom(a[i := a[j]][j := a[i]], i - 1, s1)
  }

  /** One swap step of the shuffle. */
  lemma ShuffleStep(a: seq<Kind>, i: nat, s: int, j: nat, b: seq<Kind>, t: int, goal: (seq<Kind>, int))
    requires 0 < i < |a| && InRange(s) && ShuffleFrom(a, i, s) == goal
    requires t == NextState(s) && j == ScaleIndex(t, i + 1) && j <= i && b == a[i := a[j]][j := a[i]]
    ensures InRange(t) && ShuffleFrom(b, i - 1, t) == goal
  {
    NextStateInRange(s);
  }

  /** One `_fillBag` shuffle of PIECE_TYPES from generator state `s`. */
  function SeededShuffle(s: int): (r: (seq<Kind>, int))
    requires InRange(s)
  {
    ShuffleFrom(PieceTypes, 6, s)
  }

  /** The swaps rearrange the sequence and nothing else, and each step makes one draw. */
  lemma {:induction false} ShuffleFromRearranges(a: seq<Kind>, i: nat, s: int)
    requires i < |a| && InRange(s)
    ensures multiset(ShuffleFrom(a, i, s).0) == multiset(a)
    ensures ShuffleFrom(a, i, s).1 == Advanced(s, i)
    decreases i
  {
    if i > 0 {
      NextStateInRange(s);
      var s1 := NextState(s);
      var j := ScaleIndex(s1, i + 1);
      SwapKeepsMultiset(a, i, j);
      ShuffleFromRearranges(a[i := a[j]][j := a[i]], i - 1, s1);
      AdvancedFirst(s, i - 1);
    }
  }

  /** `n` draws of the generator from state `s`. */
  function Advanced(s: int, n: nat): int
  {
    if n == 0 then s else NextState(Advanced(s, n - 1))
  }

  /** Drawing once and then `n` more times is drawing `n + 1` times. */
  lemma {:induction false} AdvancedFirst(s: int, n: nat)
    ensures Advanced(NextState(s), n) == Advanced(s, n + 1)
  {
    if n > 0 {
      AdvancedFirst(s, n - 1);
    }
  }

  /**
   * A seeded bag is a permutation of PIECE_TYPES fixed by the generator state,
   * and it leaves the generator six draws further on: the same seed deals the
   * same pieces.
   */
  lemma SeededShufflePermutes(s: int)
    requires InRange(s)
    ensures IsPermutationOfTypes(SeededShuffle(s).0) && SeededShuffle(s).1 == Advanced(s, 6)
  {
    ShuffleFromRearranges(PieceTypes, 6, s);
    RearrangedTypes(SeededShuffle(s).0);
  }

  /**
   * What the engine deals from: the bag, the preview kind, every kind pulled so
   * far, and the generator state (0 in the local build, which has none).
   */
  datatype Deal = Deal(bag: seq<Kind>, next: Kind, pulled: seq<Kind>, seed: int)

  /**
   * `_pull` on the deal: the first kind of the bag becomes the preview kind and
   * joins the history; when at most one kind was left, a shuffled PIECE_TYPES
   * was appended first, which in the seeded build is the `SeededShuffle` of the
   * generator state and leaves the generator where that shuffle does.
   */
  ghost predicate Pulled(d: Deal, e: Deal, seeded: bool)
  {
    e.pulled == d.pulled + [e.next] &&
    if |d.bag| <= 1 then
      var all := [e.next] + e.bag;
      |all| == |d.bag| + 7 && all[..|d.bag|] == d.bag && IsPermutationOfTypes(all[|d.bag|..]) &&
      (seeded ==> InRange(d.seed) && (all[|d.bag|..], e.seed) == SeededShuffle(d.seed))
    else
      e.next == d.bag[0] && e.bag == d.bag[1..] && e.seed == d.seed
  }

  /**
   * The draws of `_applyGarbage(); _spawn()` with `n` lines pending: in the seeded
   * build the hole column is drawn first, so the bottom row of the new grid is
   * the garbage line with its hole at `nextInt(COLS)`; then one pull.
   */
  ghost predicate TurnDealt(n: int, d: Deal, board: Grid, e: Deal, seeded: bool)
  {
    var s1 := if seeded && n > 0 then NextState(d.seed) else d.seed;
    (seeded && n > 0 ==> |board| == ROWS && board[ROWS - 1] == GarbageRow(ScaleIndex(s1, COLS))) &&
    Pulled(d.(seed := s1), e, seeded)
  }

  /** A step that ends the turn deals as `TurnDealt`; any other step leaves the deal as it was. */
  ghost predicate DealStep(ended: bool, n: int, d: Deal, board: Grid, e: Deal, seeded: bool)
  {
    if ended then TurnDealt(n, d, board, e, seeded) else e == d
  }

  /** The same step with its arguments written differently: lets a caller restate a callee's deal step in its own terms. */
  lemma DealStepRestated(ended: bool, ended': bool, n: int, n': int, d: Deal, d': Deal, board: Grid, e: Deal, seeded: bool)
    requires ended == ended' && n == n' && d == d' && DealStep(ended, n, d, board, e, seeded)
    ensures DealStep(ended', n', d', board, e, seeded)
  {
  }

  /** The kinds dealt are only ever extended: the history and the stream of history then bag keep their prefix. */
  /** Taking the first kind of a bag of two or more moves it to the history and keeps the whole sequence dealt. */
  lemma TakenFromBag(pulled: seq<Kind>, bag: seq<Kind>, pulled': seq<Kind>, bag': seq<Kind>, k: Kind)
    requires |bag| > 1 && pulled' == pulled + [k] && k == bag[0] && bag' == bag[1..]
    ensures pulled' + bag' == pulled + bag
  {
    assert bag == [k] + bag';
  }

  lemma DealStepExtends(ended: bool, n: int, d: Deal, board: Grid, e: Deal, seeded: bool)
    requires DealStep(ended, n, d, board, e, seeded)
    ensures d.pulled <= e.pulled && d.pulled + d.bag <= e.pulled + e.bag
    ensures ended ==> e.pulled == d.pulled + [e.next]
  {
    if ended {
      var s1 := if seeded && n > 0 then NextState(d.seed) else d.seed;
      PulledExtends(d.(seed := s1), e, seeded);
    }
  }

  /** A pull appends the preview kind to the history and keeps what was dealt as a prefix. */
  lemma PulledExtends(d: Deal, e: Deal, seeded: bool)
    requires Pulled(d, e, seeded)
    ensures e.pulled == d.pulled + [e.next] && d.pulled + d.bag <= e.pulled + e.bag
  {
    var all := [e.next] + e.bag;
    if |d.bag| <= 1 {
      assert d.bag == all[..|d.bag|];
    } else {
      assert all == d.bag;
    }
    assert d.bag <= all;
    PrefixAfter(d.pulled, d.bag, all);
    assert e.pulled + e.bag == d.pulled + all;
  }


  lemma PrefixAfter(p: seq<Kind>, b: seq<Kind>, a: seq<Kind>)
    requires b <= a
    ensures p + b <= p + a
  {
    assert p + a == (p + b) + a[|b|..];
  }


  /** In the seeded build a pull is determined by the deal it starts from. */
  lemma PulledDeterministic(d: Deal, e1: Deal, e2: Deal)
    requires Pulled(d, e1, true) && Pulled(d, e2, true)
    ensures e1 == e2
  {
    if |d.bag| <= 1 {
      RefilledFromSeed(d, e1);
      RefilledFromSeed(d, e2);
      var all1, all2 := [e1.next] + e1.bag, [e2.next] + e2.bag;
      assert e1.next == all1[0] && e1.bag == all1[1..];
      assert e2.next == all2[0] && e2.bag == all2[1..];
    }
  }

  /** A seeded refill: the old bag followed by the shuffle of the old generator state. */
  lemma RefilledFromSeed(d: Deal, e: Deal)
    requires Pulled(d, e, true) && |d.bag| <= 1
    ensures [e.next] + e.bag == d.bag + SeededShuffle(d.seed).0 && e.seed == SeededShuffle(d.seed).1
  {
    var all := [e.next] + e.bag;
    assert all == all[..|d.bag|] + all[|d.bag|..];
  }

}
