/**
 * TetrisEngine: the game state of one player and the methods that change it.
 * One class serves both builds: `rng` is the network build's SeededRNG, and
 * null stands for the local build, which draws its random indices from
 * Math.random (modelled as an arbitrary index in range). `clearDuration` is
 * the length of the line-clear animation, 250 ms in the network build and
 * 300 ms in the local one.
 *
 * The engine's per-player fields are kept together in one record, `st`, which
 * every method replaces as a whole.
 */
module Engine {
  import opened Catalog
  import opened Rotation
  import opened Board
  import opened Bag
  import opened Lehmer
  import opened Dealing

  /** The fields `reset` initialises, in the order it assigns them, except the bag and the preview kind. */
  datatype EngineState = EngineState(
    board: Grid, score: int, lines: int, level: int, gameOver: bool,
    current: Option<Piece>, dropTimer: int,
    lockTimer: int, lockResets: int, locking: bool, pendingGarbage: int,
    linesClearedThisTurn: int, clearingLines: seq<int>, clearTimer: int)

  /** A piece is falling and the game is still on: the guard of every player action. */
  predicate Active(s: EngineState)
  {
    s.current.Some? && !s.gameOver
  }

  /**
   * What holds between any two steps of the source, even half-way through
   * `_lock`: the grid shape, the counters, the lock-reset bound, and the
   * orientation and shape of the falling piece.
   */
  ghost predicate Core(s: EngineState)
  {
    WellFormed(s.board) &&
    |s.clearingLines| <= 4 && 0 <= s.linesClearedThisTurn <= 4 &&
    0 <= s.lockResets <= MAX_LOCK_RESETS &&
    0 <= s.lines && 0 <= s.score && s.level == s.lines / 10 + 1 &&
    (s.current.Some? ==> PieceShaped(s.current.value))
  }

  /**
   * What holds whenever control is back with the caller: the rows being cleared
   * are exactly the full rows of the grid (so outside a clear there is none),
   * a piece is falling exactly when no clear is under way, the clear's size is
   * recorded, and a falling piece fits unless the game is over.
   */
  ghost predicate Settled(s: EngineState)
  {
    Core(s) &&
    ListsFullRows(s.board, s.clearingLines) &&
    (s.clearingLines != [] <==> s.current.None?) &&
    (s.clearingLines != [] ==> s.linesClearedThisTurn == |s.clearingLines|) &&
    (Active(s) ==> Fits(s.board, s.current.value.shape, s.current.value.x, s.current.value.y))
  }

  /** `_rlk`: while locking and below the cap, a successful move restarts the lock delay. */
  function AfterLockReset(s: EngineState): (r: EngineState)
    ensures r == s.(lockTimer := r.lockTimer, lockResets := r.lockResets)
    ensures !s.locking ==> r == s
    ensures s.lockResets <= MAX_LOCK_RESETS ==> r.lockResets <= MAX_LOCK_RESETS
    ensures s.locking && s.lockResets < MAX_LOCK_RESETS <==> r.lockResets == s.lockResets + 1
  {
    if s.locking && s.lockResets < MAX_LOCK_RESETS then s.(lockTimer := 0, lockResets := s.lockResets + 1) else s
  }

  /** Putting a fitting piece of the right shape in place of the falling one, with or without a lock reset, keeps the state settled. */
  lemma PieceReplaced(s: EngineState, q: Piece)
    requires Settled(s) && Active(s) && PieceShaped(q) && Fits(s.board, q.shape, q.x, q.y)
    ensures Settled(s.(current := Some(q))) && Settled(AfterLockReset(s.(current := Some(q))))
  {
  }

  /** Moving the falling piece to the row it rests on and crediting the drop keeps the state settled. */
  lemma Dropped(s: EngineState, q: Piece, d: nat)
    requires Settled(s) && Active(s) && PieceShaped(q) && Fits(s.board, q.shape, q.x, q.y)
    ensures Settled(s.(current := Some(q), score := s.score + d * 2))
  {
  }

  /** Starting the clear animation on the full rows of a grid just locked settles the state. */
  lemma ClearStarts(s: EngineState, full: seq<int>, clearDuration: int)
    requires Core(s) && s.current.None? && ListsFullRows(s.board, full) && 0 < |full| <= 4
    ensures Settled(s.(clearingLines := full, clearTimer := clearDuration, linesClearedThisTurn := |full|))
  {
  }

  /** Ending a turn without a clear. */
  lemma CheckedNothing(s: EngineState, k: Kind, t: EngineState, clearDuration: int)
    requires Core(s) && NoneFull(s.board) && Respawned(s.(linesClearedThisTurn := 0), k, t)
    ensures Core(s.(linesClearedThisTurn := 0)) && LinesChecked(s, k, t, clearDuration)
  {
  }

  /**
   * The rotation cycle holds for the engine's own falling piece: when all four
   * orientations fit where it stands, four clockwise turns bring it back.
   */
  lemma FallingPieceCycles(s: EngineState)
    requires Settled(s) && Active(s) && s.current.value.kind != O
    requires forall r :: 0 <= r < 4 ==>
      Fits(s.board, Turns(Base(s.current.value.kind), r), s.current.value.x, s.current.value.y)
    ensures PieceOk(s.current.value) && RotateTimes(s.board, s.current.value, 4) == s.current
  {
    FourRotationsReturn(s.board, s.current.value);
  }

  /** Outside a clear, zeroing the count of lines cleared this turn keeps the state settled. */
  lemma CountSent(s: EngineState)
    requires Settled(s) && s.clearingLines == []
    ensures Settled(s.(linesClearedThisTurn := 0))
  {
  }

  /** At the cap the lock delay can no longer be postponed. */
  lemma LockResetCapped(s: EngineState)
    requires s.lockResets >= MAX_LOCK_RESETS
    ensures AfterLockReset(s) == s
  {
  }

  /**
   * `_applyGarbage` followed by `_spawn`, as a relation between the state before
   * and after: the pending lines are drained into the grid at some hole column
   * and the preview kind `k` enters at its spawn position.
   */
  ghost predicate Respawned(s: EngineState, k: Kind, t: EngineState)
  {
    var p := SpawnPiece(k);
    Drained(s.board, s.pendingGarbage, t.board) && WellFormed(t.board) &&
    t == s.(board := t.board, pendingGarbage := if s.pendingGarbage > 0 then 0 else s.pendingGarbage,
            current := Some(p), locking := false, lockTimer := 0, lockResets := 0,
            gameOver := s.gameOver || !Fits(t.board, p.shape, p.x, p.y))
  }

  /**
   * `_checkLines` on a grid with the piece already locked in: with full rows the
   * clear animation starts, otherwise the turn ends with garbage and a new piece.
   */
  ghost predicate LinesChecked(s: EngineState, k: Kind, t: EngineState, clearDuration: int)
  {
    if NoneFull(s.board) then
      Respawned(s.(linesClearedThisTurn := 0), k, t)
    else
      var full := t.clearingLines;
      ListsFullRows(s.board, full) &&
      t == s.(clearingLines := full, clearTimer := clearDuration, linesClearedThisTurn := |full|)
  }

  /** `_lock`: the piece is written into the grid, the piece is gone, and the lines are checked. */
  ghost predicate LockedIn(s: EngineState, k: Kind, t: EngineState, clearDuration: int)
    requires WellFormed(s.board) && s.current.Some?
  {
    LinesChecked(s.(board := Stamp(s.board, s.current.value), current := None), k, t, clearDuration)
  }

  /**
   * The bookkeeping of `_removeLines`: the rows being cleared come out, `c`
   * lines are credited with SCORE_TABLE[c] points per level, the level is
   * recomputed from the new line count, and no clear is under way any more.
   */
  function Credited(s: EngineState): (t: EngineState)
    requires |s.clearingLines| <= 4 && InRows(s.clearingLines, |s.board|)
  {
    var c := |s.clearingLines|;
    s.(board := RemoveAll(s.board, s.clearingLines), lines := s.lines + c, score := s.score + ScoreTable[c] * s.level,
       level := (s.lines + c) / 10 + 1, clearingLines := [])
  }

  /** The same lock stated from an equal state: lets a caller restate a callee's lock in its own terms. */
  lemma LockedInRestated(s: EngineState, s': EngineState, k: Kind, t: EngineState, clearDuration: int)
    requires WellFormed(s.board) && s.current.Some? && s == s' && LockedIn(s, k, t, clearDuration)
    ensures LockedIn(s', k, t, clearDuration)
  {
  }

  /** `_removeLines`: the rows are credited and removed, and the turn ends. */
  ghost predicate LinesRemoved(s: EngineState, k: Kind, t: EngineState)
  {
    |s.clearingLines| <= 4 && InRows(s.clearingLines, |s.board|) && Respawned(Credited(s), k, t)
  }

  /** After the removal the grid again has ROWS rows of COLS cells and no full row, and the counters stay in range. */
  lemma CreditedCore(s: EngineState)
    requires Core(s) && ListsFullRows(s.board, s.clearingLines)
    ensures InRows(s.clearingLines, |s.board|)
    ensures var t := Credited(s); Core(t) && t.clearingLines == [] && NoneFull(t.board)
  {
    ListedRowsRemoved(s.board, s.clearingLines);
  }

  /**
   * The gravity half of `update(delta)` for a falling piece: the drop timer
   * advances, and once it reaches the level's interval it restarts and the piece
   * either moves down one row or, when it cannot, the lock delay starts.
   */
  function Gravity(s: EngineState, delta: nat): (t: EngineState)
    requires WellFormed(s.board) && s.current.Some?
    ensures t == s.(current := t.current, dropTimer := t.dropTimer, locking := t.locking, lockTimer := t.lockTimer)
    ensures t.current == s.current || t.current == Some(s.current.value.(y := s.current.value.y + 1))
  {
    var p := s.current.value;
    var u := s.(dropTimer := s.dropTimer + delta);
    if u.dropTimer < DropIntervalFor(u.level) then u
    else if !Fits(s.board, p.shape, p.x, p.y + 1) then
      if u.locking then u.(dropTimer := 0) else u.(dropTimer := 0, locking := true, lockTimer := 0)
    else u.(dropTimer := 0, current := Some(p.(y := p.y + 1)))
  }

  /** A piece gravity moves still fits; one that cannot fall is left locking; the timer never exceeds the interval without acting. */
  lemma GravityKeepsFit(s: EngineState, delta: nat)
    requires WellFormed(s.board) && s.current.Some?
    ensures var t := Gravity(s, delta); var p := t.current.value;
      t.current.Some? &&
      (t.current != s.current ==> Fits(s.board, p.shape, p.x, p.y)) &&
      (s.dropTimer + delta >= DropIntervalFor(s.level) ==> t.dropTimer == 0) &&
      (s.locking ==> t.locking && t.lockTimer == s.lockTimer)
  {
  }

  /** The lock-delay half of `update(delta)`: while locking, the lock timer advances by delta. */
  function LockDelay(s: EngineState, delta: nat): (t: EngineState)
  {
    if s.locking then s.(lockTimer := s.lockTimer + delta) else s
  }

  /** Gravity and the lock delay keep a settled state settled, with the piece still falling. */
  lemma GravitySettled(s: EngineState, delta: nat)
    requires Settled(s) && Active(s)
    ensures Settled(Gravity(s, delta)) && Active(Gravity(s, delta))
    ensures Settled(LockDelay(Gravity(s, delta), delta)) && Active(LockDelay(Gravity(s, delta), delta))
  {
    GravityKeepsFit(s, delta);
  }

  /**
   * `update(delta)`: nothing once the game is over; during a clear only the
   * animation timer runs, and the rows come out when it expires; otherwise
   * gravity and then the lock delay act, and a piece whose lock delay has run
   * out is locked.
   */
  ghost predicate Updated(s: EngineState, k: Kind, t: EngineState, delta: nat, clearDuration: int)
    requires WellFormed(s.board)
  {
    if s.gameOver then t == s
    else if s.clearingLines != [] then
      var u := s.(clearTimer := s.clearTimer - delta);
      if u.clearTimer <= 0 then LinesRemoved(u, k, t) else t == u
    else if s.current.None? then t == s
    else
      var g := LockDelay(Gravity(s, delta), delta);
      if g.locking && g.lockTimer >= LOCK_DELAY then LockedIn(g, k, t, clearDuration) else t == g
  }

  /** Locking the falling piece leaves no full row, so `_checkLines` ends the turn at once. */
  ghost predicate LockEndsTurn(s: EngineState)
    requires WellFormed(s.board) && s.current.Some?
  {
    NoneFull(Stamp(s.board, s.current.value))
  }

  /** `hardDrop` up to the lock: the piece moves to the row it comes to rest on, earning 2 points per row. */
  function HardDropped(s: EngineState): EngineState
    requires WellFormed(s.board) && s.current.Some? && HasBlock(s.current.value.shape)
  {
    var p := s.current.value;
    var gy := GhostRow(s.board, p.shape, p.x, p.y);
    s.(current := Some(p.(y := gy)), score := s.score + 2 * (gy - p.y))
  }

  /** Whether `update(delta)` ends the turn: a clear runs out, or a lock leaves no full row. */
  ghost predicate EndsTurn(s: EngineState, delta: nat)
    requires WellFormed(s.board)
  {
    if s.gameOver then false
    else if s.clearingLines != [] then s.clearTimer - delta <= 0
    else if s.current.None? then false
    else
      var g := LockDelay(Gravity(s, delta), delta);
      g.locking && g.lockTimer >= LOCK_DELAY && LockEndsTurn(g)
  }

  /** Two drains of the same grid whose bottom rows agree used the same hole column. */
  lemma DrainSameHole(b: Grid, n: nat, h1: int, h2: int)
    requires n > 0 && |b| == ROWS && 0 <= h1 < COLS && 0 <= h2 < COLS
    requires Drain(b, n, h1)[ROWS - 1] == Drain(b, n, h2)[ROWS - 1]
    ensures h1 == h2
  {
    assert Drain(b, n, h1)[ROWS - 1] == GarbageRow(h1);
    assert Drain(b, n, h2)[ROWS - 1] == GarbageRow(h2);
    GarbageRowHole(h1);
    assert GarbageRow(h2)[h2] == Empty;
  }

  /**
   * In the seeded build the end of a turn is determined by the state and the
   * deal: the hole column, the new grid, the new piece and the new deal.
   */
  lemma RespawnDeterministic(s: EngineState, k: Kind, d: Deal, t1: EngineState, e1: Deal, t2: EngineState, e2: Deal)
    requires Respawned(s, k, t1) && TurnDealt(s.pendingGarbage, d, t1.board, e1, true)
    requires Respawned(s, k, t2) && TurnDealt(s.pendingGarbage, d, t2.board, e2, true)
    ensures t1 == t2 && e1 == e2
  {
    var n := s.pendingGarbage;
    var s1 := if n > 0 then NextState(d.seed) else d.seed;
    PulledDeterministic(d.(seed := s1), e1, e2);
    if n > 0 {
      var h1 :| 0 <= h1 < COLS && t1.board == Drain(s.board, n, h1);
      var h2 :| 0 <= h2 < COLS && t2.board == Drain(s.board, n, h2);
      DrainSameHole(s.board, n, h1, h2);
    }
  }

  /**
   * The seeded build is deterministic: two runs of `update(delta)` from the same
   * state with the same bag, preview kind, history and generator state end in
   * the same state and the same deal.
   */
  lemma UpdateDeterministic(s: EngineState, d: Deal, delta: nat, clearDuration: int,
                            t1: EngineState, e1: Deal, t2: EngineState, e2: Deal)
    requires WellFormed(s.board)
    requires Updated(s, d.next, t1, delta, clearDuration) && DealStep(EndsTurn(s, delta), s.pendingGarbage, d, t1.board, e1, true)
    requires Updated(s, d.next, t2, delta, clearDuration) && DealStep(EndsTurn(s, delta), s.pendingGarbage, d, t2.board, e2, true)
    ensures t1 == t2 && e1 == e2
  {
    if s.gameOver || (s.clearingLines == [] && s.current.None?) {
    } else if s.clearingLines != [] {
      var u := s.(clearTimer := s.clearTimer - delta);
      if u.clearTimer <= 0 {
        RespawnDeterministic(Credited(u), d.next, d, t1, e1, t2, e2);
      }
    } else {
      var g := LockDelay(Gravity(s, delta), delta);
      if g.locking && g.lockTimer >= LOCK_DELAY {
        LockDeterministic(g, d, clearDuration, t1, e1, t2, e2);
      }
    }
  }

  /** A lock (by gravity or by `hardDrop`) in the seeded build is determined by the state and the deal. */
  lemma LockDeterministic(s: EngineState, d: Deal, clearDuration: int,
                          t1: EngineState, e1: Deal, t2: EngineState, e2: Deal)
    requires WellFormed(s.board) && s.current.Some?
    requires LockedIn(s, d.next, t1, clearDuration) && DealStep(LockEndsTurn(s), s.pendingGarbage, d, t1.board, e1, true)
    requires LockedIn(s, d.next, t2, clearDuration) && DealStep(LockEndsTurn(s), s.pendingGarbage, d, t2.board, e2, true)
    ensures t1 == t2 && e1 == e2
  {
    var l := s.(board := Stamp(s.board, s.current.value), current := None);
    if NoneFull(l.board) {
      RespawnDeterministic(l.(linesClearedThisTurn := 0), d.next, d, t1, e1, t2, e2);
    } else {
      ListsFullRowsExactly(l.board, t1.clearingLines);
      ListsFullRowsExactly(l.board, t2.clearingLines);
    }
  }

  class TetrisEngine {
    const rng: SeededRng?
    const clearDuration: int

    var st: EngineState
    var bag: seq<Kind>
    var nextType: Kind

    /** Every kind taken out of the bag so far, in order. */
    ghost var pulled: seq<Kind>

    /** The generator, when there is one, is in range and in step with its seed. */
    ghost predicate RngOk()
      reads rng
    {
      rng != null ==> rng.Valid()
    }

    /**
     * The 7-bag bookkeeping: what was pulled followed by what is left is every kind
     * ever appended to the bag, a concatenation of shuffled copies of PIECE_TYPES.
     */
    ghost predicate Dealt()
      reads this`pulled, this`bag
    {
      Bags(pulled + bag)
    }

    /** The preview kind is the last one pulled, and the bag is never left empty. */
    ghost predicate Queue()
      reads this`pulled, this`bag, this`nextType
    {
      |bag| >= 1 && |pulled| >= 1 && nextType == pulled[|pulled| - 1]
    }

    ghost predicate Valid()
      reads this`pulled, this`st, this`bag, this`nextType, rng
    {
      RngOk() && Settled(st) && Dealt() && Queue()
    }

    /** The bag, the preview kind, the history and the generator state as one record. */
    ghost function CurrentDeal(): Deal
      reads this`bag, this`nextType, this`pulled, rng
    {
      Deal(bag, nextType, pulled, if rng != null then rng.s else 0)
    }

    // ------------------------------------------------------------ randomness

    /**
     * A random index in [0, max): `rng.nextInt(max)` in the network build; in the
     * local build `Math.floor(Math.random() * max)`, which may be any index in range.
     */
    method RandomIndex(max: nat) returns (r: nat)
      requires max > 0 && RngOk()
      modifies rng
      ensures r < max && RngOk()
      ensures rng != null ==> rng.s == NextState(old(rng.s)) && r == ScaleIndex(rng.s, max)
    {
      if rng != null {
        r := rng.NextInt(max);
      } else {
        r :| 0 <= r < max;
      }
    }

    // ------------------------------------------------------------ the 7-bag

    /** One round of the shuffle: swap `arr[i]` with `arr[j]` for the next random `j` in [0, i]. */
    method SwapDown(arr: array<Kind>, i: nat)
      requires 0 < i < arr.Length && RngOk()
      modifies arr, rng
      ensures RngOk() && multiset(arr[..]) == multiset(old(arr[..]))
      ensures rng != null ==> InRange(old(rng.s)) && ShuffleFrom(arr[..], i - 1, rng.s) == ShuffleFrom(old(arr[..]), i, old(rng.s))
    {
      ghost var before, sb := arr[..], if rng != null then rng.s else 1;
      var j := RandomIndex(i + 1);
      arr[i], arr[j] := arr[j], arr[i];
      assert arr[..] == before[i := before[j]][j := before[i]];
      SwapKeepsMultiset(before, i, j);
      if rng != null {
        ShuffleStep(before, i, sb, j, arr[..], rng.s, ShuffleFrom(before, i, sb));
      }
    }

    /**
     * The shuffle inside `_fillBag` (and `shuffleArray(PIECE_TYPES)` in the local build):
     * Fisher–Yates on a fresh array, swapping a[i] with a[j] for a random j in [0, i].
     */
    method ShuffledTypes() returns (a: seq<Kind>)
      requires RngOk()
      modifies rng
      ensures RngOk() && IsPermutationOfTypes(a)
      ensures rng != null ==> (a, rng.s) == SeededShuffle(old(rng.s))
    {
      var arr := new Kind[7] [I, O, T, S, Z, J, L];
      assert arr[..] == PieceTypes;
      ShuffleArray(arr, 6);
      a := arr[..];
      RearrangedTypes(a);
    }

    /** The loop of `_shuffle`: rounds i = n down to 1 of the Fisher-Yates shuffle, in place. */
    method ShuffleArray(arr: array<Kind>, n: nat)
      requires n < arr.Length && RngOk()
      modifies arr, rng
      ensures RngOk() && multiset(arr[..]) == multiset(old(arr[..]))
      ensures rng != null ==> InRange(old(rng.s)) && (arr[..], rng.s) == ShuffleFrom(old(arr[..]), n, old(rng.s))
    {
      ghost var goal := if rng != null then ShuffleFrom(arr[..], n, rng.s) else (arr[..], 1);
      var i := n;
      while i > 0
        invariant 0 <= i <= n
        invariant multiset(arr[..]) == multiset(old(arr[..]))
        invariant RngOk()
        invariant rng != null ==> ShuffleFrom(arr[..], i, rng.s) == goal
      {
        SwapDown(arr, i);
        i := i - 1;
      }
    }

    /** `_fillBag`: when at most one kind is left, append a shuffled copy of PIECE_TYPES. */
    method FillBag() returns (ghost added: seq<Kind>)
      requires Dealt() && RngOk()
      modifies this`bag, rng
      ensures Dealt() && RngOk()
      ensures bag == old(bag) + added
      ensures if |old(bag)| <= 1 then IsPermutationOfTypes(added) else added == []
      ensures rng != null ==> if |old(bag)| <= 1 then (added, rng.s) == SeededShuffle(old(rng.s)) else rng.s == old(rng.s)
    {
      added := [];
      if |bag| <= 1 {
        var a := ShuffledTypes();
        added := a;
        BagsAppend(pulled + bag, a);
        assert pulled + bag + a == pulled + (bag + a);
        bag := bag + a;
      }
    }

    /** `_pull`: refill if needed, then take the first kind out of the bag. */
    method Pull() returns (k: Kind, ghost added: seq<Kind>)
      requires Dealt() && RngOk()
      modifies this`bag, this`pulled, rng
      ensures Dealt() && RngOk() && |bag| >= 1
      ensures pulled == old(pulled) + [k]
      ensures [k] + bag == old(bag) + added
      ensures |old(bag)| > 1 ==> k == old(bag)[0] && bag == old(bag)[1..]
      ensures if |old(bag)| <= 1 then IsPermutationOfTypes(added) else added == []
      ensures rng != null ==> if |old(bag)| <= 1 then (added, rng.s) == SeededShuffle(old(rng.s)) else rng.s == old(rng.s)
    {
      added := FillBag();
      k := bag[0];
      assert pulled + bag == (pulled + [k]) + bag[1..];
      bag := bag[1..];
      pulled := pulled + [k];
    }

    /** Pull's ensures, restated as `Pulled` of the deal before and after. */
    lemma PullDealt(d0: Deal, added: seq<Kind>)
      requires d0.pulled + [nextType] == pulled && [nextType] + bag == d0.bag + added
      requires if |d0.bag| <= 1 then IsPermutationOfTypes(added) else added == []
      requires rng != null ==> if |d0.bag| <= 1 then InRange(d0.seed) && (added, rng.s) == SeededShuffle(d0.seed) else rng.s == d0.seed
      requires rng == null ==> d0.seed == 0
      ensures Pulled(d0, CurrentDeal(), rng != null)
    {
      var all := [nextType] + bag;
      if |d0.bag| <= 1 {
        assert all[..|d0.bag|] == d0.bag && all[|d0.bag|..] == added;
      } else {
        assert all[0] == d0.bag[0] && all[1..] == d0.bag[1..];
      }
    }

    // ------------------------------------------------------------ collision

    /** `_canPlace(s, px, py)`: scans the filled cells and fails on the first wall, floor or block. */
    method CanPlace(s: Shape, px: int, py: int) returns (ok: bool)
      requires WellFormed(st.board)
      ensures ok == Fits(st.board, s, px, py)
    {
      var board := st.board;
      for y := 0 to |s|
        invariant forall r, c :: 0 <= r < y && 0 <= c < |s[r]| && Filled(s, r, c) ==> Free(board, px + c, py + r)
      {
        for x := 0 to |s[y]|
          invariant forall r, c :: 0 <= r < y && 0 <= c < |s[r]| && Filled(s, r, c) ==> Free(board, px + c, py + r)
          invariant forall c :: 0 <= c < x && Filled(s, y, c) ==> Free(board, px + c, py + y)
        {
          if s[y][x] != 0 {
            var col, row := px + x, py + y;
            if col < 0 || col >= COLS || row >= ROWS {
              assert Filled(s, y, x);
              return false;
            }
            if row >= 0 && board[row][col] != Empty {
              assert Filled(s, y, x);
              return false;
            }
          }
        }
      }
      return true;
    }

    // ------------------------------------------------------------ spawning

    /**
     * `_spawn`: the preview kind enters at its spawn position, a new preview kind
     * is pulled, the lock state is cleared, and the game is over if the new piece
     * does not fit.
     */
    method Spawn()
      requires Core(st) && Dealt() && RngOk()
      modifies this`st, this`bag, this`nextType, this`pulled, rng
      ensures Core(st) && Dealt() && Queue() && RngOk()
      ensures pulled == old(pulled) + [nextType]
      ensures |old(bag)| > 1 ==> nextType == old(bag)[0] && bag == old(bag)[1..]
      ensures Pulled(old(CurrentDeal()), CurrentDeal(), rng != null)
      ensures var p := SpawnPiece(old(nextType));
        st == old(st).(current := Some(p), locking := false, lockTimer := 0, lockResets := 0,
                       gameOver := old(st).gameOver || !Fits(old(st).board, p.shape, p.x, p.y))
    {
      var kind := nextType;
      ghost var d0 := CurrentDeal();
      ghost var added;
      nextType, added := Pull();
      PullDealt(d0, added);
      var p := SpawnPiece(kind);
      st := st.(current := Some(p), locking := false, lockTimer := 0, lockResets := 0);
      var ok := CanPlace(p.shape, p.x, p.y);
      if !ok {
        st := st.(gameOver := true);
      }
    }

    /**
     * What `reset` leaves: an empty grid, zeroed counters and timers, level 1, a
     * running game, and the first two kinds pulled, the first falling at its
     * spawn position and the second as the preview.
     */
    ghost predicate NewGame()
      reads this`st, this`pulled, this`nextType
    {
      st.board == EmptyBoard() && st.score == 0 && st.lines == 0 && st.level == 1 && !st.gameOver &&
      st.pendingGarbage == 0 && st.linesClearedThisTurn == 0 && st.clearingLines == [] &&
      st.dropTimer == 0 && st.clearTimer == 0 && !st.locking && st.lockTimer == 0 && st.lockResets == 0 &&
      |pulled| == 2 && st.current == Some(SpawnPiece(pulled[0])) && nextType == pulled[1]
    }

    /** `reset`: an empty grid, zeroed counters, a fresh bag, the preview kind and the first piece. */
    method Reset()
      requires RngOk()
      modifies this`st, this`bag, this`nextType, this`pulled, rng
      ensures Valid() && NewGame()
      ensures IsPermutationOfTypes(pulled + bag)
      ensures rng != null ==> InRange(old(rng.s)) && (pulled + bag, rng.s) == SeededShuffle(old(rng.s))
    {
      st := EngineState(EmptyBoard(), 0, 0, 1, false, None, 0, 0, 0, false, 0, 0, [], 0);
      PullFirst();
      ghost var pulled0, bag0 := pulled, bag;
      SpawnFitsEmpty(nextType);
      EmptyBoardNoneFull();
      NoneFullListsNothing(EmptyBoard());
      Spawn();
      TakenFromBag(pulled0, bag0, pulled, bag, nextType);
    }

    /** The deal part of `reset`: an empty bag is refilled and the preview kind pulled from it. */
    method PullFirst()
      requires RngOk()
      modifies this`bag, this`nextType, this`pulled, rng
      ensures Dealt() && RngOk() && |bag| == 6 && pulled == [nextType]
      ensures IsPermutationOfTypes(pulled + bag)
      ensures rng != null ==> InRange(old(rng.s)) && (pulled + bag, rng.s) == SeededShuffle(old(rng.s))
    {
      // the preview kind is null until the first pull; I stands in for it
      bag, nextType := [], I;
      pulled := [];
      ghost var first := FillBag();
      ghost var added;
      nextType, added := Pull();
      assert pulled + bag == first;
    }

    // ------------------------------------------------------------ player actions

    /** `_rlk`: restarts the lock delay after a successful move while locking, at most 15 times per piece. */
    method ResetLock()
      modifies this`st
      ensures st == AfterLockReset(old(st))
    {
      if st.locking && st.lockResets < MAX_LOCK_RESETS {
        st := st.(lockTimer := 0, lockResets := st.lockResets + 1);
      }
    }

    /** `moveLeft`: one column left when the piece fits there. */
    method MoveLeft() returns (moved: bool)
      requires Valid()
      modifies this`st
      ensures Valid()
      ensures moved == (Active(old(st)) &&
        Fits(old(st).board, old(st).current.value.shape, old(st).current.value.x - 1, old(st).current.value.y))
      ensures moved ==> st == AfterLockReset(old(st).(current := Some(old(st).current.value.(x := old(st).current.value.x - 1))))
      ensures !moved ==> st == old(st)
    {
      if st.current.None? || st.gameOver {
        return false;
      }
      var p := st.current.value;
      var ok := CanPlace(p.shape, p.x - 1, p.y);
      if ok {
        st := st.(current := Some(p.(x := p.x - 1)));
        ResetLock();
        return true;
      }
      return false;
    }

    /** `moveRight`: one column right when the piece fits there. */
    method MoveRight() returns (moved: bool)
      requires Valid()
      modifies this`st
      ensures Valid()
      ensures moved == (Active(old(st)) &&
        Fits(old(st).board, old(st).current.value.shape, old(st).current.value.x + 1, old(st).current.value.y))
      ensures moved ==> st == AfterLockReset(old(st).(current := Some(old(st).current.value.(x := old(st).current.value.x + 1))))
      ensures !moved ==> st == old(st)
    {
      if st.current.None? || st.gameOver {
        return false;
      }
      var p := st.current.value;
      var ok := CanPlace(p.shape, p.x + 1, p.y);
      if ok {
        st := st.(current := Some(p.(x := p.x + 1)));
        ResetLock();
        return true;
      }
      return false;
    }

    /**
     * `moveDown`: one row down when the piece fits there, restarting the drop
     * timer; otherwise the lock delay starts, unless it is already running.
     */
    method MoveDown() returns (moved: bool)
      requires Valid()
      modifies this`st
      ensures Valid()
      ensures moved == (Active(old(st)) &&
        Fits(old(st).board, old(st).current.value.shape, old(st).current.value.x, old(st).current.value.y + 1))
      ensures moved ==> st == old(st).(current := Some(old(st).current.value.(y := old(st).current.value.y + 1)), dropTimer := 0)
      ensures !moved && Active(old(st)) && !old(st).locking ==> st == old(st).(locking := true, lockTimer := 0)
      ensures !moved && (!Active(old(st)) || old(st).locking) ==> st == old(st)
    {
      if st.current.None? || st.gameOver {
        return false;
      }
      var p := st.current.value;
      var ok := CanPlace(p.shape, p.x, p.y + 1);
      if ok {
        st := st.(current := Some(p.(y := p.y + 1)), dropTimer := 0);
        return true;
      }
      if !st.locking {
        st := st.(locking := true, lockTimer := 0);
      }
      return false;
    }

    /** `getGhostY`: the row the falling piece would come to rest on, or 0 with no piece. */
    method GhostY() returns (gy: int)
      requires Valid()
      ensures st.current.None? ==> gy == 0
      ensures st.current.Some? ==> gy == GhostRow(st.board, st.current.value.shape, st.current.value.x, st.current.value.y)
    {
      if st.current.None? {
        return 0;
      }
      var p := st.current.value;
      gy := RestingRow(p);
    }

    /** The loop of `getGhostY` and `hardDrop`: the piece is moved down while the next row fits. */
    method RestingRow(p: Piece) returns (gy: int)
      requires WellFormed(st.board) && HasBlock(p.shape)
      ensures gy == GhostRow(st.board, p.shape, p.x, p.y)
    {
      gy := p.y;
      var ok := CanPlace(p.shape, p.x, gy + 1);
      while ok
        invariant gy >= p.y && ok == Fits(st.board, p.shape, p.x, gy + 1)
        invariant GhostRow(st.board, p.shape, p.x, gy) == GhostRow(st.board, p.shape, p.x, p.y)
        decreases ROWS - gy
      {
        FitsAboveFloor(st.board, p.shape, p.x, gy + 1);
        gy := gy + 1;
        ok := CanPlace(p.shape, p.x, gy + 1);
      }
    }

    /**
     * `_rotate(dir)`: O never turns; otherwise the turned grid is tried at each
     * kick of the transition's list in order, and the first placement that fits
     * is taken, shape, orientation and position together.
     */
    method Rotate(dir: int) returns (turned: bool)
      requires Valid() && (dir == 1 || dir == -1)
      modifies this`st
      ensures Valid()
      ensures turned == (Active(old(st)) && TryRotate(old(st).board, old(st).current.value, dir).Some?)
      ensures turned ==> st == AfterLockReset(old(st).(current := TryRotate(old(st).board, old(st).current.value, dir)))
      ensures !turned ==> st == old(st)
    {
      if st.current.None? || st.gameOver {
        return false;
      }
      var r := Turn(st.current.value, dir);
      if r.None? {
        return false;
      }
      TryRotateShaped(st.board, st.current.value, dir);
      PieceReplaced(st, r.value);
      st := st.(current := r);
      ResetLock();
      return true;
    }

    /** The body of `_rotate` up to the update: the turned piece at the first kick that fits, or None. */
    method Turn(p: Piece, dir: int) returns (r: Option<Piece>)
      requires WellFormed(st.board) && PieceShaped(p) && (dir == 1 || dir == -1)
      ensures r == TryRotate(st.board, p, dir)
    {
      if p.kind == O {
        return None;
      }
      var ns;
      if dir == 1 {
        ns := RotateCW(p.shape);
      } else {
        ns := RotateCCW(p.shape);
      }
      assert ns == Turned(p.shape, dir);
      var nr := (p.rotation + dir + 4) % 4;
      var kicks := KickTable(p.kind, p.rotation, nr);
      if kicks.None? {
        return None;
      }
      r := TryKicks(p.kind, ns, nr, p.x, p.y, kicks.value);
    }

    /** The kick loop of `_rotate`: the turned grid placed at the first kick at which it fits. */
    method TryKicks(k: Kind, ns: Shape, nr: int, x: int, y: int, kicks: seq<Kick>) returns (r: Option<Piece>)
      requires WellFormed(st.board)
      ensures r == Kicked(st.board, k, ns, nr, x, y, kicks)
    {
      for i := 0 to |kicks|
        invariant forall j :: 0 <= j < i ==> !FitsKicked(st.board, ns, x, y, kicks[j])
      {
        var (kx, ky) := kicks[i];
        var ok := CanPlace(ns, x + kx, y - ky);
        if ok {
          FirstFitIs(st.board, ns, x, y, kicks, i);
          return Some(Piece(k, ns, nr, x + kx, y - ky));
        }
      }
      return None;
    }

    /** `rotateCW`. */
    method RotateClockwise() returns (turned: bool)
      requires Valid()
      modifies this`st
      ensures Valid()
      ensures turned == (Active(old(st)) && TryRotate(old(st).board, old(st).current.value, 1).Some?)
      ensures turned ==> st == AfterLockReset(old(st).(current := TryRotate(old(st).board, old(st).current.value, 1)))
      ensures !turned ==> st == old(st)
    {
      turned := Rotate(1);
    }

    /** `rotateCCW`. */
    method RotateCounterClockwise() returns (turned: bool)
      requires Valid()
      modifies this`st
      ensures Valid()
      ensures turned == (Active(old(st)) && TryRotate(old(st).board, old(st).current.value, -1).Some?)
      ensures turned ==> st == AfterLockReset(old(st).(current := TryRotate(old(st).board, old(st).current.value, -1)))
      ensures !turned ==> st == old(st)
    {
      turned := Rotate(-1);
    }

    // ------------------------------------------------------------ locking and clearing

    /** The write loop of `_lock`: every filled, in-grid cell of the piece gets the piece's kind. */
    method StampPiece(b: Grid, p: Piece) returns (g: Grid)
      requires WellFormed(b)
      ensures g == Stamp(b, p)
    {
      g := b;
      var s := p.shape;
      for r := 0 to |s|
        invariant StampedUpTo(b, p, r, 0, g)
      {
        for c := 0 to |s[r]|
          invariant StampedUpTo(b, p, r, c, g)
        {
          if s[r][c] != 0 {
            var row, col := p.y + r, p.x + c;
            if 0 <= row < ROWS && 0 <= col < COLS {
              g := g[row := g[row][col := Block(p.kind)]];
            }
          }
        }
        StampedNextRow(b, p, r, g);
      }
      StampedAll(b, p, g);
    }

    /** `row.every(c => c !== null)`. */
    method RowFull(row: Row) returns (f: bool)
      ensures f == Full(row)
    {
      for c := 0 to |row|
        invariant forall d :: 0 <= d < c ==> row[d] != Empty
      {
        if row[c] == Empty {
          return false;
        }
      }
      return true;
    }

    /**
     * `_applyGarbage`: with lines pending, one hole column is drawn and that many
     * times the top row is shifted off and a garbage line pushed at the bottom.
     */
    method ApplyGarbage()
      requires WellFormed(st.board) && RngOk()
      modifies this`st, rng
      ensures RngOk() && WellFormed(st.board)
      ensures Drained(old(st).board, old(st).pendingGarbage, st.board)
      ensures st == old(st).(board := st.board, pendingGarbage := if old(st).pendingGarbage > 0 then 0 else old(st).pendingGarbage)
      ensures rng != null ==>
        if old(st).pendingGarbage > 0 then
          rng.s == NextState(old(rng.s)) && st.board == Drain(old(st).board, old(st).pendingGarbage, ScaleIndex(rng.s, COLS))
        else rng.s == old(rng.s)
    {
      if st.pendingGarbage <= 0 {
        return;
      }
      var hole := RandomIndex(COLS);
      var b := st.board;
      ghost var b0 := b;
      var n := st.pendingGarbage;
      for i := 0 to n
        invariant b == Drain(b0, i, hole)
        modifies {}
      {
        DrainStep(b0, i, hole);
        var g := seq(COLS, _ => Garbage)[hole := Empty];
        assert g == GarbageRow(hole);
        b := b[1..] + [g];
      }
      DrainRows(b0, n, hole);
      st := st.(board := b, pendingGarbage := 0);
    }

    /** `_checkLines`' scan: the indices of the full rows, top to bottom. */
    method FullRowList() returns (full: seq<int>)
      requires WellFormed(st.board)
      ensures ListsFullRows(st.board, full)
      ensures full == [] <==> NoneFull(st.board)
    {
      full := [];
      for y := 0 to ROWS
        invariant full == FullUpTo(st.board, y)
      {
        var f := RowFull(st.board[y]);
        if f {
          full := full + [y];
        }
      }
      ListsFullRowsExactly(st.board, full);
      NoFullRows(st.board);
    }

    /**
     * `_applyGarbage(); _spawn()`, how both `_checkLines` and `_removeLines` end
     * a turn: on a grid with no full row, the pending garbage comes in and the
     * preview kind is spawned.
     */
    method EndTurn()
      requires Core(st) && st.clearingLines == [] && NoneFull(st.board) && Dealt() && RngOk()
      modifies this`st, this`bag, this`nextType, this`pulled, rng
      ensures Valid()
      ensures Respawned(old(st), old(nextType), st)
      ensures TurnDealt(old(st).pendingGarbage, old(CurrentDeal()), st.board, CurrentDeal(), rng != null)
    {
      ghost var before, d0 := st, CurrentDeal();
      ApplyGarbage();
      ghost var d1 := CurrentDeal();
      if rng != null && before.pendingGarbage > 0 {
        DrainRows(before.board, before.pendingGarbage, ScaleIndex(rng.s, COLS));
      }
      DrainedShape(before.board, before.pendingGarbage, st.board);
      NoneFullListsNothing(st.board);
      Spawn();
      assert d1 == d0.(seed := if rng != null && before.pendingGarbage > 0 then NextState(d0.seed) else d0.seed);
    }

    /** The first branch of `_checkLines`: the listed rows start their clear animation. */
    method StartClear(full: seq<int>)
      requires Core(st) && st.current.None? && ListsFullRows(st.board, full) && 0 < |full| <= 4
      requires Dealt() && Queue() && RngOk()
      modifies this`st
      ensures Valid()
      ensures st == old(st).(clearingLines := full, clearTimer := clearDuration, linesClearedThisTurn := |full|)
      ensures LinesChecked(old(st), nextType, st, clearDuration)
    {
      ClearStarts(st, full, clearDuration);
      assert Full(st.board[full[0]]);
      st := st.(clearingLines := full, clearTimer := clearDuration, linesClearedThisTurn := |full|);
    }

    /** The second branch of `_checkLines`: no row is full, so the turn ends at once. */
    method NoClear()
      requires Core(st) && st.current.None? && st.clearingLines == [] && NoneFull(st.board)
      requires Dealt() && RngOk()
      modifies this`st, this`bag, this`nextType, this`pulled, rng
      ensures Valid()
      ensures LinesChecked(old(st), old(nextType), st, clearDuration)
      ensures TurnDealt(old(st).pendingGarbage, old(CurrentDeal()), st.board, CurrentDeal(), rng != null)
    {
      ghost var s0 := st;
      st := st.(linesClearedThisTurn := 0);
      EndTurn();
      CheckedNothing(s0, old(nextType), st, clearDuration);
    }

    /**
     * `_checkLines`: the full rows are listed top to bottom; with any, the clear
     * animation starts; otherwise the turn ends with the pending garbage and a
     * new piece.
     */
    method CheckLines()
      requires Core(st) && st.current.None? && st.clearingLines == [] && AtMostFourFull(st.board)
      requires Dealt() && Queue() && RngOk()
      modifies this`st, this`bag, this`nextType, this`pulled, rng
      ensures Valid()
      ensures LinesChecked(old(st), old(nextType), st, clearDuration)
      ensures DealStep(NoneFull(old(st).board), old(st).pendingGarbage, old(CurrentDeal()), st.board, CurrentDeal(), rng != null)
    {
      var full := FullRowList();
      if |full| > 0 {
        StartClear(full);
      } else {
        NoClear();
      }
    }

    /** `_lock`: the piece is written into the grid, the piece is gone, and the lines are checked. */
    method Lock()
      requires Valid() && Active(st)
      modifies this`st, this`bag, this`nextType, this`pulled, rng
      ensures Valid()
      ensures LockedIn(old(st), old(nextType), st, clearDuration)
      ensures DealStep(LockEndsTurn(old(st)), old(st).pendingGarbage, old(CurrentDeal()), st.board, CurrentDeal(), rng != null)
    {
      var p := st.current.value;
      NoneFullListsNothing(st.board);
      StampFullRowsBound(st.board, p);
      var g := StampPiece(st.board, p);
      st := st.(board := g, current := None);
      CheckLines();
    }

    /** `hardDrop`: the piece falls as far as it fits, earns 2 points per row, and locks. */
    method HardDrop()
      requires Valid()
      modifies this`st, this`bag, this`nextType, this`pulled, rng
      ensures Valid()
      ensures !Active(old(st)) ==> st == old(st) && CurrentDeal() == old(CurrentDeal())
      ensures Active(old(st)) ==>
        LockedIn(HardDropped(old(st)), old(nextType), st, clearDuration) &&
        DealStep(LockEndsTurn(HardDropped(old(st))), old(st).pendingGarbage, old(CurrentDeal()), st.board, CurrentDeal(), rng != null)
    {
      if st.current.None? || st.gameOver {
        return;
      }
      DropAndLock();
    }

    /** The body of `hardDrop` for a falling piece: the drop, then the lock. */
    method DropAndLock()
      requires Valid() && Active(st)
      modifies this`st, this`bag, this`nextType, this`pulled, rng
      ensures Valid()
      ensures LockedIn(HardDropped(old(st)), old(nextType), st, clearDuration)
      ensures DealStep(LockEndsTurn(HardDropped(old(st))), old(st).pendingGarbage, old(CurrentDeal()), st.board, CurrentDeal(), rng != null)
    {
      DropPiece();
      ghost var s1, d1 := st, CurrentDeal();
      Lock();
      LockedInRestated(s1, HardDropped(old(st)), old(nextType), st, clearDuration);
      DealStepRestated(LockEndsTurn(s1), LockEndsTurn(HardDropped(old(st))), s1.pendingGarbage, old(st).pendingGarbage,
        d1, old(CurrentDeal()), st.board, CurrentDeal(), rng != null);
    }

    /** The drop of `hardDrop`: the piece moves to the row it comes to rest on and earns 2 points per row. */
    method DropPiece()
      requires Valid() && Active(st)
      modifies this`st
      ensures Settled(st) && Active(st)
      ensures st == HardDropped(old(st))
    {
      var p := st.current.value;
      var gy := RestingRow(p);
      var d := gy - p.y;
      var q := p.(y := gy);
      Dropped(st, q, d);
      st := st.(current := Some(q), score := st.score + d * 2);
    }

    /**
     * `_removeLines`: each listed row is spliced out and an empty row put on top,
     * the lines are credited, the level recomputed, and the turn ends with the
     * pending garbage and a new piece.
     */
    method RemoveLines()
      requires Valid() && st.clearingLines != []
      modifies this`st, this`bag, this`nextType, this`pulled, rng
      ensures Valid()
      ensures LinesRemoved(old(st), old(nextType), st)
      ensures TurnDealt(old(st).pendingGarbage, old(CurrentDeal()), st.board, CurrentDeal(), rng != null)
    {
      var ys := st.clearingLines;
      ghost var s0 := st;
      CreditedCore(s0);
      var b := RemoveRows(st.board, ys);
      var c := |ys|;
      st := st.(board := b, lines := st.lines + c, score := st.score + ScoreTable[c] * st.level, clearingLines := []);
      st := st.(level := st.lines / 10 + 1);
      assert st == Credited(s0);
      EndTurn();
    }

    /** The splice loop of `_removeLines`: the listed rows taken out in list order, an empty row put on top each time. */
    method RemoveRows(b0: Grid, ys: seq<int>) returns (b: Grid)
      requires InRows(ys, |b0|)
      ensures b == RemoveAll(b0, ys)
    {
      b := b0;
      for i := 0 to |ys|
        invariant InRows(ys[..i], |b0|) && b == RemoveAll(b0, ys[..i])
      {
        RemoveAllSnoc(b0, ys[..i], ys[i]);
        assert ys[..i] + [ys[i]] == ys[..i + 1];
        var y := ys[i];
        b := [EmptyRow()] + b[..y] + b[y + 1..];
      }
      assert ys[..|ys|] == ys;
    }

    /** `addGarbage(n)`: n more lines are pending. */
    method AddGarbage(n: int)
      modifies this`st
      ensures st == old(st).(pendingGarbage := old(st).pendingGarbage + n)
      ensures old(Valid()) ==> Valid()
    {
      st := st.(pendingGarbage := st.pendingGarbage + n);
    }

    /**
     * `linesClearedThisTurn = 0`, written by the game loop once a finished
     * clear's garbage is sent, which is never during a clear.
     */
    method MarkSent()
      modifies this`st
      ensures st == old(st).(linesClearedThisTurn := 0)
      ensures old(Valid()) && old(st).clearingLines == [] ==> Valid()
    {
      if Valid() && st.clearingLines == [] {
        CountSent(st);
      }
      st := st.(linesClearedThisTurn := 0);
    }

    /** `update(delta)`, one frame of `delta` milliseconds. */
    method Update(delta: nat)
      requires Valid()
      modifies this`st, this`bag, this`nextType, this`pulled, rng
      ensures Valid()
      ensures Updated(old(st), old(nextType), st, delta, clearDuration)
      ensures DealStep(EndsTurn(old(st), delta), old(st).pendingGarbage, old(CurrentDeal()), st.board, CurrentDeal(), rng != null)
    {
      if st.gameOver {
        return;
      }
      if st.clearingLines != [] {
        ClearTick(delta);
        return;
      }
      if st.current.None? {
        return;
      }
      Fall(delta);
    }

    /** The clearing branch of `update`: the animation timer runs down, and the rows come out when it expires. */
    method ClearTick(delta: nat)
      requires Valid() && st.clearingLines != []
      modifies this`st, this`bag, this`nextType, this`pulled, rng
      ensures Valid()
      ensures var u := old(st).(clearTimer := old(st).clearTimer - delta);
        if u.clearTimer <= 0 then LinesRemoved(u, old(nextType), st) else st == u
      ensures DealStep(old(st).clearTimer - delta <= 0, old(st).pendingGarbage, old(CurrentDeal()), st.board, CurrentDeal(), rng != null)
    {
      st := st.(clearTimer := st.clearTimer - delta);
      if st.clearTimer <= 0 {
        RemoveLines();
      }
    }

    /** The falling branch of `update`: gravity, then the lock delay, then the lock once the delay has run out. */
    method Fall(delta: nat)
      requires Valid() && Active(st)
      modifies this`st, this`bag, this`nextType, this`pulled, rng
      ensures Valid()
      ensures var g := LockDelay(Gravity(old(st), delta), delta);
        if g.locking && g.lockTimer >= LOCK_DELAY then LockedIn(g, old(nextType), st, clearDuration) else st == g
      ensures DealStep(EndsTurn(old(st), delta), old(st).pendingGarbage, old(CurrentDeal()), st.board, CurrentDeal(), rng != null)
    {
      GravitySettled(st, delta);
      ApplyGravity(delta);
      if st.locking {
        st := st.(lockTimer := st.lockTimer + delta);
        if st.lockTimer >= LOCK_DELAY {
          Lock();
        }
      }
    }

    /** The gravity step of `update`. */
    method ApplyGravity(delta: nat)
      requires WellFormed(st.board) && st.current.Some?
      modifies this`st
      ensures st == Gravity(old(st), delta)
    {
      var p := st.current.value;
      st := st.(dropTimer := st.dropTimer + delta);
      if st.dropTimer >= DropIntervalFor(st.level) {
        st := st.(dropTimer := 0);
        var ok := CanPlace(p.shape, p.x, p.y + 1);
        if !ok {
          if !st.locking {
            st := st.(locking := true, lockTimer := 0);
          }
        } else {
          st := st.(current := Some(p.(y := p.y + 1)));
        }
      }
    }

    constructor (rng: SeededRng?, clearDuration: int)
      requires rng != null ==> rng.Valid()
      modifies rng
      ensures this.rng == rng && this.clearDuration == clearDuration
      ensures Valid() && NewGame()
      ensures IsPermutationOfTypes(pulled + bag)
      ensures rng != null ==> (pulled + bag, rng.s) == SeededShuffle(old(rng.s))
    {
      this.rng := rng;
      this.clearDuration := clearDuration;
      new;
      Reset();
    }
  }
}
