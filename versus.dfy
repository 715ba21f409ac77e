/**
 * The local two-player game of game.js: two engines of the local build (no
 * seeded generator, a 300 ms clear animation) driven frame by frame, with the
 * garbage rule of `Game._loop`: once a player's clear of n lines has finished,
 * GARBAGE_TABLE[n] lines are sent to the other player and the clear is marked
 * as sent by zeroing `linesClearedThisTurn`.
 */
module Versus {
  import opened Catalog
  import opened Board
  import opened Engine
  import opened Bag
  import opened Dealing

  /** The clear animation length of the local build (game.js). */
  const LOCAL_CLEAR_MS: int := 300

  /** A clear has finished (its rows are gone) and its lines have not been sent yet. */
  predicate ClearDone(s: EngineState)
  {
    s.linesClearedThisTurn > 0 && s.clearingLines == []
  }

  /** The lines a state has to send: GARBAGE_TABLE of a finished clear, 0 otherwise. */
  function Owed(s: EngineState): int
  {
    if ClearDone(s) then GarbageFor(s.linesClearedThisTurn) else 0
  }

  /**
   * One half of the garbage rule, from `from` to `to`: a finished clear sends
   * its garbage (`addGarbage` only when there is some) and is marked as sent.
   */
  function Send(from: EngineState, to: EngineState): (r: (EngineState, EngineState))
    ensures !ClearDone(r.0)
    ensures r.0 == from.(linesClearedThisTurn := if ClearDone(from) then 0 else from.linesClearedThisTurn)
    ensures r.1 == to.(pendingGarbage := to.pendingGarbage + Owed(from))
  {
    if ClearDone(from) then
      var g := GarbageFor(from.linesClearedThisTurn);
      (from.(linesClearedThisTurn := 0), if g > 0 then to.(pendingGarbage := to.pendingGarbage + g) else to)
    else (from, to)
  }

  /** Both halves, player 1's first as in `_loop`; the result is the pair of new states. */
  function Exchange(s1: EngineState, s2: EngineState): (EngineState, EngineState)
  {
    var (f1, t2) := Send(s1, s2);
    var (f2, t1) := Send(t2, f1);
    (t1, f2)
  }

  /**
   * Each player receives exactly what the other owed, no finished clear is
   * left unsent, and both players' pieces, grids and counters are untouched.
   */
  lemma ExchangeSends(s1: EngineState, s2: EngineState)
    ensures var (n1, n2) := Exchange(s1, s2);
      !ClearDone(n1) && !ClearDone(n2) &&
      n1 == s1.(pendingGarbage := s1.pendingGarbage + Owed(s2), linesClearedThisTurn := n1.linesClearedThisTurn) &&
      n2 == s2.(pendingGarbage := s2.pendingGarbage + Owed(s1), linesClearedThisTurn := n2.linesClearedThisTurn)
  {
  }

  /** The order in which `_loop` checks the two players does not matter. */
  lemma ExchangeSymmetric(s1: EngineState, s2: EngineState)
    ensures Exchange(s1, s2).0 == Exchange(s2, s1).1 && Exchange(s1, s2).1 == Exchange(s2, s1).0
  {
    ExchangeSends(s1, s2);
    ExchangeSends(s2, s1);
  }

  /** A clear is sent once: checking again straight away sends nothing and changes nothing. */
  lemma ExchangeOnce(s1: EngineState, s2: EngineState)
    ensures var (n1, n2) := Exchange(s1, s2); Owed(n1) == 0 && Owed(n2) == 0 && Exchange(n1, n2) == (n1, n2)
  {
    ExchangeSends(s1, s2);
  }

  /** Sending garbage keeps both players settled: it only adds pending lines and zeroes the count of a finished clear. */
  lemma ExchangeSettled(s1: EngineState, s2: EngineState)
    requires Settled(s1) && Settled(s2)
    ensures Settled(Exchange(s1, s2).0) && Settled(Exchange(s1, s2).1)
  {
    ExchangeSends(s1, s2);
    if ClearDone(s1) {
      CountSent(s1);
    }
    if ClearDone(s2) {
      CountSent(s2);
    }
  }

  /**
   * From a settled state with nothing owed, one `update(delta)` leaves a finished
   * clear exactly when a clear was under way and its timer ran out in this frame,
   * and that clear counts all the rows that were being cleared.
   */
  lemma ClearFinished(s: EngineState, k: Kind, t: EngineState, delta: nat, clearDuration: int)
    requires Settled(s) && !ClearDone(s) && Updated(s, k, t, delta, clearDuration)
    ensures ClearDone(t) <==> !s.gameOver && s.clearingLines != [] && s.clearTimer - delta <= 0
    ensures ClearDone(t) ==> t.linesClearedThisTurn == |s.clearingLines|
  {
    if !s.gameOver && s.clearingLines == [] && s.current.Some? {
      var g := LockDelay(Gravity(s, delta), delta);
      if g.locking && g.lockTimer >= LOCK_DELAY {
        var l := g.(board := Stamp(g.board, g.current.value), current := None);
        if !NoneFull(l.board) {
          var r :| 0 <= r < |l.board| && Full(l.board[r]);
          assert r in t.clearingLines;
        }
      }
    }
  }

  /**
   * `Game`: two engines of the local build. Between frames both are valid, and
   * no finished clear is waiting to be sent.
   */
  class Match {
    const engine1: TetrisEngine
    const engine2: TetrisEngine

    ghost predicate Valid()
      reads this, engine1, engine2, engine1.rng, engine2.rng
    {
      engine1 != engine2 && engine1.rng == null && engine2.rng == null &&
      engine1.clearDuration == LOCAL_CLEAR_MS && engine2.clearDuration == LOCAL_CLEAR_MS &&
      engine1.Valid() && engine2.Valid() && !ClearDone(engine1.st) && !ClearDone(engine2.st)
    }

    /** `new Game()`: two fresh engines, each reset. */
    constructor ()
      ensures Valid() && fresh(engine1) && fresh(engine2)
      ensures engine1.NewGame() && engine2.NewGame()
      ensures IsPermutationOfTypes(engine1.pulled + engine1.bag) && IsPermutationOfTypes(engine2.pulled + engine2.bag)
    {
      engine1 := new TetrisEngine(null, LOCAL_CLEAR_MS);
      engine2 := new TetrisEngine(null, LOCAL_CLEAR_MS);
    }

    /** `start`: both engines are reset. */
    method Start()
      requires Valid()
      modifies engine1, engine2
      ensures Valid()
      ensures engine1.NewGame() && engine2.NewGame()
      ensures IsPermutationOfTypes(engine1.pulled + engine1.bag) && IsPermutationOfTypes(engine2.pulled + engine2.bag)
    {
      engine1.Reset();
      engine2.Reset();
    }

    /** One half of the garbage rule of `_loop` between two distinct engines. */
    static method SendGarbage(from: TetrisEngine, to: TetrisEngine)
      requires from != to
      modifies from`st, to`st
      ensures (from.st, to.st) == Send(old(from.st), old(to.st))
    {
      if from.st.linesClearedThisTurn > 0 && from.st.clearingLines == [] {
        var g := GarbageFor(from.st.linesClearedThisTurn);
        if g > 0 {
          to.AddGarbage(g);
        }
        from.MarkSent();
      }
    }

    /** The garbage check of `_loop`: player 1's half, then player 2's. */
    method ExchangeGarbage()
      requires engine1 != engine2 && engine1.Valid() && engine2.Valid()
      modifies engine1`st, engine2`st
      ensures engine1.Valid() && engine2.Valid() && !ClearDone(engine1.st) && !ClearDone(engine2.st)
      ensures (engine1.st, engine2.st) == Exchange(old(engine1.st), old(engine2.st))
    {
      ghost var m1, m2 := engine1.st, engine2.st;
      SendGarbage(engine1, engine2);
      SendGarbage(engine2, engine1);
      ExchangeSends(m1, m2);
      ExchangeSettled(m1, m2);
      assert engine1.st == Exchange(m1, m2).0 && engine2.st == Exchange(m1, m2).1;
    }

    /**
     * `_loop(timestamp)` for a frame of `delta` milliseconds: both engines are
     * updated, the garbage is exchanged, and the winner is 2 when player 1 is
     * out, else 1 when player 2 is, else 0 while the match goes on.
     */
    method Step(delta: nat) returns (winner: int)
      requires Valid()
      modifies engine1, engine2
      ensures Valid()
      ensures exists m1, m2 ::
        Updated(old(engine1.st), old(engine1.nextType), m1, delta, LOCAL_CLEAR_MS) &&
        Updated(old(engine2.st), old(engine2.nextType), m2, delta, LOCAL_CLEAR_MS) &&
        (engine1.st, engine2.st) == Exchange(m1, m2) &&
        DealStep(EndsTurn(old(engine1.st), delta), old(engine1.st).pendingGarbage, old(engine1.CurrentDeal()), m1.board, engine1.CurrentDeal(), false) &&
        DealStep(EndsTurn(old(engine2.st), delta), old(engine2.st).pendingGarbage, old(engine2.CurrentDeal()), m2.board, engine2.CurrentDeal(), false)
      ensures winner == if engine1.st.gameOver then 2 else if engine2.st.gameOver then 1 else 0
    {
      engine1.Update(delta);
      engine2.Update(delta);
      ghost var m1, m2 := engine1.st, engine2.st;
      ExchangeGarbage();
      assert (engine1.st, engine2.st) == Exchange(m1, m2);
      winner := if engine1.st.gameOver then 2 else if engine2.st.gameOver then 1 else 0;
    }
  }
}
