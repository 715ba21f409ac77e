/**
 * The rules of the playfield as pure definitions: the collision predicate, the
 * ghost projection, locking a piece into the grid, full-row detection and
 * removal, garbage rows, the gravity interval, and the rotation resolver's
 * first-match kick search. The engine's methods are proved against these.
 */
module Board {
  import opened Catalog
  import opened Rotation

  /** The active piece: kind, orientation grid, orientation index and top-left position. */
  datatype Piece = Piece(kind: Kind, shape: Shape, rotation: int, x: int, y: int)

  /** ROWS rows of COLS cells each; row 0 is the top. */
  predicate WellFormed(b: Grid)
  {
    |b| == ROWS && forall r :: 0 <= r < |b| ==> |b[r]| == COLS
  }

  function EmptyRow(): (r: Row)
    ensures |r| == COLS
  {
    seq(COLS, _ => Empty)
  }

  function EmptyBoard(): (b: Grid)
    ensures WellFormed(b)
  {
    Empties(ROWS)
  }

  // ---------------------------------------------------------------- collision

  /** Where one filled cell of a shape may land: inside the side walls, above the floor,
      and either above the visible grid or on an empty cell. */
  predicate Free(b: Grid, col: int, row: int)
    requires WellFormed(b)
  {
    0 <= col < COLS && row < ROWS && (row < 0 || b[row][col] == Empty)
  }

  /** `_canPlace(s, px, py)`: every filled cell of `s` lands on a free place. */
  predicate Fits(b: Grid, s: Shape, px: int, py: int)
    requires WellFormed(b)
  {
    forall r, c :: 0 <= r < |s| && 0 <= c < |s[r]| && Filled(s, r, c) ==> Free(b, px + c, py + r)
  }

  /** A shape with a filled cell only fits strictly above the floor. */
  lemma FitsAboveFloor(b: Grid, s: Shape, px: int, py: int)
    requires WellFormed(b) && HasBlock(s) && Fits(b, s, px, py)
    ensures py < ROWS
  {
    var r, c :| Filled(s, r, c);
    assert Free(b, px + c, py + r);
  }

  /** On the empty board a square shape fits wherever it lies inside the walls and above the floor. */
  lemma FitsEmpty(s: Shape, px: int, py: int)
    requires IsSquare(s) && 0 <= px && px + |s| <= COLS && py + |s| <= ROWS
    ensures Fits(EmptyBoard(), s, px, py)
  {
  }

  // ---------------------------------------------------------------- pieces

  /** The orientation invariant: the shape is the base grid turned `rotation` quarter turns. */
  predicate PieceOk(p: Piece)
  {
    0 <= p.rotation < 4 && p.shape == Turns(Base(p.kind), p.rotation)
  }

  /**
   * What the engine relies on about the falling piece between steps: the
   * orientation invariant, and the facts about the grid that follow from it
   * (square, side 2 to 4, at least one filled cell), kept explicit so that a
   * step that only moves the piece need not re-derive them.
   */
  ghost predicate PieceShaped(p: Piece)
  {
    PieceOk(p) && IsSquare(p.shape) && HasBlock(p.shape) && 2 <= |p.shape| <= 4
  }

  /** Every orientation of a kind's base grid has those shape facts. */
  lemma PieceOkFacts(p: Piece)
    requires PieceOk(p)
    ensures PieceShaped(p)
  {
    var s := Base(p.kind);
    assert Filled(s, 1, 1);
    TurnsKeepBlock(s, p.rotation);
  }

  /** `_spawn`: the base grid, centred, at row -1 for I and row 0 otherwise. */
  function SpawnPiece(k: Kind): (p: Piece)
    ensures PieceShaped(p) && p.kind == k && p.rotation == 0
  {
    var s := Base(k);
    PieceOkFacts(Piece(k, s, 0, (COLS - |s[0]|) / 2, if k == I then -1 else 0));
    Piece(k, s, 0, (COLS - |s[0]|) / 2, if k == I then -1 else 0)
  }

  /** A fresh piece is its kind's base orientation. */
  lemma SpawnPieceOk(k: Kind)
    ensures PieceOk(SpawnPiece(k)) && SpawnPiece(k).shape == Base(k)
  {
  }

  /** A fresh piece always fits on an empty board, so a new game never starts lost. */
  lemma SpawnFitsEmpty(k: Kind)
    ensures Fits(EmptyBoard(), SpawnPiece(k).shape, SpawnPiece(k).x, SpawnPiece(k).y)
  {
    var p := SpawnPiece(k);
    assert |p.shape[0]| == |p.shape|;
    FitsEmpty(p.shape, p.x, p.y);
  }

  // ---------------------------------------------------------------- ghost projection

  /** `getGhostY`: the lowest row reached by stepping down one row at a time from `y`. */
  function GhostRow(b: Grid, s: Shape, x: int, y: int): (g: int)
    requires WellFormed(b) && HasBlock(s)
    ensures g >= y && !Fits(b, s, x, g + 1)
    ensures forall k :: y < k <= g ==> Fits(b, s, x, k)
    decreases ROWS - y
  {
    if Fits(b, s, x, y + 1) then
      FitsAboveFloor(b, s, x, y + 1);
      GhostRow(b, s, x, y + 1)
    else
      y
  }

  // ---------------------------------------------------------------- locking

  /** The filled cell of piece `p` that lands on row r, column c, if there is one. */
  predicate Covers(p: Piece, r: int, c: int)
  {
    Filled(p.shape, r - p.y, c - p.x)
  }

  /** `_lock`: the grid with every in-grid filled cell of `p` set to the piece's kind. */
  function Stamp(b: Grid, p: Piece): (r: Grid)
    requires WellFormed(b)
    ensures WellFormed(r)
  {
    seq(ROWS, i requires 0 <= i < ROWS =>
      seq(COLS, j requires 0 <= j < COLS => if Covers(p, i, j) then Block(p.kind) else b[i][j]))
  }

  /** Locking a piece that fits never overwrites an occupied cell. */
  lemma StampKeepsOccupied(b: Grid, p: Piece, i: int, j: int)
    requires WellFormed(b) && Fits(b, p.shape, p.x, p.y)
    requires 0 <= i < ROWS && 0 <= j < COLS && b[i][j] != Empty
    ensures Stamp(b, p)[i][j] == b[i][j]
  {
    assert Covers(p, i, j) ==> Free(b, p.x + (j - p.x), p.y + (i - p.y));
  }

  /** Shape cell (r, c) comes before (r0, c0) in `_lock`'s row-by-row scan. */
  predicate ScannedBefore(r: int, c: int, r0: int, c0: int)
  {
    r < r0 || (r == r0 && c < c0)
  }

  /** The grid once `_lock`'s scan has written every cell of `p` that comes before (r0, c0). */
  ghost predicate StampedUpTo(b: Grid, p: Piece, r0: int, c0: int, g: Grid)
  {
    WellFormed(b) && WellFormed(g) &&
    forall i, j :: 0 <= i < ROWS && 0 <= j < COLS ==>
      g[i][j] == if Covers(p, i, j) && ScannedBefore(i - p.y, j - p.x, r0, c0) then Block(p.kind) else b[i][j]
  }

  /** At the end of a row of the scan the next row starts: the cells past the row's end are not filled. */
  lemma StampedNextRow(b: Grid, p: Piece, r: int, g: Grid)
    requires 0 <= r < |p.shape| && StampedUpTo(b, p, r, |p.shape[r]|, g)
    ensures StampedUpTo(b, p, r + 1, 0, g)
  {
  }

  /** Once the scan has passed the last row, the grid is the stamped one. */
  lemma StampedAll(b: Grid, p: Piece, g: Grid)
    requires StampedUpTo(b, p, |p.shape|, 0, g)
    ensures g == Stamp(b, p)
  {
    var t := Stamp(b, p);
    forall i | 0 <= i < ROWS
      ensures g[i] == t[i]
    {
      forall j | 0 <= j < COLS
        ensures g[i][j] == t[i][j]
      {
      }
    }
  }

  // ---------------------------------------------------------------- full rows

  /** `row.every(c => c !== null)`. */
  predicate Full(row: Row)
  {
    forall c :: 0 <= c < |row| ==> row[c] != Empty
  }

  /** The indices of the full rows among the first `q`, in the order `_checkLines` pushes them. */
  function FullUpTo(b: Grid, q: nat): (ys: seq<int>)
    requires q <= |b|
    ensures forall i :: 0 <= i < |ys| ==> 0 <= ys[i] < q
    decreases q
  {
    if q == 0 then [] else FullUpTo(b, q - 1) + (if Full(b[q - 1]) then [q - 1] else [])
  }

  /** `_checkLines`' list of full rows. */
  function FullRows(b: Grid): seq<int>
  {
    FullUpTo(b, |b|)
  }

  lemma {:induction false} FullUpToExact(b: Grid, q: nat)
    requires q <= |b|
    ensures forall i :: i in FullUpTo(b, q) <==> 0 <= i < q && Full(b[i])
    ensures forall m, n :: 0 <= m < n < |FullUpTo(b, q)| ==> FullUpTo(b, q)[m] < FullUpTo(b, q)[n]
    decreases q
  {
    if q > 0 {
      FullUpToExact(b, q - 1);
    }
  }

  /** The full-row list holds exactly the indices of the full rows, in strictly ascending order. */
  lemma FullRowsExact(b: Grid)
    ensures forall i :: i in FullRows(b) <==> 0 <= i < |b| && Full(b[i])
    ensures forall m, n :: 0 <= m < n < |FullRows(b)| ==> FullRows(b)[m] < FullRows(b)[n]
  {
    FullUpToExact(b, |b|);
  }

  /** How many indices of [lo, min(q, hi)) there are. */
  function Room(q: int, lo: int, hi: int): nat
  {
    var m := if q < hi then q else hi;
    if m > lo then m - lo else 0
  }

  /** When every full row among the first `q` lies in [lo, hi), there are at most that many. */
  lemma {:induction false} FullUpToBound(b: Grid, q: nat, lo: int, hi: int)
    requires q <= |b|
    requires forall j :: 0 <= j < q && Full(b[j]) ==> lo <= j < hi
    ensures |FullUpTo(b, q)| <= Room(q, lo, hi)
    decreases q
  {
    if q > 0 {
      FullUpToBound(b, q - 1, lo, hi);
    }
  }

  /** The full-row list is empty exactly when no row is full. */
  lemma NoFullRows(b: Grid)
    ensures FullRows(b) == [] <==> forall i :: 0 <= i < |b| ==> !Full(b[i])
  {
    if forall i :: 0 <= i < |b| ==> !Full(b[i]) {
      FullUpToBound(b, |b|, 0, 0);
    } else {
      FullRowsExact(b);
    }
  }

  /** No row of the board is full. */
  predicate NoneFull(b: Grid)
  {
    forall i :: 0 <= i < |b| ==> !Full(b[i])
  }

  /** The empty board has no full row. */
  lemma EmptyBoardNoneFull()
    ensures NoneFull(EmptyBoard())
  {
    assert EmptyRow()[0] == Empty;
  }

  /** Strictly ascending. */
  predicate Ascending(ys: seq<int>)
  {
    forall m, n :: 0 <= m < n < |ys| ==> ys[m] < ys[n]
  }

  /**
   * A direct description of the full-row list, without the recursion: the listed
   * rows are in range, full and ascending, and every full row is listed.
   */
  predicate ListsFullRows(b: Grid, ys: seq<int>)
  {
    Ascending(ys) && InRows(ys, |b|) &&
    (forall i :: 0 <= i < |ys| ==> Full(b[ys[i]])) &&
    (forall r :: 0 <= r < |b| && Full(b[r]) ==> r in ys)
  }

  /** Two ascending lists with the same elements are equal. */
  lemma {:induction false} AscendingSameElements(xs: seq<int>, ys: seq<int>)
    requires Ascending(xs) && Ascending(ys)
    requires forall v :: v in xs <==> v in ys
    ensures xs == ys
    decreases |xs|
  {
    if xs == [] {
      assert forall i :: 0 <= i < |ys| ==> ys[i] in ys;
    } else {
      assert xs[0] in xs;
      assert ys[0] in ys;
      // the least element of each list is its head
      assert xs[0] == ys[0];
      forall v
        ensures v in xs[1..] <==> v in ys[1..]
      {
        if v in xs[1..] {
          assert v in ys;
        }
        if v in ys[1..] {
          assert v in xs;
        }
      }
      AscendingSameElements(xs[1..], ys[1..]);
      assert xs == [xs[0]] + xs[1..];
      assert ys == [ys[0]] + ys[1..];
    }
  }

  /** The direct description fits exactly one list: the one `_checkLines` builds. */
  lemma ListsFullRowsExactly(b: Grid, ys: seq<int>)
    ensures ListsFullRows(b, ys) <==> ys == FullRows(b)
  {
    FullRowsExact(b);
    FullUpToExact(b, |b|);
    if ListsFullRows(b, ys) {
      forall v
        ensures v in ys <==> v in FullRows(b)
      {
        if v in ys {
          var i :| 0 <= i < |ys| && ys[i] == v;
        }
      }
      AscendingSameElements(ys, FullRows(b));
    }
  }

  /** At most four rows are full: every list of exactly the full rows has at most four entries. */
  ghost predicate AtMostFourFull(b: Grid)
  {
    forall ys :: ListsFullRows(b, ys) ==> |ys| <= 4
  }

  /** No row is full exactly when the full-row list is empty. */
  lemma NoneFullListsNothing(b: Grid)
    ensures NoneFull(b) <==> ListsFullRows(b, [])
  {
  }

  /** Rows the piece does not reach are left as they were. */
  lemma StampRowOutside(b: Grid, p: Piece, i: int)
    requires WellFormed(b) && 0 <= i < ROWS && !(0 <= i - p.y < |p.shape|)
    ensures Stamp(b, p)[i] == b[i]
  {
  }

  /** Locking a piece at most four rows tall onto a board without full rows fills at most four rows. */
  lemma StampFullRowsBound(b: Grid, p: Piece)
    requires WellFormed(b) && NoneFull(b) && |p.shape| <= 4
    ensures AtMostFourFull(Stamp(b, p))
  {
    var g := Stamp(b, p);
    forall i | 0 <= i < |g| && !(p.y <= i < p.y + |p.shape|)
      ensures !Full(g[i])
    {
      StampRowOutside(b, p, i);
    }
    FullUpToBound(g, |g|, p.y, p.y + |p.shape|);
    forall ys | ListsFullRows(g, ys)
      ensures |ys| <= 4
    {
      ListsFullRowsExactly(g, ys);
    }
  }

  // ---------------------------------------------------------------- removing rows

  function Empties(n: nat): (g: Grid)
    ensures |g| == n
  {
    seq(n, _ => EmptyRow())
  }

  /** The rows among the first `q` that are not full, top to bottom. */
  function Kept(b: Grid, q: nat): (g: Grid)
    requires q <= |b|
    ensures |g| + |FullUpTo(b, q)| == q
    decreases q
  {
    if q == 0 then [] else Kept(b, q - 1) + (if Full(b[q - 1]) then [] else [b[q - 1]])
  }

  /** `board.splice(y, 1); board.unshift(emptyRow)`. */
  function RemoveRow(b: Grid, y: int): (r: Grid)
    requires 0 <= y < |b|
    ensures |r| == |b|
  {
    [EmptyRow()] + b[..y] + b[y + 1..]
  }

  /** Every index of the list addresses one of `n` rows. */
  predicate InRows(ys: seq<int>, n: int)
  {
    forall i :: 0 <= i < |ys| ==> 0 <= ys[i] < n
  }

  /** The removal loop of `_removeLines`: the listed rows removed one after the other, in list order. */
  function RemoveAll(b: Grid, ys: seq<int>): (r: Grid)
    requires InRows(ys, |b|)
    ensures |r| == |b|
    decreases |ys|
  {
    if ys == [] then b
    else
      var init := ys[..|ys| - 1];
      assert forall i :: 0 <= i < |init| ==> init[i] == ys[i];
      RemoveRow(RemoveAll(b, init), ys[|ys| - 1])
  }

  /** What clearing the full rows of `b` leaves: one empty row per full row, then the other rows. */
  function Cleared(b: Grid): Grid
  {
    Empties(|FullRows(b)|) + Kept(b, |b|)
  }

  lemma {:induction false} KeptRows(b: Grid, q: nat)
    requires q <= |b|
    ensures forall i :: 0 <= i < |Kept(b, q)| ==> Kept(b, q)[i] in b && !Full(Kept(b, q)[i])
    decreases q
  {
    if q > 0 {
      KeptRows(b, q - 1);
    }
  }

  /** Removing the row just below the compacted part moves one more empty row to the top. */
  lemma RemoveBelowCompacted(k: nat, pre: Grid, row: Row, rest: Grid)
    ensures RemoveRow(Empties(k) + pre + ([row] + rest), k + |pre|) == Empties(k + 1) + pre + rest
  {
    var cur := Empties(k) + pre + ([row] + rest);
    var y := k + |pre|;
    assert cur[..y] == Empties(k) + pre;
    assert cur[y + 1..] == rest;
    assert [EmptyRow()] + Empties(k) == Empties(k + 1);
  }

  lemma KeepBelowCompacted(k: nat, pre: Grid, row: Row, rest: Grid)
    ensures Empties(k) + pre + ([row] + rest) == Empties(k) + (pre + [row]) + rest
  {
  }

  lemma RemoveAllSnoc(b: Grid, ys: seq<int>, y: int)
    requires InRows(ys, |b|) && 0 <= y < |b|
    ensures InRows(ys + [y], |b|)
    ensures RemoveAll(b, ys + [y]) == RemoveRow(RemoveAll(b, ys), y)
  {
    assert (ys + [y])[..|ys|] == ys;
  }

  /** The compacted form of the board after the removals for the full rows among the first `q`. */
  predicate RemovedUpTo(b: Grid, q: nat)
    requires q <= |b|
  {
    InRows(FullUpTo(b, q), |b|) &&
    RemoveAll(b, FullUpTo(b, q)) == Empties(|FullUpTo(b, q)|) + Kept(b, q) + b[q..]
  }

  /** A full row r is removed next, leaving one more empty row on top. */
  lemma RemovedFullRow(b: Grid, r: nat)
    requires r < |b| && Full(b[r]) && RemovedUpTo(b, r)
    ensures RemovedUpTo(b, r + 1)
  {
    var q := r + 1;
    var ys := FullUpTo(b, r);
    var cur := RemoveAll(b, ys);
    assert b[r..] == [b[r]] + b[q..];
    assert cur == Empties(|ys|) + Kept(b, r) + ([b[r]] + b[q..]);
    assert FullUpTo(b, q) == ys + [r] && Kept(b, q) == Kept(b, r);
    RemoveAllSnoc(b, ys, r);
    RemoveBelowCompacted(|ys|, Kept(b, r), b[r], b[q..]);
  }

  /** A row r that is not full is kept, below the rows kept before it. */
  lemma RemovedKeptRow(b: Grid, r: nat)
    requires r < |b| && !Full(b[r]) && RemovedUpTo(b, r)
    ensures RemovedUpTo(b, r + 1)
  {
    var q := r + 1;
    var ys := FullUpTo(b, r);
    assert b[r..] == [b[r]] + b[q..];
    assert FullUpTo(b, q) == ys && Kept(b, q) == Kept(b, r) + [b[r]];
    KeepBelowCompacted(|ys|, Kept(b, r), b[r], b[q..]);
  }

  lemma RemovedNextRow(b: Grid, r: nat)
    requires r < |b| && RemovedUpTo(b, r)
    ensures RemovedUpTo(b, r + 1)
  {
    if Full(b[r]) {
      RemovedFullRow(b, r);
    } else {
      RemovedKeptRow(b, r);
    }
  }

  /** After the removals for the first `q` rows the board is: one empty row per full row among
      them, their rows that were not full, then rows q onwards untouched. */
  lemma {:induction false} RemoveUpTo(b: Grid, q: nat)
    requires q <= |b|
    ensures RemovedUpTo(b, q)
    decreases q
  {
    if q == 0 {
      assert b[0..] == b;
    } else {
      RemoveUpTo(b, q - 1);
      RemovedNextRow(b, q - 1);
    }
  }

  /** Removing the listed full rows one after the other, as `_removeLines` does, compacts the
      board: the rows that were not full keep their order and drop to the bottom. */
  lemma ClearFullRows(b: Grid)
    ensures InRows(FullRows(b), |b|)
    ensures RemoveAll(b, FullRows(b)) == Cleared(b)
  {
    RemoveUpTo(b, |b|);
    assert b[|b|..] == [];
  }

  /** Clearing keeps ROWS rows of COLS cells and leaves no full row behind. */
  lemma ClearedShape(b: Grid)
    requires WellFormed(b)
    ensures WellFormed(Cleared(b)) && NoneFull(Cleared(b))
  {
    KeptRows(b, |b|);
    var g := Cleared(b);
    forall i | 0 <= i < |g|
      ensures |g[i]| == COLS && !Full(g[i])
    {
      if i < |FullRows(b)| {
        assert g[i] == EmptyRow();
        assert g[i][0] == Empty;
      } else {
        assert g[i] == Kept(b, |b|)[i - |FullRows(b)|];
      }
    }
  }

  /** Removing a list of exactly the full rows, in order, clears the board. */
  lemma ListedRowsCleared(b: Grid, ys: seq<int>)
    requires WellFormed(b) && ListsFullRows(b, ys)
    ensures InRows(ys, |b|) && RemoveAll(b, ys) == Cleared(b)
    ensures WellFormed(Cleared(b)) && NoneFull(Cleared(b))
  {
    ListsFullRowsExactly(b, ys);
    ClearFullRows(b);
    ClearedShape(b);
  }

  /** The same, stated on the removal itself: it leaves ROWS rows of COLS cells and no full row. */
  lemma ListedRowsRemoved(b: Grid, ys: seq<int>)
    requires WellFormed(b) && ListsFullRows(b, ys)
    ensures InRows(ys, |b|) && WellFormed(RemoveAll(b, ys)) && NoneFull(RemoveAll(b, ys))
  {
    ListedRowsCleared(b, ys);
  }

  lemma {:induction false} KeptAllEmpty(b: Grid, q: nat)
    requires q <= |b|
    requires forall i :: 0 <= i < |b| ==> b[i] == EmptyRow() || Full(b[i])
    ensures Kept(b, q) == Empties(|Kept(b, q)|)
    decreases q
  {
    if q > 0 {
      KeptAllEmpty(b, q - 1);
      if !Full(b[q - 1]) {
        var m := |Kept(b, q - 1)|;
        assert Empties(m) + [EmptyRow()] == Empties(m + 1);
      }
    }
  }

  /** Clearing four full rows from an otherwise empty board leaves every row empty. */
  lemma ClearedOtherwiseEmpty(b: Grid)
    requires WellFormed(b)
    requires forall i :: 0 <= i < |b| ==> b[i] == EmptyRow() || Full(b[i])
    ensures Cleared(b) == EmptyBoard()
  {
    KeptAllEmpty(b, |b|);
    var c := |FullRows(b)|;
    var m := |Kept(b, |b|)|;
    assert Empties(c) + Empties(m) == Empties(ROWS);
  }

  // ---------------------------------------------------------------- garbage

  /** A garbage line: 'G' everywhere except the hole. */
  function GarbageRow(hole: int): (r: Row)
    ensures |r| == COLS
  {
    seq(COLS, c => if c == hole then Empty else Garbage)
  }

  /** `n` times: drop the top row and push a garbage line with the given hole at the bottom. */
  function Drain(b: Grid, n: nat, hole: int): Grid
  {
    (b + seq(n, _ => GarbageRow(hole)))[n..]
  }

  /** `_applyGarbage` with `n` lines pending: nothing when n <= 0, otherwise a drain at some hole column. */
  ghost predicate Drained(before: Grid, n: int, after: Grid)
  {
    if n <= 0 then after == before
    else exists h :: 0 <= h < COLS && after == Drain(before, n, h)
  }

  /** Garbage pushes everything up by n rows; the bottom min(n, ROWS) rows are garbage lines. */
  lemma DrainRows(b: Grid, n: nat, hole: int)
    requires WellFormed(b)
    ensures WellFormed(Drain(b, n, hole))
    ensures forall i :: 0 <= i < ROWS ==>
              Drain(b, n, hole)[i] == if i + n < ROWS then b[i + n] else GarbageRow(hole)
  {
  }

  /** One more round of the drain loop: shift off the top row, push one more garbage line. */
  lemma DrainStep(b: Grid, n: nat, hole: int)
    requires |b| >= 1
    ensures |Drain(b, n, hole)| == |b|
    ensures Drain(b, n + 1, hole) == Drain(b, n, hole)[1..] + [GarbageRow(hole)]
  {
    var g := seq(n, _ => GarbageRow(hole));
    assert seq(n + 1, _ => GarbageRow(hole)) == g + [GarbageRow(hole)];
    assert (b + g + [GarbageRow(hole)])[n + 1..] == (b + g)[n..][1..] + [GarbageRow(hole)];
  }

  /** A garbage line with an in-range hole has exactly one empty cell, at the hole, so it is not full. */
  lemma GarbageRowHole(hole: int)
    requires 0 <= hole < COLS
    ensures forall c :: 0 <= c < COLS ==> (GarbageRow(hole)[c] == Empty <==> c == hole)
    ensures !Full(GarbageRow(hole))
  {
    assert GarbageRow(hole)[hole] == Empty;
  }

  lemma DrainedShape(before: Grid, n: int, after: Grid)
    requires WellFormed(before) && NoneFull(before) && Drained(before, n, after)
    ensures WellFormed(after) && NoneFull(after)
  {
    if n > 0 {
      var h :| 0 <= h < COLS && after == Drain(before, n, h);
      DrainRows(before, n, h);
      GarbageRowHole(h);
    }
  }

  // ---------------------------------------------------------------- gravity

  /** `dropInterval`: `max(50, 1000 - (level - 1) * 75)` milliseconds per row. */
  function DropIntervalFor(level: int): (r: int)
    ensures r >= 50 && (level >= 1 ==> r <= 1000)
  {
    var v := 1000 - (level - 1) * 75;
    if v > 50 then v else 50
  }

  /** Gravity speeds up with the level and reaches its floor of 50 at level 14. */
  lemma DropIntervalMonotone(a: int, b: int)
    requires a <= b
    ensures DropIntervalFor(a) >= DropIntervalFor(b)
    ensures b >= 14 ==> DropIntervalFor(b) == 50
  {
  }

  // ---------------------------------------------------------------- rotation resolver

  /** The shape placed at (x + dx, y - dy) for kick (dx, dy) fits. */
  predicate FitsKicked(b: Grid, s: Shape, x: int, y: int, kick: Kick)
    requires WellFormed(b)
  {
    Fits(b, s, x + kick.0, y - kick.1)
  }

  /** The index of the first kick for which the shape fits. */
  function FirstFit(b: Grid, s: Shape, x: int, y: int, kicks: seq<Kick>): (r: Option<nat>)
    requires WellFormed(b)
    ensures r.Some? ==> r.value < |kicks| && FitsKicked(b, s, x, y, kicks[r.value])
    ensures r.Some? ==> forall j :: 0 <= j < r.value ==> !FitsKicked(b, s, x, y, kicks[j])
    ensures r.None? <==> forall j :: 0 <= j < |kicks| ==> !FitsKicked(b, s, x, y, kicks[j])
    decreases |kicks|
  {
    if kicks == [] then None
    else if FitsKicked(b, s, x, y, kicks[0]) then Some(0)
    else
      match FirstFit(b, s, x, y, kicks[1..])
      case None => None
      case Some(k) => Some(k + 1)
  }

  /** The search finds kick i exactly when it is the first that fits. */
  lemma FirstFitIs(b: Grid, s: Shape, x: int, y: int, kicks: seq<Kick>, i: nat)
    requires WellFormed(b) && i < |kicks| && FitsKicked(b, s, x, y, kicks[i])
    requires forall j :: 0 <= j < i ==> !FitsKicked(b, s, x, y, kicks[j])
    ensures FirstFit(b, s, x, y, kicks) == Some(i)
  {
    var r := FirstFit(b, s, x, y, kicks);
    assert r.Some?;
    if r.value < i {
    } else if r.value > i {
    }
  }

  /** A kick list that starts with (0, 0) takes the unshifted placement whenever it fits. */
  lemma FirstFitOrigin(b: Grid, s: Shape, x: int, y: int, kicks: seq<Kick>)
    requires WellFormed(b) && |kicks| > 0 && kicks[0] == (0, 0) && Fits(b, s, x, y)
    ensures FirstFit(b, s, x, y, kicks) == Some(0)
  {
  }

  /** The orientation grid after a quarter turn in direction `dir` (1 clockwise, otherwise counter-clockwise). */
  function Turned(s: Shape, dir: int): (r: Shape)
    requires IsSquare(s)
    ensures IsSquare(r) && |r| == |s|
  {
    if dir == 1 then RotatedCW(s) else RotatedCCW(s)
  }

  /** `(rotation + dir + 4) % 4`; the dividend is never negative here, so JavaScript's `%` agrees. */
  function NextRotation(rotation: int, dir: int): int
  {
    (rotation + dir + 4) % 4
  }

  /** The next orientation is one step further round the cycle 0, 1, 2, 3 in either direction. */
  lemma NextRotationStep(rotation: int, dir: int)
    requires 0 <= rotation < 4 && (dir == 1 || dir == -1)
    ensures NextRotation(rotation, dir) == (if dir == 1 then (rotation + 1) % 4 else (rotation + 3) % 4)
    ensures 0 <= NextRotation(rotation, dir) < 4
  {
  }

  /** The piece placed at the first kick that fits, if any. */
  function Kicked(b: Grid, k: Kind, ns: Shape, nr: int, x: int, y: int, kicks: seq<Kick>): (r: Option<Piece>)
    requires WellFormed(b)
    ensures r.Some? ==> r.value.kind == k && r.value.shape == ns && r.value.rotation == nr
    ensures r.Some? ==> Fits(b, ns, r.value.x, r.value.y)
    ensures r.None? <==> forall j :: 0 <= j < |kicks| ==> !FitsKicked(b, ns, x, y, kicks[j])
  {
    match FirstFit(b, ns, x, y, kicks)
    case None => None
    case Some(i) => Some(Piece(k, ns, nr, x + kicks[i].0, y - kicks[i].1))
  }

  /** `_rotate(dir)` as a function of the board and the piece: None when it fails. */
  function TryRotate(b: Grid, p: Piece, dir: int): (r: Option<Piece>)
    requires WellFormed(b) && IsSquare(p.shape)
    ensures r.Some? ==> IsSquare(r.value.shape)
  {
    if p.kind == O then None
    else
      var nr := NextRotation(p.rotation, dir);
      match KickTable(p.kind, p.rotation, nr)
      case None => None
      case Some(kicks) => Kicked(b, p.kind, Turned(p.shape, dir), nr, p.x, p.y, kicks)
  }


  /** A quarter turn of a well-oriented grid is the base grid at the next orientation. */
  lemma TurnedOriented(p: Piece, dir: int)
    requires PieceOk(p) && (dir == 1 || dir == -1)
    ensures PieceOk(p.(shape := Turned(p.shape, dir), rotation := NextRotation(p.rotation, dir)))
  {
    PieceOkFacts(p);
    NextRotationStep(p.rotation, dir);
    var m := Base(p.kind);
    if dir == 1 {
      TurnsStepCW(m, p.rotation);
    } else {
      TurnsStepCCW(m, p.rotation);
    }
  }

  /** A successful rotation keeps the orientation invariant and lands on a fitting placement. */
  lemma TryRotateOk(b: Grid, p: Piece, dir: int)
    requires WellFormed(b) && PieceOk(p) && (dir == 1 || dir == -1)
    requires TryRotate(b, p, dir).Some?
    ensures PieceOk(TryRotate(b, p, dir).value)
    ensures var q := TryRotate(b, p, dir).value; q.kind == p.kind && Fits(b, q.shape, q.x, q.y)
  {
    PieceOkFacts(p);
    var q := TryRotate(b, p, dir).value;
    assert q == p.(shape := Turned(p.shape, dir), rotation := NextRotation(p.rotation, dir), x := q.x, y := q.y);
    TurnedOriented(p, dir);
  }

  /** A successful rotation keeps the shape facts of the falling piece and lands on a fitting placement. */
  lemma TryRotateShaped(b: Grid, p: Piece, dir: int)
    requires WellFormed(b) && PieceShaped(p) && (dir == 1 || dir == -1)
    requires TryRotate(b, p, dir).Some?
    ensures var q := TryRotate(b, p, dir).value; PieceShaped(q) && q.kind == p.kind && Fits(b, q.shape, q.x, q.y)
  {
    TryRotateOk(b, p, dir);
    PieceOkFacts(TryRotate(b, p, dir).value);
  }

  /** When the unshifted placement fits, the rotation takes it: kick (0, 0) is always tried first. */
  lemma RotateInPlace(b: Grid, p: Piece, dir: int)
    requires WellFormed(b) && IsSquare(p.shape) && p.kind != O && 0 <= p.rotation < 4 && (dir == 1 || dir == -1)
    requires Fits(b, Turned(p.shape, dir), p.x, p.y)
    ensures TryRotate(b, p, dir) == Some(Piece(p.kind, Turned(p.shape, dir), NextRotation(p.rotation, dir), p.x, p.y))
  {
    var nr := NextRotation(p.rotation, dir);
    KickListsStartAtOrigin(p.kind, p.rotation, nr);
    FirstFitOrigin(b, Turned(p.shape, dir), p.x, p.y, KickTable(p.kind, p.rotation, nr).value);
  }

  /** `n` successive clockwise rotation attempts; None as soon as one fails. */
  function RotateTimes(b: Grid, p: Piece, n: nat): Option<Piece>
    requires WellFormed(b) && IsSquare(p.shape)
    decreases n
  {
    if n == 0 then Some(p)
    else
      match TryRotate(b, p, 1)
      case None => None
      case Some(q) => RotateTimes(b, q, n - 1)
  }

  lemma RotateTimesStep(b: Grid, p: Piece, q: Piece, n: nat)
    requires WellFormed(b) && IsSquare(p.shape) && TryRotate(b, p, 1) == Some(q)
    ensures RotateTimes(b, p, n + 1) == RotateTimes(b, q, n)
  {
  }

  /** The orientation a well-oriented piece of kind `k` has at step `r`. */
  function Oriented(k: Kind, r: int, x: int, y: int): (p: Piece)
    requires 0 <= r < 4
    ensures PieceOk(p)
  {
    Piece(k, Turns(Base(k), r), r, x, y)
  }

  /** A clockwise turn of a well-oriented piece that fits unshifted moves it to the next orientation. */
  lemma TurnStep(b: Grid, p: Piece)
    requires WellFormed(b) && PieceOk(p) && p.kind != O
    requires Fits(b, Turns(Base(p.kind), (p.rotation + 1) % 4), p.x, p.y)
    ensures TryRotate(b, p, 1) == Some(Oriented(p.kind, (p.rotation + 1) % 4, p.x, p.y))
  {
    PieceOkFacts(p);
    TurnsStepCW(Base(p.kind), p.rotation);
    NextRotationStep(p.rotation, 1);
    RotateInPlace(b, p, 1);
  }

  /** A counter-clockwise turn of a well-oriented piece that fits unshifted moves it to the previous orientation. */
  lemma TurnBackStep(b: Grid, p: Piece)
    requires WellFormed(b) && PieceOk(p) && p.kind != O
    requires Fits(b, Turns(Base(p.kind), (p.rotation + 3) % 4), p.x, p.y)
    ensures TryRotate(b, p, -1) == Some(Oriented(p.kind, (p.rotation + 3) % 4, p.x, p.y))
  {
    PieceOkFacts(p);
    TurnsStepCCW(Base(p.kind), p.rotation);
    NextRotationStep(p.rotation, -1);
    RotateInPlace(b, p, -1);
  }

  /** Rotation is a 4-cycle on the board too: when all four orientations fit at the piece's
      position, four clockwise turns bring back the same shape, orientation, column and row. */
  lemma FourRotationsReturn(b: Grid, p: Piece)
    requires WellFormed(b) && PieceOk(p) && p.kind != O
    requires forall k :: 0 <= k < 4 ==> Fits(b, Turns(Base(p.kind), k), p.x, p.y)
    ensures RotateTimes(b, p, 4) == Some(p)
  {
    var k, x, y := p.kind, p.x, p.y;
    var r1 := (p.rotation + 1) % 4;
    var r2 := (r1 + 1) % 4;
    var r3 := (r2 + 1) % 4;
    assert (r3 + 1) % 4 == p.rotation;
    var p1, p2, p3 := Oriented(k, r1, x, y), Oriented(k, r2, x, y), Oriented(k, r3, x, y);
    assert RotateTimes(b, p3, 1) == Some(p) by {
      TurnStep(b, p3);
      assert Oriented(k, (r3 + 1) % 4, x, y) == p;
      RotateTimesStep(b, p3, p, 0);
    }
    assert RotateTimes(b, p2, 2) == Some(p) by {
      TurnStep(b, p2);
      RotateTimesStep(b, p2, p3, 1);
    }
    assert RotateTimes(b, p1, 3) == Some(p) by {
      TurnStep(b, p1);
      RotateTimesStep(b, p1, p2, 2);
    }
    TurnStep(b, p);
    RotateTimesStep(b, p, p1, 3);
  }

  /** One step forward and one back round the orientation cycle. */
  lemma BackOneStep(r: int)
    requires 0 <= r < 4
    ensures ((r + 1) % 4 + 3) % 4 == r
  {
  }

  /** Turning clockwise and then back, each unshifted, restores the piece. */
  lemma RotateThereAndBack(b: Grid, p: Piece)
    requires WellFormed(b) && PieceOk(p) && p.kind != O
    requires Fits(b, Turns(Base(p.kind), (p.rotation + 1) % 4), p.x, p.y) && Fits(b, p.shape, p.x, p.y)
    ensures TryRotate(b, p, 1).Some? && TryRotate(b, TryRotate(b, p, 1).value, -1) == Some(p)
  {
    var p1 := Oriented(p.kind, (p.rotation + 1) % 4, p.x, p.y);
    TurnStep(b, p);
    BackOneStep(p.rotation);
    TurnBackStep(b, p1);
  }
}
