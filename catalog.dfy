/**
 * The piece catalog shared by both engine copies: the playfield size, the seven
 * piece kinds with their base orientation grids, the cell contents of the grid,
 * the Super Rotation System wall-kick tables of the Tetris Guideline, and the
 * score and garbage tables.
 */
module Catalog {

  const COLS: int := 10
  const ROWS: int := 20

  /** Number of milliseconds a piece may rest before it locks. */
  const LOCK_DELAY: int := 500
  /** Number of lock-timer resets a piece may earn by moving or rotating. */
  const MAX_LOCK_RESETS: int := 15

  datatype Option<T> = None | Some(value: T)

  datatype Kind = I | O | T | S | Z | J | L

  /** The order in which the kinds are listed before a bag is shuffled. */
  const PieceTypes: seq<Kind> := [I, O, T, S, Z, J, L]

  /** A grid cell: empty (null in the source), a locked block of some kind, or garbage ('G'). */
  datatype Cell = Empty | Block(kind: Kind) | Garbage

  type Row = seq<Cell>
  type Grid = seq<Row>

  /** An orientation grid; a cell is filled when it is not 0. */
  type Shape = seq<seq<int>>

  /** The spawn orientation of each kind. */
  function Base(k: Kind): (s: Shape)
    ensures |s| <= 4 && forall r :: 0 <= r < |s| ==> |s[r]| == |s|
    ensures |s| >= 2 && s[1][1] != 0
  {
    match k
    case I => [[0, 0, 0, 0], [1, 1, 1, 1], [0, 0, 0, 0], [0, 0, 0, 0]]
    case O => [[1, 1], [1, 1]]
    case T => [[0, 1, 0], [1, 1, 1], [0, 0, 0]]
    case S => [[0, 1, 1], [1, 1, 0], [0, 0, 0]]
    case Z => [[1, 1, 0], [0, 1, 1], [0, 0, 0]]
    case J => [[1, 0, 0], [1, 1, 1], [0, 0, 0]]
    case L => [[0, 0, 1], [1, 1, 1], [0, 0, 0]]
  }

  /** A kick offset (dx, dy); dy counts upwards, so it is subtracted from the row. */
  type Kick = (int, int)

  /** SRS kicks for J, L, T, S and Z, keyed by the transition "from>to". */
  const JltszKicks: map<(int, int), seq<Kick>> := map[
    (0, 1) := [(0, 0), (-1, 0), (-1, 1), (0, -2), (-1, -2)],
    (1, 0) := [(0, 0), (1, 0), (1, -1), (0, 2), (1, 2)],
    (1, 2) := [(0, 0), (1, 0), (1, -1), (0, 2), (1, 2)],
    (2, 1) := [(0, 0), (-1, 0), (-1, 1), (0, -2), (-1, -2)],
    (2, 3) := [(0, 0), (1, 0), (1, 1), (0, -2), (1, -2)],
    (3, 2) := [(0, 0), (-1, 0), (-1, -1), (0, 2), (-1, 2)],
    (3, 0) := [(0, 0), (-1, 0), (-1, -1), (0, 2), (-1, 2)],
    (0, 3) := [(0, 0), (1, 0), (1, 1), (0, -2), (1, -2)]]

  /** SRS kicks for the I piece, keyed by the transition "from>to". */
  const IKicks: map<(int, int), seq<Kick>> := map[
    (0, 1) := [(0, 0), (-2, 0), (1, 0), (-2, -1), (1, 2)],
    (1, 0) := [(0, 0), (2, 0), (-1, 0), (2, 1), (-1, -2)],
    (1, 2) := [(0, 0), (-1, 0), (2, 0), (-1, 2), (2, -1)],
    (2, 1) := [(0, 0), (1, 0), (-2, 0), (1, -2), (-2, 1)],
    (2, 3) := [(0, 0), (2, 0), (-1, 0), (2, 1), (-1, -2)],
    (3, 2) := [(0, 0), (-2, 0), (1, 0), (-2, -1), (1, 2)],
    (3, 0) := [(0, 0), (1, 0), (-2, 0), (1, -2), (-2, 1)],
    (0, 3) := [(0, 0), (-1, 0), (2, 0), (-1, 2), (2, -1)]]

  /** The table a kind consults, I's for I and the shared one otherwise; None for a key it lacks. */
  function KickTable(k: Kind, from: int, to: int): Option<seq<Kick>>
  {
    var table := if k == I then IKicks else JltszKicks;
    if (from, to) in table then Some(table[(from, to)]) else None
  }

  const ScoreTable: seq<int> := [0, 100, 300, 500, 800]
  const GarbageTable: seq<int> := [0, 0, 1, 2, 4]

  /**
   * `GARBAGE_TABLE[n] || 0`: a count outside the table sends nothing, and a
   * clear never sends more lines than it cleared.
   */
  function GarbageFor(n: int): (g: int)
    ensures 0 <= g && (n >= 0 ==> g <= n)
    ensures g > 0 ==> 2 <= n <= 4
  {
    if 0 <= n < |GarbageTable| then GarbageTable[n] else 0
  }

  /** Every transition a rotation can ask for has a five-entry list that starts with (0, 0). */
  lemma KickListsStartAtOrigin(k: Kind, from: int, to: int)
    requires 0 <= from < 4 && (to == (from + 1) % 4 || to == (from + 3) % 4)
    ensures KickTable(k, from, to).Some?
    ensures |KickTable(k, from, to).value| == 5 && KickTable(k, from, to).value[0] == (0, 0)
  {
  }

  /** In one table, the kicks of a transition are the negated kicks of its reverse. */
  predicate ReverseNegated(table: map<(int, int), seq<Kick>>, from: int, to: int, n: int)
  {
    (from, to) in table && 0 <= n < |table[(from, to)]| ==>
      (to, from) in table && |table[(to, from)]| == |table[(from, to)]| &&
      table[(to, from)][n].0 == -table[(from, to)][n].0 && table[(to, from)][n].1 == -table[(from, to)][n].1
  }

  lemma JltszReverseNegated(from: int, to: int, n: int)
    ensures ReverseNegated(JltszKicks, from, to, n)
  {
    if (from, to) in JltszKicks {
      assert (from, to) in {(0, 1), (1, 0), (1, 2), (2, 1), (2, 3), (3, 2), (3, 0), (0, 3)};
    }
  }

  lemma IReverseNegated(from: int, to: int, n: int)
    ensures ReverseNegated(IKicks, from, to, n)
  {
    if (from, to) in IKicks {
      assert (from, to) in {(0, 1), (1, 0), (1, 2), (2, 1), (2, 3), (3, 2), (3, 0), (0, 3)};
    }
  }

  /** The SRS symmetry: the kicks of a transition are the negated kicks of its reverse. */
  lemma KicksReverseNegated(k: Kind, from: int, to: int, n: int)
    requires KickTable(k, from, to).Some? && 0 <= n < |KickTable(k, from, to).value|
    ensures KickTable(k, to, from).Some? && |KickTable(k, to, from).value| == |KickTable(k, from, to).value|
    ensures KickTable(k, to, from).value[n].0 == -KickTable(k, from, to).value[n].0
    ensures KickTable(k, to, from).value[n].1 == -KickTable(k, from, to).value[n].1
  {
    if k == I {
      IReverseNegated(from, to, n);
    } else {
      JltszReverseNegated(from, to, n);
    }
  }
}
