/**
 * Quarter turns of square orientation grids (rotateCW / rotateCCW): the pure
 * definitions, their algebra (four turns are the identity, the two directions
 * undo each other), and the nested-loop methods the engine calls.
 */
module Rotation {
  import opened Catalog

  predicate IsSquare(m: Shape)
  {
    forall r :: 0 <= r < |m| ==> |m[r]| == |m|
  }

  /** The cell at row r, column c of the grid exists and is filled. */
  predicate Filled(m: Shape, r: int, c: int)
  {
    0 <= r < |m| && 0 <= c < |m[r]| && m[r][c] != 0
  }

  /** Some cell of the grid is filled. */
  ghost predicate HasBlock(m: Shape)
  {
    exists r, c :: Filled(m, r, c)
  }

  /** A clockwise quarter turn: the cell at row y, column x moves to row x, column n-1-y. */
  function RotatedCW(m: Shape): (r: Shape)
    requires IsSquare(m)
    ensures IsSquare(r) && |r| == |m|
  {
    var n := |m|;
    seq(n, i requires 0 <= i < n => seq(n, j requires 0 <= j < n => m[n - 1 - j][i]))
  }

  /** A counter-clockwise quarter turn: the cell at row y, column x moves to row n-1-x, column y. */
  function RotatedCCW(m: Shape): (r: Shape)
    requires IsSquare(m)
    ensures IsSquare(r) && |r| == |m|
  {
    var n := |m|;
    seq(n, i requires 0 <= i < n => seq(n, j requires 0 <= j < n => m[j][n - 1 - i]))
  }

  /** `n` clockwise quarter turns. */
  function Turns(m: Shape, n: nat): (r: Shape)
    requires IsSquare(m)
    ensures IsSquare(r) && |r| == |m|
  {
    if n == 0 then m else RotatedCW(Turns(m, n - 1))
  }

  lemma CCWUndoesCW(m: Shape)
    requires IsSquare(m)
    ensures RotatedCCW(RotatedCW(m)) == m
  {
    var r := RotatedCCW(RotatedCW(m));
    forall i | 0 <= i < |m|
      ensures r[i] == m[i]
    {
      forall j | 0 <= j < |m|
        ensures r[i][j] == m[i][j]
      {
      }
    }
  }

  lemma CWUndoesCCW(m: Shape)
    requires IsSquare(m)
    ensures RotatedCW(RotatedCCW(m)) == m
  {
    var r := RotatedCW(RotatedCCW(m));
    forall i | 0 <= i < |m|
      ensures r[i] == m[i]
    {
      forall j | 0 <= j < |m|
        ensures r[i][j] == m[i][j]
      {
      }
    }
  }

  /** Two clockwise quarter turns are the half turn. */
  lemma HalfTurnAt(m: Shape, i: int, j: int)
    requires IsSquare(m) && 0 <= i < |m| && 0 <= j < |m|
    ensures RotatedCW(RotatedCW(m))[i][j] == m[|m| - 1 - i][|m| - 1 - j]
  {
  }

  /** Rotation is a 4-cycle: four clockwise quarter turns give the grid back. */
  lemma FourTurnsIdentity(m: Shape)
    requires IsSquare(m)
    ensures RotatedCW(RotatedCW(RotatedCW(RotatedCW(m)))) == m
  {
    var h := RotatedCW(RotatedCW(m));
    var r := RotatedCW(RotatedCW(h));
    var n := |m|;
    forall i | 0 <= i < n
      ensures r[i] == m[i]
    {
      forall j | 0 <= j < n
        ensures r[i][j] == m[i][j]
      {
        HalfTurnAt(h, i, j);
        HalfTurnAt(m, n - 1 - i, n - 1 - j);
      }
    }
  }

  /** A counter-clockwise quarter turn is three clockwise ones. */
  lemma CCWIsThreeCW(m: Shape)
    requires IsSquare(m)
    ensures RotatedCCW(m) == RotatedCW(RotatedCW(RotatedCW(m)))
  {
    var h := RotatedCW(RotatedCW(m));
    var r := RotatedCW(h);
    var l := RotatedCCW(m);
    var n := |m|;
    forall i | 0 <= i < n
      ensures r[i] == l[i]
    {
      forall j | 0 <= j < n
        ensures r[i][j] == l[i][j]
      {
        HalfTurnAt(m, n - 1 - j, i);
      }
    }
  }

  /** Turning one more step from `r` turns lands on step (r + 1) % 4. */
  lemma {:induction false} TurnsStepCW(m: Shape, r: nat)
    requires IsSquare(m) && r < 4
    ensures RotatedCW(Turns(m, r)) == Turns(m, (r + 1) % 4)
  {
    if r == 3 {
      FourTurnsIdentity(m);
      assert Turns(m, 1) == RotatedCW(m);
      assert Turns(m, 2) == RotatedCW(RotatedCW(m));
      assert Turns(m, 3) == RotatedCW(RotatedCW(RotatedCW(m)));
    }
  }

  /** Turning back from `r` turns lands on step (r + 3) % 4. */
  lemma {:induction false} TurnsStepCCW(m: Shape, r: nat)
    requires IsSquare(m) && r < 4
    ensures RotatedCCW(Turns(m, r)) == Turns(m, (r + 3) % 4)
  {
    if r == 0 {
      CCWIsThreeCW(m);
      assert Turns(m, 1) == RotatedCW(m);
      assert Turns(m, 2) == RotatedCW(RotatedCW(m));
      assert Turns(m, 3) == RotatedCW(RotatedCW(RotatedCW(m)));
    } else {
      CCWUndoesCW(Turns(m, r - 1));
    }
  }

  lemma RotatedKeepsBlock(m: Shape)
    requires IsSquare(m) && HasBlock(m)
    ensures HasBlock(RotatedCW(m)) && HasBlock(RotatedCCW(m))
  {
    var n := |m|;
    var y, x :| Filled(m, y, x);
    assert Filled(RotatedCW(m), x, n - 1 - y);
    assert Filled(RotatedCCW(m), n - 1 - x, y);
  }

  lemma {:induction false} TurnsKeepBlock(m: Shape, n: nat)
    requires IsSquare(m) && HasBlock(m)
    ensures HasBlock(Turns(m, n))
  {
    if n > 0 {
      TurnsKeepBlock(m, n - 1);
      RotatedKeepsBlock(Turns(m, n - 1));
    }
  }

  /** rotateCW: builds a fresh grid of the same size by writing r[x][n-1-y] := m[y][x]. */
  method RotateCW(m: Shape) returns (r: Shape)
    requires IsSquare(m)
    ensures r == RotatedCW(m)
  {
    var n := |m|;
    r := seq(n, _ => seq(n, _ => 0));
    for y := 0 to n
      invariant |r| == n && forall i :: 0 <= i < n ==> |r[i]| == n
      invariant forall i, j :: 0 <= i < n && 0 <= j < n ==>
                  r[i][j] == (if n - 1 - j < y then m[n - 1 - j][i] else 0)
    {
      for x := 0 to n
        invariant |r| == n && forall i :: 0 <= i < n ==> |r[i]| == n
        invariant forall i, j :: 0 <= i < n && 0 <= j < n ==>
                    r[i][j] == (if n - 1 - j < y || (n - 1 - j == y && i < x) then m[n - 1 - j][i] else 0)
      {
        r := r[x := r[x][n - 1 - y := m[y][x]]];
      }
    }
    var want := RotatedCW(m);
    forall i | 0 <= i < n
      ensures r[i] == want[i]
    {
    }
  }

  /** rotateCCW: builds a fresh grid of the same size by writing r[n-1-x][y] := m[y][x]. */
  method RotateCCW(m: Shape) returns (r: Shape)
    requires IsSquare(m)
    ensures r == RotatedCCW(m)
  {
    var n := |m|;
    r := seq(n, _ => seq(n, _ => 0));
    for y := 0 to n
      invariant |r| == n && forall i :: 0 <= i < n ==> |r[i]| == n
      invariant forall i, j :: 0 <= i < n && 0 <= j < n && j < y ==> r[i][j] == m[j][n - 1 - i]
      invariant forall i, j :: 0 <= i < n && y <= j < n ==> r[i][j] == 0
    {
      for x := 0 to n
        invariant |r| == n && forall i :: 0 <= i < n ==> |r[i]| == n
        invariant forall i, j :: 0 <= i < n && 0 <= j < n && (j < y || (j == y && n - 1 - i < x)) ==>
                    r[i][j] == m[j][n - 1 - i]
        invariant forall i, j :: 0 <= i < n && 0 <= j < n && !(j < y || (j == y && n - 1 - i < x)) ==> r[i][j] == 0
      {
        r := r[n - 1 - x := r[n - 1 - x][y := m[y][x]]];
      }
    }
    var want := RotatedCCW(m);
    forall i | 0 <= i < n
      ensures r[i] == want[i]
    {
    }
  }
}
