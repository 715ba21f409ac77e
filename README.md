# A verified model of the tetris-1v1 game engine

tetris-1v1 is a browser Tetris with two kinds of match:

- **Network play** (`public/game.js`). Both peers run the same deterministic `TetrisEngine` from a seed the server sends.
- **Local two-player game** (`game.js`). Two engines share one keyboard.

The engine is a sequential state machine over a 20 × 10 grid. It provides:

- the collision test `_canPlace`;
- moves, soft drop, hard drop and the ghost row;
- rotation through 90° matrix turns followed by the first-match Super Rotation System (SRS) wall-kick search of the Tetris Guideline;
- a lock delay of 500 ms whose restarts are capped at 15;
- line clearing, in three stages: detection, a clear animation, then removal with score, lines and level bookkeeping;
- pending garbage pushed in from the bottom, with one shared hole;
- a 7-bag randomizer.

The network build draws its random indices from `SeededRNG`, a Park–Miller generator (multiplier 16807, modulus 2^31 − 1). The local build uses `Math.random`. The local game loop also sends garbage between the two engines.

The two copies of the engine differ only in two ways:

- the clear animation lasts 250 ms in the network build and 300 ms in the local one;
- the network build uses `SeededRNG` where the local one uses `Math.random`.

So the model has one class, `Engine.TetrisEngine`, with two parameters:

- `rng`: a `Lehmer.SeededRng` for the network build, or `null` for the local build, where `RandomIndex` picks any index in range and the model does not say which;
- `clearDuration`: the length of the clear animation.

## Files

- `catalog.dfy`, module `Catalog`: grid size, piece kinds, spawn grids, SRS kick tables, and the score and garbage tables.
- `rotation.dfy`, module `Rotation`: quarter turns of a square grid, their algebra, and the nested-loop `rotateCW`/`rotateCCW`.
- `board.dfy`, module `Board`: pure definitions of the playfield rules, with lemmas. The engine's methods are proved against these definitions. They cover:
  - collision, the ghost row and locking;
  - full rows and row removal;
  - garbage and the gravity interval;
  - the kick search, and rotation as a function of the grid and the piece.
- `bag.dfy`, module `Bag`: sequences built from shuffled copies of PIECE_TYPES, and their fairness.
- `lehmer.dfy`, module `Lehmer`: the `SeededRNG` state arithmetic and the generator class.
- `dealing.dfy`, module `Dealing`: what a turn deals. It defines:
  - the seeded Fisher–Yates shuffle as a function of the generator state;
  - a `Deal` record of the bag, the preview kind, the kinds pulled so far and the generator state;
  - the relations `Pulled`, `TurnDealt` and `DealStep`: how one pull, and the end of one turn with its garbage hole, move the deal on.
- `engine.dfy`, module `Engine`: `TetrisEngine` as a class.
  - Its per-player fields are one record `st : EngineState`; every method replaces `st` with a new record.
  - The bag, the preview kind and the generator are separate fields.
  - `Valid()` is the invariant every public method keeps. It requires:
    - a ROWS × COLS grid;
    - the rows being cleared are exactly the full rows, listed in ascending order;
    - a piece is falling exactly when no clear is under way, and, unless the game is over, it fits;
    - the falling piece is its kind's spawn grid turned `rotation` quarter turns clockwise;
    - the lock-reset count stays within [0, 15];
    - `level == lines / 10 + 1`;
    - the bag bookkeeping of `Bag.Bags`;
    - a generator that is in range.
  - The state relations `LinesChecked`, `LockedIn`, `LinesRemoved` and `Updated` state one source function each, as a relation between the old and the new state.
  - Every method that can end a turn also states how the deal moves on, as `DealStep`. The determinism lemmas show that in the network build the state and the deal before a frame fix the state and the deal after it.
- `versus.dfy`, module `Versus`: the local `Game` with two engines and the garbage rule of `Game._loop`.

## Model

| member | source | states |
|---|---|---|
| Catalog.Base | public/game.js:8-16 | every spawn grid is square, of side 2 to 4, with its cell at row 1, column 1 filled |
| Catalog.KickListsStartAtOrigin | public/game.js:17-36 | every transition a rotation can ask for (r to r+1 or r+3, mod 4) has a five-kick list in both tables, and that list starts with (0, 0) |
| Catalog.KicksReverseNegated | public/game.js:17-36 | SRS symmetry: the n-th kick of r to r' is the negated n-th kick of r' to r, in both tables |
| Catalog.KickTable | public/game.js:99-100 | the kick list of a transition: I_KICKS for I, JLTSZ_KICKS otherwise, None for a key not in the table; its lists are described by `KickListsStartAtOrigin` and `KicksReverseNegated` |
| Catalog.GarbageFor | public/game.js:38 | `GARBAGE_TABLE[n]`, or 0 outside the table, never sends more lines than were cleared, and sends some only for clears of 2 to 4 lines |
| Rotation.RotateCW | public/game.js:41 | the nested loop builds a fresh square grid of the same size, with cell (y, x) moved to (x, n-1-y) |
| Rotation.RotateCCW | public/game.js:42 | the nested loop builds a fresh square grid of the same size, with cell (y, x) moved to (n-1-x, y) |
| Rotation.RotatedCW | public/game.js:41 | the value `rotateCW` returns, entry (i, j) = m[n-1-j][i], a square grid of the same size; `CCWUndoesCW`, `CWUndoesCCW` and `FourTurnsIdentity` are its properties |
| Rotation.RotatedCCW | public/game.js:42 | the value `rotateCCW` returns, entry (i, j) = m[j][n-1-i], a square grid of the same size; `CCWIsThreeCW` ties it to the clockwise turn |
| Rotation.CCWUndoesCW | game.js:45-56 | rotateCCW(rotateCW(m)) == m for every square grid |
| Rotation.CWUndoesCCW | game.js:45-56 | rotateCW(rotateCCW(m)) == m for every square grid |
| Rotation.FourTurnsIdentity | public/game.js:41 | four clockwise quarter turns give the grid back |
| Rotation.CCWIsThreeCW | public/game.js:41-42 | a counter-clockwise turn equals three clockwise ones |
| Rotation.TurnsStepCW | public/game.js:99 | turning orientation r clockwise gives orientation (r+1) % 4 of the base grid |
| Rotation.TurnsStepCCW | public/game.js:99 | turning orientation r counter-clockwise gives orientation (r+3) % 4 |
| Rotation.RotatedKeepsBlock | public/game.js:41-42 | a grid with a filled cell still has one after a quarter turn either way |
| Board.EmptyBoard | public/game.js:58 | the fresh grid has ROWS rows of COLS cells |
| Board.Fits | public/game.js:84-90 | `_canPlace` as a predicate: every filled cell lies inside the side walls, above the floor and on an empty cell, rows above the grid allowed; `CanPlace` computes it and `FitsAboveFloor`/`FitsEmpty` describe it |
| Board.FitsAboveFloor | public/game.js:87 | a shape with a filled cell fits only when its row is above the floor |
| Board.FitsEmpty | public/game.js:84-90 | on the empty grid a square shape fits wherever it lies inside the walls and above the floor; rows above the grid are allowed |
| Board.SpawnPiece | public/game.js:77-80 | a spawned piece has its kind, orientation 0 and a valid shape |
| Board.SpawnFitsEmpty | public/game.js:75-83 | a fresh piece fits on the empty grid, so a game never starts lost |
| Board.GhostRow | public/game.js:133 | the ghost row g is at or below the piece; every row down to g fits, and row g+1 does not |
| Board.StampKeepsOccupied | public/game.js:107-112 | locking a piece that fits never overwrites an occupied cell |
| Board.StampRowOutside | public/game.js:109-111 | locking leaves every row the piece does not reach unchanged, because only in-grid cells are written |
| Board.Stamp | public/game.js:107-112 | the grid `_lock` writes: every in-grid cell covered by a filled cell of the piece holds the piece's kind, the rest is unchanged, and the grid stays ROWS × COLS |
| Board.FullRowsExact | public/game.js:116 | the full-row list holds exactly the indices of the full rows, in strictly ascending order |
| Board.NoFullRows | public/game.js:116-118 | the full-row list is empty exactly when no row is full |
| Board.FullUpTo | public/game.js:116 | the scan of `_checkLines` up to row q lists only rows below q; `FullRowsExact` states what it lists |
| Board.FullRows | public/game.js:116 | the list `full` built by `_checkLines`; `FullRowsExact`, `NoFullRows` and `ListsFullRowsExactly` are its properties |
| Board.ListsFullRowsExactly | public/game.js:116 | a list is ascending, in range, lists only full rows and lists every full row if and only if it equals the list `_checkLines` builds |
| Board.StampFullRowsBound | public/game.js:107-117 | locking a piece of at most 4 rows into a grid with no full row leaves at most 4 full rows, so SCORE_TABLE is indexed inside its bounds |
| Board.RemoveAll | public/game.js:121 | removing the listed rows one after another, each replaced by an empty row on top, keeps the row count |
| Board.RemoveRow | public/game.js:121 | one `splice(y, 1)` followed by `unshift` of an empty row keeps the row count |
| Board.ClearFullRows | public/game.js:121 | removing the full rows in list order compacts the grid: one empty row per full row on top, then the other rows in their old order |
| Board.ClearedShape | public/game.js:120-121 | after the clear the grid is still ROWS × COLS and no row is full |
| Board.ListedRowsCleared | public/game.js:121 | removing any exact ascending list of the full rows gives the compacted grid |
| Board.GarbageRow | public/game.js:130 | the garbage line has COLS cells, `G` except at the hole; `GarbageRowHole` states it |
| Board.Drain | public/game.js:130 | the `_applyGarbage` loop: n top rows shifted off and n garbage lines pushed at the bottom; `DrainRows` and `DrainedShape` are its properties |
| Board.Drained | public/game.js:127-132 | `_applyGarbage` as a relation: nothing when n ≤ 0, otherwise a drain at some hole column in [0, COLS) |
| Board.ClearedOtherwiseEmpty | public/game.js:121 | clearing a grid whose rows are all empty or full leaves the empty grid |
| Board.DrainRows | public/game.js:130 | n garbage lines push every row up n places, and the bottom rows are garbage lines with the hole |
| Board.DrainStep | public/game.js:130 | one round of the loop shifts off the top row and pushes one more garbage line |
| Board.GarbageRowHole | public/game.js:130 | a garbage line is empty exactly at its hole column, so it is never full |
| Board.DrainedShape | public/game.js:127-132 | garbage keeps the grid ROWS × COLS and adds no full row |
| Board.DropIntervalFor | public/game.js:134 | the drop interval lies in [50, 1000] ms from level 1 on |
| Board.DropIntervalMonotone | public/game.js:134 | the drop interval never grows with the level and is 50 from level 14 on |
| Board.FirstFit | public/game.js:101 | the kick search returns the first kick at which the shape fits: None exactly when no kick fits, otherwise one that fits, with none before it fitting |
| Board.FirstFitIs | public/game.js:101 | the search finds kick i exactly when kick i is the first that fits |
| Board.FirstFitOrigin | public/game.js:101 | with (0, 0) first, an unshifted fit is always taken |
| Board.NextRotationStep | public/game.js:99 | `(rotation+dir+4)%4` is one step round the cycle 0..3 in the direction of dir |
| Board.NextRotation | public/game.js:99 | `(rotation + dir + 4) % 4`; `NextRotationStep` states it is one step round 0..3 |
| Board.Turned | public/game.js:98 | `rotateCW` for dir 1, else `rotateCCW`, a square grid of the same size |
| Board.Kicked | public/game.js:100-102 | the rotated piece keeps its kind, takes the new shape and orientation, and fits; None exactly when no kick fits |
| Board.TryRotate | public/game.js:95-103 | `_rotate` as a function of the grid and the piece: None for O, for a missing key or when no kick fits, otherwise the kicked piece, whose shape is square |
| Board.TryRotateShaped | public/game.js:95-103 | a successful rotation keeps the piece's kind, its orientation invariant and its shape facts, and lands on a placement that fits |
| Board.TryRotateOk | public/game.js:95-103 | a successful rotation of a piece in orientation r is the base grid turned to the new orientation, of the same kind, on a fitting placement |
| Board.RotateInPlace | public/game.js:98-101 | when the turned grid fits unshifted, the rotation takes it without a kick |
| Board.TurnStep | public/game.js:104 | a clockwise turn that fits unshifted moves a piece to its next orientation |
| Board.TurnBackStep | public/game.js:105 | a counter-clockwise turn that fits unshifted moves a piece to its previous orientation |
| Board.FourRotationsReturn | public/game.js:95-104 | when all four orientations fit, four clockwise rotations return the same piece at the same place |
| Board.RotateThereAndBack | public/game.js:95-105 | a clockwise turn and then a counter-clockwise one, each fitting unshifted, restore the piece |
| Bag.PermutationCount | public/game.js:69-70 | each kind occurs exactly once in a shuffled copy of PIECE_TYPES |
| Bag.SwapKeepsMultiset | public/game.js:70 | a swap keeps the multiset of the sequence |
| Bag.RearrangedTypes | public/game.js:69-70 | any rearrangement of PIECE_TYPES is a permutation of the seven kinds |
| Bag.BagsAppend | public/game.js:71 | appending a shuffled copy keeps the sequence a concatenation of bags |
| Bag.BagsPrefix | public/game.js:67-74 | a prefix of length 7k of a bag sequence is a bag sequence |
| Bag.BagsCount | public/game.js:67-74 | in a concatenation of k bags each kind appears exactly k times |
| Bag.FairPrefix | public/game.js:67-74 | any 7k consecutive pulls from the start hold each kind exactly k times |
| Lehmer.JsRem | public/game.js:49 | JavaScript's `%`: the remainder lies in [0, b) for a dividend that is not negative, and in (-b, 0] otherwise |
| Lehmer.InitialState | public/game.js:49 | the constructor's state `seed % 2147483647`, plus 2147483646 when that is ≤ 0; `InitialStateInRange` and `ServerSeedsInRange` describe it |
| Lehmer.NextState | public/game.js:50 | `s * 16807 % 2147483647`; `NextStateInRange` states it stays in range |
| Lehmer.StateAfter | public/game.js:49-50 | the state after n calls of `next()`; `StateAfterInRange` states it stays in range, and `SeededRng.Valid` ties the generator to it |
| Lehmer.ScaleIndex | public/game.js:51 | `nextInt(max)` lies in [0, max) for an in-range state |
| Lehmer.InitialStateInRange | public/game.js:49 | every seed starts the state in [1, 2^31 − 2], except seeds congruent to -(2^31 − 2) |
| Lehmer.ServerSeedsInRange | server.py:102 | every seed the server draws (0 to 999999) starts in range; 0 starts at 2^31 − 2 |
| Lehmer.DegenerateSeed | public/game.js:49-50 | seed -2147483646 would start at 0, a state that `next()` never leaves |
| Lehmer.NextStateInRange | public/game.js:50 | `next()` maps an in-range state to an in-range state |
| Lehmer.StateAfterInRange | public/game.js:49-50 | the state stays in range after any number of calls |
| Lehmer.SeededRng.constructor | public/game.js:49 | the state is the initial state of the seed, and it is in range when the seed allows it |
| Lehmer.SeededRng.Next | public/game.js:50 | the state becomes `s * 16807 % 2147483647`, stays in range, and is the state after one more call, so equal seeds give equal sequences |
| Lehmer.SeededRng.NextInt | public/game.js:51 | advances the state once and returns `((s-1)*max) / 2147483646` in [0, max) |
| Engine.AfterLockReset | public/game.js:106 | a reset acts only while locking and below the cap; it adds exactly 1 to lockResets, zeroes lockTimer, changes nothing else and never passes 15 |
| Engine.LockResetCapped | public/game.js:106 | at 15 resets the lock delay can no longer be postponed |
| Engine.FallingPieceCycles | public/game.js:95-104 | the engine's own falling piece satisfies the orientation invariant, and four clockwise rotations that all fit in place bring it back |
| Engine.Respawned | public/game.js:124 | `_applyGarbage` then `_spawn` as a relation: the pending lines drained, the count zeroed, the preview kind at its spawn position, the lock state cleared, and the game over when it does not fit |
| Engine.LinesChecked | public/game.js:115-119 | `_checkLines` as a relation: with full rows the clear starts on exactly their ascending list; otherwise the count is zeroed and `Respawned` follows |
| Engine.LockedIn | public/game.js:107-114 | `_lock` as a relation: `Stamp` of the falling piece, no current piece, then `LinesChecked` |
| Engine.Gravity | public/game.js:139-144 | gravity changes only the piece's row, the drop timer and the lock state, and moves the piece down by at most one row |
| Engine.GravityKeepsFit | public/game.js:139-144 | a piece gravity moves still fits; once the interval is reached the timer restarts; a locking piece stays locking with its timer |
| Engine.LockDelay | public/game.js:145 | while locking the lock timer runs on by delta; otherwise nothing changes |
| Engine.CreditedCore | public/game.js:120-123 | removing the cleared rows and crediting them keeps the grid ROWS × COLS with no full row, and keeps level == lines / 10 + 1 |
| Engine.Credited | public/game.js:121-123 | the rows removed in list order, `lines += c`, `score += SCORE_TABLE[c] * level` at the old level, `level = lines / 10 + 1`, the list emptied; `CreditedCore` states what it keeps |
| Engine.LinesRemoved | public/game.js:120-125 | `_removeLines` as a relation: `Credited` and then `Respawned` |
| Engine.Updated | public/game.js:135-146 | `update(delta)` as a relation, in the source's branch order: game over, clear under way, no piece, then gravity, lock delay and a lock at 500 ms |
| Dealing.ShuffleFrom | public/game.js:70 | the seeded Fisher–Yates steps from index i down to 1, each swapping a[i] with a[nextInt(i + 1)]; the length is kept and the state stays in range |
| Dealing.ShuffleStep | public/game.js:70 | one round of the loop advances the shuffle: given the next state and the index it draws for i + 1, swapping a[i] with a[j] and shuffling on from i - 1 gives the same result as shuffling from i |
| Dealing.SeededShuffle | public/game.js:69-70 | the bag `_fillBag` appends for a generator state, with the state after it |
| Dealing.ShuffleFromRearranges | public/game.js:70 | the seeded steps only rearrange the sequence, and each makes one draw of the generator |
| Dealing.SeededShufflePermutes | public/game.js:69-71 | a seeded bag is a permutation of the seven kinds, and leaves the generator six draws on; one generator state gives one bag |
| Dealing.Pulled | public/game.js:67-74 | one `_pull` as a relation between deals: the preview kind is appended to the history; a bag of two or more gives up its first kind and keeps the state; a bag of at most one is followed by a fresh permutation of the seven kinds, with a generator the one `SeededShuffle` gives for the state |
| Dealing.TurnDealt | public/game.js:124-132 | the end of a turn: with a generator and garbage pending, `_applyGarbage` draws once and the bottom row is the garbage line with hole `nextInt(COLS)` of the new state; then `_spawn` pulls once |
| Dealing.DealStep | public/game.js:115-146 | a step that ends the turn moves the deal by `TurnDealt`; any other step leaves the bag, the preview, the history and the generator as they were |
| Dealing.DealStepExtends | public/game.js:67-74 | a step only appends to the history, and what was already dealt stays dealt in the same order; a turn's end adds exactly the new preview kind |
| Dealing.PulledExtends | public/game.js:74 | one pull appends the preview kind to the history and keeps what was dealt as a prefix |
| Dealing.TakenFromBag | public/game.js:74 | taking the first kind of a bag of two or more keeps the history followed by the bag unchanged |
| Dealing.RefilledFromSeed | public/game.js:67-74 | after a seeded refill, the preview kind and the bag are the old bag followed by `SeededShuffle` of the state, and the state is the one it leaves |
| Dealing.PulledDeterministic | public/game.js:49-74 | with a generator, a pull is determined: two pulls from the same deal give the same deal |
| Engine.LockEndsTurn | public/game.js:115-118 | the lock leaves no full row, so `_checkLines` ends the turn at once |
| Engine.HardDropped | public/game.js:94 | `hardDrop` before the lock: the piece moves to its ghost row and earns 2 points per row |
| Engine.EndsTurn | public/game.js:135-146 | `update(delta)` ends the turn when a clear runs out, or when a lock at 500 ms leaves no full row |
| Engine.DrainSameHole | public/game.js:130 | two drains of the same grid with equal bottom rows used the same hole column |
| Engine.RespawnDeterministic | public/game.js:124-132 | with a generator, the end of a turn is determined by the state and the deal: the grid with its hole, the new piece and the new deal |
| Engine.LockDeterministic | public/game.js:107-119 | with a generator, a lock is determined by the state and the deal |
| Engine.UpdateDeterministic | public/game.js:135-146 | with a generator, `update(delta)` is determined: two runs from the same state and deal end in the same state and the same deal |
| Engine.TetrisEngine.CurrentDeal | public/game.js:60 | the engine's bag, preview kind, history and generator state as one `Deal` |
| Engine.TetrisEngine.PullDealt | public/game.js:74 | the ensures of `Pull` restated as `Pulled` of the deal before and after |
| Engine.TetrisEngine.RandomIndex | game.js:59 | a random index lies in [0, max); with a generator it is `nextInt(max)` and advances the state once |
| Engine.TetrisEngine.SwapDown | public/game.js:70 | one round of the loop: the array stays a rearrangement, and with a generator the rest of the shuffle from the new array and state is the rest of the shuffle from the old ones one round earlier |
| Engine.TetrisEngine.ShuffleArray | public/game.js:70 | the loop runs rounds n down to 1 in place: the array stays a rearrangement, and with a generator the new array and state are `ShuffleFrom` of the old ones |
| Engine.TetrisEngine.ShuffledTypes | public/game.js:69-70 | the Fisher–Yates shuffle of a fresh copy of PIECE_TYPES returns a permutation of the seven kinds; with a generator, the permutation and the new generator state are `SeededShuffle` of the old state |
| Engine.TetrisEngine.FillBag | public/game.js:67-73 | with at most one kind left a shuffled copy is appended, with a generator the one `SeededShuffle` gives; otherwise the bag and the generator are unchanged |
| Engine.TetrisEngine.Pull | public/game.js:74 | the first kind of the refilled bag is taken out and recorded as pulled; the bag is never left empty; with a generator a refill is `SeededShuffle` of its state, and without a refill the generator is untouched |
| Engine.TetrisEngine.CanPlace | public/game.js:84-90 | returns exactly `Fits`: false when a filled cell leaves the side walls, reaches row ≥ ROWS, or hits an occupied in-grid cell; rows < 0 allowed; nothing changes |
| Engine.TetrisEngine.Spawn | public/game.js:75-83 | the preview kind enters at its spawn position with the lock state cleared, the next kind becomes the preview by `Pulled`, and the game is over exactly when the piece does not fit |
| Engine.TetrisEngine.Reset | public/game.js:57-66 | `NewGame`: empty grid, zeroed counters and timers, level 1, the game running, the first two pulls as the piece and the preview; the kinds dealt are one permutation of the seven, with a generator `SeededShuffle` of its old state, which it also leaves; and the invariant holds |
| Engine.TetrisEngine.PullFirst | public/game.js:60-65 | the emptied bag is refilled and the preview kind pulled: the history holds the preview, six kinds are left, and together they are one permutation, with a generator `SeededShuffle` of the old state |
| Engine.TetrisEngine.ResetLock | public/game.js:106 | the state becomes `AfterLockReset` of the old state |
| Engine.TetrisEngine.MoveLeft | game.js:128-136 | moves one column left exactly when a piece is falling and fits there, then applies the lock reset; otherwise nothing changes |
| Engine.TetrisEngine.MoveRight | game.js:137-145 | moves one column right exactly when a piece is falling and fits there, then applies the lock reset; otherwise nothing changes |
| Engine.TetrisEngine.MoveDown | game.js:146-156 | on success the piece moves down one row and the drop timer resets; on failure locking starts with timer 0 unless it is already running |
| Engine.TetrisEngine.GhostY | public/game.js:133 | 0 with no piece, otherwise the ghost row of the falling piece |
| Engine.TetrisEngine.RestingRow | public/game.js:133 | the while loop stops at the ghost row |
| Engine.TetrisEngine.Rotate | public/game.js:95-103 | rotates exactly when a piece is falling and `TryRotate` finds a kick; shape, orientation and position are taken together and the lock reset follows; otherwise nothing changes |
| Engine.TetrisEngine.Turn | public/game.js:97-100 | O gives None; otherwise the turned grid goes through the transition's kick list |
| Engine.TetrisEngine.TryKicks | public/game.js:101-102 | the loop returns the piece at the first kick that fits, or None |
| Engine.TetrisEngine.RotateClockwise | public/game.js:104 | `_rotate(1)` |
| Engine.TetrisEngine.RotateCounterClockwise | public/game.js:105 | `_rotate(-1)` |
| Engine.TetrisEngine.StampPiece | game.js:201-209 | the nested write loop yields `Stamp`: every in-grid filled cell of the piece gets its kind |
| Engine.TetrisEngine.RowFull | public/game.js:116 | true exactly when no cell of the row is empty |
| Engine.TetrisEngine.ApplyGarbage | public/game.js:127-132 | with n > 0 pending, the grid is drained n lines at one hole column; with a generator the hole is the next `nextInt(COLS)`; the pending count becomes 0; nothing else changes |
| Engine.TetrisEngine.FullRowList | public/game.js:116 | the scan lists exactly the full rows in ascending order; the list is empty exactly when no row is full |
| Engine.TetrisEngine.EndTurn | public/game.js:118 | garbage comes in and the preview kind spawns, as the relation `Respawned`; the deal moves on by `TurnDealt`, with a generator the hole being the next `nextInt(COLS)` |
| Engine.TetrisEngine.StartClear | game.js:219-222 | the listed rows start clearing: clear timer set to the animation length, count of lines recorded, no spawn |
| Engine.TetrisEngine.NoClear | game.js:223-226 | with no full row the count of lines is zeroed, then garbage and a spawn follow; the deal moves on by `TurnDealt` |
| Engine.TetrisEngine.CheckLines | game.js:214-228 | `LinesChecked`: with full rows the clear starts with exactly their ascending list and count, and the deal is unchanged; otherwise count 0, garbage and a spawn, and the deal moves on by `TurnDealt` |
| Engine.TetrisEngine.Lock | game.js:199-212 | `LockedIn`: the piece is written into the grid, `current` becomes empty and the lines are checked; the deal moves on by `DealStep`; the invariant is kept |
| Engine.TetrisEngine.HardDrop | game.js:157-166 | with a falling piece: it moves to the ghost row, earns 2 points per row, and locks, the deal moving on by `DealStep`; otherwise nothing changes, the deal included |
| Engine.TetrisEngine.DropAndLock | game.js:157-166 | the piece is dropped and locked: `LockedIn` of `HardDropped`, with the deal moving on by `DealStep` |
| Engine.TetrisEngine.DropPiece | game.js:158-164 | the piece moves to its resting row with 2 points per row, as `HardDropped` |
| Engine.TetrisEngine.RemoveLines | game.js:230-242 | `LinesRemoved`: the listed rows come out in order, `lines += c`, `score += SCORE_TABLE[c] * level`, `level = lines / 10 + 1`, the list is emptied, then garbage and a spawn, with the deal moving on by `TurnDealt` |
| Engine.TetrisEngine.RemoveRows | game.js:231-234 | the splice loop removes the listed rows in order, each replaced by an empty row on top |
| Engine.TetrisEngine.AddGarbage | game.js:244 | only the pending count changes, by n; the invariant is kept when it held |
| Engine.TetrisEngine.MarkSent | game.js:508 | only `linesClearedThisTurn` changes, to 0; the invariant is kept when it held and no clear is under way |
| Engine.TetrisEngine.Update | game.js:271-297 | `Updated`: nothing when game over; while clearing, only the timer runs and the rows come out once it is ≤ 0, with no fall or lock; otherwise gravity, then the lock delay, then a lock at 500 ms; the deal moves on by `DealStep` exactly when `EndsTurn` |
| Engine.TetrisEngine.ClearTick | game.js:274-278 | the clear timer drops by delta, and the removal follows exactly when it reaches 0 or below, which is also when the deal moves on |
| Engine.TetrisEngine.Fall | game.js:281-296 | gravity, then the lock delay, then a lock once the lock timer reaches 500; the deal moves on by `DealStep` exactly when `EndsTurn` |
| Engine.TetrisEngine.ApplyGravity | game.js:281-290 | the state becomes `Gravity` of the old state |
| Engine.TetrisEngine.constructor | public/game.js:56 | the engine keeps its generator and animation length, and starts as `NewGame`; the kinds dealt are one permutation of the seven, with a generator `SeededShuffle` of its old state |
| Versus.Send | game.js:505-509 | a finished clear sends GARBAGE_TABLE[n] to the opponent's pending count and is marked as sent; otherwise nothing changes |
| Versus.Exchange | game.js:505-514 | the two halves of the rule, player 1's first; `ExchangeSends`, `ExchangeSymmetric` and `ExchangeOnce` are its properties |
| Versus.ExchangeSends | game.js:505-514 | after both checks each player has received exactly what the other owed, no finished clear is left unsent, and nothing else changes |
| Versus.ExchangeSymmetric | game.js:505-514 | the order of the two checks does not matter |
| Versus.ExchangeOnce | game.js:505-514 | a clear is sent once: checking again sends nothing and changes nothing |
| Versus.ExchangeSettled | game.js:505-514 | the exchange keeps both engines' state invariant |
| Versus.ClearFinished | game.js:271-278 | from a state with nothing owed, a frame leaves a finished clear exactly when a clear was under way and its timer ran out in that frame; the count is the number of rows cleared |
| Versus.Match.constructor | game.js:449-451 | two distinct fresh engines of the local build, both valid and each a `NewGame` whose kinds dealt are one permutation of the seven, with nothing owed |
| Versus.Match.Start | game.js:476-477 | both engines are reset: each is a `NewGame`, running, with its first piece and preview drawn from one permutation of the seven kinds, and the match is valid |
| Versus.Match.SendGarbage | game.js:505-509 | one half of the rule, with `addGarbage` on the opponent only when the amount is positive: the two engines end in `Send` of their old states |
| Versus.Match.ExchangeGarbage | game.js:505-514 | both halves, player 1's first: the engines end in `Exchange` of their old states, both still valid, with no finished clear left unsent |
| Versus.Match.Step | game.js:492-520 | both engines update by delta, each with its deal moving on by `DealStep`, then the garbage is exchanged; the winner is 2 when player 1 is out, else 1 when player 2 is out, else 0 |

## Left out

- Rendering, colours, DOM and screens: `Renderer`, `OppRenderer`, `lighten`/`darken`, `App`, and the UI part of `Game`.
- Keyboard, touch and auto-repeat input.
- The WebSocket transport and messages, and `server.py` as a whole. The seed range the server draws from is used only in `Lehmer.ServerSeedsInRange`.
- Floating point:
  - `SeededRNG.next()` returns `(s-1)/2147483646`, and `nextInt` floors its product with `max`. This is modelled as the integer quotient `((s-1)*max) / 2147483646`, which is an idealisation of the float arithmetic.
  - The state update itself is exact: `s * 16807` stays below 2^53.
  - Frame `delta`s, which are floats from `performance.now`, are natural-number milliseconds.
- `Math.random` in `shuffleArray` and in the garbage hole of the local build is not modelled as randomness. It is any index in range (`RandomIndex` with `rng == null`).
- The fields of one engine are one record, `st`, that each method replaces.
  - In the source, `current.x`, `current.y`, `current.shape` and `current.rotation` are written in place. The model replaces the piece record. No other object shares the piece, so nothing is lost.
  - The grid loops (`_lock`, `_removeLines` and the garbage loop) build the new grid in a local sequence, which is then assigned. In the source they update `board` row by row.
- `nextType` is `null` until the first pull in `reset`. The model uses `I` as a placeholder, which the first pull overwrites.
- The kick tables are keyed by the pair (from, to) instead of the string `"from>to"`. Orientations are the integers 0 to 3, so the two keys name the same entries.
- `Valid()` is a precondition of the player actions and of `update`, and every method keeps it. The source has no such requirement, but every state its methods can reach satisfies it.
- `Game._loop` also saves `prev1`/`prev2`, which it never uses, calls `_endGame`, rendering and the UI, and schedules itself with `requestAnimationFrame`. `Match.Step` models only the engine updates, the garbage rule and the winner choice.
- `Versus.Match.Step`: the result is stated with two intermediate states, the engines after `update`. Their properties come from `Updated` and `Versus.ClearFinished`, not from `Step`'s own ensures.
