# Broad-phase collision bookkeeping on a uniform grid — a Dafny model

This project models the core of a small simulation's broad phase. Objects move across a
plane. A uniform grid (`GameField`) maps each integer cell key to the set of objects
registered in that cell. A per-object neighbourhood-update command keeps that registration
in step with the object's location. Only when the object's cell changes does the command
rebuild the object's bundle of collision checks (a macro command) in a shared map. The
bundle checks the object against every other occupant of its new cell. Around this sits a
small command layer: a move step, a collision check handed to an external narrow-phase
handler, and a macro that runs commands in order and stops at the first failure.

Modules follow the source files:

- `Dto` (`dto.dfy`): `Point`, `Velocity`, `CellKey`, the move step `MoveTo`, and `Advance`
  for repeated steps.
- `Interfaces` (`interfaces.dfy`): the moving-object capability as the class `MovingObj`.
  The closed list of command kinds is the datatype `Command`.
- `Field` (`field.dfy`): the `GameField` class, whose `cells` map is updated in place. The
  pure functions `Bucket`, `WithObj` and `WithoutObj` specify its reads and updates, and
  `NoEmptyBuckets` is its invariant.
- `Commands` (`commands.dfy`): the move and collision-check commands, plus
  `CollisionHandler`, the boundary to the narrow-phase handler. The handler records every
  pair it is called on and raises on a fixed set of pairs.
- `MacroCommands` (`macro_commands.dfy`): the `Macro` bundle and its sequential execution.
  The executor is specified by `FirstFailure`, `Invoked` (the handler trace) and `MovesOf`.
- `Neighborhood` (`neighborhood.dfy`): `UpdateNeighborhoodCommand` from `commands.py`, with
  the shared bundle map `CollisionMacros`. It is a separate module because
  `MacroCommands.ExecuteMacro` runs each command through `Commands.ExecuteCommand`, so
  `Commands` cannot also import `MacroCommands` for the bundle type: Dafny modules cannot
  import each other.
- `Scenarios` (`scenarios.dfy`): the situations of the repository's tests, proved from the
  contracts alone.

Design choices:

- Coordinates, velocities, offsets and the cell size are integers.
- `FloorDiv` is Python's `//` for either sign of the divisor. Dafny's own `/` is Euclidean
  and differs from `//` when the divisor is negative.
- The source compares macro objects by identity (`is not`). The model instead keeps a ghost
  write counter per key in `CollisionMacros`: an entry that was rebuilt has a higher count.

## Model

| member | source | states |
|---|---|---|
| `Dto.MoveTo` | dto.py:10-11 | the new point is displaced from the old one by exactly the velocity; the old point is a value and is unchanged |
| `Dto.MoveToZero` | dto.py:10-11 | moving at zero velocity returns an equal point |
| `Dto.MoveToCompose` | dto.py:10-11 | a step by v1 then a step by v2 equals one step by the component-wise sum |
| `Dto.MoveToExample` | dto.py:10-11 | (12, 5) moved by (-7, 3) is (5, 8) |
| `Dto.AdvanceClosedForm` | commands.py:13-14 | n move steps at a fixed velocity displace the point by n times the velocity |
| `Dto.AdvanceAdditive` | commands.py:13-14 | m steps followed by n steps equal m + n steps |
| `Field.FloorDiv` | field.py:15-16 | the result q is the floor of a / b: b*q <= a < b*q + b for b > 0, with the inequalities mirrored for b < 0 |
| `Field.FloorDivUnique` | field.py:15-16 | exactly one integer satisfies the floor inequalities, so floor division is determined by them |
| `Field.GameField.GetCell` | field.py:14-17 | each shifted coordinate lies in the interval of the returned row or column; reads no mutable state |
| `Field.GetCellIff` | field.py:14-17 | a point maps to cell c if and only if both shifted coordinates lie in c's intervals |
| `Field.SameCellIff` | field.py:14-17 | two points share a cell if and only if the second lies in the square of the first |
| `Field.GameField.constructor` | field.py:7-12 | the grid starts with no buckets and with the given cell size and offsets |
| `Field.WithObj` | field.py:24-27 | registering adds the object to the cell's bucket and creates the bucket if it is absent; other cells are untouched; the no-empty-bucket invariant is kept |
| `Field.GameField.AddObj` | field.py:19-29 | returns the cell of the object's location and updates the bucket map exactly as WithObj describes |
| `Field.WithObjPresent` | field.py:24-27 | adding an object already in the cell leaves the map unchanged (set semantics) |
| `Field.WithoutObj` | field.py:31-38 | removing takes only that object out of that cell and leaves other cells untouched; an emptied bucket is deleted, so the invariant is kept |
| `Field.GameField.RemoveObj` | field.py:31-38 | updates the bucket map exactly as WithoutObj describes |
| `Field.WithoutObjAbsent` | field.py:34-35 | removing from an absent cell, or an object not in the cell, changes nothing |
| `Field.WithoutObjIdempotent` | field.py:31-38 | removing twice equals removing once, for every bucket map |
| `Field.AddRemoveRoundTrip` | field.py:19-38 | adding an absent object and then removing it from the same cell restores the bucket map |
| `Field.GameField.GetObjectsInCell` | field.py:40-42 | returns the cell's bucket when the cell has one and the empty set otherwise; it never fails and changes nothing |
| `Field.BucketEmptyIffAbsent` | field.py:40-42 | under the invariant, a cell reads as the empty set exactly when it has no bucket; reading never fails |
| `Commands.CollisionHandler.Check` | commands.py:22-23 | the handler is called once, with the pair in the order given; it raises exactly on its failing pairs |
| `Commands.ExecuteMove` | commands.py:13-14 | the location becomes the old location moved by the velocity; nothing else, the velocity included, is written |
| `Commands.ExecuteCheck` | commands.py:17-23 | the stored pair is handed to the handler exactly once, in stored order; the command fails exactly when the handler raises |
| `Commands.ExecuteCommand` | macro_commands.py:9-10 | running one command of either kind has that command's effect and fails only for a check the handler raises on |
| `MacroCommands.FirstFailure` | macro_commands.py:8-10 | the stop index: every command before it succeeds, and the command at it (if any) fails |
| `MacroCommands.InvokedConcat` | macro_commands.py:8-10 | the handler trace of two lists run back to back is the concatenation of their traces |
| `MacroCommands.MovesOfConcat` | macro_commands.py:8-10 | the move steps of two lists run back to back add up |
| `MacroCommands.InvokedLength` | macro_commands.py:8-10 | a list of checks calls the handler once per command; a list of moves never calls it |
| `MacroCommands.ExecuteMacro` | macro_commands.py:8-10 | commands run in list order up to and including the first failing one; success iff none fails; the handler trace and every moved object's location reflect exactly the commands that ran; velocities and the list are unchanged |
| `Neighborhood.BuildCollisionMacro` | commands.py:51-57 | the bundle consists only of checks from the object, one per other occupant of the cell (as a multiset) |
| `Neighborhood.NoSelfPairing` | commands.py:53-55 | no check in a rebuilt bundle pairs the object with itself |
| `Neighborhood.CollisionMacroSize` | commands.py:51-57 | a rebuilt bundle has as many checks as there are other occupants, each paired exactly once |
| `Neighborhood.MigrationRegisters` | commands.py:46-49 | if the object was registered exactly in its remembered cell, after vacating it and adding to the new cell it is registered exactly in the new cell |
| `Neighborhood.UpdateNeighborhood.constructor` | commands.py:29-38 | a new update command is bound to its object, grid and shared map, with no remembered cell |
| `Neighborhood.UpdateNeighborhood.Execute` | commands.py:40-61 | afterwards the remembered cell is the object's current cell. If it already was, the grid, the bundle map and its write counts are unchanged. Otherwise the object leaves the old bucket and joins the new one, only its own entry is written (a fresh bundle of checks against the new cell's other occupants), and the entry's write count goes up by one. Registration in exactly one cell is preserved |
| `Scenarios.MoveScenario` | tests/test_commands.py:15-28 | an object at (12, 5) with velocity (-7, 3) is at (5, 8) after one move |
| `Scenarios.MacroScenario` | tests/test_commands.py:56-68 | every command of a bundle runs once, in order |
| `Scenarios.FailingMacroScenario` | macro_commands.py:9-10 | when a check raises, the command after it does not run and the bundle fails |
| `Scenarios.EmptyMacroScenario` | tests/test_commands.py:70-74 | an empty bundle runs without failure and without effect |
| `Scenarios.FieldScenario` | tests/test_commands.py:79-108 | an added object is found in its cell; after removal it is not, and the emptied cell, like a never-used one, reads as empty |
| `Scenarios.TwoObjectScenario` | tests/test_commands.py:131-148 | with A updated before B in the same cell, A's bundle holds no check and B's holds one |
| `Scenarios.MigrationScenario` | tests/test_commands.py:150-169 | after moving from (1, 1) to (50, 50) the object has left cell (0, 0), is in cell (5, 5), and its bundle entry was written once by the first update and rewritten by the second (write count 1, then 2) |
| `Scenarios.LazyRebuildScenario` | commands.py:41-44 | a second update without movement leaves the grid and the bundle map unchanged, and the entry's write count stays at 1 |

## Left out

- Floating-point coordinates, velocities, offsets and cell size are modelled as integers, so rounding and the `int(...)` conversion of a float quotient do not arise.
- Field.GameField.constructor requires a non-zero cell size. With size zero, the source builds the grid and then raises `ZeroDivisionError` on the first `get_cell`; that error path is not modelled.
- `utils.check_collision` is not part of this model. Its only modelled effects are that it records the pair it was called with and raises on a fixed set of pairs (`CollisionHandler.failing`). A handler whose failures depend on anything else is not captured.
- Capability errors are not modelled: the `TypeError` or `AttributeError` of an object lacking a location, a velocity or a location setter. Every `MovingObj` has all three, so a move and a neighbourhood update never fail.
- A macro holds only move and collision-check commands. The source accepts any command, including update commands or nested macros.
- The order in which a bucket is iterated is not modelled. `BuildCollisionMacro` may pick occupants in any order, and its contract speaks of the multiset of partners, not of their sequence.
- Macro object identity is represented by the ghost write counter `CollisionMacros.writes`, not by heap identity.
- `get_objects_in_cell` returns the live bucket set in the source. The model returns a value, so aliasing between that result and the grid is not captured.
- Neighborhood.UpdateNeighborhood.Execute: the model only guarantees that the object ends up in exactly one cell if it was registered exactly in its remembered cell before the update. A caller that bypasses the command and edits the grid directly can leave the object in other cells too, as in the source.
