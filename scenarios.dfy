/**
 * Client scenarios: the concrete situations of the repository's tests,
 * proved from the contracts of the grid, the commands and the update
 * process alone.
 */
module Scenarios {
  import opened Wrappers
  import opened Dto
  import opened Interfaces
  import opened Field
  import opened Commands
  import opened MacroCommands
  import opened Neighborhood

  /** An object at (12, 5) with velocity (-7, 3) is at (5, 8) after one move. */
  method MoveScenario() returns (before: Point, after: Point)
    ensures before == Point(12, 5) && after == Point(5, 8)
  {
    var o := new MovingObj(Point(12, 5), Velocity(-7, 3));
    before := o.location;
    ExecuteMove(o);
    after := o.location;
  }

  /** The trace and move counts of the bundle used below, for every prefix that can run. */
  lemma MacroScenarioTrace(o: MovingObj, a: MovingObj, b: MovingObj)
    ensures var cmds := [Move(o), CheckCollision(a, b), Move(o)];
      Invoked(cmds[..2]) == [(a, b)] && Invoked(cmds[..3]) == [(a, b)] &&
      MovesOf(o, cmds[..1]) == 1 && MovesOf(o, cmds[..3]) == 2
  {
    var cmds := [Move(o), CheckCollision(a, b), Move(o)];
    assert cmds[..3][..2] == cmds[..2];
    assert cmds[..2][..1] == cmds[..1];
    assert cmds[..1][..0] == [];
    assert Invoked(cmds[..1]) == [];
    assert Invoked(cmds[..2]) == [(a, b)];
  }

  /** Where the bundle used below stops, for a handler that accepts or raises on the check. */
  lemma MacroScenarioStop(o: MovingObj, a: MovingObj, b: MovingObj, failing: set<Pair>)
    ensures var cmds := [Move(o), CheckCollision(a, b), Move(o)];
      FirstFailure(cmds, failing) == if (a, b) in failing then 1 else 3
  {
    var cmds := [Move(o), CheckCollision(a, b), Move(o)];
    assert cmds[1..] == [CheckCollision(a, b), Move(o)];
    assert cmds[1..][1..] == [Move(o)];
    assert cmds[1..][1..][1..] == [];
  }

  /** A move, a check and a second move all run, in order, when the handler accepts the pair. */
  method MacroScenario() returns (ok: bool, calls: int, after: Point)
    ensures ok && calls == 1 && after == Point(2, 0)
  {
    var o := new MovingObj(Point(0, 0), Velocity(1, 0));
    var a := new MovingObj(Point(0, 0), Velocity(0, 0));
    var b := new MovingObj(Point(0, 0), Velocity(0, 0));
    var handler := new CollisionHandler({});
    var cmds := [Move(o), CheckCollision(a, b), Move(o)];
    assert cmds[0] == Move(o);
    MacroScenarioStop(o, a, b, handler.failing);
    MacroScenarioTrace(o, a, b);
    ok := ExecuteMacro(Macro(cmds), handler);
    calls := |handler.calls|;
    after := o.location;
  }

  /** When the handler raises on the check, the move after it does not run. */
  method FailingMacroScenario() returns (ok: bool, calls: int, after: Point)
    ensures !ok && calls == 1 && after == Point(0, 0)
  {
    var o := new MovingObj(Point(0, 0), Velocity(1, 0));
    var a := new MovingObj(Point(0, 0), Velocity(0, 0));
    var b := new MovingObj(Point(0, 0), Velocity(0, 0));
    var handler := new CollisionHandler({(a, b)});
    var cmds := [CheckCollision(a, b), Move(o)];
    assert Fails(cmds[0], handler.failing);
    assert cmds[..1] == [CheckCollision(a, b)] && cmds[..0] == [];
    assert Invoked(cmds[..1]) == [(a, b)];
    ok := ExecuteMacro(Macro(cmds), handler);
    calls := |handler.calls|;
    after := o.location;
  }

  /** An empty bundle runs without failure and without effect. */
  method EmptyMacroScenario() returns (ok: bool, calls: int)
    ensures ok && calls == 0
  {
    var handler := new CollisionHandler({});
    assert Invoked([][..0]) == [];
    ok := ExecuteMacro(Macro([]), handler);
    calls := |handler.calls|;
  }

  /**
   * Cell size 10: A at (1, 1) is updated, then B at (2, 2) in the same
   * cell. A's bundle, built while it was alone, is empty; B's checks A.
   */
  method TwoObjectScenario() returns (aChecks: int, bChecks: int)
    ensures aChecks == 0 && bChecks == 1
  {
    var field := new GameField(10, 0, 0);
    var macros := new CollisionMacros();
    var a := new MovingObj(Point(1, 1), Velocity(0, 0));
    var b := new MovingObj(Point(2, 2), Velocity(0, 0));
    var updateA := new UpdateNeighborhood(a, field, macros);
    var updateB := new UpdateNeighborhood(b, field, macros);
    assert field.GetCell(a.location) == (0, 0) == field.GetCell(b.location);

    updateA.Execute();
    assert field.GetObjectsInCell((0, 0)) == {a};
    CollisionMacroSize(macros.entries[a], a, {a});
    ghost var bundleA := macros.entries[a];

    updateB.Execute();
    assert field.GetObjectsInCell((0, 0)) == {a, b};
    assert {a, b} - {b} == {a};
    CollisionMacroSize(macros.entries[b], b, {a, b});
    bChecks := |macros.entries[b].commands|;
    assert macros.entries[a] == bundleA;
    aChecks := |macros.entries[a].commands|;
  }

  /**
   * Cell size 10: an object at (1, 1) is updated, moved to (50, 50) and
   * updated again. It leaves cell (0, 0), enters cell (5, 5), and its
   * bundle entry is written a second time.
   */
  method MigrationScenario() returns (first: CellKey, second: CellKey, inFirst: bool, inSecond: bool,
                                     ghost writesFirst: nat, ghost writesSecond: nat)
    ensures first == (0, 0) && second == (5, 5)
    ensures !inFirst && inSecond
    ensures writesFirst == 1 && writesSecond == 2
  {
    var field := new GameField(10, 0, 0);
    var macros := new CollisionMacros();
    var o := new MovingObj(Point(1, 1), Velocity(0, 0));
    var update := new UpdateNeighborhood(o, field, macros);

    update.Execute();
    first := update.currentCell.value;
    assert first == (0, 0);
    assert Registered(field.cells, o, update.currentCell);
    writesFirst := macros.writes[o];

    o.location := Point(50, 50);
    assert field.GetCell(o.location) == (5, 5);
    update.Execute();
    second := update.currentCell.value;
    writesSecond := macros.writes[o];
    inFirst := o in field.GetObjectsInCell(first);
    inSecond := o in field.GetObjectsInCell(second);
  }

  /**
   * Updating twice without moving: the second update leaves the grid, the
   * bundle map and its write count as the first left them.
   */
  method LazyRebuildScenario() returns (sameCells: bool, sameBundles: bool,
                                       ghost writesBefore: nat, ghost writesAfter: nat)
    ensures sameCells && sameBundles
    ensures writesBefore == writesAfter == 1
  {
    var field := new GameField(10, 0, 0);
    var macros := new CollisionMacros();
    var o := new MovingObj(Point(3, 4), Velocity(0, 0));
    var update := new UpdateNeighborhood(o, field, macros);

    update.Execute();
    var cells := field.cells;
    var bundles := macros.entries;
    writesBefore := macros.writes[o];

    update.Execute();
    writesAfter := macros.writes[o];
    sameCells := field.cells == cells;
    sameBundles := macros.entries == bundles;
  }

  /**
   * Cell size 10: an object at (12, 7) is added to cell (1, 0) and found
   * there; once removed it is gone and the cell reads as empty, like a cell
   * that never held anything.
   */
  method FieldScenario() returns (cell: CellKey, foundAfterAdd: bool, foundAfterRemove: bool, emptyAfterRemove: bool, emptyElsewhere: bool)
    ensures cell == (1, 0)
    ensures foundAfterAdd && !foundAfterRemove && emptyAfterRemove && emptyElsewhere
  {
    var field := new GameField(10, 0, 0);
    var o := new MovingObj(Point(12, 7), Velocity(0, 0));
    cell := field.AddObj(o);
    foundAfterAdd := o in field.GetObjectsInCell(field.GetCell(o.location));
    field.RemoveObj(o, cell);
    foundAfterRemove := o in field.GetObjectsInCell(cell);
    emptyAfterRemove := field.GetObjectsInCell(cell) == {};
    emptyElsewhere := field.GetObjectsInCell((100, 100)) == {};
  }
}
