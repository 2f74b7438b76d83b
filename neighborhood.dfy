/**
 * The neighbourhood-update command: per object, it keeps the object's grid
 * registration in step with its location and, only when the cell changes,
 * rebuilds the object's bundle of collision checks in the shared map.
 */
module Neighborhood {
  import opened Wrappers
  import opened Dto
  import opened Interfaces
  import opened Field
  import opened MacroCommands

  /** The multiset of second objects of the checks in `cmds`. */
  function Partners(cmds: seq<Command>): multiset<MovingObj>
  {
    if cmds == [] then multiset{}
    else
      var last := cmds[|cmds| - 1];
      Partners(cmds[..|cmds| - 1]) + (if last.CheckCollision? then multiset{last.second} else multiset{})
  }

  /** Every command of `cmds` is a check whose first object is `obj`. */
  ghost predicate ChecksFrom(cmds: seq<Command>, obj: MovingObj)
  {
    forall i :: 0 <= i < |cmds| ==> cmds[i].CheckCollision? && cmds[i].first == obj
  }

  /** `m` checks `obj` against every other object of `occupants` exactly once, and nothing else. */
  ghost predicate IsCollisionMacro(m: Macro, obj: MovingObj, occupants: set<MovingObj>)
  {
    ChecksFrom(m.commands, obj) && Partners(m.commands) == multiset(occupants - {obj})
  }

  /** The second object of every check in `cmds` is counted by Partners. */
  lemma {:induction false} PartnersHas(cmds: seq<Command>, i: nat)
    requires i < |cmds| && cmds[i].CheckCollision?
    ensures cmds[i].second in Partners(cmds)
  {
    if i < |cmds| - 1 {
      PartnersHas(cmds[..|cmds| - 1], i);
    }
  }

  /** A list made only of checks has as many partners as commands. */
  lemma {:induction false} PartnersSize(cmds: seq<Command>, obj: MovingObj)
    requires ChecksFrom(cmds, obj)
    ensures |Partners(cmds)| == |cmds|
  {
    if cmds != [] {
      PartnersSize(cmds[..|cmds| - 1], obj);
    }
  }

  /** A rebuilt bundle never pairs the object with itself. */
  lemma NoSelfPairing(m: Macro, obj: MovingObj, occupants: set<MovingObj>)
    requires IsCollisionMacro(m, obj, occupants)
    ensures forall i :: 0 <= i < |m.commands| ==>
      m.commands[i] == CheckCollision(obj, m.commands[i].second) && m.commands[i].second != obj
  {
    forall i | 0 <= i < |m.commands|
      ensures m.commands[i].second != obj
    {
      PartnersHas(m.commands, i);
    }
  }

  /** A rebuilt bundle holds exactly one check per other occupant. */
  lemma CollisionMacroSize(m: Macro, obj: MovingObj, occupants: set<MovingObj>)
    requires IsCollisionMacro(m, obj, occupants)
    ensures |m.commands| == |occupants - {obj}|
    ensures forall o :: o in occupants && o != obj ==> Partners(m.commands)[o] == 1
  {
    PartnersSize(m.commands, obj);
  }

  /** Builds the bundle of checks of `obj` against each other object of `occupants`, in any order. */
  method BuildCollisionMacro(obj: MovingObj, occupants: set<MovingObj>) returns (m: Macro)
    ensures IsCollisionMacro(m, obj, occupants)
  {
    var commands: seq<Command> := [];
    var rest := occupants;
    while rest != {}
      invariant rest <= occupants
      invariant ChecksFrom(commands, obj)
      invariant Partners(commands) + multiset(rest - {obj}) == multiset(occupants - {obj})
      decreases rest
    {
      var other :| other in rest;
      if other != obj {
        assert (commands + [CheckCollision(obj, other)])[..|commands|] == commands;
        commands := commands + [CheckCollision(obj, other)];
      }
      rest := rest - {other};
    }
    m := Macro(commands);
  }

  /** The shared map from object to its current bundle of collision checks. */
  class CollisionMacros {
    var entries: map<MovingObj, Macro>
    /** How many times each object's entry has been written: a rebuilt entry is a new bundle. */
    ghost var writes: map<MovingObj, nat>

    constructor ()
      ensures entries == map[] && writes == map[]
    {
      entries := map[];
      writes := map[];
    }
  }

  /** The number of writes recorded for `o`. */
  function WriteCount(writes: map<MovingObj, nat>, o: MovingObj): nat
  {
    if o in writes then writes[o] else 0
  }

  /** The bucket map after taking `o` out of the remembered cell, if one is remembered. */
  function Vacate(cells: Cells, at: Option<CellKey>, o: MovingObj): Cells
  {
    match at
    case None => cells
    case Some(c) => WithoutObj(cells, c, o)
  }

  /** `o` is registered in exactly the cell `at`, or in none when `at` is unset. */
  ghost predicate Registered(cells: Cells, o: MovingObj, at: Option<CellKey>)
  {
    forall d :: o in Bucket(cells, d) <==> at == Some(d)
  }

  /** Vacating the remembered cell and registering in a new one leaves `o` in exactly the new one. */
  lemma MigrationRegisters(cells: Cells, o: MovingObj, from: Option<CellKey>, to: CellKey)
    requires Registered(cells, o, from)
    ensures Registered(WithObj(Vacate(cells, from, o), to, o), o, Some(to))
  {
  }

  /** The per-object update process, bound to one object, the shared grid and the shared map. */
  class UpdateNeighborhood {
    const obj: MovingObj
    const field: GameField
    const macros: CollisionMacros
    /** The cell the object was last confirmed to occupy; unset before the first update. */
    var currentCell: Option<CellKey>

    constructor (obj: MovingObj, field: GameField, macros: CollisionMacros)
      ensures this.obj == obj && this.field == field && this.macros == macros
      ensures currentCell == None
    {
      this.obj := obj;
      this.field := field;
      this.macros := macros;
      currentCell := None;
    }

    /**
     * One update. When the object's cell is the remembered one nothing
     * changes; otherwise the object moves from the remembered bucket into
     * the new one and its bundle is rebuilt from the new cell's occupants.
     */
    method Execute()
      requires field.Valid()
      modifies this`currentCell, field`cells, macros`entries, macros`writes
      ensures field.Valid()
      ensures currentCell == Some(field.GetCell(obj.location))
      ensures old(currentCell) == currentCell ==>
        field.cells == old(field.cells) &&
        macros.entries == old(macros.entries) && macros.writes == old(macros.writes)
      ensures old(currentCell) != currentCell ==>
        field.cells == WithObj(Vacate(old(field.cells), old(currentCell), obj), currentCell.value, obj) &&
        obj in field.GetObjectsInCell(currentCell.value) &&
        obj in macros.entries &&
        macros.entries == old(macros.entries)[obj := macros.entries[obj]] &&
        IsCollisionMacro(macros.entries[obj], obj, field.GetObjectsInCell(currentCell.value)) &&
        macros.writes == old(macros.writes)[obj := WriteCount(old(macros.writes), obj) + 1]
      ensures Registered(old(field.cells), obj, old(currentCell)) ==> Registered(field.cells, obj, currentCell)
    {
      var newCell := field.GetCell(obj.location);
      if currentCell == Some(newCell) {
        return;
      }
      if currentCell.Some? {
        field.RemoveObj(obj, currentCell.value);
      }
      var added := field.AddObj(obj);
      assert added == newCell;
      var macro := BuildCollisionMacro(obj, field.GetObjectsInCell(newCell));
      macros.entries := macros.entries[obj := macro];
      macros.writes := macros.writes[obj := WriteCount(macros.writes, obj) + 1];
      if Registered(old(field.cells), obj, old(currentCell)) {
        MigrationRegisters(old(field.cells), obj, old(currentCell), newCell);
      }
      currentCell := Some(newCell);
    }
  }
}
