/**
 * The command bundle: an ordered list of commands run one after another,
 * stopping at the first command that fails.
 */
module MacroCommands {
  import opened Dto
  import opened Interfaces
  import opened Commands

  /** A bundle of commands; a value, so running it never changes its list. */
  datatype Macro = Macro(commands: seq<Command>)

  /** The objects that some command of `cmds` moves. */
  function Movers(cmds: seq<Command>): set<MovingObj>
  {
    set i | 0 <= i < |cmds| && cmds[i].Move? :: cmds[i].obj
  }

  /** The number of move steps of `o` in `cmds`. */
  function MovesOf(o: MovingObj, cmds: seq<Command>): nat
  {
    if cmds == [] then 0
    else MovesOf(o, cmds[..|cmds| - 1]) + (if cmds[|cmds| - 1] == Move(o) then 1 else 0)
  }

  /** The pairs that the checks in `cmds` hand to the handler, in list order. */
  function Invoked(cmds: seq<Command>): seq<Pair>
  {
    if cmds == [] then []
    else
      var last := cmds[|cmds| - 1];
      Invoked(cmds[..|cmds| - 1]) + (if last.CheckCollision? then [(last.first, last.second)] else [])
  }

  /** The index of the first failing command, or the length when none fails. */
  function FirstFailure(cmds: seq<Command>, failing: set<Pair>): (k: nat)
    ensures k <= |cmds|
    ensures forall i :: 0 <= i < k ==> !Fails(cmds[i], failing)
    ensures k < |cmds| ==> Fails(cmds[k], failing)
  {
    if cmds == [] then 0
    else if Fails(cmds[0], failing) then 0
    else 1 + FirstFailure(cmds[1..], failing)
  }

  /** The number of commands started: those before the first failure, plus the failing one. */
  function Started(cmds: seq<Command>, failing: set<Pair>): nat
  {
    var k := FirstFailure(cmds, failing);
    if k < |cmds| then k + 1 else k
  }

  /** The handler trace of two lists run back to back is the concatenation of their traces. */
  lemma {:induction false} InvokedConcat(a: seq<Command>, b: seq<Command>)
    ensures Invoked(a + b) == Invoked(a) + Invoked(b)
  {
    if b != [] {
      var b' := b[..|b| - 1];
      assert (a + b)[..|a + b| - 1] == a + b';
      InvokedConcat(a, b');
    } else {
      assert a + b == a;
    }
  }

  /** The move count of two lists run back to back is the sum of their counts. */
  lemma {:induction false} MovesOfConcat(o: MovingObj, a: seq<Command>, b: seq<Command>)
    ensures MovesOf(o, a + b) == MovesOf(o, a) + MovesOf(o, b)
  {
    if b != [] {
      var b' := b[..|b| - 1];
      assert (a + b)[..|a + b| - 1] == a + b';
      MovesOfConcat(o, a, b');
    } else {
      assert a + b == a;
    }
  }

  /** A list with no check hands nothing to the handler; a list of checks hands one pair per command. */
  lemma {:induction false} InvokedLength(cmds: seq<Command>)
    ensures |Invoked(cmds)| <= |cmds|
    ensures (forall i :: 0 <= i < |cmds| ==> cmds[i].CheckCollision?) ==> |Invoked(cmds)| == |cmds|
    ensures (forall i :: 0 <= i < |cmds| ==> cmds[i].Move?) ==> Invoked(cmds) == []
  {
    if cmds != [] {
      InvokedLength(cmds[..|cmds| - 1]);
    }
  }

  /** Extending a prefix by one command extends its trace and move counts by that command's. */
  lemma PrefixStep(cmds: seq<Command>, i: nat)
    requires i < |cmds|
    ensures Invoked(cmds[..i + 1]) ==
      Invoked(cmds[..i]) + (if cmds[i].CheckCollision? then [(cmds[i].first, cmds[i].second)] else [])
    ensures forall o :: MovesOf(o, cmds[..i + 1]) == MovesOf(o, cmds[..i]) + (if cmds[i] == Move(o) then 1 else 0)
  {
    assert cmds[..i + 1][..i] == cmds[..i];
  }

  /**
   * Runs every command of `m` in list order. On success every command ran
   * once; on failure the commands after the failing check did not run.
   */
  method ExecuteMacro(m: Macro, handler: CollisionHandler) returns (ok: bool)
    modifies Movers(m.commands), handler`calls
    ensures ok <==> FirstFailure(m.commands, handler.failing) == |m.commands|
    ensures handler.calls == old(handler.calls) + Invoked(m.commands[..Started(m.commands, handler.failing)])
    ensures forall o :: o in Movers(m.commands) ==>
      o.velocity == old(o.velocity) &&
      o.location == Advance(old(o.location), o.velocity, MovesOf(o, m.commands[..FirstFailure(m.commands, handler.failing)]))
  {
    var cmds := m.commands;
    ghost var k := FirstFailure(cmds, handler.failing);
    var i := 0;
    while i < |cmds|
      invariant 0 <= i <= k
      invariant handler.calls == old(handler.calls) + Invoked(cmds[..i])
      invariant forall o :: o in Movers(cmds) ==>
        o.velocity == old(o.velocity) &&
        o.location == Advance(old(o.location), o.velocity, MovesOf(o, cmds[..i]))
    {
      var c := cmds[i];
      PrefixStep(cmds, i);
      label Before:
      ok := ExecuteCommand(c, handler);
      if !ok {
        assert i == k;
        return;
      }
      forall o | o in Movers(cmds)
        ensures o.velocity == old(o.velocity)
        ensures o.location == Advance(old(o.location), o.velocity, MovesOf(o, cmds[..i + 1]))
      {
        if c == Move(o) {
          assert o.location == MoveTo(old@Before(o.location), o.velocity);
        } else {
          assert o.location == old@Before(o.location);
        }
      }
      i := i + 1;
    }
    assert cmds[..i] == cmds;
    ok := true;
  }
}
