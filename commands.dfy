/**
 * Single commands: the move step and the collision check, plus the
 * boundary to the narrow-phase collision handler, which lies outside this
 * model and is represented by the calls it receives.
 */
module Commands {
  import opened Dto
  import opened Interfaces

  /** An ordered pair of objects handed to the narrow-phase handler. */
  type Pair = (MovingObj, MovingObj)

  /**
   * The external narrow-phase handler, seen only at its boundary: it
   * records every pair it is invoked on, in order, and fails (raises) on
   * the pairs in `failing`.
   */
  class CollisionHandler {
    const failing: set<Pair>
    var calls: seq<Pair>

    constructor (failing: set<Pair>)
      ensures this.failing == failing && calls == []
    {
      this.failing := failing;
      calls := [];
    }

    /** One invocation of the handler on `(a, b)`; `ok` is false when it raises. */
    method Check(a: MovingObj, b: MovingObj) returns (ok: bool)
      modifies this`calls
      ensures calls == old(calls) + [(a, b)]
      ensures ok <==> (a, b) !in failing
    {
      calls := calls + [(a, b)];
      ok := (a, b) !in failing;
    }
  }

  /** A command fails exactly when it is a check of a pair the handler raises on. */
  predicate Fails(c: Command, failing: set<Pair>)
  {
    c.CheckCollision? && (c.first, c.second) in failing
  }

  /** The move step: the location becomes the old location moved by the velocity. */
  method ExecuteMove(obj: MovingObj)
    modifies obj`location
    ensures obj.location == MoveTo(old(obj.location), obj.velocity)
  {
    obj.location := MoveTo(obj.location, obj.velocity);
  }

  /** The collision check: hands the stored pair, in stored order, to the handler once. */
  method ExecuteCheck(first: MovingObj, second: MovingObj, handler: CollisionHandler) returns (ok: bool)
    modifies handler`calls
    ensures handler.calls == old(handler.calls) + [(first, second)]
    ensures ok <==> !Fails(CheckCollision(first, second), handler.failing)
  {
    ok := handler.Check(first, second);
  }

  /** The objects a command may move. */
  function MovedBy(c: Command): set<MovingObj>
  {
    if c.Move? then {c.obj} else {}
  }

  /** Runs one command of either kind. */
  method ExecuteCommand(c: Command, handler: CollisionHandler) returns (ok: bool)
    modifies MovedBy(c), handler`calls
    ensures ok <==> !Fails(c, handler.failing)
    ensures c.Move? ==> handler.calls == old(handler.calls)
    ensures c.Move? ==> c.obj.location == MoveTo(old(c.obj.location), old(c.obj.velocity))
    ensures c.Move? ==> c.obj.velocity == old(c.obj.velocity)
    ensures c.CheckCollision? ==> handler.calls == old(handler.calls) + [(c.first, c.second)]
  {
    match c
    case Move(obj) =>
      ExecuteMove(obj);
      ok := true;
    case CheckCollision(first, second) =>
      ok := ExecuteCheck(first, second, handler);
  }
}
