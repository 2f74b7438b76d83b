/**
 * The moving-object capability and the closed set of command kinds that
 * the command layer executes.
 */
module Interfaces {
  import opened Dto

  /**
   * A participant of the simulation: a readable and writable location and a
   * readable velocity. The grid and the command layer refer to it by
   * identity, never by value.
   */
  class MovingObj {
    var location: Point
    var velocity: Velocity

    constructor (location: Point, velocity: Velocity)
      ensures this.location == location && this.velocity == velocity
    {
      this.location := location;
      this.velocity := velocity;
    }
  }

  /**
   * The commands a macro can hold: a move step of one object, or a
   * collision check of an ordered pair of objects.
   */
  datatype Command =
    | Move(obj: MovingObj)
    | CheckCollision(first: MovingObj, second: MovingObj)
}
