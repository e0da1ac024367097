/** Values the simulation engine works with: numbers that may be NaN,
    the scalar / vector / multi-state shapes of position, velocity and
    force, the frozen state record, and the error outcomes of the engine. */
module Values {

  datatype Option<T> = None | Some(value: T) {
    function GetOr(default: T): T {
      match this
      case Some(v) => v
      case None => default
    }
  }

  /** A floating-point number of the engine: a real value, or NaN, which the
      engine uses for "undefined" (an energy that cannot be computed, a
      working field not yet initialised). */
  datatype Num = Val(v: real) | NaN

  /** A position, velocity or force: a bare number (one dimension, one
      state), a zero-dimensional array holding one number (which has no
      length and cannot be iterated, although it counts as an iterable), a
      list of numbers (one vector, or one number per state), or a list of
      vectors (one vector per state). */
  datatype Quantity =
    | Scalar(x: Num)
    | Unsized(x: Num)
    | Vec(xs: seq<Num>)
    | Multi(rows: seq<seq<Num>>)

  /** True for a list with exactly one item. */
  predicate OneItem(q: Quantity) {
    (q.Vec? && |q.xs| == 1) || (q.Multi? && |q.rows| == 1)
  }

  /** True for a list every item of which is a number. The empty list of
      vectors is the empty list, so it qualifies too. */
  predicate IsNumberList(q: Quantity) {
    q.Vec? || (q.Multi? && q.rows == [])
  }

  /** The numbers of a number list. */
  function Items(q: Quantity): seq<Num>
    requires IsNumberList(q)
  {
    if q.Vec? then q.xs else []
  }

  /** The immutable snapshot of the observable quantities, with its fields in
      the order the record declares them. */
  datatype State = State(
    position: Quantity,
    temperature: Num,
    totEnergy: Num,
    totPotEnergy: Num,
    totKinEnergy: Num,
    dhdpos: Quantity,
    velocity: Quantity)

  /** The record every field of which is NaN, which a new system holds before
      anything is frozen. */
  const Undefined := State(Scalar(NaN), NaN, NaN, NaN, NaN, Scalar(NaN), Scalar(NaN))

  /** The exceptions the engine raises. */
  datatype Error =
    | DimensionUnresolved    // IOError: no usable dimensionality
    | PositionNotUnderstood  // the initial position is neither a number nor an iterable
    | LengthOnePosition      // a one-item iterable position reaches the defective collapse branch
    | UnsizedPosition        // a zero-dimensional array position has no length and cannot be iterated
    | ZeroSaveStride         // the save stride is 0, so `step % 0` divides by zero
    | TrailingAppend         // the closing append of a run hands the record itself to the table, which refuses it
    | UndefinedName          // set_velocities reads a name that does not exist
    | MissingColumn          // revertStep looks up a table column that does not exist

  datatype Result<T> = Success(value: T) | Failure(error: Error)

  datatype Outcome = Pass | Fail(error: Error)
}
