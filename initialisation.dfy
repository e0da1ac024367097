/** The construction-time policy of the engine: how the dimensionality is
    resolved, which shapes the initial position and velocity take, where
    randomly drawn coordinates lie, and how a condition's step size is set
    when it is coupled. Random draws are inputs: `uniform(s, d)` is the
    uniform sample in [0, 1) for state s and dimension d, `normal(s, d)` the
    already scaled Gaussian velocity sample. */
module Initialisation {
  import opened Values

  /** The `position` argument of the constructor: absent, a number or an
      iterable, or a value of any other type. */
  datatype PositionArg = NoPosition | Given(q: Quantity) | Unrecognised

  /** True when the argument is an iterable whose every item is a number. */
  predicate IsNumberListArg(position: PositionArg) {
    position.Given? && IsNumberList(position.q)
  }

  /** The dimensionality of the system: the length of a list of numbers given
      as position when the potential leaves it unspecified (below 1), else
      the potential's own when it is positive; an error otherwise. Checking
      the items of a zero-dimensional array position already fails. */
  function ResolveDim(potentialNDim: int, position: PositionArg): (r: Result<nat>)
    ensures potentialNDim > 0 ==> r == Success(potentialNDim)
    ensures potentialNDim < 1 && IsNumberListArg(position) ==>
      r == Success(|Items(position.q)|)
    ensures r.Failure? <==> potentialNDim < 1 && !IsNumberListArg(position)
    ensures r.Failure? ==>
      r.error == if position.Given? && position.q.Unsized? then UnsizedPosition else DimensionUnresolved
  {
    if potentialNDim < 1 && position.Given? && position.q.Unsized? then Failure(UnsizedPosition)
    else if potentialNDim < 1 && IsNumberListArg(position) then Success(|Items(position.q)|)
    else if potentialNDim > 0 then Success(potentialNDim)
    else Failure(DimensionUnresolved)
  }

  /** The potential's dimensionality once the constructor has resolved the
      system's: overwritten by the length of the given list in the first
      case, left alone otherwise. */
  function PotentialDimAfter(potentialNDim: int, position: PositionArg): int {
    if potentialNDim < 1 && IsNumberListArg(position) then |Items(position.q)| else potentialNDim
  }

  /** Whenever construction gets past the dimensionality check, the system
      and its potential agree on the dimensionality, and it is positive
      unless an empty list was given as position. */
  lemma ResolvedDimAgreesWithPotential(potentialNDim: int, position: PositionArg)
    requires ResolveDim(potentialNDim, position).Success?
    ensures ResolveDim(potentialNDim, position).value == PotentialDimAfter(potentialNDim, position)
    ensures ResolveDim(potentialNDim, position).value == 0 <==>
      potentialNDim < 1 && (position == Given(Vec([])) || position == Given(Multi([])))
  {
  }

  ghost predicate UniformOk(uniform: (nat, nat) -> real) {
    forall s, d :: 0.0 <= uniform(s, d) < 1.0
  }

  predicate InRange(x: Num) {
    x.Val? && -10.0 <= x.v < 10.0
  }

  /** Every coordinate of the quantity is a number in [-10, 10). */
  predicate InBox(q: Quantity) {
    match q
    case Scalar(x) => InRange(x)
    case Unsized(x) => InRange(x)
    case Vec(xs) => forall i :: 0 <= i < |xs| ==> InRange(xs[i])
    case Multi(rows) => forall i, j :: 0 <= i < |rows| && 0 <= j < |rows[i]| ==> InRange(rows[i][j])
  }

  /** The shape of a randomly placed position: one vector per state when
      there are several states; otherwise a single vector, a
      zero-dimensional array in one dimension (squeezing a one-by-one array
      leaves no axis of length 1 to collapse), and an empty list when the
      state count is below 1. */
  predicate PositionShape(q: Quantity, nDim: nat, nStates: int) {
    if nStates > 1 then
      q.Multi? && |q.rows| == nStates && forall i :: 0 <= i < nStates ==> |q.rows[i]| == nDim
    else if nStates == 1 then
      if nDim == 1 then q.Unsized? else q.Vec? && |q.xs| == nDim
    else
      q == Vec([])
  }

  /** The coordinates of state s: each draw u scaled to 20 u - 10. */
  function Scaled(nDim: nat, s: nat, uniform: (nat, nat) -> real): seq<Num> {
    seq(nDim, d requires 0 <= d => Val(20.0 * uniform(s, d) - 10.0))
  }

  /** A random position, drawn uniformly coordinate by coordinate. */
  function RandomPos(nDim: nat, nStates: int, uniform: (nat, nat) -> real): (r: Quantity)
    requires UniformOk(uniform)
    ensures PositionShape(r, nDim, nStates)
    ensures InBox(r)
  {
    if nStates > 1 then
      Multi(seq(nStates, s requires 0 <= s => Scaled(nDim, s, uniform)))
    else if nStates == 1 && nDim == 1 then
      Unsized(Val(20.0 * uniform(0, 0) - 10.0))
    else if nStates == 1 then
      Vec(Scaled(nDim, 0, uniform))
    else
      Vec([])
  }

  /** The initial position: a random one when none is given, the given
      number or iterable as it is, and an error for a zero-dimensional array
      (which has no length), for a one-item list (whose collapse branch
      fails) or for a value of any other type. */
  function InitPositionValue(position: PositionArg, nDim: nat, nStates: int,
                             uniform: (nat, nat) -> real): (r: Result<Quantity>)
    requires position.NoPosition? ==> UniformOk(uniform)
    ensures r.Failure? <==>
      position.Unrecognised? || (position.Given? && (position.q.Unsized? || OneItem(position.q)))
    ensures position.Given? && position.q.Unsized? ==> r == Failure(UnsizedPosition)
    ensures position.Given? && OneItem(position.q) ==> r == Failure(LengthOnePosition)
    ensures r.Success? && position.Given? ==> r.value == position.q
    ensures position.NoPosition? ==>
      r.Success? && PositionShape(r.value, nDim, nStates) && InBox(r.value)
    ensures position.Unrecognised? ==> r == Failure(PositionNotUnderstood)
  {
    match position
    case NoPosition => Success(RandomPos(nDim, nStates, uniform))
    case Given(q) =>
      if q.Unsized? then Failure(UnsizedPosition)
      else if OneItem(q) then Failure(LengthOnePosition)
      else Success(q)
    case Unrecognised => Failure(PositionNotUnderstood)
  }

  /** A randomly placed position cannot be given back as the initial
      position exactly when the system has one dimension and one state: then
      it is a zero-dimensional array, which has no length. */
  lemma RandomPositionReuse(nDim: nat, nStates: int, uniform: (nat, nat) -> real)
    requires UniformOk(uniform)
    ensures InitPositionValue(Given(RandomPos(nDim, nStates, uniform)), nDim, nStates, uniform).Failure?
      <==> nDim == 1 && nStates == 1
    ensures nDim == 1 && nStates == 1 ==>
      InitPositionValue(Given(RandomPos(nDim, nStates, uniform)), nDim, nStates, uniform) == Failure(UnsizedPosition)
  {
  }

  /** The shape of freshly drawn velocities: a states-by-dimensions nested
      list, one number per state, one number per dimension, or a bare
      number, according to whether there are several states and several
      dimensions. */
  predicate VelocityShape(q: Quantity, nDim: nat, nStates: int) {
    if nStates > 1 && nDim > 1 then
      q.Multi? && |q.rows| == nStates && forall i :: 0 <= i < nStates ==> |q.rows[i]| == nDim
    else if nStates > 1 then
      q.Vec? && |q.xs| == nStates
    else if nDim > 1 then
      q.Vec? && |q.xs| == nDim
    else
      q.Scalar?
  }

  /** No component of the quantity is NaN. */
  predicate NoNaN(q: Quantity) {
    match q
    case Scalar(x) => x.Val?
    case Unsized(x) => x.Val?
    case Vec(xs) => forall i :: 0 <= i < |xs| ==> xs[i].Val?
    case Multi(rows) => forall i, j :: 0 <= i < |rows| && 0 <= j < |rows[i]| ==> rows[i][j].Val?
  }

  /** Velocities drawn component by component from the Gaussian samples. */
  function RandomVel(nDim: nat, nStates: int, normal: (nat, nat) -> real): (r: Quantity)
    ensures VelocityShape(r, nDim, nStates)
    ensures NoNaN(r)
  {
    if nStates > 1 && nDim > 1 then
      Multi(seq(nStates, s requires 0 <= s => seq(nDim, d requires 0 <= d => Val(normal(s, d)))))
    else if nStates > 1 then
      Vec(seq(nStates, s requires 0 <= s => Val(normal(s, 0))))
    else if nDim > 1 then
      Vec(seq(nDim, d requires 0 <= d => Val(normal(0, d))))
    else
      Scalar(Val(normal(0, 0)))
  }

  /** One coupling of a condition: it takes the integrator's step size only
      when it has none and the integrator has one; otherwise its step size
      becomes 1, even when it already had one. */
  function CoupleDt(dt: Option<real>, integratorDt: Option<real>): Option<real> {
    if dt.None? && integratorDt.Some? then integratorDt else Some(1.0)
  }

  /** The step size of a condition after it has been coupled n times. */
  function CoupleDtTimes(dt: Option<real>, integratorDt: Option<real>, n: nat): Option<real> {
    if n == 0 then dt else CoupleDt(CoupleDtTimes(dt, integratorDt, n - 1), integratorDt)
  }

  /** A condition listed once ends with the integrator's step size exactly
      when it had none and the integrator has one; a condition listed more
      than once always ends with step size 1. */
  lemma {:induction false} CouplingOutcome(dt: Option<real>, integratorDt: Option<real>, n: nat)
    requires n >= 1
    ensures CoupleDtTimes(dt, integratorDt, n) ==
      if n == 1 && dt.None? && integratorDt.Some? then integratorDt else Some(1.0)
    ensures CoupleDtTimes(dt, integratorDt, n).Some?
  {
    if n > 1 {
      CouplingOutcome(dt, integratorDt, n - 1);
    }
  }
}
