/** The single-entity simulation engine: a system that owns the working
    physical state (position, velocities, force, temperature and the three
    energies), freezes it into state records, and keeps the trajectory of
    those records while it steps under an integrator, a potential and a
    list of conditions. */
module BasicSystem {
  import opened Values
  import opened Energetics
  import opened Initialisation
  import opened Stepping

  /** A potential as the engine uses it. Its dimensionality is a field
      because construction may overwrite it; `gradient` is None where the
      potential cannot give one (its call raises). */
  class Potential {
    var nDim: int
    const nStates: Option<int>
    const statesCoupled: Option<bool>
    const ene: Quantity -> real
    const gradient: Quantity -> Option<Quantity>

    constructor (nDim: int, nStates: Option<int>, statesCoupled: Option<bool>,
                 ene: Quantity -> real, gradient: Quantity -> Option<Quantity>)
      ensures this.nDim == nDim && this.nStates == nStates && this.statesCoupled == statesCoupled
      ensures this.ene == ene && this.gradient == gradient
    {
      this.nDim := nDim;
      this.nStates := nStates;
      this.statesCoupled := statesCoupled;
      this.ene := ene;
      this.gradient := gradient;
    }
  }

  /** An integrator: whether it needs velocities (the Newtonian kind), its
      step size if it has one, and its step, a function of what it reads of
      the system. */
  datatype Integrator = Integrator(newtonian: bool, dt: Option<real>, step: SystemView -> Triple)

  /** A condition (restraint, constraint, thermostat): the system it is
      coupled to, its step size if it has one, and its reaction, which
      gives the new working state from what it reads of the system. */
  class Condition {
    var system: System?
    var dt: Option<real>
    const apply: SystemView -> State

    constructor (dt: Option<real>, apply: SystemView -> State)
      ensures system == null && this.dt == dt && this.apply == apply
    {
      system := null;
      this.dt := dt;
      this.apply := apply;
    }
  }

  /** The number of states of a potential: its own, or 1 when it declares none. */
  function StateCount(p: Potential): int {
    p.nStates.GetOr(1)
  }

  /** Builds a system, or fails as the constructor does: when no
      dimensionality can be resolved (the potential is left untouched) or
      when the position is not understood (after the potential's
      dimensionality has been overwritten). */
  method Create(potential: Potential, integrator: Integrator, conditions: seq<Condition>,
                temperature: real, position: PositionArg, mass: real, verbose: bool,
                uniform: (nat, nat) -> real, normal: (nat, nat) -> real)
    returns (r: Result<System>)
    requires position.NoPosition? ==> UniformOk(uniform)
    modifies potential`nDim, set c | c in conditions
    ensures ResolveDim(old(potential.nDim), position).Failure? ==>
      r == Failure(ResolveDim(old(potential.nDim), position).error) && potential.nDim == old(potential.nDim)
    ensures ResolveDim(old(potential.nDim), position).Success? ==>
      potential.nDim == PotentialDimAfter(old(potential.nDim), position)
    ensures r.Failure? ==> forall c :: c in conditions ==> c.system == old(c.system) && c.dt == old(c.dt)
    ensures ResolveDim(old(potential.nDim), position).Success? ==>
      var dim := ResolveDim(old(potential.nDim), position).value;
      var start := InitPositionValue(position, dim, StateCount(potential), uniform);
      && (start.Failure? ==> r == Failure(start.error))
      && (start.Success? ==>
            && r.Success? && fresh(r.value)
            && r.value.potential == potential && r.value.integrator == integrator
            && r.value.conditions == conditions
            && r.value.nDim == dim && r.value.nStates == StateCount(potential)
            && r.value.temperature == temperature && r.value.mass == mass
            && r.value.verbose == verbose && r.value.nParticles == 1
            && r.value.statesCoupled ==
                 (if potential.nStates.Some? then Some(potential.statesCoupled.GetOr(true)) else None)
            && r.value.initialPosition == start.value
            && r.value.trajectory == []
            && (!integrator.newtonian ==>
                  && r.value.Working() == State(start.value, NaN, NaN, NaN, NaN, Scalar(NaN), Scalar(NaN))
                  && r.value.currentState == Undefined)
            && (integrator.newtonian ==>
                  && r.value.Working() ==
                       Redrawn(r.value.Dyn(), State(start.value, NaN, NaN, NaN, NaN, Scalar(NaN), Scalar(NaN)), normal)
                  && r.value.currentState == r.value.Working())
            && r.value.Coupled()
            && forall c :: c in conditions ==>
                 c.system == r.value && c.dt == CoupleDtTimes(old(c.dt), integrator.dt, multiset(conditions)[c]))
  {
    var dim := ResolveDim(potential.nDim, position);
    if dim.Failure? {
      return Failure(dim.error);
    }
    if potential.nDim < 1 {
      potential.nDim := dim.value;
    }
    var start := InitPositionValue(position, dim.value, StateCount(potential), uniform);
    if start.Failure? {
      return Failure(start.error);
    }
    var s := new System(potential, integrator, conditions, temperature, mass, verbose,
                        dim.value, start.value, normal);
    r := Success(s);
  }

  /** The working state once fresh velocities are drawn: the drawn
      velocities, the system's temperature as working temperature, and the
      energies recomputed for them. */
  function Redrawn(d: Dynamics, w: State, normal: (nat, nat) -> real): State {
    Energise(d, w.(velocity := RandomVel(d.nDim, d.nStates, normal), temperature := Val(d.temperature)))
  }

  /** The working state when a run's step loop starts: with `initSystem`,
      fresh velocities, the system's temperature and the initial position
      put back; the energies recomputed in every case. */
  function RunStart(d: Dynamics, w: State, initialPosition: Quantity, initSystem: bool,
                    normal: (nat, nat) -> real): State
  {
    if initSystem then
      Energise(d, w.(velocity := RandomVel(d.nDim, d.nStates, normal), temperature := Val(d.temperature),
                     position := initialPosition))
    else Energise(d, w)
  }

  /** The record a run freezes before its loop. It is taken before the
      energies are recomputed, so with `initSystem` it carries the energies
      of the drawn velocities at the position the run started from. */
  function RunStartRecord(d: Dynamics, w: State, initialPosition: Quantity, initSystem: bool,
                          normal: (nat, nat) -> real): State
  {
    if initSystem then Redrawn(d, w, normal).(position := initialPosition) else w
  }

  class System {
    const potential: Potential
    const integrator: Integrator
    const conditions: seq<Condition>

    var temperature: real
    const mass: real
    const nParticles: nat
    const nDim: nat
    const nStates: int
    const statesCoupled: Option<bool>
    const verbose: bool

    var initialPosition: Quantity
    var currentState: State
    var trajectory: seq<State>

    // the working state
    var currentPosition: Quantity
    var currentVelocities: Quantity
    var currentForce: Quantity
    var currentTemperature: Num
    var currentTotE: Num
    var currentTotPot: Num
    var currentTotKin: Num

    /** The working state as a record, in the field order of the record. */
    function Working(): State
      reads this`currentPosition, this`currentVelocities, this`currentForce,
            this`currentTemperature, this`currentTotE, this`currentTotPot, this`currentTotKin
    {
      State(currentPosition, currentTemperature, currentTotE, currentTotPot, currentTotKin,
            currentForce, currentVelocities)
    }

    /** The reactions of the conditions, in registration order. */
    function Reactions(): seq<SystemView -> State> {
      seq(|conditions|, i requires 0 <= i < |conditions| => conditions[i].apply)
    }

    /** Every condition is coupled to this system, so that the reaction it
        applies is applied to this system. */
    predicate Coupled()
      reads set c | c in conditions
    {
      forall c :: c in conditions ==> c.system == this
    }

    /** What a step depends on besides the working state and the record. */
    function Dyn(): Dynamics
      reads this`initialPosition, this`temperature
    {
      Dynamics(initialPosition, mass, temperature, nDim, nStates, potential.ene, integrator.step, Reactions())
    }

    /** What the integrator and the conditions read of the system. */
    function CurrentView(): SystemView
      reads this`initialPosition, this`temperature, this`currentState, this`currentPosition, this`currentVelocities, this`currentForce,
            this`currentTemperature, this`currentTotE, this`currentTotPot, this`currentTotKin
    {
      View(Dyn(), Working(), currentState)
    }

    constructor (potential: Potential, integrator: Integrator, conditions: seq<Condition>,
                 temperature: real, mass: real, verbose: bool, nDim: nat, start: Quantity,
                 normal: (nat, nat) -> real)
      modifies set c | c in conditions
      ensures this.potential == potential && this.integrator == integrator
      ensures this.conditions == conditions && this.verbose == verbose
      ensures this.temperature == temperature && this.mass == mass && nParticles == 1
      ensures this.nDim == nDim && nStates == StateCount(potential)
      ensures statesCoupled == if potential.nStates.Some? then Some(potential.statesCoupled.GetOr(true)) else None
      ensures initialPosition == start && trajectory == []
      ensures !integrator.newtonian ==>
        && Working() == State(start, NaN, NaN, NaN, NaN, Scalar(NaN), Scalar(NaN))
        && currentState == Undefined
      ensures integrator.newtonian ==>
        && Working() == Redrawn(Dyn(), State(start, NaN, NaN, NaN, NaN, Scalar(NaN), Scalar(NaN)), normal)
        && currentState == Working()
      ensures Coupled()
      ensures forall c :: c in conditions ==>
        c.system == this && c.dt == CoupleDtTimes(old(c.dt), integrator.dt, multiset(conditions)[c])
    {
      this.potential := potential;
      this.integrator := integrator;
      this.conditions := conditions;
      this.temperature := temperature;
      this.mass := mass;
      nParticles := 1;
      this.nDim := nDim;
      nStates := StateCount(potential);
      statesCoupled := if potential.nStates.Some? then Some(potential.statesCoupled.GetOr(true)) else None;
      this.verbose := verbose;
      initialPosition := start;
      currentState := Undefined;
      trajectory := [];
      currentPosition := start;
      currentVelocities := Scalar(NaN);
      currentForce := Scalar(NaN);
      currentTemperature := NaN;
      currentTotE := NaN;
      currentTotPot := NaN;
      currentTotKin := NaN;
      new;
      if integrator.newtonian {
        InitVelocities(normal);
      }
      CoupleConditions();
    }

    /** Couples every condition to this system, in order, and sets its step size. */
    method CoupleConditions()
      modifies set c | c in conditions
      ensures forall c :: c in conditions ==>
        c.system == this && c.dt == CoupleDtTimes(old(c.dt), integrator.dt, multiset(conditions)[c])
    {
      var i := 0;
      while i < |conditions|
        invariant 0 <= i <= |conditions|
        invariant forall c :: c in conditions ==>
          c.dt == CoupleDtTimes(old(c.dt), integrator.dt, multiset(conditions[..i])[c])
        invariant forall c :: c in conditions[..i] ==> c.system == this
      {
        var c := conditions[i];
        c.system := this;
        c.dt := CoupleDt(c.dt, integrator.dt);
        assert conditions[..i + 1] == conditions[..i] + [c];
        i := i + 1;
      }
      assert conditions[..i] == conditions;
    }

    /** Sets the initial and the working position from the argument, or
        fails without changing anything. */
    method InitPosition(position: PositionArg, uniform: (nat, nat) -> real) returns (o: Outcome)
      requires position.NoPosition? ==> UniformOk(uniform)
      modifies this`initialPosition, this`currentPosition
      ensures var v := InitPositionValue(position, nDim, nStates, uniform);
        && (v.Success? ==> o == Pass && initialPosition == v.value && currentPosition == v.value)
        && (v.Failure? ==> o == Fail(v.error) && initialPosition == old(initialPosition)
                                               && currentPosition == old(currentPosition))
    {
      var v := InitPositionValue(position, nDim, nStates, uniform);
      if v.Failure? {
        return Fail(v.error);
      }
      initialPosition := v.value;
      currentPosition := initialPosition;
      o := Pass;
    }

    /** Draws new velocities, resets the working temperature to the system's
        temperature, recomputes the energies and freezes the working state. */
    method InitVelocities(normal: (nat, nat) -> real)
      modifies this`currentPosition, this`currentVelocities, this`currentForce, this`currentTemperature,
               this`currentTotE, this`currentTotPot, this`currentTotKin, this`currentState
      ensures Working() == Redrawn(Dyn(), old(Working()), normal)
      ensures currentState == Working()
    {
      currentVelocities := RandomVel(nDim, nStates, normal);
      UpdateEne();
      SetCurrentState(currentPosition, currentVelocities, currentForce, Val(temperature));
    }

    /** The thermostat hook: leaves the working temperature as it is. */
    method UpdateTemp()
      modifies this`currentTemperature
      ensures currentTemperature == old(currentTemperature)
    {
      currentTemperature := currentTemperature;
    }

    /** Recomputes the potential, kinetic and total energies of the working state. */
    method UpdateEne()
      modifies this`currentTotE, this`currentTotPot, this`currentTotKin
      ensures Working() == Energise(Dyn(), old(Working()))
    {
      currentTotPot := Val(potential.ene(currentPosition));
      currentTotKin := TotKin(nDim, mass, currentVelocities);
      currentTotE := if currentTotKin.NaN? then currentTotPot else Val(currentTotKin.v + currentTotPot.v);
    }

    /** Freezes the working state into the current record. */
    method UpdateCurrentState()
      modifies this`currentState
      ensures currentState == Working()
    {
      currentState := State(currentPosition, currentTemperature, currentTotE, currentTotPot,
                            currentTotKin, currentForce, currentVelocities);
    }

    /** Replaces position, velocities and force by the integrator's triple. */
    method Propagate()
      modifies this`currentPosition, this`currentVelocities, this`currentForce
      ensures Working() == Integrate(Dyn(), old(Working()), currentState)
    {
      var t := integrator.step(CurrentView());
      currentPosition, currentVelocities, currentForce := t.position, t.velocity, t.force;
    }

    /** Lets every condition react once, in registration order. */
    method ApplyConditions()
      modifies this`currentPosition, this`currentVelocities, this`currentForce, this`currentTemperature,
               this`currentTotE, this`currentTotPot, this`currentTotKin
      requires Coupled()
      ensures Working() == Conditioned(Dyn(), Reactions(), old(Working()), currentState)
    {
      var i := 0;
      while i < |conditions|
        invariant 0 <= i <= |conditions|
        invariant Working() == Conditioned(Dyn(), Reactions()[..i], old(Working()), currentState)
      {
        var w := conditions[i].apply(CurrentView());
        assert Reactions()[..i + 1][..i] == Reactions()[..i];
        currentPosition, currentTemperature, currentTotE := w.position, w.temperature, w.totEnergy;
        currentTotPot, currentTotKin := w.totPotEnergy, w.totKinEnergy;
        currentForce, currentVelocities := w.dhdpos, w.velocity;
        i := i + 1;
      }
      assert Reactions()[..i] == Reactions();
    }

    /** Takes an externally computed triple as the new working state,
        recomputes the energies, freezes, and appends the record. */
    method AppendState(newPosition: Quantity, newVelocity: Quantity, newForces: Quantity)
      modifies this`currentPosition, this`currentVelocities, this`currentForce, this`currentTemperature,
               this`currentTotE, this`currentTotPot, this`currentTotKin, this`currentState, this`trajectory
      ensures Working() == Energise(Dyn(), old(Working()).(position := newPosition, velocity := newVelocity,
                                                           dhdpos := newForces))
      ensures currentState == Working()
      ensures trajectory == old(trajectory) + [currentState]
    {
      currentPosition := newPosition;
      currentVelocities := newVelocity;
      currentForce := newForces;
      UpdateTemp();
      UpdateEne();
      UpdateCurrentState();
      trajectory := trajectory + [currentState];
    }

    /** The revert operation: its table lookup of column -2 always fails,
        before anything is changed. */
    method RevertStep() returns (o: Outcome)
      ensures o == Fail(MissingColumn)
    {
      o := Fail(MissingColumn);
    }

    /** The velocity setter: it reads a name that is not defined and so
        always fails, before anything is changed. */
    method SetVelocities(velocities: Quantity) returns (o: Outcome)
      ensures o == Fail(UndefinedName)
    {
      o := Fail(UndefinedName);
    }

    function GetTotPot(): Num reads this`currentTotPot { currentTotPot }

    function GetTotEnergy(): Num reads this`currentTotE { currentTotE }

    function GetCurrentState(): State reads this`currentState { currentState }

    function GetTrajectoryObjects(): seq<State> reads this`trajectory { trajectory }

    /** Overwrites the working position (and the initial position when no
        record has been kept yet), recomputes the energies and freezes. */
    method SetPosition(position: Quantity)
      modifies this`currentPosition, this`initialPosition, this`currentTotE, this`currentTotPot,
               this`currentTotKin, this`currentState
      ensures Working() == Energise(Dyn(), old(Working()).(position := position))
      ensures initialPosition == if old(trajectory) == [] then position else old(initialPosition)
      ensures currentState == Working()
    {
      currentPosition := position;
      if |trajectory| == 0 {
        initialPosition := currentPosition;
      }
      UpdateEne();
      UpdateCurrentState();
    }

    /** Overwrites position, force, velocities and working temperature,
        recomputes the energies and freezes. */
    method SetCurrentState(position: Quantity, velocities: Quantity, force: Quantity, temperature: Num)
      modifies this`currentPosition, this`currentVelocities, this`currentForce, this`currentTemperature,
               this`currentTotE, this`currentTotPot, this`currentTotKin, this`currentState
      ensures Working() == Energise(Dyn(), old(Working()).(position := position, velocity := velocities,
                                                           dhdpos := force, temperature := temperature))
      ensures currentState == Working()
    {
      currentPosition := position;
      currentForce := force;
      currentVelocities := velocities;
      currentTemperature := temperature;
      currentState := State(currentPosition, currentTemperature, NaN, NaN, NaN, Scalar(NaN), Scalar(NaN));
      UpdateEne();
      UpdateCurrentState();
    }

    /** Sets the system's and the working temperature and recomputes the
        energies; the current record is not refrozen. */
    method SetTemperature(temperature: real)
      modifies this`temperature, this`currentTemperature, this`currentTotE, this`currentTotPot,
               this`currentTotKin
      ensures this.temperature == temperature
      ensures Working() == Energise(Dyn(), old(Working()).(temperature := Val(temperature)))
    {
      this.temperature := temperature;
      currentTemperature := Val(temperature);
      UpdateEne();
    }
    /** One step of the loop: integrate, recompute the energies, apply the
        conditions, freeze. */
    method Step()
      modifies this`currentPosition, this`currentVelocities, this`currentForce, this`currentTemperature,
               this`currentTotE, this`currentTotPot, this`currentTotKin, this`currentState
      requires Coupled()
      ensures Working() == StepOnce(Dyn(), old(Working()), old(currentState))
      ensures currentState == Working()
    {
      Propagate();
      UpdateEne();
      ApplyConditions();
      UpdateCurrentState();
    }

    /** Prepares a run: optionally empties the trajectory, draws a random
        position and fresh velocities, takes the potential's gradient at the
        initial position as the force when it has one, sets the working
        temperature, recomputes the energies, freezes and appends the record. */
    method Initialise(withdrawTraj: bool, initPosition: bool, initVelocity: bool,
                      uniform: (nat, nat) -> real, normal: (nat, nat) -> real)
      requires initPosition ==> UniformOk(uniform)
      modifies this`initialPosition, this`currentPosition, this`currentVelocities, this`currentForce,
               this`currentTemperature, this`currentTotE, this`currentTotPot, this`currentTotKin,
               this`currentState, this`trajectory
      ensures initialPosition == if initPosition then RandomPos(nDim, nStates, uniform) else old(initialPosition)
      ensures Working() == Energise(Dyn(), old(Working()).(
        position := if initPosition then initialPosition else old(currentPosition),
        dhdpos := potential.gradient(initialPosition).GetOr(old(currentForce)),
        velocity := if initVelocity then RandomVel(nDim, nStates, normal) else old(currentVelocities),
        temperature := Val(temperature)))
      ensures currentState == Working()
      ensures trajectory == (if withdrawTraj then [] else old(trajectory)) + [currentState]
    {
      ghost var w := Working();
      if withdrawTraj {
        trajectory := [];
      }
      if initPosition {
        var o := InitPosition(NoPosition, uniform);
      }
      var force := potential.gradient(initialPosition);
      if force.Some? {
        currentForce := force.value;
      }
      ghost var w1 := Working();
      assert w1 == w.(position := w1.position, dhdpos := potential.gradient(initialPosition).GetOr(w.dhdpos));
      if initVelocity {
        InitVelocities(normal);
      }
      currentTemperature := Val(temperature);
      ghost var w2 := Working();
      assert w2.position == w1.position && w2.dhdpos == w1.dhdpos && w2.temperature == Val(temperature);
      assert w2.velocity == if initVelocity then RandomVel(nDim, nStates, normal) else w.velocity;
      UpdateEne();
      EnergiseOverwrites(Dyn(), w2, w.(position := w1.position, dhdpos := w1.dhdpos, velocity := w2.velocity,
                                      temperature := Val(temperature)));
      UpdateCurrentState();
      trajectory := trajectory + [currentState];
    }

    /** The part of a run before its loop: with `initSystem`, fresh
        velocities and the initial position put back (which fails, after the
        velocities are drawn, for a zero-dimensional array or a one-item
        list); then the record is frozen and only after that are the
        energies recomputed. */
    method StartRun(initSystem: bool, normal: (nat, nat) -> real) returns (o: Outcome)
      modifies this`initialPosition, this`currentPosition, this`currentVelocities, this`currentForce,
               this`currentTemperature, this`currentTotE, this`currentTotPot, this`currentTotKin,
               this`currentState
      ensures initialPosition == old(initialPosition)
      ensures o.Fail? <==> initSystem && (old(initialPosition).Unsized? || OneItem(old(initialPosition)))
      ensures o.Fail? ==>
        && o.error == (if old(initialPosition).Unsized? then UnsizedPosition else LengthOnePosition)
        && Working() == Redrawn(Dyn(), old(Working()), normal)
        && currentState == Working()
      ensures o.Pass? ==>
        && Working() == RunStart(Dyn(), old(Working()), old(initialPosition), initSystem, normal)
        && currentState == RunStartRecord(Dyn(), old(Working()), old(initialPosition), initSystem, normal)
    {
      ghost var w := Working();
      if initSystem {
        InitVelocities(normal);
        o := InitPosition(Given(initialPosition), (s, d) => 0.0);
        if o.Fail? {
          return;
        }
      }
      o := Pass;
      UpdateCurrentState();
      ghost var w1 := Working();
      UpdateEne();
      if initSystem {
        EnergiseOverwrites(Dyn(), w1, w.(velocity := RandomVel(nDim, nStates, normal), temperature := Val(temperature),
                                         position := initialPosition));
      }
    }

    /** The step loop: n steps, appending the record of every step whose
        index (counted from 0) is a multiple of the save stride. */
    method RunSteps(n: nat, saveEvery: int)
      requires saveEvery != 0 && Coupled()
      modifies this`currentPosition, this`currentVelocities, this`currentForce, this`currentTemperature,
               this`currentTotE, this`currentTotPot, this`currentTotKin, this`currentState, this`trajectory
      ensures Working() == After(Dyn(), old(Working()), old(currentState), n)
      ensures trajectory == old(trajectory) + Saved(Dyn(), old(Working()), old(currentState), n, saveEvery)
      ensures currentState == if n > 0 then Working() else old(currentState)
    {
      ghost var w0 := Working();
      var step := 0;
      while step < n
        invariant 0 <= step <= n
        invariant Working() == After(Dyn(), w0, old(currentState), step)
        invariant trajectory == old(trajectory) + Saved(Dyn(), w0, old(currentState), step, saveEvery)
        invariant currentState == if step > 0 then Working() else old(currentState)
      {
        Step();
        if step % saveEvery == 0 {
          trajectory := trajectory + [currentState];
        }
        step := step + 1;
      }
    }

    /** Runs `steps` steps and returns the last frozen record. Every step
        whose index (counted from 0) is a multiple of the save stride appends
        its record. The run ends with an error for an initial position that
        `initSystem` cannot put back, for a save stride of 0, and when the
        last step is off the stride, because the closing append fails. */
    method Simulate(steps: int, withdrawTraj: bool, saveEvery: int, initSystem: bool,
                    normal: (nat, nat) -> real)
      returns (r: Result<State>)
      requires Coupled()
      modifies this`initialPosition, this`currentPosition, this`currentVelocities, this`currentForce,
               this`currentTemperature, this`currentTotE, this`currentTotPot, this`currentTotKin,
               this`currentState, this`trajectory
      ensures initialPosition == old(initialPosition)
      ensures var t0 := if withdrawTraj then [old(currentState)] else old(trajectory);
        var n := if steps > 0 then steps else 0;
        var w0 := RunStart(Dyn(), old(Working()), old(initialPosition), initSystem, normal);
        var start := RunStartRecord(Dyn(), old(Working()), old(initialPosition), initSystem, normal);
        if initSystem && (old(initialPosition).Unsized? || OneItem(old(initialPosition))) then
          && r == Failure(if old(initialPosition).Unsized? then UnsizedPosition else LengthOnePosition)
          && trajectory == t0
          && Working() == Redrawn(Dyn(), old(Working()), normal)
          && currentState == Working()
        else if saveEvery == 0 then
          && r == Failure(ZeroSaveStride)
          && trajectory == t0
          && Working() == (if n > 0 then StepOnce(Dyn(), w0, start) else w0)
          && currentState == (if n > 0 then Working() else start)
        else
          && Working() == After(Dyn(), w0, start, n)
          && trajectory == t0 + Saved(Dyn(), w0, start, n, saveEvery)
          && currentState == (if n > 0 then Working() else start)
          && r == (if n > 0 && (n - 1) % saveEvery != 0 then Failure(TrailingAppend) else Success(currentState))
          && (r.Success? && n > 0 ==> |trajectory| > 0 && trajectory[|trajectory| - 1] == currentState)
    {
      if withdrawTraj {
        trajectory := [currentState];
      }
      var o := StartRun(initSystem, normal);
      if o.Fail? {
        return Failure(o.error);
      }
      assert Dyn() == old(Dyn());
      ghost var w0, start := Working(), currentState;
      var n := if steps > 0 then steps else 0;
      if saveEvery == 0 {
        // the first `step % 0` divides by zero, after one full step when there is one
        if n > 0 {
          Step();
        }
        return Failure(ZeroSaveStride);
      }
      RunSteps(n, saveEvery);
      if n > 0 && (n - 1) % saveEvery != 0 {
        // the closing append passes the record itself, not its fields, to the table
        return Failure(TrailingAppend);
      }
      r := Success(currentState);
    }
  }
}
