/** Energy bookkeeping of the engine: kinetic energy from the velocity,
    potential energy from the potential, and the total that combines them. */
module Energetics {
  import opened Values

  /** True when no item of the list is NaN. */
  predicate AllDefined(xs: seq<Num>) {
    forall i :: 0 <= i < |xs| ==> xs[i].Val?
  }

  /** The squared Euclidean norm of a list of defined numbers. */
  function SumSq(xs: seq<Num>): (r: real)
    requires AllDefined(xs)
    ensures r >= 0.0
  {
    if xs == [] then 0.0
    else
      var last := xs[|xs| - 1].v;
      SumSq(xs[..|xs| - 1]) + last * last
  }

  /** When the engine can compute a kinetic energy: a one-dimensional system
      whose velocity is a number that is not NaN, or a system of more
      dimensions whose velocity is a list of numbers none of which is NaN. */
  predicate KineticDefined(nDim: int, v: Quantity) {
    || (nDim == 1 && v.Scalar? && v.x.Val?)
    || (nDim > 1 && IsNumberList(v) && AllDefined(Items(v)))
  }

  /** Kinetic energy, one half of the mass times the squared norm of the
      velocity, or NaN when it is undefined. */
  function TotKin(nDim: int, mass: real, v: Quantity): (r: Num)
    ensures r.Val? <==> KineticDefined(nDim, v)
    ensures r.Val? && mass >= 0.0 ==> r.v >= 0.0
  {
    if nDim == 1 && v.Scalar? && v.x.Val? then
      Val(0.5 * mass * (v.x.v * v.x.v))
    else if nDim > 1 && IsNumberList(v) && AllDefined(Items(v)) then
      Val(0.5 * mass * SumSq(Items(v)))
    else
      NaN
  }

  /** The kinetic energies of the components taken one at a time, each as the
      one-dimensional kinetic energy of a bare number, added up. */
  function ComponentKinetic(mass: real, xs: seq<Num>): real
    requires AllDefined(xs)
  {
    if xs == [] then 0.0
    else TotKin(1, mass, Scalar(xs[0])).v + ComponentKinetic(mass, xs[1..])
  }

  lemma {:induction false} SumSqFront(xs: seq<Num>)
    requires AllDefined(xs) && xs != []
    ensures SumSq(xs) == xs[0].v * xs[0].v + SumSq(xs[1..])
  {
    if |xs| > 1 {
      var init := xs[..|xs| - 1];
      SumSqFront(init);
      assert init[1..] == xs[1..][..|xs[1..]| - 1];
      assert init[0] == xs[0];
    } else {
      assert xs[1..] == [];
      assert xs[..|xs| - 1] == [];
    }
  }

  /** The kinetic energy of a vector velocity is the sum of the kinetic
      energies of its components. */
  lemma {:induction false} KineticIsSumOfComponents(nDim: int, mass: real, xs: seq<Num>)
    requires nDim > 1 && AllDefined(xs)
    ensures TotKin(nDim, mass, Vec(xs)) == Val(ComponentKinetic(mass, xs))
  {
    if xs != [] {
      SumSqFront(xs);
      KineticIsSumOfComponents(nDim, mass, xs[1..]);
    }
  }

  /** The invariant of the energy bookkeeping: the total is the kinetic plus
      the potential energy when the kinetic energy is defined (NaN when the
      potential energy is NaN), and the potential energy alone when it is
      not. */
  predicate EnergyConsistent(s: State) {
    && (s.totKinEnergy.NaN? ==> s.totEnergy == s.totPotEnergy)
    && (s.totKinEnergy.Val? && s.totPotEnergy.Val? ==>
          s.totEnergy == Val(s.totKinEnergy.v + s.totPotEnergy.v))
    && (s.totKinEnergy.Val? && s.totPotEnergy.NaN? ==> s.totEnergy.NaN?)
  }

  /** The working state with its energies recomputed: the potential energy at
      the position, the kinetic energy of the velocity and their total. */
  function Refresh(w: State, nDim: int, mass: real, ene: Quantity -> real): (r: State)
    ensures r.totPotEnergy == Val(ene(w.position))
    ensures r.totKinEnergy == TotKin(nDim, mass, w.velocity)
    ensures EnergyConsistent(r)
    ensures r.position == w.position && r.temperature == w.temperature
    ensures r.dhdpos == w.dhdpos && r.velocity == w.velocity
  {
    var pot := ene(w.position);
    var kin := TotKin(nDim, mass, w.velocity);
    w.(totPotEnergy := Val(pot), totKinEnergy := kin,
       totEnergy := if kin.NaN? then Val(pot) else Val(kin.v + pot))
  }

  /** Recomputing the energies a second time changes nothing. */
  lemma RefreshIdempotent(w: State, nDim: int, mass: real, ene: Quantity -> real)
    ensures Refresh(Refresh(w, nDim, mass, ene), nDim, mass, ene) == Refresh(w, nDim, mass, ene)
  {
  }
}
