/** The simulation step as functions of the working state and the frozen
    record: the integrator proposes the next position, velocity and force,
    the energies are recomputed, every condition reacts in registration
    order, and the result is the next working state (and, frozen, the next
    record). The step loop's trajectory is the sequence of these records
    taken at the save stride. */
module Stepping {
  import opened Values
  import opened Energetics

  /** What the integrator and the conditions read of the system: its working
      state, the record it last froze, its initial position and its
      parameters. */
  datatype SystemView = SystemView(
    working: State,
    record: State,
    initialPosition: Quantity,
    mass: real,
    temperature: real,
    nDim: nat,
    nStates: int)

  /** The integrator's proposal for the next position, velocity and force. */
  datatype Triple = Triple(position: Quantity, velocity: Quantity, force: Quantity)

  /** What a step depends on besides the working state and the record: the
      system's initial position and parameters, the potential's energy, the
      integrator's step and the conditions' reactions, in registration
      order. */
  datatype Dynamics = Dynamics(
    initialPosition: Quantity,
    mass: real,
    temperature: real,
    nDim: nat,
    nStates: int,
    ene: Quantity -> real,
    step: SystemView -> Triple,
    conditions: seq<SystemView -> State>)

  function View(d: Dynamics, w: State, rec: State): SystemView {
    SystemView(w, rec, d.initialPosition, d.mass, d.temperature, d.nDim, d.nStates)
  }

  /** The working state with the integrator's triple in place of position,
      velocity and force; nothing else changes. */
  function Integrate(d: Dynamics, w: State, rec: State): (r: State)
    ensures Triple(r.position, r.velocity, r.dhdpos) == d.step(View(d, w, rec))
    ensures r.temperature == w.temperature && r.totEnergy == w.totEnergy
    ensures r.totPotEnergy == w.totPotEnergy && r.totKinEnergy == w.totKinEnergy
  {
    var t := d.step(View(d, w, rec));
    w.(position := t.position, velocity := t.velocity, dhdpos := t.force)
  }

  /** The working state with its energies recomputed: `Refresh` with the
      system's dimensionality, mass and potential energy taken from the
      dynamics, so that the step functions need only the dynamics. */
  function Energise(d: Dynamics, w: State): State {
    Refresh(w, d.nDim, d.mass, d.ene)
  }

  /** Recomputing the energies overwrites the ones the state carries: two
      states that agree on position, velocity, force and temperature come
      out the same. */
  lemma EnergiseOverwrites(d: Dynamics, a: State, b: State)
    requires a.position == b.position && a.velocity == b.velocity
    requires a.dhdpos == b.dhdpos && a.temperature == b.temperature
    ensures Energise(d, a) == Energise(d, b)
  {
  }

  /** The conditions applied one after the other, each to the working state
      the previous one left; all of them see the same record. */
  function Conditioned(d: Dynamics, fs: seq<SystemView -> State>, w: State, rec: State): State {
    if fs == [] then w
    else fs[|fs| - 1](View(d, Conditioned(d, fs[..|fs| - 1], w, rec), rec))
  }

  /** One step of the loop, under the record frozen before it: integrate,
      recompute the energies, apply the conditions. */
  function StepOnce(d: Dynamics, w: State, rec: State): State {
    Conditioned(d, d.conditions, Energise(d, Integrate(d, w, rec)), rec)
  }

  /** The working state after n steps. The first step sees `rec` as the
      record; every later one sees the record the step before it froze,
      which is the working state it starts from. */
  function After(d: Dynamics, w: State, rec: State, n: nat): State {
    if n == 0 then w
    else
      var prev := After(d, w, rec, n - 1);
      StepOnce(d, prev, if n == 1 then rec else prev)
  }

  /** The records a run of n steps appends with save stride k: the record
      after step i (counted from 0) whenever i is a multiple of k. */
  function Saved(d: Dynamics, w: State, rec: State, n: nat, k: int): seq<State>
    requires k != 0
  {
    if n == 0 then []
    else Saved(d, w, rec, n - 1, k) + (if (n - 1) % k == 0 then [After(d, w, rec, n)] else [])
  }

  /** Multiplying by a positive factor does not make a number smaller. */
  lemma MulMono(a: int, k: int)
    requires a >= 1 && k >= 1
    ensures a * k >= k
  {
  }

  /** Quotient and remainder are the only ones with their defining property. */
  lemma DivUnique(m: int, k: int, q: int, r: int)
    requires k > 0 && 0 <= r < k && m == q * k + r
    ensures m / k == q && m % k == r
  {
    var q0, r0 := m / k, m % k;
    assert m == q0 * k + r0;
    if q > q0 {
      MulMono(q - q0, k);
    } else if q < q0 {
      MulMono(q0 - q, k);
    }
  }

  /** One more step adds one to the rounded-up quotient exactly when the
      new step index is a multiple of k. */
  lemma CeilStep(m: nat, k: int)
    requires k >= 1
    ensures (m + k) / k == (m + k - 1) / k + (if m % k == 0 then 1 else 0)
  {
    var q, r := m / k, m % k;
    assert m == q * k + r;
    DivUnique(m + k, k, q + 1, r);
    if r == 0 {
      DivUnique(m + k - 1, k, q, k - 1);
    } else {
      DivUnique(m + k - 1, k, q + 1, r - 1);
    }
  }

  /** A run of n steps with save stride k >= 1 appends n/k records, rounded up. */
  lemma {:induction false} SavedLength(d: Dynamics, w: State, rec: State, n: nat, k: int)
    requires k >= 1
    ensures |Saved(d, w, rec, n, k)| == (n + k - 1) / k
  {
    if n == 0 {
      DivUnique(k - 1, k, 0, k - 1);
    } else {
      SavedLength(d, w, rec, n - 1, k);
      CeilStep(n - 1, k);
    }
  }

  /** The j-th appended record is the state after step j k (counted from 0),
      that is, after j k + 1 steps. */
  lemma {:induction false} SavedAt(d: Dynamics, w: State, rec: State, n: nat, k: int, j: nat)
    requires k >= 1 && j < |Saved(d, w, rec, n, k)|
    ensures Saved(d, w, rec, n, k)[j] == After(d, w, rec, j * k + 1)
  {
    var prev := Saved(d, w, rec, n - 1, k);
    if j < |prev| {
      SavedAt(d, w, rec, n - 1, k, j);
    } else {
      SavedLength(d, w, rec, n - 1, k);
      var q := (n - 1) / k;
      assert n - 1 == q * k;
      DivUnique(n - 1 + k - 1, k, q, k - 1);
    }
  }

  /** The last record a run of n >= 1 steps appends is the state after step
      (n - 1) - (n - 1) % k: the final state itself exactly when n - 1 is a
      multiple of k, an earlier one otherwise. */
  lemma FinalRecord(d: Dynamics, w: State, rec: State, n: nat, k: int)
    requires k >= 1 && n >= 1
    ensures |Saved(d, w, rec, n, k)| >= 1
    ensures Saved(d, w, rec, n, k)[|Saved(d, w, rec, n, k)| - 1] == After(d, w, rec, n - (n - 1) % k)
  {
    SavedLength(d, w, rec, n, k);
    var q, r := (n - 1) / k, (n - 1) % k;
    assert n - 1 == q * k + r;
    DivUnique(n + k - 1, k, q + 1, r);
    SavedAt(d, w, rec, n, k, q);
  }

  /** With stride 1 every step's state is appended, in step order. */
  lemma StrideOneSavesEveryStep(d: Dynamics, w: State, rec: State, n: nat)
    ensures Saved(d, w, rec, n, 1) == seq(n, i requires 0 <= i => After(d, w, rec, i + 1))
  {
    SavedLength(d, w, rec, n, 1);
    forall i | 0 <= i < n
      ensures Saved(d, w, rec, n, 1)[i] == After(d, w, rec, i + 1)
    {
      SavedAt(d, w, rec, n, 1, i);
    }
  }

  /** A condition keeps the energy bookkeeping invariant: given a view whose
      working state satisfies it, the state it returns does too. */
  ghost predicate KeepsEnergyConsistent(f: SystemView -> State) {
    forall v: SystemView :: EnergyConsistent(v.working) ==> EnergyConsistent(f(v))
  }

  lemma {:induction false} ConditionsKeepEnergyConsistent(d: Dynamics, fs: seq<SystemView -> State>, w: State,
                                                          rec: State)
    requires forall i :: 0 <= i < |fs| ==> KeepsEnergyConsistent(fs[i])
    requires EnergyConsistent(w)
    ensures EnergyConsistent(Conditioned(d, fs, w, rec))
  {
    if fs != [] {
      ConditionsKeepEnergyConsistent(d, fs[..|fs| - 1], w, rec);
      assert KeepsEnergyConsistent(fs[|fs| - 1]);
    }
  }

  /** When every condition keeps the energy bookkeeping invariant, every
      record the step loop appends satisfies it, whatever the state it
      started from. */
  lemma {:induction false} SavedRecordsEnergyConsistent(d: Dynamics, w: State, rec: State, n: nat, k: int)
    requires k != 0
    requires forall i :: 0 <= i < |d.conditions| ==> KeepsEnergyConsistent(d.conditions[i])
    ensures forall j :: 0 <= j < |Saved(d, w, rec, n, k)| ==> EnergyConsistent(Saved(d, w, rec, n, k)[j])
  {
    if n > 0 {
      SavedRecordsEnergyConsistent(d, w, rec, n - 1, k);
      var prev := After(d, w, rec, n - 1);
      var seen := if n == 1 then rec else prev;
      ConditionsKeepEnergyConsistent(d, d.conditions, Energise(d, Integrate(d, prev, seen)), seen);
    }
  }
}
