# Ensembler `system`: a verified model of the single-entity simulation engine

This project models the `system` class of Ensembler (`ensembler/system/basic_system.py`), the engine that carries one simulated entity through a simulation. A system owns a working physical state: position, velocities, force, temperature, and the total, potential and kinetic energies. It freezes that state into an immutable record (`basicState`), and it keeps a trajectory of those records while it steps under an integrator, a potential and a list of conditions (restraints, constraints, thermostats).

The model is written in Dafny and has five modules:

- `Values` (`values.dfy`) defines the values of the engine:
  - numbers that may be NaN (`Num`);
  - the shapes of position, velocity and force (`Quantity`): a bare number, a zero-dimensional array (which counts as an iterable but has no length), a list of numbers, or a list of vectors;
  - the frozen record `State`, with its fields in the record's order (position, temperature, totEnergy, totPotEnergy, totKinEnergy, dhdpos, velocity);
  - the exceptions the engine raises, as `Error` values.
- `Energetics` (`energetics.dfy`) covers the kinetic energy, and the potential and total energies with their bookkeeping invariant `EnergyConsistent`.
- `Initialisation` (`initialisation.dfy`) covers what happens at construction time:
  - how the dimensionality is resolved;
  - the shape and range of a random initial position;
  - the shape of freshly drawn velocities;
  - how a condition's step size is set when it is coupled.
- `Stepping` (`stepping.dfy`) is the step loop as functions of the working state: `Integrate`, `Energise`, `Conditioned`, `StepOnce`, `After` and `Saved`. Its lemmas state what a run appends to the trajectory.
- `BasicSystem` (`basic_system.dfy`) holds the class `System`. Its fields are the ones the source reassigns. Most of its methods are the source's methods. A few are pieces of one source method: `Create` and `CoupleConditions` come from the constructor, and `StartRun`, `Step` and `RunSteps` from `simulate`. Each method is proved against the functions of the other modules.

Collaborators are abstracted:

- The potential's energy is a function from position to a real.
- The potential's gradient is a function that may give no value.
- What the integrator and the conditions read of the system (`SystemView`) is:
  - the working state;
  - the record it last froze (`currentState`);
  - the initial position;
  - the mass, temperature, dimensionality and state count.
- The integrator's step is a function from that view to a triple of position, velocity and force.
- Each condition's `apply` is a function from that view to a new working state. It acts on the system the condition is coupled to. So stepping requires that every listed condition is coupled to the system that lists it (`System.Coupled`), which construction establishes.
- Random draws are inputs. `uniform(s, d)` is the uniform sample in [0, 1) for state `s` and dimension `d`. `normal(s, d)` is the velocity sample, already scaled.

Construction can raise, so it is the module-level method `BasicSystem.Create`. It returns a `Result`, and only on success does it call the class constructor. The trajectory is a `seq<State>` field. Appending a record's fields to the pandas table is modelled as sequence concatenation.

Two quirks of `simulate` are modelled as written:

- The record is frozen before the energies are recomputed (lines 250-251). That record (`RunStartRecord`) is what the integrator and the conditions see as the frozen record during the first step; every later step sees the record the previous step froze. When a run has no steps, it returns that record. With `initSystem`, it carries the energies of the freshly drawn velocities at the position the run started from.
- The closing append at lines 276-277 hands the record itself to the table's `append`, not its fields as the other appends do. The table's `append` splits a tuple argument into separate items, which it cannot concatenate, so the run ends with an error (`TrailingAppend`) whenever the last step is off the save stride. Its result would be discarded anyway.

The getters `getTotPot`, `getTotEnergy`, `getCurrentState` and `getTrajectoryObjects` (lines 310-320) are the reading functions `GetTotPot`, `GetTotEnergy`, `GetCurrentState` and `GetTrajectoryObjects` of `System`. Each returns one field as it is, so they have no contract and no row in the table below. `totPot` is the `potential.ene` call inside `Energetics.Refresh`.

## Model

| member | source | states |
|---|---|---|
| Initialisation.ResolveDim | ensembler/system/basic_system.py:78-84 | The dimensionality is the length of the list when the potential's is below 1 and the position is a list of numbers; otherwise it is the potential's own when that is positive. In every other case resolution fails, and that is the only way it fails. The error is the dimensionality error, except for a zero-dimensional array position, whose items cannot be checked. |
| Initialisation.ResolvedDimAgreesWithPotential | ensembler/system/basic_system.py:78-84 | After resolution, the system's dimensionality equals the potential's (possibly overwritten) one. It is 0 exactly when an empty list was given to a potential of unspecified dimensionality. |
| BasicSystem.Create | ensembler/system/basic_system.py:36-118 | When resolution fails, construction fails with resolution's error and the potential and conditions are unchanged. Otherwise the potential's dimensionality is overwritten as resolved. An unusable initial position then fails construction. Otherwise a fresh system is returned with the resolved dimensionality, the potential's state count (1 when it has none), the coupled-states flag, the chosen position as initial and working position, and an empty trajectory. Its working state and record are the all-NaN ones without a Newtonian integrator. With one, velocities are drawn, energies computed and the record frozen. Every condition is coupled to it, with the step size the coupling rule gives. |
| BasicSystem.System.constructor | ensembler/system/basic_system.py:36-118 | A new system holds the all-NaN record and an empty trajectory. Only with a Newtonian integrator does it draw velocities, set the working temperature, compute the energies and freeze. The coupled-states flag is the potential's, defaulting to true, and exists only when the potential declares states. Every condition is coupled. |
| BasicSystem.System.CoupleConditions | ensembler/system/basic_system.py:106-115 | Every condition is coupled to this system. Its step size is the coupling rule applied once per listing of that condition. |
| Initialisation.CouplingOutcome | ensembler/system/basic_system.py:112-115 | A condition listed once takes the integrator's step size exactly when it had none and the integrator has one; otherwise it gets step size 1, even if it had one. A condition listed more than once always ends with step size 1. |
| Initialisation.RandomPos | ensembler/system/basic_system.py:181-190 | A random position has one vector per state when there are several states. Otherwise it is a single vector, or an empty list when the state count is below 1. In one dimension it is a zero-dimensional array: squeezing leaves no axis of length 1, so the collapse at lines 187-188 never applies. Every coordinate lies in [-10, 10). |
| Initialisation.RandomPositionReuse | ensembler/system/basic_system.py:147-190 | A random position cannot be given back as the initial position exactly when there is one dimension and one state; the error is then the unsized-position error. |
| Initialisation.InitPositionValue | ensembler/system/basic_system.py:147-164 | The initial position is random when none is given, and the given number or iterable otherwise. It fails exactly for a zero-dimensional array (it has no length), for a one-item list and for a value of any other type, each with its own error. |
| BasicSystem.System.InitPosition | ensembler/system/basic_system.py:147-164 | On success, the initial and the working position become the chosen value. On failure, both are unchanged. |
| Initialisation.RandomVel | ensembler/system/basic_system.py:166-170 | Velocities are a states-by-dimensions nested list, a per-state list, a per-dimension list or a bare number, according to whether there are several states and several dimensions. No component is NaN. |
| BasicSystem.System.InitVelocities | ensembler/system/basic_system.py:166-176 | The working velocities become the drawn ones and the working temperature becomes the system's temperature. The energies are recomputed for the new velocities, and the record is frozen from the working state. |
| Energetics.TotKin | ensembler/system/basic_system.py:195-202 | The kinetic energy is defined exactly for a one-dimensional non-NaN number, or for a list of non-NaN numbers in more dimensions. It is never negative for a non-negative mass. |
| Energetics.SumSq | ensembler/system/basic_system.py:197-200 | The squared norm of the velocity is never negative. |
| Energetics.KineticIsSumOfComponents | ensembler/system/basic_system.py:195-202 | The kinetic energy of a vector velocity is the sum of the one-dimensional kinetic energies of its components. |
| Energetics.Refresh | ensembler/system/basic_system.py:204-214 | After recomputing, the potential energy is the potential's energy at the position and the kinetic energy is `TotKin` of the velocity. The total is their sum, or the potential energy alone when the kinetic energy is NaN (`EnergyConsistent`, which also makes the total NaN when only the potential energy is). Position, temperature, force and velocity are unchanged. |
| Energetics.RefreshIdempotent | ensembler/system/basic_system.py:211-214 | Recomputing the energies twice gives the same state as once. |
| Stepping.EnergiseOverwrites | ensembler/system/basic_system.py:211-214 | The energies a state already carries do not influence the recomputed ones. |
| BasicSystem.System.UpdateEne | ensembler/system/basic_system.py:211-214 | The working energies become those of `Refresh` of the old working state. Nothing else changes. |
| BasicSystem.System.UpdateTemp | ensembler/system/basic_system.py:207-209 | The working temperature is left as it is. |
| BasicSystem.System.UpdateCurrentState | ensembler/system/basic_system.py:216-219 | The frozen record equals the working state, field by field, in the record's order. |
| Stepping.Integrate | ensembler/system/basic_system.py:283-284 | Position, velocity and force become the integrator's triple for the view of the working state and the frozen record. Temperature and energies are unchanged. |
| BasicSystem.System.Propagate | ensembler/system/basic_system.py:283-284 | The working state becomes `Integrate` of the old one under the current record. Only position, velocity and force are written. |
| BasicSystem.System.ApplyConditions | ensembler/system/basic_system.py:286-289 | For conditions coupled to this system, the working state becomes the conditions applied once each, in registration order, each to the state the previous one left. All of them see the same frozen record. |
| Stepping.ConditionsKeepEnergyConsistent | ensembler/system/basic_system.py:286-289 | If every condition keeps the energy bookkeeping invariant, applying them all keeps it too. |
| BasicSystem.System.Step | ensembler/system/basic_system.py:262-271 | One loop step under the record frozen before it: integrate, recompute the energies, apply the conditions, then freeze. The record equals the new working state. |
| BasicSystem.System.RunSteps | ensembler/system/basic_system.py:256-274 | After n steps, the working state is `After` n steps, where the first step sees the record held before the loop. The trajectory grows by exactly `Saved(n, k)`. The record is the final working state when n > 0 and is unchanged otherwise. |
| Stepping.SavedLength | ensembler/system/basic_system.py:256-274 | A run of n steps with save stride k >= 1 appends the rounded-up value of n / k records. |
| Stepping.SavedAt | ensembler/system/basic_system.py:256-274 | The j-th appended record is the state after step j·k (counted from 0). |
| Stepping.FinalRecord | ensembler/system/basic_system.py:256-276 | The last appended record is the state after step (n - 1) - (n - 1) mod k. So the final state is appended exactly when n - 1 is a multiple of k, which is also when the closing append is skipped. |
| Stepping.StrideOneSavesEveryStep | ensembler/system/basic_system.py:256-274 | With stride 1, every step's state is appended, in step order. |
| Stepping.SavedRecordsEnergyConsistent | ensembler/system/basic_system.py:256-274 | If every condition keeps the energy bookkeeping invariant, every appended record satisfies it. |
| BasicSystem.System.StartRun | ensembler/system/basic_system.py:246-251 | With `initSystem`, fresh velocities are drawn and the initial position is put back. A zero-dimensional array or a one-item list as initial position makes this fail, after the velocities, energies and record have been renewed. Otherwise the record is frozen before the energies are recomputed. |
| BasicSystem.System.Simulate | ensembler/system/basic_system.py:234-281 | With `withdrawTraj`, the trajectory is first reset to the current record. Under `initSystem`, an initial position that cannot be put back fails the run, with the velocities redrawn. A save stride of 0 fails after at most one step; the state it leaves is given. Otherwise the working state is `After(n)` from the run's start, with the pre-loop record seen by the first step, and the trajectory grows by `Saved(n, k)`. The run fails at the closing append when the last step is off the stride. Otherwise it returns the final record, which is then the trajectory's last. With no steps, that record is the one frozen before the energy update. |
| BasicSystem.System.Initialise | ensembler/system/basic_system.py:122-145 | The trajectory is emptied only with `withdraw_Traj`. The position is random and the velocities are fresh only when asked for. The force is the potential's gradient at the initial position when it has one. The working temperature becomes the system's temperature. The energies are recomputed, the record is frozen, and the trajectory grows by exactly that record. |
| BasicSystem.System.AppendState | ensembler/system/basic_system.py:291-300 | The working position, velocity and force become the given ones and the working temperature is unchanged. The energies are recomputed and the record is frozen. The trajectory grows by exactly that record. |
| BasicSystem.System.SetPosition | ensembler/system/basic_system.py:334-339 | Only the working position changes, and the initial position changes only when the trajectory is empty. The energies are recomputed and the record is frozen. The trajectory is untouched. |
| BasicSystem.System.SetCurrentState | ensembler/system/basic_system.py:346-354 | Only position, velocity, force and working temperature are overwritten. The energies are recomputed and the record is frozen. The trajectory is untouched. |
| BasicSystem.System.SetTemperature | ensembler/system/basic_system.py:356-360 | The system's and the working temperature change and the energies are recomputed. The record is not frozen again and the trajectory is untouched. |
| BasicSystem.System.SetVelocities | ensembler/system/basic_system.py:341-344 | The setter always fails with the undefined-name error and changes nothing. |
| BasicSystem.System.RevertStep | ensembler/system/basic_system.py:302-305 | The revert always fails with the missing-column error and changes nothing. |

## Left out

- Trajectory export: `getTrajectory` and `writeTrajectory` (CSV writing and the output-folder check) are file-system I/O and table serialisation.
- Progress reporting and verbosity (the tqdm bar, the step-count threshold and the `print` in `randomPos`) have no effect on results. `verbose` is kept only as a field.
- Random draws and scaling: the process-wide random generator and the gas-constant scaling of velocity samples (`_gen_rand_vel`) are inputs, so `normal(s, d)` stands for an already scaled sample. The `veltemp` diagnostic is not modelled.
- Initialisation.RandomVel: the scaling divides by the mass and takes a square root. So a mass of 0 raises, and a negative temperature or mass gives NaN velocities. The model's velocities are never NaN only because `normal` is the scaled sample.
- A stochastic integrator, such as a Monte Carlo one, is a fixed function of the view here. It therefore proposes the same move whenever a view recurs.
- Collaborators do not see the trajectory. The integrator and the conditions read the working state, the last record, the initial position and the parameters, but not the trajectory kept so far.
- BasicSystem.System.ApplyConditions: a condition coupled to another system after this one was built acts on that other system in the source. The model requires every listed condition to be coupled to the system that lists it. So it does not cover a condition shared between systems.
- Default arguments are not modelled; every argument is explicit. The source's defaults are:
  - the constructor: temperature 298.0, mass 1, no position, no conditions and `verbose` true;
  - `initialise`: `withdraw_Traj` false, `init_position` true and `init_velocity` true;
  - `set_current_state`: velocities 0, force 0 and temperature 298;
  - `simulate`: `withdrawTraj` false, `save_every_state` 1 and `initSystem` false.
- Floating point: numbers are exact reals. NaN is a separate constructor, and rounding is not modelled.
- `set_simulation_mode(False)` at the end of a run is a hook on the potential, whose code is not part of this model.
- Force initialisation in `initialise` is a call into the potential inside a bare `try`/`except`. It is modelled as a gradient that either gives a value or leaves the force as it was. The warning is not modelled.
- Conditions' internal state: `coupleSystem` is modelled as setting the condition's system reference. A condition's `apply` is a function of what it reads of the system, so a condition that keeps its own mutable state is not captured.
- Potentials with several states return one energy per state. The model's energy is a single real, so per-state energy lists are not captured.
- `_update_current_vars` is reachable only through `revertStep`, which always fails first, so it is not modelled.
- BasicSystem.System.StartRun: under `initSystem`, the source collapses a one-dimensional NumPy array with one item to its number, and keeps a one-row two-dimensional array (shape (1, n)) unchanged. The model cannot tell arrays from lists, so it treats both like a one-item list, which fails.
- BasicSystem.System.Simulate: the error at the closing append follows how the table library's `append` treats a tuple argument. That library is not part of this model.
- Energetics.TotKin: a zero-dimensional array velocity in more than one dimension makes the source fail while it checks the velocity's items. The model gives NaN there.
- BasicSystem.Create: every one-item position fails, as a one-item list does. In the constructor, the collapse branch also fails for a one-dimensional array with one item, because it reads an initial position that is not yet set. A one-row two-dimensional array (shape (1, n)) skips that branch and is kept in the source, but fails in the model.
- `examples/dev/parallerl_testing.py` drives replica exchange through multiprocessing with classes that are not part of this model.
