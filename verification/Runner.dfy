// The loop that runs stages until done, a human stop, or a failure, over the class State.
module Runner {
  import opened Delivery
  import opened Options
  import opened Machine
  import opened MachineRuns

  datatype Exit = RanToDone | NeedsAHuman | Failed(error: RunError) | OutOfTime

  // None of the first n steps stopped the run for a human.
  ghost predicate Unstopped(states: seq<Snapshot>, answers: seq<Step>, n: nat, paths: Paths, settings: Settings)
    requires n <= |states| && n <= |answers|
  {
    forall i :: 0 <= i < n ==> !Stops(states[i], answers[i], paths, settings)
  }

  // The states of a run on the first n answers.
  ghost predicate IsRunOn(states: seq<Snapshot>, answers: seq<Step>, n: nat, paths: Paths, settings: Settings) {
    n <= |answers| && IsRun(states, answers[..n], paths, settings)
  }

  // Runs the stages on the agents' answers. What is saved is always the last state of a
  // run; a stage that fails is not saved, so resuming takes the run up where it was.
  method Loop(state: State, answers: seq<Step>, paths: Paths, settings: Settings)
    returns (exit: Exit, taken: nat, saved: Snapshot, ghost states: seq<Snapshot>)
    modifies state
    ensures IsRunOn(states, answers, taken, paths, settings)
    ensures states[0] == old(state.View()) && saved == states[taken]
    ensures exit.RanToDone? <==> saved.place == Finished && !exit.NeedsAHuman?
    ensures exit.NeedsAHuman? ==> taken > 0 && Stops(states[taken - 1], answers[taken - 1], paths, settings)
    ensures Unstopped(states, answers, taken - (if exit.NeedsAHuman? then 1 else 0), paths, settings)
    ensures exit.Failed? ==> taken < |answers| && Take(saved, answers[taken], paths, settings) == Err(exit.error)
    ensures exit.OutOfTime? ==> taken == |answers|
    ensures !exit.Failed? ==> state.View() == saved
    ensures state.step == old(state.step) + taken + (if exit.Failed? then 1 else 0)
    ensures state.status == match exit case RanToDone => "done" case NeedsAHuman => "needs_human" case _ => old(state.status)
  {
    taken := 0;
    saved := state.View();
    states := [saved];
    while state.place != Finished && taken < |answers|
      invariant IsRunOn(states, answers, taken, paths, settings)
      invariant states[0] == old(state.View()) && saved == states[taken] == state.View()
      invariant Unstopped(states, answers, taken, paths, settings)
      invariant state.step == old(state.step) + taken && state.status == old(state.status)
    {
      state.step := state.step + 1;
      var error, moved := RunStage(state, answers[taken], paths, settings);
      if error.Some? {
        return Failed(error.value), taken, saved, states;
      }
      RunGrows(states, answers, taken, state.View(), paths, settings);
      saved := state.View();
      states, taken := states + [saved], taken + 1;
      if moved.stop {
        state.status := "needs_human";
        return NeedsAHuman, taken, saved, states;
      }
    }
    exit := if state.place == Finished then RanToDone else OutOfTime;
    if exit == RanToDone {
      state.status := "done";
    }
  }

  // One stage runs: either the state follows, or it fails and is not to be saved.
  method RunStage(state: State, answer: Step, paths: Paths, settings: Settings)
    returns (error: Option<RunError>, moved: Moved)
    requires state.place.At?
    modifies state
    ensures error.None? ==> Follows(old(state.View()), answer, state.View(), paths, settings)
    ensures error.None? ==> (moved.stop <==> Stops(old(state.View()), answer, paths, settings))
    ensures error.Some? ==> Take(old(state.View()), answer, paths, settings) == Err(error.value)
    ensures state.step == old(state.step) && state.status == old(state.status)
  {
    error, moved := state.Advance(state.place.stage, answer.report, paths, settings, answer.disk);
  }

  lemma RunGrows(states: seq<Snapshot>, answers: seq<Step>, n: nat, t: Snapshot, paths: Paths, settings: Settings)
    requires IsRunOn(states, answers, n, paths, settings) && n < |answers|
    requires Follows(states[n], answers[n], t, paths, settings) && Unstopped(states, answers, n, paths, settings)
    ensures IsRunOn(states + [t], answers, n + 1, paths, settings)
    ensures Unstopped(states + [t], answers, if Stops(states[n], answers[n], paths, settings) then n else n + 1, paths, settings)
  {
    forall i | 0 <= i < n + 1
      ensures Follows((states + [t])[i], answers[..n + 1][i], (states + [t])[i + 1], paths, settings)
    {
      if i < n {
        assert Follows(states[i], answers[..n][i], states[i + 1], paths, settings);
      }
    }
  }
}
