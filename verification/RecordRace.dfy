/** Concurrent calls of `startController` on one record: pkg/clustermanager/manager.go.

    The record's lock is held from the check of `started` to the end, but a caller may be overtaken at any point
    before it gets the lock, and launching the controllers may fail. */
module RecordRace {

  import opened Basics

  type CallID = nat

  datatype Phase = Probe | Acquire | Check | Launch | SetStarted | SetOwner | Release(ok: bool) | Done(ok: bool)

  /** One call and the role it asks for. */
  datatype Call = Call(clusterOwner: bool, phase: Phase)

  datatype State = State(
    started: bool,
    owner: bool,
    launches: seq<bool>,
    holder: Option<CallID>,
    calls: map<CallID, Call>)

  /** `succeeds` says whether the probe or the launch of this step goes well. */
  datatype Step = Enter(id: CallID, clusterOwner: bool) | Advance(id: CallID, succeeds: bool)

  function Initial(): State {
    State(false, false, [], None, map[])
  }

  predicate Enabled(s: State, step: Step) {
    match step
    case Enter(id, _) => id !in s.calls
    case Advance(id, _) =>
      id in s.calls && !s.calls[id].phase.Done? && (s.calls[id].phase.Acquire? ==> s.holder.None?)
  }

  function At(s: State, id: CallID, phase: Phase): State
    requires id in s.calls
  {
    s.(calls := s.calls[id := s.calls[id].(phase := phase)])
  }

  function Next(s: State, step: Step): State
    requires Enabled(s, step)
  {
    match step
    case Enter(id, role) => s.(calls := s.calls[id := Call(role, Probe)])
    case Advance(id, succeeds) =>
      var role := s.calls[id].clusterOwner;
      match s.calls[id].phase
      case Probe => At(s, id, if succeeds then Acquire else Done(false))
      case Acquire => At(s.(holder := Some(id)), id, Check)
      case Check => At(s, id, if s.started then Release(true) else Launch)
      case Launch =>
        if succeeds then At(s.(launches := s.launches + [role]), id, SetStarted) else At(s, id, Release(false))
      case SetStarted => At(s.(started := true), id, SetOwner)
      case SetOwner => At(s.(owner := role), id, Release(true))
      case Release(ok) => At(s.(holder := None), id, Done(ok))
      // No call that is done is enabled.
      case Done(_) => s
  }

  predicate Inside(p: Phase) {
    p.Check? || p.Launch? || p.SetStarted? || p.SetOwner? || p.Release?
  }

  /** The flags say what the one successful launch asked for. */
  ghost predicate Decided(s: State) {
    s.started && |s.launches| == 1 && s.owner == s.launches[0]
  }

  /** Decided, and nobody who holds the lock is still writing. */
  ghost predicate Stable(s: State) {
    && Decided(s)
    && (s.holder.Some? ==>
          s.holder.value in s.calls && (s.calls[s.holder.value].phase.Check? || s.calls[s.holder.value].phase.Release?))
  }

  /** Nothing was launched. */
  ghost predicate Open(s: State) {
    !s.started && s.launches == []
  }

  ghost predicate CallInv(s: State, id: CallID)
    requires id in s.calls
  {
    var role := s.calls[id].clusterOwner;
    && (Inside(s.calls[id].phase) <==> s.holder == Some(id))
    && match s.calls[id].phase
       case Probe => true
       case Acquire => true
       case Check => Open(s) || Decided(s)
       case Launch => Open(s)
       case SetStarted => !s.started && s.launches == [role]
       case SetOwner => s.started && s.launches == [role]
       case Release(ok) => (Open(s) || Decided(s)) && (ok ==> Stable(s))
       case Done(ok) => ok ==> Stable(s)
  }

  ghost predicate Inv(s: State) {
    && (s.holder.Some? ==> s.holder.value in s.calls)
    && (s.holder.None? ==> Open(s) || Decided(s))
    && (forall id :: id in s.calls ==> CallInv(s, id))
  }

  /** A record that is decided stays so, with the same owner flag. */
  lemma StableStays(s: State, step: Step)
    requires Stable(s) && Enabled(s, step)
    requires step.Advance? ==> CallInv(s, step.id)
    ensures Stable(Next(s, step)) && Next(s, step).owner == s.owner && Next(s, step).launches == s.launches
  {
  }

  /** What another call knows survives a step. */
  lemma OtherCallKept(s: State, step: Step, id: CallID)
    requires Inv(s) && Enabled(s, step) && id in s.calls && id != step.id
    ensures CallInv(Next(s, step), id)
  {
    assert CallInv(s, id);
    if step.Advance? {
      assert CallInv(s, step.id);
    }
    if Stable(s) {
      StableStays(s, step);
    }
  }

  lemma OwnCallKept(s: State, step: Step)
    requires Inv(s) && Enabled(s, step)
    ensures CallInv(Next(s, step), step.id)
  {
    if step.Advance? {
      assert CallInv(s, step.id);
    }
    if Stable(s) {
      StableStays(s, step);
    }
  }

  lemma StepKeepsInv(s: State, step: Step)
    requires Inv(s) && Enabled(s, step)
    ensures Inv(Next(s, step))
  {
    var t := Next(s, step);
    if step.Advance? {
      assert CallInv(s, step.id);
    }
    OwnCallKept(s, step);
    forall id | id in t.calls ensures CallInv(t, id) {
      if id != step.id {
        OtherCallKept(s, step, id);
      }
    }
  }

  predicate IsRun(s: State, steps: seq<Step>)
    decreases |steps|
  {
    steps == [] || (Enabled(s, steps[0]) && IsRun(Next(s, steps[0]), steps[1..]))
  }

  function After(s: State, steps: seq<Step>): State
    requires IsRun(s, steps)
    decreases |steps|
  {
    if steps == [] then s else After(Next(s, steps[0]), steps[1..])
  }

  lemma {:induction false} RunKeepsInv(s: State, steps: seq<Step>)
    requires Inv(s) && IsRun(s, steps)
    ensures Inv(After(s, steps))
    decreases |steps|
  {
    if steps != [] {
      StepKeepsInv(s, steps[0]);
      RunKeepsInv(Next(s, steps[0]), steps[1..]);
    }
  }

  /** Under every interleaving the record's controllers are launched successfully at most once. */
  lemma LaunchedAtMostOnce(steps: seq<Step>)
    requires IsRun(Initial(), steps)
    ensures |After(Initial(), steps).launches| <= 1
  {
    RunKeepsInv(Initial(), steps);
    var s := After(Initial(), steps);
    if s.holder.Some? {
      assert CallInv(s, s.holder.value);
    }
  }

  lemma {:induction false} StableForever(s: State, steps: seq<Step>)
    requires Inv(s) && IsRun(s, steps) && Stable(s)
    ensures Stable(After(s, steps)) && After(s, steps).owner == s.owner && After(s, steps).launches == s.launches
    decreases |steps|
  {
    if steps != [] {
      if steps[0].Advance? {
        assert CallInv(s, steps[0].id);
      }
      StableStays(s, steps[0]);
      StepKeepsInv(s, steps[0]);
      StableForever(Next(s, steps[0]), steps[1..]);
    }
  }

  /** Once some call has returned success, the controllers have been launched exactly once, the owner flag is the
      role that launch asked for, and neither changes again, whatever the other calls ask for. */
  lemma OwnerWrittenOnce(steps: seq<Step>, id: CallID, later: seq<Step>)
    requires IsRun(Initial(), steps) && IsRun(After(Initial(), steps), later)
    requires id in After(Initial(), steps).calls && After(Initial(), steps).calls[id].phase == Done(true)
    ensures var s, t := After(Initial(), steps), After(After(Initial(), steps), later);
            && s.started && |s.launches| == 1 && s.owner == s.launches[0]
            && t.started && t.launches == s.launches && t.owner == s.owner
  {
    RunKeepsInv(Initial(), steps);
    assert CallInv(After(Initial(), steps), id);
    StableForever(After(Initial(), steps), later);
  }
}
