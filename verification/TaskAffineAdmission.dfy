/** Whom the task-affine lock lets in, told from who is inside and who is pending. */
module TaskAffineAdmission {
  import opened Basics
  import opened TaskAffineLock
  import opened TaskAffineLockProofs

  lemma NobodyElseReleases(s: State, t: Task)
    requires ConditionOwned(s) && (s.condition == None || s.condition == Some(t))
    requires t in s.phase && !s.phase[t].Releasing?
    ensures forall u | u in s.phase :: !s.phase[u].Releasing?
  {
  }

  /** The counters tell who is inside and who is pending, when nobody is on the way out. */
  lemma CountersTell(s: State)
    requires CountsMatch(s) && WriterAlone(s) && forall u | u in s.phase :: !s.phase[u].Releasing?
    ensures s.writer <==> TasksInside(s, Write) != {}
    ensures s.readers == 0 <==> TasksInside(s, Read) == {}
    ensures s.writersWaiting == 0 <==> PendingWriters(s) == {}
    ensures (forall u | u in s.phase :: !s.phase[u].Inside?) <==>
            TasksInside(s, Read) == {} && TasksInside(s, Write) == {}
  {
    assert forall u | u in s.phase && IsActiveWriter(s.phase[u]) :: u in TasksInside(s, Write);
    assert forall u | u in TasksInside(s, Write) :: IsActiveWriter(s.phase[u]);
    assert forall u | u in s.phase && s.phase[u].Inside? :: u in TasksInside(s, s.phase[u].mode);
  }

  /**
   Readers share and writers do not.  A reader that tests its predicate is let through exactly when no
   writer is pending or inside, however many readers are; a writer exactly when nobody is inside; and
   whoever is not let through, and only that task, goes to sleep.
   */
  lemma AdmissionIff(s: State, t: Task)
    requires Inv(s) && !s.closed && t in s.phase && s.phase[t].Checking? && !s.phase[t].expired
    ensures s.phase[t].mode == Read ==>
              (Enabled(s, Admit(t)) <==> PendingWriters(s) == {} && TasksInside(s, Write) == {})
    ensures s.phase[t].mode == Write ==>
              (Enabled(s, Admit(t)) <==> forall u | u in s.phase :: !s.phase[u].Inside?)
    ensures Enabled(s, Suspend(t)) <==> !Enabled(s, Admit(t))
  {
    NobodyElseReleases(s, t);
    CountersTell(s);
  }

  /** On a closed lock, and after its time-out, a task can only give up. */
  lemma LateTaskGivesUp(s: State, t: Task)
    requires Inv(s) && t in s.phase && s.phase[t].Checking? && (s.closed || s.phase[t].expired)
    ensures !Enabled(s, Admit(t)) && Enabled(s, GiveUp(t))
    ensures s.phase[t].expired ==> !Enabled(s, Suspend(t))
    ensures s.closed && s.phase[t].mode == Read && PendingWriters(s) == {} ==> !Enabled(s, Suspend(t))
  {
    NobodyElseReleases(s, t);
    CountersTell(s);
  }

  /** A poll takes the file lock exactly when the other processes allow it: own holds never stand in the way. */
  lemma PollSucceedsIff(s: State, t: Task)
    requires Inv(s) && t in s.phase && s.phase[t].Polling? && !s.phase[t].held
    ensures Enabled(s, TryFile(t)) <==> !s.foreignWriter && (s.phase[t].mode == Write ==> s.foreignReaders == 0)
  {
    PollerNotSelfBlocked(s, t);
  }

  /** A task outside can ask for the lock while it is open, and close it while moreover nobody is inside. */
  lemma OutsideTaskCan(s: State, t: Task, m: Mode)
    requires Inv(s) && s.condition == None && t in s.phase && s.phase[t] == Outside
    ensures Enabled(s, Arrive(t, m)) <==> !s.closed
    ensures Enabled(s, BeginClose(t)) <==> !s.closed && forall u | u in s.phase :: !s.phase[u].Inside?
  {
    NobodyElseReleases(s, t);
    CountersTell(s);
  }

  /** Another process can take the file lock exactly when no hold, here or elsewhere, stands in the way. */
  lemma ForeignAcquiresIff(s: State, m: Mode)
    requires Inv(s)
    ensures Enabled(s, ForeignAcquire(m)) <==>
            && !s.foreignWriter && (m == Write ==> s.foreignReaders == 0)
            && forall t | t in s.phase && HoldsFile(s.phase[t]) :: m == Read && s.phase[t].mode == Read
  {
    assert forall t | t in s.holds :: t in s.phase && HoldsFile(s.phase[t]) && s.holds[t] == s.phase[t].mode;
    assert forall t | t in s.phase && HoldsFile(s.phase[t]) :: t in s.holds;
  }

  /** A task that closes the lock ends outside; the lock is closed then, unless closing the file failed. */
  lemma CloserEnds(s: State, t: Task)
    requires Inv(s) && t in s.phase && s.phase[t] == Closing
    ensures Enabled(s, FinishClose(t)) && Apply(s, FinishClose(t)).closed
    ensures Enabled(s, AbortClose(t)) && !Apply(s, AbortClose(t)).closed
    ensures Apply(s, AbortClose(t)).phase[t] == Outside && Apply(s, AbortClose(t)).condition == None
  {
  }

  ghost predicate IsSegment(states: seq<State>, actions: seq<Action>) {
    && |states| == |actions| + 1
    && forall i | 0 <= i < |actions| ::
         Enabled(states[i], actions[i]) && states[i + 1] == Apply(states[i], actions[i])
  }

  /** `actions` lead from `s` to `s'`, each enabled where it is taken. */
  ghost predicate Leads(s: State, actions: seq<Action>, s': State) {
    exists states :: IsSegment(states, actions) && states[0] == s && states[|actions|] == s'
  }

  lemma LeadsByOne(s: State, a: Action)
    requires Enabled(s, a)
    ensures Leads(s, [a], Apply(s, a))
  {
    assert IsSegment([s, Apply(s, a)], [a]);
  }

  lemma LeadsOn(s: State, first: seq<Action>, middle: State, second: seq<Action>, s': State)
    requires Leads(s, first, middle) && Leads(middle, second, s')
    ensures Leads(s, first + second, s')
  {
    var before :| IsSegment(before, first) && before[0] == s && before[|first|] == middle;
    var after :| IsSegment(after, second) && after[0] == middle && after[|second|] == s';
    var states := before + after[1..];
    forall i | 0 <= i < |first + second|
      ensures Enabled(states[i], (first + second)[i]) && states[i + 1] == Apply(states[i], (first + second)[i])
    {
      if i >= |first| { assert states[i] == after[i - |first|] && states[i + 1] == after[i - |first| + 1]; }
    }
    assert IsSegment(states, first + second);
  }

  lemma RunGoesOn(states: seq<State>, actions: seq<Action>, more: seq<Action>, s': State) returns (states': seq<State>)
    requires IsRun(states, actions) && Leads(states[|actions|], more, s')
    ensures IsRun(states', actions + more) && states'[|actions + more|] == s'
  {
    assert IsSegment(states, actions);
    LeadsOn(states[0], actions, states[|actions|], more, s');
    states' :| IsSegment(states', actions + more) && states'[0] == states[0] && states'[|actions + more|] == s';
  }

  function Acquisition(t: Task, m: Mode): seq<Action> {
    [Arrive(t, m)] + ([Admit(t)] + ([TryFile(t)] + [Enter(t)]))
  }

  /** No writer is pending or inside here, and none in another process; for a writer, nobody is inside anywhere. */
  ghost predicate IsFreeFor(s: State, m: Mode) {
    && !s.foreignWriter && TasksInside(s, Write) == {}
    && if m == Read then PendingWriters(s) == {} else TasksInside(s, Read) == {} && s.foreignReaders == 0
  }

  /** A task that arrives or wakes leaves the bodies, and as a reader the pending writers, as they are. */
  lemma BodiesAfterArrival(s: State, s': State, t: Task, m: Mode)
    requires t in s.phase && (s.phase[t] == Outside || s.phase[t] == Waiting(m, true))
    requires s'.phase == s.phase[t := Checking(m, false)]
    ensures forall n :: TasksInside(s', n) == TasksInside(s, n)
    ensures m == Read ==> PendingWriters(s') == PendingWriters(s)
  {
  }

  /** What does not change on the way in. */
  ghost predicate SameSurroundings(s: State, s': State) {
    s'.closed == s.closed && s'.foreignWriter == s.foreignWriter && s'.foreignReaders == s.foreignReaders
  }

  lemma ArriveStep(s: State, t: Task, m: Mode) returns (s': State)
    requires Inv(s) && s.condition == None && !s.closed && t in s.phase && s.phase[t] == Outside
    ensures Leads(s, [Arrive(t, m)], s') && Inv(s') && SameSurroundings(s, s')
    ensures s'.phase == s.phase[t := Checking(m, false)]
  {
    LeadsByOne(s, Arrive(t, m));
    StepKeepsInv(s, Arrive(t, m));
    s' := Apply(s, Arrive(t, m));
  }

  lemma AdmitStep(s: State, t: Task) returns (s': State)
    requires Inv(s) && Enabled(s, Admit(t))
    ensures Leads(s, [Admit(t)], s') && Inv(s') && SameSurroundings(s, s')
    ensures s'.phase == s.phase[t := Polling(s.phase[t].mode, false)]
  {
    LeadsByOne(s, Admit(t));
    StepKeepsInv(s, Admit(t));
    s' := Apply(s, Admit(t));
  }

  lemma TryFileStep(s: State, t: Task) returns (s': State)
    requires Inv(s) && Enabled(s, TryFile(t))
    ensures Leads(s, [TryFile(t)], s') && Inv(s') && SameSurroundings(s, s')
    ensures s'.phase == s.phase[t := Polling(s.phase[t].mode, true)]
  {
    LeadsByOne(s, TryFile(t));
    StepKeepsInv(s, TryFile(t));
    s' := Apply(s, TryFile(t));
  }

  lemma EnterStep(s: State, t: Task) returns (s': State)
    requires Inv(s) && t in s.phase && s.phase[t].Polling? && s.phase[t].held
    ensures Leads(s, [Enter(t)], s') && Inv(s') && SameSurroundings(s, s')
    ensures OthersStay(s, s', t) && s'.phase[t] == Inside(s.phase[t].mode) && s'.condition == None
  {
    LeadsByOne(s, Enter(t));
    StepKeepsInv(s, Enter(t));
    ActionMovesOneTask(s, Enter(t));
    s' := Apply(s, Enter(t));
  }

  lemma ArrivalIsAdmitted(s: State, s': State, t: Task, m: Mode)
    requires Inv(s') && !s'.closed && t in s.phase && (s.phase[t] == Outside || s.phase[t] == Waiting(m, true))
    requires IsFreeFor(s, m) && s'.phase == s.phase[t := Checking(m, false)]
    ensures Enabled(s', Admit(t))
  {
    BodiesAfterArrival(s, s', t, m);
    AdmissionIff(s', t);
    if m == Write {
      assert forall u | u in s'.phase && s'.phase[u].Inside? :: u in TasksInside(s', s'.phase[u].mode);
    }
  }

  /**
   Nobody in the way, a task that asks for the lock gets it in four steps of its own, and whoever was
   inside stays inside: any number of readers, beside read holds of other processes too.
   */
  lemma AcquisitionSucceeds(s: State, t: Task, m: Mode) returns (s': State)
    requires Inv(s) && s.condition == None && !s.closed && t in s.phase && s.phase[t] == Outside && IsFreeFor(s, m)
    ensures Leads(s, Acquisition(t, m), s') && Inv(s') && SameSurroundings(s, s')
    ensures OthersStay(s, s', t) && s'.phase[t] == Inside(m) && s'.condition == None
  {
    var s1 := ArriveStep(s, t, m);
    ArrivalIsAdmitted(s, s1, t, m);
    s' := AdmittedGetsIn(s1, t);
    OthersStayToo(s, s1, s', t);
    LeadsOn(s, [Arrive(t, m)], s1, [Admit(t)] + ([TryFile(t)] + [Enter(t)]), s');
  }

  lemma WakeStep(s: State, t: Task) returns (s': State)
    requires Inv(s) && s.condition == None && t in s.phase && s.phase[t].Waiting? && s.phase[t].notified
    ensures Leads(s, [Wake(t)], s') && Inv(s') && SameSurroundings(s, s')
    ensures s'.phase == s.phase[t := Checking(s.phase[t].mode, false)]
  {
    LeadsByOne(s, Wake(t));
    StepKeepsInv(s, Wake(t));
    s' := Apply(s, Wake(t));
  }

  /** A task that slept and was notified gets in the same way, if nobody is in the way when it wakes. */
  lemma SleeperGetsIn(s: State, t: Task, m: Mode) returns (s': State)
    requires Inv(s) && s.condition == None && !s.closed && t in s.phase && s.phase[t] == Waiting(m, true)
    requires IsFreeFor(s, m)
    ensures Leads(s, [Wake(t)] + ([Admit(t)] + ([TryFile(t)] + [Enter(t)])), s') && Inv(s')
    ensures OthersStay(s, s', t) && s'.phase[t] == Inside(m) && s'.condition == None
  {
    var s1 := WakeStep(s, t);
    ArrivalIsAdmitted(s, s1, t, m);
    s' := AdmittedGetsIn(s1, t);
    OthersStayToo(s, s1, s', t);
    LeadsOn(s, [Wake(t)], s1, [Admit(t)] + ([TryFile(t)] + [Enter(t)]), s');
  }

  lemma OthersStayToo(s: State, s1: State, s': State, t: Task)
    requires t in s.phase && t in s1.phase && s1.phase == s.phase[t := s1.phase[t]] && OthersStay(s1, s', t)
    ensures OthersStay(s, s', t)
  {
    assert s1.phase.Keys == s.phase.Keys;
  }

  lemma AdmittedGetsIn(s: State, t: Task) returns (s': State)
    requires Inv(s) && Enabled(s, Admit(t)) && ForeignFree(s, s.phase[t].mode)
    ensures Leads(s, [Admit(t)] + ([TryFile(t)] + [Enter(t)]), s') && Inv(s') && SameSurroundings(s, s')
    ensures OthersStay(s, s', t) && s'.phase[t] == Inside(s.phase[t].mode) && s'.condition == None
  {
    var s1 := AdmitStep(s, t);
    s' := PollerGetsIn(s1, t);
    OthersStayToo(s, s1, s', t);
    LeadsOn(s, [Admit(t)], s1, [TryFile(t)] + [Enter(t)], s');
  }

  lemma PollerGetsIn(s: State, t: Task) returns (s': State)
    requires Inv(s) && t in s.phase && s.phase[t].Polling? && !s.phase[t].held && ForeignFree(s, s.phase[t].mode)
    ensures Leads(s, [TryFile(t)] + [Enter(t)], s') && Inv(s') && SameSurroundings(s, s')
    ensures OthersStay(s, s', t) && s'.phase[t] == Inside(s.phase[t].mode) && s'.condition == None
  {
    PollerNotSelfBlocked(s, t);
    var s1 := TryFileStep(s, t);
    s' := EnterStep(s1, t);
    OthersStayToo(s, s1, s', t);
    LeadsOn(s, [TryFile(t)], s1, [Enter(t)], s');
  }

  /** A task that has withdrawn or left: outside, without a hold, and with the condition given back. */
  ghost predicate IsOut(s: State, s': State, t: Task) {
    && t in s.phase && OthersStay(s, s', t) && Inv(s')
    && s'.phase[t] == Outside && t !in s'.holds && s'.condition == None
  }

  lemma LastStepOut(s: State, a: Action) returns (s': State)
    requires Inv(s) && Enabled(s, a) && (a.GiveUp? || a.AbandonPoll? || a.FinishExit?)
    ensures Leads(s, [a], s') && IsOut(s, s', a.t)
  {
    LeadsByOne(s, a);
    StepKeepsInv(s, a);
    ActionMovesOneTask(s, a);
    s' := Apply(s, a);
  }

  lemma StepOn(s: State, a: Action) returns (s': State)
    requires Inv(s) && Enabled(s, a) && (a.Expire? || a.BeginExit? || a.ReleaseFile?)
    ensures Leads(s, [a], s') && Inv(s') && s'.phase == s.phase[a.t := NextPhase(s, a)]
  {
    LeadsByOne(s, a);
    StepKeepsInv(s, a);
    s' := Apply(s, a);
  }

  function Withdrawal(s: State, t: Task): seq<Action>
    requires t in s.phase
  {
    if s.phase[t].Waiting? then [Expire(t)] + [GiveUp(t)]
    else if s.phase[t].Polling? then [AbandonPoll(t)]
    else [GiveUp(t)]
  }

  /** A time-out or a cancellation takes a pending task out in its own steps, wherever it is, without a hold. */
  lemma WithdrawalSucceeds(s: State, t: Task) returns (s': State)
    requires Inv(s) && t in s.phase && (s.phase[t].Checking? || s.phase[t].Waiting? || s.phase[t].Polling?)
    requires s.phase[t].Waiting? ==> s.condition == None
    ensures Leads(s, Withdrawal(s, t), s') && IsOut(s, s', t)
  {
    if s.phase[t].Waiting? {
      var s1 := StepOn(s, Expire(t));
      s' := LastStepOut(s1, GiveUp(t));
      OthersStayToo(s, s1, s', t);
      LeadsOn(s, [Expire(t)], s1, [GiveUp(t)], s');
    } else if s.phase[t].Polling? {
      s' := LastStepOut(s, AbandonPoll(t));
    } else {
      s' := LastStepOut(s, GiveUp(t));
    }
  }

  /** A body that ends gives its hold and the condition back, in three steps of its own task. */
  lemma ExitSucceeds(s: State, t: Task) returns (s': State)
    requires Inv(s) && t in s.phase && s.phase[t].Inside? && s.condition == None
    ensures Leads(s, [BeginExit(t)] + ([ReleaseFile(t)] + [FinishExit(t)]), s') && IsOut(s, s', t)
  {
    var s1 := StepOn(s, BeginExit(t));
    var s2 := StepOn(s1, ReleaseFile(t));
    s' := LastStepOut(s2, FinishExit(t));
    OthersStayToo(s1, s2, s', t);
    OthersStayToo(s, s1, s', t);
    LeadsOn(s1, [ReleaseFile(t)], s2, [FinishExit(t)], s');
    LeadsOn(s, [BeginExit(t)], s1, [ReleaseFile(t)] + [FinishExit(t)], s');
  }

  const NOBODY: State := State(0, false, 0, false, None, map[0 := Outside, 1 := Outside], map[], 0, false, false)

  lemma InitialInv(s: State)
    requires Init(s)
    ensures Inv(s)
  {
    RunKeepsInv([s], [], 0);
  }

  lemma FirstReader() returns (s: State)
    ensures Leads(NOBODY, Acquisition(0, Read), s) && Inv(s)
    ensures s.phase.Keys == {0, 1} && s.phase[0] == Inside(Read) && s.phase[1] == Outside
    ensures s.condition == None && !s.closed && !s.foreignWriter
  {
    InitialInv(NOBODY);
    assert TasksInside(NOBODY, Write) == {} && PendingWriters(NOBODY) == {};
    s := AcquisitionSucceeds(NOBODY, 0, Read);
  }

  lemma SecondReader(s: State) returns (s': State)
    requires Inv(s) && s.phase.Keys == {0, 1} && s.phase[0] == Inside(Read) && s.phase[1] == Outside
    requires s.condition == None && !s.closed && !s.foreignWriter
    ensures Leads(s, Acquisition(1, Read), s')
    ensures {0, 1} <= TasksInside(s', Read)
  {
    assert TasksInside(s, Write) == {} && PendingWriters(s) == {};
    s' := AcquisitionSucceeds(s, 1, Read);
  }

  /** Two readers inside at the same time. */
  lemma TwoReadersRun() returns (states: seq<State>, actions: seq<Action>)
    ensures IsRun(states, actions) && actions == Acquisition(0, Read) + Acquisition(1, Read)
    ensures {0, 1} <= TasksInside(states[|actions|], Read)
  {
    var s1 := FirstReader();
    var s2 := SecondReader(s1);
    actions := Acquisition(0, Read) + Acquisition(1, Read);
    LeadsOn(NOBODY, Acquisition(0, Read), s1, Acquisition(1, Read), s2);
    states := RunGoesOn([NOBODY], [], actions, s2);
    assert [] + actions == actions;
  }
}
