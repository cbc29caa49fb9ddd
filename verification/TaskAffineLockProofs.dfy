/** Proofs about every run of the task-affine lock. */
module TaskAffineLockProofs {
  import opened Basics
  import opened TaskAffineLock

  // ---------------------------------------------------------------------------
  // One step
  // ---------------------------------------------------------------------------

  /** Tasks other than `t` stay where they are, up to being notified. */
  ghost predicate OthersStay(s: State, s': State, t: Task) {
    && s'.phase.Keys == s.phase.Keys
    && forall u | u in s.phase && u != t ::
         s'.phase[u] == s.phase[u] ||
         (s.phase[u].Waiting? && s'.phase[u] == Waiting(s.phase[u].mode, true))
  }

  lemma ActionMovesOneTask(s: State, a: Action)
    requires Enabled(s, a) && !IsForeign(a)
    ensures a.t in s.phase && OthersStay(s, Apply(s, a), a.t)
    ensures Apply(s, a).phase[a.t] == NextPhase(s, a)
  {
  }

  lemma CountsAfterMove(s: State, s': State, t: Task)
    requires t in s.phase && OthersStay(s, s', t)
    ensures TasksInside(s', Read) ==
            if s'.phase[t] == Inside(Read) then TasksInside(s, Read) + {t} else TasksInside(s, Read) - {t}
    ensures PendingWriters(s') ==
            if IsPendingWriter(s'.phase[t]) then PendingWriters(s) + {t} else PendingWriters(s) - {t}
  {
  }

  /** What an action of task `t` does to the counters, told from where `t` was and where it is. */
  lemma CountersFollowTask(s: State, a: Action)
    requires Enabled(s, a) && !IsForeign(a) && !a.CancelExit?
    ensures a.t in s.phase && OthersStay(s, Apply(s, a), a.t)
    ensures var p, p' := s.phase[a.t], Apply(s, a).phase[a.t];
            && Apply(s, a).readers == s.readers + Unit(p' == Inside(Read)) - Unit(p == Inside(Read))
            && Apply(s, a).writersWaiting == s.writersWaiting + Unit(IsPendingWriter(p')) - Unit(IsPendingWriter(p))
  {
    ActionMovesOneTask(s, a);
  }

  lemma CountsFollow(s: State, s': State, t: Task)
    requires CountsMatch(s) && t in s.phase && OthersStay(s, s', t)
    requires s'.readers == s.readers + Unit(s'.phase[t] == Inside(Read)) - Unit(s.phase[t] == Inside(Read))
    requires s'.writersWaiting ==
             s.writersWaiting + Unit(IsPendingWriter(s'.phase[t])) - Unit(IsPendingWriter(s.phase[t]))
    ensures CountsMatch(s')
  {
    CountsAfterMove(s, s', t);
  }

  lemma KeepsCounts(s: State, a: Action)
    requires CountsMatch(s) && Enabled(s, a) && !a.CancelExit?
    ensures CountsMatch(Apply(s, a))
  {
    if IsForeign(a) {
      assert TasksInside(Apply(s, a), Read) == TasksInside(s, Read);
      assert PendingWriters(Apply(s, a)) == PendingWriters(s);
    } else {
      CountersFollowTask(s, a);
      CountsFollow(s, Apply(s, a), a.t);
    }
  }

  /** The condition follows the acting task: taken when free, kept, or given back by its owner. */
  ghost predicate ConditionMoves(s: State, s': State, t: Task) {
    && t in s.phase && OthersStay(s, s', t)
    && (OwnsCondition(s'.phase[t]) ==> s'.condition == Some(t) && (s.condition == None || OwnsCondition(s.phase[t])))
    && (!OwnsCondition(s'.phase[t]) ==>
          s'.condition == if OwnsCondition(s.phase[t]) then None else s.condition)
  }

  lemma StepMovesCondition(s: State, a: Action)
    requires ConditionOwned(s) && Enabled(s, a) && !IsForeign(a)
    ensures ConditionMoves(s, Apply(s, a), a.t)
  {
    ActionMovesOneTask(s, a);
  }

  lemma ConditionFollows(s: State, s': State, t: Task)
    requires ConditionOwned(s) && ConditionMoves(s, s', t)
    ensures ConditionOwned(s')
  {
  }

  lemma KeepsConditionOwned(s: State, a: Action)
    requires ConditionOwned(s) && Enabled(s, a)
    ensures ConditionOwned(Apply(s, a))
  {
    if !IsForeign(a) {
      StepMovesCondition(s, a);
      ConditionFollows(s, Apply(s, a), a.t);
    }
  }

  lemma HoldsFollow(s: State, s': State, t: Task)
    requires HoldsMatch(s) && t in s.phase && OthersStay(s, s', t)
    requires s'.holds == if HoldsFile(s'.phase[t]) then s.holds[t := s'.phase[t].mode] else s.holds - {t}
    ensures HoldsMatch(s')
  {
  }

  lemma KeepsHolds(s: State, a: Action)
    requires HoldsMatch(s) && !s.affinityError && Enabled(s, a) && !a.CancelExit?
    ensures HoldsMatch(Apply(s, a)) && !Apply(s, a).affinityError
  {
    if !IsForeign(a) {
      ActionMovesOneTask(s, a);
      assert HoldsFile(s.phase[a.t]) <==> a.t in s.holds;
      HoldsFollow(s, Apply(s, a), a.t);
    }
  }

  lemma TaskKeepsFileExclusive(s: State, a: Action)
    requires FileExclusive(s) && Enabled(s, a) && !IsForeign(a)
    ensures FileExclusive(ApplyTask(s, a))
  {
    var holds := NextHolds(s, a);
    assert a.TryFile? ==> forall t | t in s.holds && t != a.t :: s.phase[a.t].mode == Read && s.holds[t] == Read;
    assert !a.TryFile? ==> forall t | t in holds :: t in s.holds && holds[t] == s.holds[t];
  }

  lemma ForeignKeepsFileExclusive(s: State, a: Action)
    requires FileExclusive(s) && Enabled(s, a) && IsForeign(a)
    ensures FileExclusive(ApplyForeign(s, a))
  {
    if a.ForeignAcquire? && a.mode == Write { assert s.holds.Keys == {}; }
  }

  lemma KeepsFileExclusive(s: State, a: Action)
    requires FileExclusive(s) && Enabled(s, a)
    ensures FileExclusive(Apply(s, a))
  {
    if IsForeign(a) { ForeignKeepsFileExclusive(s, a); } else { TaskKeepsFileExclusive(s, a); }
  }

  lemma NoReaderMeansNobodyReads(s: State)
    requires CountsMatch(s) && s.readers == 0
    ensures forall t | t in s.phase :: s.phase[t] != Inside(Read)
  {
    assert forall t | t in s.phase && s.phase[t] == Inside(Read) :: t in TasksInside(s, Read);
  }

  /** With no reader and no writer counted, nobody is inside. */
  lemma UncountedMeansEmpty(s: State)
    requires CountsMatch(s) && WriterAlone(s) && s.readers == 0 && !s.writer
    ensures forall t | t in s.phase :: !s.phase[t].Inside?
  {
    NoReaderMeansNobodyReads(s);
  }

  lemma WriterFollows(s: State, s': State, t: Task)
    requires WriterAlone(s) && t in s.phase && OthersStay(s, s', t)
    requires var p, p' := s.phase[t], s'.phase[t];
             && s'.writer == (IsActiveWriter(p') || (s.writer && !IsActiveWriter(p)))
             && ((p'.Inside? || p'.Releasing?) && !(p.Inside? || p.Releasing?) ==> !s.writer)
             && (IsActiveWriter(p') && !IsActiveWriter(p) ==>
                   forall u | u in s.phase && u != t :: !s.phase[u].Inside? && !s.phase[u].Releasing?)
             && (IsActiveWriter(p) && !IsActiveWriter(p') ==> !p'.Inside? && !p'.Releasing?)
    ensures WriterAlone(s')
  {
    assert IsActiveWriter(s'.phase[t]) || (s.writer && !IsActiveWriter(s.phase[t]))
           <==> exists u :: u in s'.phase && IsActiveWriter(s'.phase[u]);
  }

  /** A task that owns the condition is the only one that polls, releases or closes. */
  lemma OnlyOwner(s: State, t: Task)
    requires ConditionOwned(s) && t in s.phase && OwnsCondition(s.phase[t])
    ensures forall u | u in s.phase && u != t :: !OwnsCondition(s.phase[u])
  {
  }

  /** A body is entered only when it may be: alone if it writes, with no writer if it reads. */
  lemma EntryIsExclusive(s: State, t: Task)
    requires ConditionOwned(s) && CountsMatch(s) && WriterAlone(s) && PollersAdmitted(s)
    requires t in s.phase && s.phase[t].Polling?
    ensures !s.writer
    ensures s.phase[t].mode == Write ==>
              forall u | u in s.phase && u != t :: !s.phase[u].Inside? && !s.phase[u].Releasing?
  {
    OnlyOwner(s, t);
    if s.phase[t].mode == Write { UncountedMeansEmpty(s); }
  }

  lemma KeepsWriterAlone(s: State, a: Action)
    requires ConditionOwned(s) && CountsMatch(s) && WriterAlone(s) && PollersAdmitted(s)
    requires Enabled(s, a) && !a.CancelExit?
    ensures WriterAlone(Apply(s, a))
  {
    if !IsForeign(a) {
      ActionMovesOneTask(s, a);
      if a.Enter? {
        EntryIsExclusive(s, a.t);
      } else {
        WriterOtherwiseKept(s, a);
      }
      WriterFollows(s, Apply(s, a), a.t);
    }
  }

  lemma WriterOtherwiseKept(s: State, a: Action)
    requires WriterAlone(s) && Enabled(s, a) && !IsForeign(a) && !a.CancelExit? && !a.Enter?
    ensures var p, p' := s.phase[a.t], Apply(s, a).phase[a.t];
            && ((p'.Inside? || p'.Releasing?) ==> (p.Inside? || p.Releasing?))
            && (p'.Inside? || p'.Releasing? ==> p'.mode == p.mode && Apply(s, a).writer == s.writer)
            && (IsActiveWriter(p) && !IsActiveWriter(p') ==> !p'.Inside? && !p'.Releasing?)
            && Apply(s, a).writer == (IsActiveWriter(p') || (s.writer && !IsActiveWriter(p)))
  {
  }

  /** While another task owns the condition, nothing that the predicates read changes. */
  lemma OwnerProtectsFields(s: State, a: Action)
    requires ConditionOwned(s) && Enabled(s, a) && !IsForeign(a)
    requires !OwnsCondition(s.phase[a.t]) && s.condition.Some?
    ensures var s' := Apply(s, a);
            && s'.readers == s.readers && s'.writer == s.writer && s'.writersWaiting == s.writersWaiting
            && s'.closed == s.closed && s'.condition == s.condition
            && !NextPhase(s, a).Polling? && !NextPhase(s, a).Waiting? && !Notifies(s, a)
  {
  }

  lemma PollerStaysAdmitted(s: State, a: Action)
    requires PollersAdmitted(s) && Enabled(s, a) && !IsForeign(a) && NextPhase(s, a).Polling?
    ensures Ready(Apply(s, a), NextPhase(s, a).mode) && !Apply(s, a).closed
  {
    assert a.Admit? || a.TryFile?;
  }

  lemma KeepsPollersAdmitted(s: State, a: Action)
    requires ConditionOwned(s) && PollersAdmitted(s) && Enabled(s, a)
    ensures PollersAdmitted(Apply(s, a))
  {
    if !IsForeign(a) {
      ActionMovesOneTask(s, a);
      var s' := Apply(s, a);
      forall u | u in s'.phase && s'.phase[u].Polling? ensures Ready(s', s'.phase[u].mode) && !s'.closed {
        if u == a.t {
          PollerStaysAdmitted(s, a);
        } else {
          OnlyOwner(s, u);
          OwnerProtectsFields(s, a);
        }
      }
    }
  }

  /** Once the lock is quiet and closed, or being closed, a task can only move further out. */
  lemma QuietFollows(s: State, s': State, t: Task)
    requires ClosedQuiet(s) && t in s.phase && OthersStay(s, s', t)
    requires s'.closed || s'.phase[t].Closing? || s.closed ==>
               && s'.readers == 0 && !s'.writer
               && forall u | u in s.phase && u != t ::
                    !s.phase[u].Inside? && !s.phase[u].Releasing? && !s.phase[u].Polling? && !s.phase[u].Closing?
    requires s'.closed ==> var p' := s'.phase[t]; !p'.Inside? && !p'.Releasing? && !p'.Polling? && !p'.Closing?
    requires (exists u :: u in s.phase && u != t && s.phase[u].Closing?) ==>
               s'.readers == s.readers && s'.writer == s.writer && s'.closed == s.closed
    ensures ClosedQuiet(s')
  {
  }

  lemma QuietStep(s: State, a: Action)
    requires ClosedQuiet(s) && PollersAdmitted(s) && Enabled(s, a) && !IsForeign(a)
    requires s.readers == 0 && !s.writer ==> forall u | u in s.phase :: !s.phase[u].Inside?
    ensures Apply(s, a).closed || s.closed || Apply(s, a).phase[a.t].Closing? ==>
              && Apply(s, a).readers == 0 && !Apply(s, a).writer && s.readers == 0 && !s.writer
              && (s.closed || OwnsCondition(s.phase[a.t]) || s.condition == None)
    ensures Apply(s, a).closed ==> var p' := Apply(s, a).phase[a.t];
                                   !p'.Inside? && !p'.Releasing? && !p'.Polling? && !p'.Closing?
    ensures !OwnsCondition(s.phase[a.t]) && s.condition.Some? ==>
              Apply(s, a).readers == s.readers && Apply(s, a).writer == s.writer && Apply(s, a).closed == s.closed
  {
  }

  lemma KeepsClosedQuiet(s: State, a: Action)
    requires ConditionOwned(s) && CountsMatch(s) && WriterAlone(s) && PollersAdmitted(s) && ClosedQuiet(s)
    requires Enabled(s, a)
    ensures ClosedQuiet(Apply(s, a))
  {
    if !IsForeign(a) {
      ActionMovesOneTask(s, a);
      if OwnsCondition(s.phase[a.t]) { OnlyOwner(s, a.t); }
      if s.readers == 0 && !s.writer { UncountedMeansEmpty(s); }
      QuietStep(s, a);
      QuietFollows(s, Apply(s, a), a.t);
    }
  }

  /** Without a notification a predicate becomes true only by the exit of a reader, which notifies next. */
  lemma ReadyOnlyByExit(s: State, a: Action, m: Mode)
    requires Enabled(s, a) && !IsForeign(a) && !Notifies(s, a)
    requires Ready(Apply(s, a), m) && !a.BeginExit? && s.readers >= 0 && s.writersWaiting >= 0
    ensures Ready(s, m)
  {
  }

  lemma KeepsNoLostWakeup(s: State, a: Action)
    requires ConditionOwned(s) && CountsMatch(s) && NoLostWakeup(s) && Enabled(s, a)
    ensures NoLostWakeup(Apply(s, a))
  {
    if !IsForeign(a) {
      ActionMovesOneTask(s, a);
      var s' := Apply(s, a);
      forall u | u in s'.phase && s'.phase[u].Waiting? && !s'.phase[u].notified && Ready(s', s'.phase[u].mode)
        ensures s'.condition.Some? && s'.condition.value in s'.phase && s'.phase[s'.condition.value].Releasing?
      {
        AsleepMeansReleasing(s, a, u);
      }
    }
  }

  lemma AsleepMeansReleasing(s: State, a: Action, u: Task)
    requires ConditionOwned(s) && CountsMatch(s) && NoLostWakeup(s) && Enabled(s, a) && !IsForeign(a)
    requires OthersStay(s, Apply(s, a), a.t) && Apply(s, a).phase[a.t] == NextPhase(s, a)
    requires var s' := Apply(s, a);
             u in s'.phase && s'.phase[u].Waiting? && !s'.phase[u].notified && Ready(s', s'.phase[u].mode)
    ensures var s' := Apply(s, a);
            s'.condition.Some? && s'.condition.value in s'.phase && s'.phase[s'.condition.value].Releasing?
  {
    assert !Notifies(s, a);
    if !a.BeginExit? {
      ReadyOnlyByExit(s, a, Apply(s, a).phase[u].mode);
      assert u != a.t;
      assert s.phase[u] == Apply(s, a).phase[u];
      var owner := s.condition.value;
      assert s.phase[owner].Releasing?;
      if owner == a.t {
        assert a.ReleaseFile?;
      } else {
        OnlyOwner(s, owner);
        OwnerProtectsFields(s, a);
      }
    }
  }

  /** Every action keeps the invariant, except the cancellation of an exit block, which always breaks it. */
  lemma StepKeepsInv(s: State, a: Action)
    requires Inv(s) && Enabled(s, a)
    ensures Inv(Apply(s, a)) <==> !a.CancelExit?
  {
    if a.CancelExit? {
      assert a.t in Apply(s, a).holds;
    } else {
      KeepsCounts(s, a);
      KeepsConditionOwned(s, a);
      KeepsHolds(s, a);
      KeepsFileExclusive(s, a);
      KeepsWriterAlone(s, a);
      KeepsPollersAdmitted(s, a);
      KeepsClosedQuiet(s, a);
      KeepsNoLostWakeup(s, a);
    }
  }

  // ---------------------------------------------------------------------------
  // Safety over whole runs
  // ---------------------------------------------------------------------------

  lemma NobodyHoldsWhenQuiet(s: State)
    requires HoldsMatch(s)
    requires forall t | t in s.phase :: !HoldsFile(s.phase[t])
    ensures s.holds == map[]
  {
    assert s.holds.Keys == {};
  }

  lemma InvImpliesSafe(s: State)
    requires Inv(s)
    ensures Safe(s)
  {
    forall t, m | t in TasksInside(s, m) ensures t in s.holds && s.holds[t] == m { }
    if s.closed { NobodyHoldsWhenQuiet(s); }
  }

  lemma {:induction false} RunKeepsInv(states: seq<State>, actions: seq<Action>, i: nat)
    requires IsRun(states, actions) && ExitsComplete(actions) && i < |states|
    ensures Inv(states[i])
  {
    if i > 0 {
      RunKeepsInv(states, actions, i - 1);
      assert actions[i - 1] in actions;
      StepKeepsInv(states[i - 1], actions[i - 1]);
    } else {
      assert TasksInside(states[0], Read) == {} && PendingWriters(states[0]) == {};
    }
  }

  /** In every state of every run with complete exits, all safety claims hold. */
  lemma RunIsSafe(states: seq<State>, actions: seq<Action>)
    requires IsRun(states, actions) && ExitsComplete(actions)
    ensures forall i | 0 <= i < |states| :: Safe(states[i])
  {
    forall i | 0 <= i < |states| ensures Safe(states[i]) {
      RunKeepsInv(states, actions, i);
      InvImpliesSafe(states[i]);
    }
  }

  /** A reader's body starts only when no writer is pending, and a writer's only when nobody is inside. */
  lemma EntryRespectsWriters(states: seq<State>, actions: seq<Action>, i: nat)
    requires IsRun(states, actions) && ExitsComplete(actions) && i < |actions|
    requires actions[i].Enter?
    ensures states[i].phase[actions[i].t].mode == Read ==>
              PendingWriters(states[i]) == {} && TasksInside(states[i], Write) == {}
    ensures states[i].phase[actions[i].t].mode == Write ==>
              PendingWriters(states[i]) != {} && forall u | u in states[i].phase :: !states[i].phase[u].Inside?
  {
    RunKeepsInv(states, actions, i);
    var s, t := states[i], actions[i].t;
    EntryIsExclusive(s, t);
    if s.phase[t].mode == Read {
      assert |PendingWriters(s)| == 0;
      assert forall u | u in TasksInside(s, Write) :: IsActiveWriter(s.phase[u]);
    } else {
      assert t in PendingWriters(s);
    }
  }

  lemma StepReleasesOwnHold(s: State, a: Action)
    requires HoldsMatch(s) && Enabled(s, a)
    ensures a.ReleaseFile? ==> a.t in s.holds
    ensures forall u | u in s.holds && u !in Apply(s, a).holds :: (a.ReleaseFile? || a.AbandonPoll?) && a.t == u
  {
  }

  /** Every release of the file lock, also at an abandoned poll, takes back the releasing task's own hold only. */
  lemma ReleaseIsByOwner(states: seq<State>, actions: seq<Action>, i: nat)
    requires IsRun(states, actions) && ExitsComplete(actions) && i < |actions|
    ensures actions[i].ReleaseFile? ==> actions[i].t in states[i].holds
    ensures forall u | u in states[i].holds && u !in states[i + 1].holds ::
              (actions[i].ReleaseFile? || actions[i].AbandonPoll?) && actions[i].t == u
  {
    RunKeepsInv(states, actions, i);
    StepReleasesOwnHold(states[i], actions[i]);
  }

  lemma ClosingMeansNoHolds(s: State, t: Task)
    requires Inv(s) && t in s.phase && s.phase[t] == Closing
    ensures s.holds == map[]
  {
    UncountedMeansEmpty(s);
    OnlyOwner(s, t);
    NobodyHoldsWhenQuiet(s);
  }

  lemma OnlyCloseCloses(s: State, a: Action)
    requires Enabled(s, a)
    ensures Apply(s, a).closed <==> s.closed || a.FinishClose?
    ensures a.FinishClose? ==> a.t in s.phase && s.phase[a.t] == Closing
  {
  }

  lemma StepClosesQuietly(s: State, a: Action)
    requires Inv(s) && Enabled(s, a)
    ensures s.closed ==> Apply(s, a).closed
    ensures !s.closed && Apply(s, a).closed ==> s.holds == map[]
  {
    OnlyCloseCloses(s, a);
    if a.FinishClose? { ClosingMeansNoHolds(s, a.t); }
  }

  lemma {:induction false} ClosedStays(states: seq<State>, actions: seq<Action>, i: nat, j: nat)
    requires IsRun(states, actions) && i <= j < |states| && states[i].closed
    ensures states[j].closed
    decreases j
  {
    if i < j {
      ClosedStays(states, actions, i, j - 1);
      OnlyCloseCloses(states[j - 1], actions[j - 1]);
    }
  }

  /** The lock closes only when nobody holds it, and from then on nobody is ever inside. */
  lemma ClosedStaysEmpty(states: seq<State>, actions: seq<Action>, i: nat, j: nat)
    requires IsRun(states, actions) && ExitsComplete(actions) && i <= j < |states|
    requires states[i].closed
    ensures states[j].closed && states[j].holds == map[]
    ensures forall t | t in states[j].phase :: !states[j].phase[t].Inside?
    ensures i > 0 && !states[i - 1].closed ==> states[i - 1].holds == map[]
  {
    ClosedStays(states, actions, i, j);
    RunKeepsInv(states, actions, j);
    InvImpliesSafe(states[j]);
    if i > 0 {
      RunKeepsInv(states, actions, i - 1);
      StepClosesQuietly(states[i - 1], actions[i - 1]);
    }
  }

  // ---------------------------------------------------------------------------
  // What a cancelled exit costs
  // ---------------------------------------------------------------------------

  predicate Engaged(p: Phase) {
    p.Polling? || p.Inside? || p.Releasing?
  }

  /** `writer` is set with nobody left to reset it, and the file is still held for writing. */
  ghost predicate WriterStuck(s: State, t: Task) {
    && s.writer && !s.closed
    && t in s.holds && s.holds[t] == Write
    && forall u | u in s.phase :: !Engaged(s.phase[u]) && !s.phase[u].Closing?
  }

  lemma CancelledWriterSticks(s: State, t: Task)
    requires Inv(s) && Enabled(s, CancelExit(t)) && s.phase[t].mode == Write
    ensures WriterStuck(Apply(s, CancelExit(t)), t)
  {
    ActionMovesOneTask(s, CancelExit(t));
    assert IsActiveWriter(s.phase[t]);
  }

  lemma WriterStaysStuck(s: State, a: Action, t: Task)
    requires WriterStuck(s, t) && Enabled(s, a)
    ensures WriterStuck(Apply(s, a), t)
  {
    if !IsForeign(a) {
      ActionMovesOneTask(s, a);
      StuckTaskStaysOut(s, a, t);
    }
  }

  lemma StuckTaskStaysOut(s: State, a: Action, t: Task)
    requires WriterStuck(s, t) && Enabled(s, a) && !IsForeign(a)
    ensures var s' := Apply(s, a);
            && s'.writer && !s'.closed && s'.holds == s.holds
            && !Engaged(NextPhase(s, a)) && !NextPhase(s, a).Closing?
  {
  }

  /**
   After a writer's exit was cancelled, nobody in this process ever enters again, nobody in any other
   can, the lock cannot be closed, and no state with the condition free is safe.
   */
  lemma {:induction false} CancelledWriterLocksEverybodyOut(states: seq<State>, actions: seq<Action>, i: nat, j: nat)
    requires IsRun(states, actions) && i < j < |states|
    requires Inv(states[i]) && actions[i].CancelExit? && states[i].phase[actions[i].t].mode == Write
    ensures WriterStuck(states[j], actions[i].t)
    ensures forall m :: !Enabled(states[j], ForeignAcquire(m))
    ensures states[j].condition == None ==> !Safe(states[j])
    decreases j
  {
    if j == i + 1 {
      CancelledWriterSticks(states[i], actions[i].t);
    } else {
      CancelledWriterLocksEverybodyOut(states, actions, i, j - 1);
      WriterStaysStuck(states[j - 1], actions[j - 1], actions[i].t);
    }
    StuckMeans(states[j], actions[i].t);
  }

  lemma StuckMeans(s: State, t: Task)
    requires WriterStuck(s, t)
    ensures forall m :: !Enabled(s, ForeignAcquire(m))
    ensures s.condition == None ==> !Safe(s)
  {
    assert t in s.holds;
    assert TasksInside(s, Write) == {};
  }

  predicate EngagedForWriting(p: Phase) {
    Engaged(p) && p.mode == Write
  }

  /** More readers are counted than are inside, and no writer is on its way in. */
  ghost predicate ReaderLeaked(s: State) {
    && s.readers > |TasksInside(s, Read)| && !s.closed
    && forall u | u in s.phase :: !EngagedForWriting(s.phase[u]) && !s.phase[u].Closing?
  }

  lemma CancelledReaderLeaks(s: State, t: Task)
    requires Inv(s) && Enabled(s, CancelExit(t)) && s.phase[t].mode == Read
    ensures ReaderLeaked(Apply(s, CancelExit(t)))
  {
    var s' := Apply(s, CancelExit(t));
    ActionMovesOneTask(s, CancelExit(t));
    CountsAfterMove(s, s', t);
    assert t in TasksInside(s, Read);
    NoWriterBesideReader(s, t);
  }

  /** While a reader is inside, no writer is, or is about to be. */
  lemma NoWriterBesideReader(s: State, t: Task)
    requires Inv(s) && t in s.phase && s.phase[t] == Inside(Read)
    ensures !s.closed && forall u | u in s.phase :: !EngagedForWriting(s.phase[u]) && !s.phase[u].Closing?
  {
    assert t in TasksInside(s, Read);
    assert s.readers > 0;
    forall u | u in s.phase ensures !EngagedForWriting(s.phase[u]) && !s.phase[u].Closing? {
      assert IsActiveWriter(s.phase[u]) ==> u == t;
    }
  }

  lemma LeakedReaderBlocks(s: State, a: Action)
    requires ReaderLeaked(s) && Enabled(s, a) && !IsForeign(a)
    ensures !Apply(s, a).closed && !EngagedForWriting(NextPhase(s, a)) && !NextPhase(s, a).Closing?
    ensures Apply(s, a).readers - s.readers >=
            Unit(NextPhase(s, a) == Inside(Read)) - Unit(s.phase[a.t] == Inside(Read))
  {
  }

  lemma ReaderStaysLeaked(s: State, a: Action)
    requires ReaderLeaked(s) && Enabled(s, a)
    ensures ReaderLeaked(Apply(s, a))
  {
    if IsForeign(a) {
      assert TasksInside(Apply(s, a), Read) == TasksInside(s, Read);
    } else {
      ActionMovesOneTask(s, a);
      LeakedReaderBlocks(s, a);
      LeakFollows(s, Apply(s, a), a.t);
    }
  }

  lemma LeakFollows(s: State, s': State, t: Task)
    requires ReaderLeaked(s) && t in s.phase && OthersStay(s, s', t) && !s'.closed
    requires !EngagedForWriting(s'.phase[t]) && !s'.phase[t].Closing?
    requires s'.readers - s.readers >= Unit(s'.phase[t] == Inside(Read)) - Unit(s.phase[t] == Inside(Read))
    ensures ReaderLeaked(s')
  {
    CountsAfterMove(s, s', t);
    assert t in TasksInside(s, Read) <==> s.phase[t] == Inside(Read);
  }

  /** After a reader's exit was cancelled, no writer ever enters, the lock cannot be closed, and no state is safe. */
  lemma {:induction false} CancelledReaderStarvesWriters(states: seq<State>, actions: seq<Action>, i: nat, j: nat)
    requires IsRun(states, actions) && i < j < |states|
    requires Inv(states[i]) && actions[i].CancelExit? && states[i].phase[actions[i].t].mode == Read
    ensures ReaderLeaked(states[j]) && !Safe(states[j])
    ensures forall t :: !(t in states[j].phase && EngagedForWriting(states[j].phase[t]))
    decreases j
  {
    if j == i + 1 {
      CancelledReaderLeaks(states[i], actions[i].t);
    } else {
      CancelledReaderStarvesWriters(states, actions, i, j - 1);
      ReaderStaysLeaked(states[j - 1], actions[j - 1]);
    }
    LeakMeans(states[j]);
  }

  lemma LeakMeans(s: State)
    requires ReaderLeaked(s)
    ensures !Safe(s) && forall t :: !(t in s.phase && EngagedForWriting(s.phase[t]))
  {
  }

  // A task arrives, is admitted, takes the file lock and enters; then another one takes the condition.

  function EntryAction(m: Mode, i: nat): Action {
    if i == 0 then Arrive(0, m)
    else if i == 1 then Admit(0)
    else if i == 2 then TryFile(0)
    else if i == 3 then Enter(0)
    else Arrive(1, Read)
  }

  function EntryPhase(m: Mode, i: nat): Phase {
    if i == 0 then Outside
    else if i == 1 then Checking(m, false)
    else if i <= 3 then Polling(m, i == 3)
    else Inside(m)
  }

  function EntryState(m: Mode, i: nat): State {
    State(
      if i >= 4 && m == Read then 1 else 0,
      i >= 4 && m == Write,
      if 1 <= i <= 3 && m == Write then 1 else 0,
      false,
      if 1 <= i <= 3 then Some(0) else if i == 5 then Some(1) else None,
      map[0 := EntryPhase(m, i), 1 := if i == 5 then Checking(Read, false) else Outside],
      if i >= 3 then map[0 := m] else map[],
      0, false, false)
  }

  lemma EntryStep(m: Mode, i: nat)
    requires i < 5
    ensures Enabled(EntryState(m, i), EntryAction(m, i))
    ensures Apply(EntryState(m, i), EntryAction(m, i)) == EntryState(m, i + 1)
  {
    var s, a, s' := EntryState(m, i), EntryAction(m, i), EntryState(m, i + 1);
    assert s.phase[a.t] == if a.t == 0 then EntryPhase(m, i) else Outside;
    assert s.phase[a.t := NextPhase(s, a)] == s'.phase;
    assert NotifyAll(s'.phase) == s'.phase;
  }

  lemma EntryRun(m: Mode) returns (states: seq<State>, actions: seq<Action>)
    ensures IsRun(states, actions) && |actions| == 5 && ExitsComplete(actions) && states[5] == EntryState(m, 5)
  {
    states, actions := seq(6, (i: nat) => EntryState(m, i)), seq(5, (i: nat) => EntryAction(m, i));
    forall i | 0 <= i < 5
      ensures Enabled(states[i], actions[i]) && states[i + 1] == Apply(states[i], actions[i])
    {
      EntryStep(m, i);
    }
  }

  /** Runs with a cancelled exit exist, for a reader and for a writer: another task has the condition meanwhile. */
  lemma CancelledExitRun(m: Mode) returns (states: seq<State>, actions: seq<Action>)
    ensures IsRun(states, actions) && |actions| == 6 && Inv(states[5])
    ensures actions[5] == CancelExit(0) && 0 in states[5].phase && states[5].phase[0] == Inside(m)
    ensures states[5].condition == Some(1)
  {
    var before, taken := EntryRun(m);
    RunKeepsInv(before, taken, 5);
    states, actions := ExtendRun(before, taken, CancelExit(0));
  }

  lemma ExtendRun(states: seq<State>, actions: seq<Action>, a: Action)
    returns (states': seq<State>, actions': seq<Action>)
    requires IsRun(states, actions) && Enabled(states[|actions|], a)
    ensures states' == states + [Apply(states[|actions|], a)] && actions' == actions + [a]
    ensures IsRun(states', actions')
  {
    states', actions' := states + [Apply(states[|actions|], a)], actions + [a];
  }

  // ---------------------------------------------------------------------------
  // Progress
  // ---------------------------------------------------------------------------

  /**
   A task polling the file lock is never blocked by its own process, so once no other process
   conflicts it takes the file lock and enters, giving the condition back.
   */
  lemma PollerNotSelfBlocked(s: State, t: Task)
    requires Inv(s) && t in s.phase && s.phase[t].Polling? && !s.phase[t].held
    ensures LocalFree(s, t, s.phase[t].mode)
    ensures ForeignFree(s, s.phase[t].mode) ==>
              && Enabled(s, TryFile(t))
              && Enabled(Apply(s, TryFile(t)), Enter(t))
              && var s' := Apply(Apply(s, TryFile(t)), Enter(t));
                 s'.phase[t] == Inside(s.phase[t].mode) && s'.condition == None
  {
    OnlyOwner(s, t);
    EntryIsExclusive(s, t);
    forall u | u in s.holds && u != t ensures s.phase[t].mode == Read && s.holds[u] == Read {
      assert HoldsFile(s.phase[u]) && s.phase[u].Inside?;
      assert IsActiveWriter(s.phase[u]) || s.phase[u] == Inside(Read);
    }
  }

  /** The steps the code takes on its own: no timeout, no cancellation, no arrival, no other process. */
  predicate Productive(s: State, a: Action) {
    && Enabled(s, a)
    && match a
       case Suspend(_) => true
       case Wake(_) => true
       case Admit(_) => true
       case TryFile(_) => true
       case Enter(_) => true
       case BeginExit(_) => true
       case ReleaseFile(_) => true
       case FinishExit(_) => true
       case FinishClose(_) => true
       case GiveUp(t) => s.phase[t].expired || (s.closed && Ready(s, s.phase[t].mode))
       case _ => false
  }

  ghost predicate AllOutside(s: State) {
    forall t | t in s.phase :: s.phase[t] == Outside
  }

  /** The owner of the condition can always go on. */
  lemma OwnerCanStep(s: State, t: Task) returns (a: Action)
    requires Inv(s) && s.condition == Some(t) && !s.foreignWriter && s.foreignReaders == 0
    ensures Productive(s, a)
  {
    match s.phase[t]
    case Checking(m, expired) =>
      a := if expired then GiveUp(t) else if !Ready(s, m) then Suspend(t) else if s.closed then GiveUp(t) else Admit(t);
    case Polling(m, held) =>
      if held {
        a := Enter(t);
      } else {
        PollerNotSelfBlocked(s, t);
        a := TryFile(t);
      }
    case Releasing(_, held) => a := if held then ReleaseFile(t) else FinishExit(t);
    case Closing => a := FinishClose(t);
  }

  /** With the condition free, a counted reader or writer is inside and can leave. */
  lemma SomeoneCanLeave(s: State) returns (a: Action)
    requires ConditionOwned(s) && CountsMatch(s) && WriterAlone(s)
    requires s.condition == None && (s.writer || s.readers != 0)
    ensures Productive(s, a)
  {
    if s.writer {
      var w :| w in s.phase && IsActiveWriter(s.phase[w]);
      a := BeginExit(w);
    } else {
      assert TasksInside(s, Read) != {};
      var r :| r in TasksInside(s, Read);
      a := BeginExit(r);
    }
  }

  /** With the condition free, a task that is not outside can itself go on or waits for one that can. */
  lemma SomeoneCanStep(s: State, t: Task) returns (a: Action)
    requires Inv(s) && s.condition == None && t in s.phase && s.phase[t] != Outside
    ensures Productive(s, a)
  {
    if s.phase[t].Inside? {
      a := BeginExit(t);
    } else if s.phase[t].notified {
      a := Wake(t);
    } else if s.writer || s.readers != 0 {
      a := SomeoneCanLeave(s);
    } else {
      // a reader asleep behind a pending writer
      assert PendingWriters(s) != {};
      var w :| w in PendingWriters(s);
      a := Wake(w);
    }
  }

  /**
   No deadlock: while some task is not outside and no other process holds the file, some task can
   take a step that is neither a timeout nor a cancellation.
   */
  lemma DeadlockFree(s: State)
    requires Inv(s) && !s.foreignWriter && s.foreignReaders == 0
    ensures AllOutside(s) || exists a :: Productive(s, a)
  {
    if t :| t in s.phase && s.phase[t] != Outside {
      if s.condition.Some? {
        var a := OwnerCanStep(s, s.condition.value);
      } else {
        var a := SomeoneCanStep(s, t);
      }
    }
  }

  // How far a task still is from being outside.
  function Rank(p: Phase): nat {
    match p
    case Outside => 0
    case Checking(_, _) => 6
    case Waiting(_, _) => 6
    case Polling(_, held) => if held then 4 else 5
    case Inside(_) => 3
    case Releasing(_, held) => if held then 2 else 1
    case Closing => 1
  }

  ghost function AtLeast(s: State, rank: nat): set<Task> {
    set t | t in s.phase && Rank(s.phase[t]) >= rank
  }

  ghost function Distance(s: State): nat {
    |AtLeast(s, 1)| + |AtLeast(s, 2)| + |AtLeast(s, 3)| + |AtLeast(s, 4)| + |AtLeast(s, 5)| + |AtLeast(s, 6)|
  }

  ghost function Notified(s: State): set<Task> {
    set t | t in s.phase && s.phase[t].Waiting? && s.phase[t].notified
  }

  ghost function Testing(s: State): set<Task> {
    set t | t in s.phase && s.phase[t].Checking?
  }

  /** Predicate tests still owed to waiting tasks. */
  ghost function Tests(s: State): nat {
    2 * |Notified(s)| + |Testing(s)|
  }

  ghost function Potential(s: State): nat {
    Distance(s) * (2 * |s.phase| + 1) + Tests(s)
  }

  lemma LevelsShrink(s: State, s': State, t: Task)
    requires t in s.phase && OthersStay(s, s', t) && Rank(s'.phase[t]) <= Rank(s.phase[t])
    ensures Distance(s') <= Distance(s)
    ensures Rank(s'.phase[t]) < Rank(s.phase[t]) ==> Distance(s') < Distance(s)
  {
    SubsetSize(AtLeast(s', 1), AtLeast(s, 1));
    SubsetSize(AtLeast(s', 2), AtLeast(s, 2));
    SubsetSize(AtLeast(s', 3), AtLeast(s, 3));
    SubsetSize(AtLeast(s', 4), AtLeast(s, 4));
    SubsetSize(AtLeast(s', 5), AtLeast(s, 5));
    SubsetSize(AtLeast(s', 6), AtLeast(s, 6));
    var r := Rank(s.phase[t]);
    assert t in AtLeast(s, r);
    assert Rank(s'.phase[t]) < r ==> t !in AtLeast(s', r);
  }

  lemma TestsBounded(s: State)
    ensures Tests(s) <= 2 * |s.phase|
  {
    assert Notified(s) !! Testing(s);
    SubsetSize(Notified(s) + Testing(s), s.phase.Keys);
  }

  /** One task moves and nobody is notified. */
  lemma TestsAfterMove(s: State, s': State, t: Task)
    requires t in s.phase && t in s'.phase && s'.phase == s.phase[t := s'.phase[t]]
    requires || (s.phase[t].Checking? && s'.phase[t].Waiting? && !s'.phase[t].notified)
             || (s.phase[t].Waiting? && s.phase[t].notified && s'.phase[t].Checking?)
    ensures Tests(s') < Tests(s)
  {
    if s.phase[t].Checking? {
      assert Notified(s') == Notified(s);
      assert Testing(s') == Testing(s) - {t} && t in Testing(s);
    } else {
      assert Notified(s') == Notified(s) - {t} && t in Notified(s);
      assert Testing(s') == Testing(s) + {t};
    }
  }

  lemma TestsDrop(s: State, a: Action)
    requires Enabled(s, a) && (a.Wake? || a.Suspend?)
    ensures Tests(Apply(s, a)) < Tests(s)
  {
    TestsAfterMove(s, Apply(s, a), a.t);
  }

  lemma ProductiveRank(s: State, a: Action)
    requires Productive(s, a)
    ensures a.t in s.phase && OthersStay(s, Apply(s, a), a.t)
    ensures Rank(Apply(s, a).phase[a.t]) <= Rank(s.phase[a.t])
    ensures !a.Wake? && !a.Suspend? ==> Rank(Apply(s, a).phase[a.t]) < Rank(s.phase[a.t])
  {
    ActionMovesOneTask(s, a);
  }

  lemma Lexicographic(d: nat, d': nat, n: nat, v: nat, v': nat)
    requires (d' <= d && v' < v) || (d' < d && v' < n)
    ensures d' * n + v' < d * n + v
  {
    if d' < d {
      assert (d' + 1) * n <= d * n;
    } else {
      assert d' * n <= d * n;
    }
  }

  lemma PotentialDrops(s: State, a: Action)
    requires Productive(s, a)
    ensures Potential(Apply(s, a)) < Potential(s)
  {
    var s' := Apply(s, a);
    ProductiveRank(s, a);
    LevelsShrink(s, s', a.t);
    assert |s'.phase| == |s.phase| by { assert s'.phase.Keys == s.phase.Keys; }
    if a.Wake? || a.Suspend? { TestsDrop(s, a); }
    TestsBounded(s');
    Lexicographic(Distance(s), Distance(s'), 2 * |s.phase| + 1, Tests(s), Tests(s'));
  }

  lemma ProductiveStep(s: State, a: Action)
    requires Inv(s) && !s.foreignWriter && s.foreignReaders == 0 && Productive(s, a)
    ensures Inv(Apply(s, a)) && !Apply(s, a).foreignWriter && Apply(s, a).foreignReaders == 0
    ensures Potential(Apply(s, a)) < Potential(s)
  {
    StepKeepsInv(s, a);
    PotentialDrops(s, a);
  }

  /** A run of productive steps. */
  ghost predicate IsProductiveRun(states: seq<State>, actions: seq<Action>) {
    && |states| == |actions| + 1
    && forall i | 0 <= i < |actions| ::
         Productive(states[i], actions[i]) && states[i + 1] == Apply(states[i], actions[i])
  }

  lemma {:induction false} ProductiveRunsShrink(states: seq<State>, actions: seq<Action>, i: nat)
    requires IsProductiveRun(states, actions) && i < |states|
    requires Inv(states[0]) && !states[0].foreignWriter && states[0].foreignReaders == 0
    ensures Inv(states[i]) && !states[i].foreignWriter && states[i].foreignReaders == 0
    ensures i + Potential(states[i]) <= Potential(states[0])
  {
    if i > 0 {
      ProductiveRunsShrink(states, actions, i - 1);
      ProductiveStep(states[i - 1], actions[i - 1]);
    }
  }

  /**
   No livelock: from any state, a run of productive steps is finite, bounded by the `Potential` of
   its start.  A run that can go on no further has every task outside, without the help of a
   time-out or a cancellation.
   */
  lemma ProductiveRunsDrain(states: seq<State>, actions: seq<Action>)
    requires IsProductiveRun(states, actions)
    requires Inv(states[0]) && !states[0].foreignWriter && states[0].foreignReaders == 0
    ensures |actions| <= Potential(states[0])
    ensures (!exists a :: Productive(states[|actions|], a)) ==> AllOutside(states[|actions|])
  {
    ProductiveRunsShrink(states, actions, |actions|);
    DeadlockFree(states[|actions|]);
  }
}
