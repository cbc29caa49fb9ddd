/**
 The task-affine read/write lock: an in-process condition with reader, writer and
 pending-writer counters, wrapped around a file lock shared with other processes whose
 holds belong to the task that took them.

 Each `await` in the source is a point where tasks interleave, so an acquisition is a
 sequence of actions.  `Enabled` says when a task may take one and `Apply` what it does.
 */
module TaskAffineLock {
  import opened Basics

  type Task = nat

  datatype Mode = Read | Write

  /** Where a task is.  `held` tells whether the file lock is held by the task at that point. */
  datatype Phase =
    | Outside
    | Checking(mode: Mode, expired: bool)   // owns the condition, about to test its predicate
    | Waiting(mode: Mode, notified: bool)   // suspended in condition.wait, condition given up
    | Polling(mode: Mode, held: bool)       // owns the condition, trying the file lock
    | Inside(mode: Mode)                    // running the caller's body
    | Releasing(mode: Mode, held: bool)     // owns the condition, giving the file lock back
    | Closing                               // owns the condition, closing the file lock

  datatype State = State(
    readers: int,
    writer: bool,
    writersWaiting: int,
    closed: bool,
    condition: Option<Task>,
    phase: map<Task, Phase>,
    holds: map<Task, Mode>,       // this process's holds on the file, per task
    foreignReaders: int,          // holds of other processes
    foreignWriter: bool,
    affinityError: bool)          // a task tried to release a hold that is not its own

  datatype Action =
    | Arrive(t: Task, mode: Mode)
    | Suspend(t: Task)
    | Wake(t: Task)
    | Expire(t: Task)
    | GiveUp(t: Task)
    | Admit(t: Task)
    | TryFile(t: Task)
    | AbandonPoll(t: Task)
    | Enter(t: Task)
    | BeginExit(t: Task)
    | ReleaseFile(t: Task)
    | FinishExit(t: Task)
    | BeginClose(t: Task)
    | FinishClose(t: Task)
    | AbortClose(t: Task)
    | CancelExit(t: Task)
    | ForeignAcquire(mode: Mode)
    | ForeignRelease(mode: Mode)

  // ---------------------------------------------------------------------------
  // The protocol
  // ---------------------------------------------------------------------------

  predicate Init(s: State) {
    && s.readers == 0 && !s.writer && s.writersWaiting == 0 && !s.closed
    && s.condition == None && s.holds == map[] && !s.affinityError
    && (forall t | t in s.phase :: s.phase[t] == Outside)
    && s.foreignReaders >= 0 && (s.foreignWriter ==> s.foreignReaders == 0)
  }

  /** The predicate a task waits for under the condition. */
  predicate Ready(s: State, m: Mode) {
    !s.writer && (if m == Read then s.writersWaiting == 0 else s.readers == 0)
  }

  /** No hold of another process conflicts with acquiring in mode `m`. */
  predicate ForeignFree(s: State, m: Mode) {
    !s.foreignWriter && (m == Write ==> s.foreignReaders == 0)
  }

  /** No hold of another task of this process conflicts with `t` acquiring in mode `m`. */
  predicate LocalFree(s: State, t: Task, m: Mode) {
    forall u | u in s.holds && u != t :: m == Read && s.holds[u] == Read
  }

  predicate Enabled(s: State, a: Action) {
    match a
    case Arrive(t, m) => t in s.phase && s.phase[t] == Outside && s.condition == None && !s.closed
    case Suspend(t) =>
      t in s.phase && s.phase[t].Checking? && !s.phase[t].expired && !Ready(s, s.phase[t].mode)
    case Wake(t) => t in s.phase && s.phase[t].Waiting? && s.phase[t].notified && s.condition == None
    case Expire(t) => t in s.phase && s.phase[t].Waiting? && s.condition == None
    case GiveUp(t) => t in s.phase && s.phase[t].Checking?
    case Admit(t) =>
      && t in s.phase && s.phase[t].Checking? && !s.phase[t].expired
      && Ready(s, s.phase[t].mode) && !s.closed
    case TryFile(t) =>
      && t in s.phase && s.phase[t].Polling? && !s.phase[t].held
      && ForeignFree(s, s.phase[t].mode) && LocalFree(s, t, s.phase[t].mode)
    case AbandonPoll(t) => t in s.phase && s.phase[t].Polling?
    case Enter(t) => t in s.phase && s.phase[t].Polling? && s.phase[t].held
    case BeginExit(t) => t in s.phase && s.phase[t].Inside? && s.condition == None
    case ReleaseFile(t) => t in s.phase && s.phase[t].Releasing? && s.phase[t].held
    case FinishExit(t) => t in s.phase && s.phase[t].Releasing? && !s.phase[t].held
    case BeginClose(t) =>
      && t in s.phase && s.phase[t] == Outside && s.condition == None
      && s.readers == 0 && !s.writer && !s.closed
    case FinishClose(t) => t in s.phase && s.phase[t] == Closing
    case AbortClose(t) => t in s.phase && s.phase[t] == Closing
    // a free condition is taken without suspending, so a cancellation reaches only an exit that has to wait for it
    case CancelExit(t) => t in s.phase && s.phase[t].Inside? && s.condition.Some?
    case ForeignAcquire(m) =>
      ForeignFree(s, m) && forall u | u in s.holds :: m == Read && s.holds[u] == Read
    case ForeignRelease(m) => if m == Read then s.foreignReaders > 0 else s.foreignWriter
  }

  predicate IsForeign(a: Action) {
    a.ForeignAcquire? || a.ForeignRelease?
  }

  /** Where the acting task goes. */
  function NextPhase(s: State, a: Action): Phase
    requires Enabled(s, a) && !IsForeign(a)
  {
    var p := s.phase[a.t];
    match a
    case Arrive(_, m) => Checking(m, false)
    case Suspend(_) => Waiting(p.mode, false)
    case Wake(_) => Checking(p.mode, false)
    case Expire(_) => Checking(p.mode, true)
    case GiveUp(_) => Outside
    case Admit(_) => Polling(p.mode, false)
    case TryFile(_) => Polling(p.mode, true)
    case AbandonPoll(_) => Outside
    case Enter(_) => Inside(p.mode)
    case BeginExit(_) => Releasing(p.mode, true)
    case ReleaseFile(_) => Releasing(p.mode, false)
    case FinishExit(_) => Outside
    case BeginClose(_) => Closing
    case FinishClose(_) => Outside
    case AbortClose(_) => Outside
    case CancelExit(_) => Outside
  }

  /** The condition is taken, given back, or left as it is. */
  function NextCondition(s: State, a: Action): Option<Task>
    requires !IsForeign(a)
  {
    if a.Arrive? || a.Wake? || a.Expire? || a.BeginExit? || a.BeginClose? then Some(a.t)
    else if a.Admit? || a.TryFile? || a.ReleaseFile? || a.CancelExit? then s.condition
    else None
  }

  function NextReaders(s: State, a: Action): int
    requires Enabled(s, a) && !IsForeign(a)
  {
    if a.Enter? && s.phase[a.t].mode == Read then s.readers + 1
    else if a.BeginExit? && s.phase[a.t].mode == Read then s.readers - 1
    else s.readers
  }

  function NextWriter(s: State, a: Action): bool
    requires Enabled(s, a) && !IsForeign(a)
  {
    if a.Enter? && s.phase[a.t].mode == Write then true
    else if a.FinishExit? && s.phase[a.t].mode == Write then false
    else s.writer
  }

  /** A writer counts as pending from its arrival to the `finally` that ends its acquisition. */
  function NextWritersWaiting(s: State, a: Action): int
    requires Enabled(s, a) && !IsForeign(a)
  {
    if a.Arrive? && a.mode == Write then s.writersWaiting + 1
    else if (a.GiveUp? || a.AbandonPoll? || a.Enter?) && s.phase[a.t].mode == Write then s.writersWaiting - 1
    else s.writersWaiting
  }

  /** The file lock is taken by a successful poll, and given back by an abandoned one or at exit. */
  function NextHolds(s: State, a: Action): map<Task, Mode>
    requires Enabled(s, a) && !IsForeign(a)
  {
    if a.TryFile? then s.holds[a.t := s.phase[a.t].mode]
    else if a.AbandonPoll? || a.ReleaseFile? then s.holds - {a.t}
    else s.holds
  }

  /** Whether the action ends with `notify_all`. */
  predicate Notifies(s: State, a: Action)
    requires Enabled(s, a) && !IsForeign(a)
  {
    || a.FinishExit? || a.FinishClose?
    || ((a.GiveUp? || a.AbandonPoll? || a.Enter?) && s.phase[a.t].mode == Write)
  }

  function NotifyAll(phase: map<Task, Phase>): map<Task, Phase> {
    map t | t in phase :: if phase[t].Waiting? then Waiting(phase[t].mode, true) else phase[t]
  }

  function MovePhase(phase: map<Task, Phase>, t: Task, p: Phase, notify: bool): map<Task, Phase> {
    if notify then NotifyAll(phase[t := p]) else phase[t := p]
  }

  function ApplyTask(s: State, a: Action): State
    requires Enabled(s, a) && !IsForeign(a)
  {
    State(
      NextReaders(s, a), NextWriter(s, a), NextWritersWaiting(s, a), s.closed || a.FinishClose?,
      NextCondition(s, a),
      MovePhase(s.phase, a.t, NextPhase(s, a), Notifies(s, a)),
      NextHolds(s, a),
      s.foreignReaders, s.foreignWriter,
      s.affinityError || (a.ReleaseFile? && a.t !in s.holds))
  }

  /** Another process takes or drops the file lock. */
  function ApplyForeign(s: State, a: Action): State
    requires Enabled(s, a) && IsForeign(a)
  {
    if a.mode == Read then s.(foreignReaders := s.foreignReaders + if a.ForeignAcquire? then 1 else -1)
    else s.(foreignWriter := a.ForeignAcquire?)
  }

  function Apply(s: State, a: Action): State
    requires Enabled(s, a)
  {
    if IsForeign(a) then ApplyForeign(s, a) else ApplyTask(s, a)
  }

  /** A run: every action is enabled where it is taken. */
  ghost predicate IsRun(states: seq<State>, actions: seq<Action>) {
    && |states| == |actions| + 1
    && Init(states[0])
    && forall i | 0 <= i < |actions| ::
         Enabled(states[i], actions[i]) && states[i + 1] == Apply(states[i], actions[i])
  }

  /** The exit block runs to its end: no cancellation while it waits for the condition. */
  ghost predicate ExitsComplete(actions: seq<Action>) {
    forall a | a in actions :: !a.CancelExit?
  }

  // ---------------------------------------------------------------------------
  // What the counters are meant to count
  // ---------------------------------------------------------------------------

  ghost function TasksInside(s: State, m: Mode): set<Task> {
    set t | t in s.phase && s.phase[t] == Inside(m)
  }

  predicate IsPendingWriter(p: Phase) {
    (p.Checking? || p.Waiting? || p.Polling?) && p.mode == Write
  }

  ghost function PendingWriters(s: State): set<Task> {
    set t | t in s.phase && IsPendingWriter(s.phase[t])
  }

  /** The safety claims, in terms of tasks and holds only. */
  ghost predicate Safe(s: State) {
    // no writer body overlaps another body, here or in another process
    && (forall t, u | t in TasksInside(s, Write) && u in s.phase && s.phase[u].Inside? :: t == u)
    && (TasksInside(s, Write) != {} ==> s.foreignReaders == 0 && !s.foreignWriter)
    && (TasksInside(s, Read) != {} ==> !s.foreignWriter)
    // the counters count
    && s.readers == |TasksInside(s, Read)|
    && (s.condition == None ==> (s.writer <==> TasksInside(s, Write) != {}))
    && s.writersWaiting == |PendingWriters(s)|
    // the file holds are those of the bodies
    && (s.condition == None ==>
          && (forall t :: t in s.holds <==> t in s.phase && s.phase[t].Inside?)
          && (forall t | t in s.holds :: s.phase[t] == Inside(s.holds[t])))
    && !s.affinityError
    // a closed lock has no holder
    && (s.closed ==> s.holds == map[] && forall t | t in s.phase :: !s.phase[t].Inside?)
  }

  // ---------------------------------------------------------------------------
  // The inductive invariant
  // ---------------------------------------------------------------------------

  predicate OwnsCondition(p: Phase) {
    p.Checking? || p.Polling? || p.Releasing? || p.Closing?
  }

  predicate HoldsFile(p: Phase) {
    p.Inside? || ((p.Polling? || p.Releasing?) && p.held)
  }

  predicate IsActiveWriter(p: Phase) {
    (p.Inside? || p.Releasing?) && p.mode == Write
  }

  ghost predicate ConditionOwned(s: State) {
    && (forall t | t in s.phase && OwnsCondition(s.phase[t]) :: s.condition == Some(t))
    && (s.condition.Some? ==> s.condition.value in s.phase && OwnsCondition(s.phase[s.condition.value]))
  }

  ghost predicate HoldsMatch(s: State) {
    && (forall t :: t in s.holds <==> t in s.phase && HoldsFile(s.phase[t]))
    && (forall t | t in s.holds :: s.holds[t] == s.phase[t].mode)
  }

  ghost predicate FileExclusive(s: State) {
    && s.foreignReaders >= 0
    && (s.foreignWriter ==> s.foreignReaders == 0 && s.holds == map[])
    && (forall t | t in s.holds && s.holds[t] == Write ::
          s.foreignReaders == 0 && !s.foreignWriter && LocalFree(s, t, Write))
  }

  ghost predicate CountsMatch(s: State) {
    && s.readers == |TasksInside(s, Read)|
    && s.writersWaiting == |PendingWriters(s)|
  }

  ghost predicate WriterAlone(s: State) {
    && (s.writer <==> exists t :: t in s.phase && IsActiveWriter(s.phase[t]))
    && (forall t, u | t in s.phase && IsActiveWriter(s.phase[t]) && u in s.phase && s.phase[u].Inside? :: t == u)
    && (forall t, u | t in s.phase && IsActiveWriter(s.phase[t]) && u in s.phase && s.phase[u].Releasing? :: t == u)
  }

  ghost predicate PollersAdmitted(s: State) {
    forall t | t in s.phase && s.phase[t].Polling? :: Ready(s, s.phase[t].mode) && !s.closed
  }

  ghost predicate ClosedQuiet(s: State) {
    && (s.closed ==> s.readers == 0 && !s.writer)
    && (forall t | t in s.phase && s.phase[t].Closing? :: s.readers == 0 && !s.writer && !s.closed)
    && (forall t | t in s.phase && s.closed :: !s.phase[t].Inside? && !s.phase[t].Releasing? && !s.phase[t].Polling?)
  }

  /** A task asleep without a pending notification has nothing to wake up for. */
  ghost predicate NoLostWakeup(s: State) {
    forall t | t in s.phase && s.phase[t].Waiting? && !s.phase[t].notified ::
      || !Ready(s, s.phase[t].mode)
      || (s.condition.Some? && s.condition.value in s.phase && s.phase[s.condition.value].Releasing?)
  }

  ghost predicate Inv(s: State) {
    && ConditionOwned(s) && HoldsMatch(s) && FileExclusive(s) && CountsMatch(s) && WriterAlone(s)
    && PollersAdmitted(s) && ClosedQuiet(s) && NoLostWakeup(s) && !s.affinityError
  }
}
