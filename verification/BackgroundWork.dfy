/**
 Bounded background work: a semaphore slot is taken by `submit`, travels to a daemon thread, and is
 given back when the callback is over, when the future was cancelled first, or when no thread starts.
 The submitting thread, the worker threads and callers that cancel futures interleave freely.
 */
module BackgroundWork {
  import opened Basics

  type Id = nat

  datatype Outcome = Value | Exception | Skipped

  /** Where the slot of one accepted submission is.  `Done` still holds it, `Released` does not. */
  datatype Stage =
    | Acquired                     // slot taken, thread not started
    | StartFailed                  // no thread; slot given back
    | Lost                         // `submit` was interrupted before it could start a thread or give the slot back
    | Started                      // thread running, future not claimed yet
    | Running                      // callback running
    | Done(outcome: Outcome)       // callback over, or the future was found cancelled
    | Released(outcome: Outcome)   // slot given back, result not published yet
    | Published
    | Crashed                      // the semaphore refused the release; the thread dies and nothing is published

  datatype FutureState = Pending | Cancelled | InProgress | Completed(ok: bool)

  /** The submitting call: still inside `submit`, returned the future, or raised. */
  datatype Caller = Submitting | Returned | Raised

  datatype Work = Work(stage: Stage, future: FutureState, caller: Caller, releases: nat)

  datatype State = State(
    maxWorkers: nat,
    free: int,               // the semaphore's counter
    work: map<Id, Work>,     // every accepted submission
    overReleased: bool)      // the bounded semaphore refused a release

  datatype Action =
    | Submit(id: Id)
    | Abandon(id: Id)        // an exception lands in `submit` between taking the slot and the `try`
    | FailStart(id: Id)
    | Start(id: Id)
    | Return(id: Id)
    | Interrupt(id: Id)      // an exception lands in Thread.start() after the thread has begun
    | Cancel(id: Id)
    | Claim(id: Id)
    | Finish(id: Id, ok: bool)
    | Release(id: Id)
    | Publish(id: Id)

  predicate Init(s: State) {
    s.maxWorkers >= 1 && s.free == s.maxWorkers && s.work == map[] && !s.overReleased
  }

  predicate Enabled(s: State, a: Action) {
    if a.Submit? then a.id !in s.work && s.free > 0
    else
      && a.id in s.work
      && var w := s.work[a.id];
         match a
         case Abandon(_) => w.stage == Acquired
         case FailStart(_) => w.stage == Acquired
         case Start(_) => w.stage == Acquired
         case Return(_) => w.caller == Submitting && w.stage != Acquired
         case Interrupt(_) => w.caller == Submitting && w.stage != Acquired
         case Cancel(_) => w.caller == Returned && w.future == Pending
         case Claim(_) => w.stage == Started
         case Finish(_, _) => w.stage == Running
         case Release(_) => w.stage.Done?
         case Publish(_) => w.stage.Released?
  }

  /** `BoundedSemaphore.release`, on behalf of submission `id`, which then is `w`. */
  function GiveBack(s: State, id: Id, w: Work): State {
    s.(work := s.work[id := w.(releases := w.releases + 1)],
       free := if s.free < s.maxWorkers then s.free + 1 else s.free,
       overReleased := s.overReleased || s.free >= s.maxWorkers)
  }

  function Apply(s: State, a: Action): State
    requires Enabled(s, a)
  {
    if a.Submit? then
      s.(free := s.free - 1, work := s.work[a.id := Work(Acquired, Pending, Submitting, 0)])
    else
      var w := s.work[a.id];
      match a
      case Abandon(id) => s.(work := s.work[id := w.(stage := Lost, caller := Raised)])
      case FailStart(id) => GiveBack(s, id, w.(stage := StartFailed, caller := Raised))
      case Start(id) => s.(work := s.work[id := w.(stage := Started)])
      case Return(id) => s.(work := s.work[id := w.(caller := Returned)])
      case Interrupt(id) => GiveBack(s, id, w.(caller := Raised))
      case Cancel(id) => s.(work := s.work[id := w.(future := Cancelled)])
      case Claim(id) =>
        s.(work := s.work[id := if w.future == Cancelled then w.(stage := Done(Skipped))
                                else w.(stage := Running, future := InProgress)])
      case Finish(id, ok) => s.(work := s.work[id := w.(stage := Done(if ok then Value else Exception))])
      case Release(id) =>
        if s.free < s.maxWorkers then GiveBack(s, id, w.(stage := Released(w.stage.outcome)))
        else s.(work := s.work[id := w.(stage := Crashed)], overReleased := true)
      case Publish(id) =>
        s.(work := s.work[id := if w.stage.outcome == Skipped then w.(stage := Published)
                                else w.(stage := Published, future := Completed(w.stage.outcome == Value))])
  }

  ghost predicate IsRun(states: seq<State>, actions: seq<Action>) {
    && |states| == |actions| + 1
    && Init(states[0])
    && forall i | 0 <= i < |actions| ::
         Enabled(states[i], actions[i]) && states[i + 1] == Apply(states[i], actions[i])
  }

  /** `submit` finds no free slot and raises BackgroundWorkBusy. */
  predicate Rejects(s: State) {
    s.free <= 0
  }

  predicate HoldsSlot(w: Work) {
    w.stage.Acquired? || w.stage.Lost? || w.stage.Started? || w.stage.Running? || w.stage.Done?
  }

  ghost function Holders(s: State): set<Id> {
    set id | id in s.work && HoldsSlot(s.work[id])
  }

  ghost function RunningNow(s: State): set<Id> {
    set id | id in s.work && s.work[id].stage == Running
  }

  // ---------------------------------------------------------------------------
  // The invariant
  // ---------------------------------------------------------------------------

  predicate Consistent(w: Work) {
    && w.stage != Crashed
    && w.releases == (if HoldsSlot(w) then 0 else 1)
    && (w.stage.Acquired? ==> w.caller == Submitting)
    && (w.stage.StartFailed? || w.stage.Lost? <==> w.caller == Raised)
    && (w.future == Pending ==> w.stage.Acquired? || w.stage.StartFailed? || w.stage.Lost? || w.stage.Started?)
    && (w.future == Cancelled ==> w.caller == Returned)
    && (w.stage.Running? ==> w.future == InProgress)
    && ((w.stage.Done? || w.stage.Released?) ==>
          w.future == if w.stage.outcome == Skipped then Cancelled else InProgress)
    && (w.future.Completed? ==> w.stage == Published)
    && (w.stage == Published ==> w.future.Completed? || w.future == Cancelled)
  }

  /** Held slots are exactly those of unfinished submissions, and no release was refused. */
  ghost predicate Inv(s: State) {
    && s.maxWorkers >= 1
    && s.free >= 0
    && s.free + |Holders(s)| == s.maxWorkers
    && !s.overReleased
    && forall id | id in s.work :: Consistent(s.work[id])
  }

  lemma HoldersAfter(s: State, s': State, id: Id)
    requires s'.work.Keys == s.work.Keys + {id}
    requires forall x | x in s.work && x != id :: s'.work[x] == s.work[x]
    ensures Holders(s') == if HoldsSlot(s'.work[id]) then Holders(s) + {id} else Holders(s) - {id}
  {
  }

  lemma HoldersSize(s: State, s': State, id: Id)
    requires id in s'.work
    requires Holders(s') == if HoldsSlot(s'.work[id]) then Holders(s) + {id} else Holders(s) - {id}
    ensures |Holders(s')| ==
            |Holders(s)| - Unit(id in s.work && HoldsSlot(s.work[id])) + Unit(HoldsSlot(s'.work[id]))
  {
    assert id in Holders(s) <==> id in s.work && HoldsSlot(s.work[id]);
  }

  /** One submission moves, and the semaphore's counter moves with its slot. */
  ghost predicate SlotMoves(s: State, s': State, id: Id) {
    && s'.work.Keys == s.work.Keys + {id}
    && (forall x | x in s.work && x != id :: s'.work[x] == s.work[x])
    && s'.free == s.free + Unit(id in s.work && HoldsSlot(s.work[id])) - Unit(HoldsSlot(s'.work[id]))
    && s'.free >= 0
    && s'.maxWorkers == s.maxWorkers && s'.overReleased == s.overReleased
  }

  lemma StepMovesSlot(s: State, a: Action)
    requires Enabled(s, a) && !a.Interrupt? && s.free >= 0
    requires a.id in s.work ==> Consistent(s.work[a.id])
    requires a.id in s.work && HoldsSlot(s.work[a.id]) ==> s.free < s.maxWorkers
    ensures SlotMoves(s, Apply(s, a), a.id) && Consistent(Apply(s, a).work[a.id])
  {
  }

  lemma SlotMoveKeepsInv(s: State, s': State, id: Id)
    requires Inv(s) && SlotMoves(s, s', id) && Consistent(s'.work[id])
    ensures Inv(s')
  {
    HoldersAfter(s, s', id);
    HoldersSize(s, s', id);
  }

  lemma HolderMeansTaken(s: State, id: Id)
    requires Inv(s) && id in s.work && HoldsSlot(s.work[id])
    ensures s.free < s.maxWorkers
  {
    assert id in Holders(s);
  }

  /**
   Every step keeps the invariant, with one exception that always breaks it: an exception that
   interrupts `Thread.start()` after the thread has begun gives back a slot the thread gives back too.
   */
  lemma StepKeepsInv(s: State, a: Action)
    requires Inv(s) && Enabled(s, a)
    ensures Inv(Apply(s, a)) <==> !a.Interrupt?
  {
    if a.Interrupt? {
      assert !Consistent(Apply(s, a).work[a.id]);
    } else {
      if a.id in s.work && HoldsSlot(s.work[a.id]) { HolderMeansTaken(s, a.id); }
      StepMovesSlot(s, a);
      SlotMoveKeepsInv(s, Apply(s, a), a.id);
    }
  }

  lemma {:induction false} RunKeepsInv(states: seq<State>, actions: seq<Action>, i: nat)
    requires IsRun(states, actions) && i < |states|
    requires forall a | a in actions :: !a.Interrupt?
    ensures Inv(states[i])
  {
    if i == 0 {
      assert Holders(states[0]) == {};
    } else {
      RunKeepsInv(states, actions, i - 1);
      assert actions[i - 1] in actions;
      StepKeepsInv(states[i - 1], actions[i - 1]);
    }
  }

  // ---------------------------------------------------------------------------
  // What callers rely on
  // ---------------------------------------------------------------------------

  /** At most `maxWorkers` callbacks run at once, and every slot is given back exactly once. */
  lemma BoundedAndReleasedOnce(states: seq<State>, actions: seq<Action>, i: nat)
    requires IsRun(states, actions) && i < |states|
    requires forall a | a in actions :: !a.Interrupt?
    ensures |RunningNow(states[i])| <= |Holders(states[i])| <= states[i].maxWorkers
    ensures 0 <= states[i].free <= states[i].maxWorkers
    ensures forall id | id in states[i].work ::
              states[i].work[id].releases == if HoldsSlot(states[i].work[id]) then 0 else 1
  {
    RunKeepsInv(states, actions, i);
    var s := states[i];
    SubsetSize(RunningNow(s), Holders(s));
    assert forall id | id in s.work :: Consistent(s.work[id]);
  }

  /**
   A caller is rejected only because of work that is not over: when `submit` raises, `maxWorkers`
   accepted submissions hold a slot, and none of their futures has a result or an exception.
   */
  lemma RejectionMeansUnfinishedWork(states: seq<State>, actions: seq<Action>, i: nat)
    requires IsRun(states, actions) && i < |states|
    requires forall a | a in actions :: !a.Interrupt?
    ensures Rejects(states[i]) <==> |Holders(states[i])| == states[i].maxWorkers
    ensures forall id | id in Holders(states[i]) :: !states[i].work[id].future.Completed?
    ensures (forall id | id in states[i].work :: states[i].work[id].future.Completed?) ==> !Rejects(states[i])
  {
    RunKeepsInv(states, actions, i);
    var s := states[i];
    forall id | id in Holders(s) ensures !s.work[id].future.Completed? {
      assert Consistent(s.work[id]);
    }
    if forall id | id in s.work :: s.work[id].future.Completed? {
      assert Holders(s) == {};
    }
  }

  /** How many steps a slot is from being given back. */
  function StepsToRelease(w: Work): nat {
    match w.stage
    case Acquired => 4
    case Started => 3
    case Running => 2
    case Done(_) => 1
    case _ => 0
  }

  /** A step of submission `id` that brings its slot closer to being given back. */
  predicate Advances(s: State, a: Action, id: Id) {
    a.id == id && id in s.work && Enabled(s, a) && StepsToRelease(Apply(s, a).work[id]) < StepsToRelease(s.work[id])
  }

  /** Every held slot can come back, step by step, unless it was lost; about a lost one nothing can be done. */
  lemma SlotComesBackUnlessLost(s: State, id: Id)
    requires Inv(s) && id in Holders(s)
    ensures s.work[id].stage != Lost ==> exists a: Action :: Advances(s, a, id)
    ensures s.work[id].stage == Lost ==> forall a: Action | a.id == id :: !Enabled(s, a)
  {
    var w := s.work[id];
    assert Consistent(w);
    match w.stage
    case Acquired => assert Advances(s, Start(id), id);
    case Started => assert Advances(s, Claim(id), id);
    case Running => assert Advances(s, Finish(id, true), id);
    case Done(_) => assert Advances(s, Release(id), id);
    case Lost =>
  }

  /** When no thread starts, the caller gets an exception and the slot is free again. */
  lemma FailedStartFreesSlot(s: State, id: Id)
    requires Inv(s) && id in s.work && s.work[id].stage == Acquired
    ensures Enabled(s, FailStart(id))
    ensures var s' := Apply(s, FailStart(id));
            s'.free == s.free + 1 && s'.work[id].caller == Raised && id !in Holders(s') && !Rejects(s')
  {
    assert id in Holders(s);
  }

  /** When `submit` is interrupted before the `try`, the caller gets an exception too, but the slot stays taken. */
  lemma AbandonKeepsSlot(s: State, id: Id)
    requires Inv(s) && id in s.work && s.work[id].stage == Acquired
    ensures Enabled(s, Abandon(id))
    ensures var s' := Apply(s, Abandon(id));
            s'.free == s.free && s'.work[id].caller == Raised && id in Holders(s')
  {
    assert Consistent(s.work[id]);
  }

  /** A slot that `submit` abandons is gone for good: nothing is ever done about it again. */
  lemma {:induction false} LostSlotStaysLost(states: seq<State>, actions: seq<Action>, i: nat, j: nat)
    requires IsRun(states, actions) && i < j < |states| && actions[i].Abandon?
    ensures actions[i].id in Holders(states[j]) && states[j].work[actions[i].id].stage == Lost
    ensures states[j].work[actions[i].id].caller == Raised
    ensures states[j].work[actions[i].id].future == states[i].work[actions[i].id].future
    decreases j
  {
    if i + 1 < j { LostSlotStaysLost(states, actions, i, j - 1); }
  }

  /** A pool of one that lost its slot rejects every later submission. */
  lemma LostPoolRejects(states: seq<State>, actions: seq<Action>, i: nat, j: nat)
    requires IsRun(states, actions) && i < j < |states| && actions[i].Abandon? && states[j].maxWorkers == 1
    requires forall a | a in actions :: !a.Interrupt?
    ensures Rejects(states[j])
  {
    LostSlotStaysLost(states, actions, i, j);
    RunKeepsInv(states, actions, j);
    SubsetSize({actions[i].id}, Holders(states[j]));
  }

  /** How the callback of submission `id` ended in the first `i` steps: at most once, as it turns out. */
  function Finishes(actions: seq<Action>, id: Id, i: nat): seq<bool>
    requires i <= |actions|
  {
    if i == 0 then []
    else
      var a := actions[i - 1];
      Finishes(actions, id, i - 1) + if a.Finish? && a.id == id then [a.ok] else []
  }

  /** What the stage of a submission tells about the end of its callback. */
  predicate TellsFinish(w: Work, finishes: seq<bool>) {
    && (match w.stage
        case Done(o) => finishes == if o == Skipped then [] else [o == Value]
        case Released(o) => finishes == if o == Skipped then [] else [o == Value]
        case Published => |finishes| <= 1
        case Crashed => |finishes| <= 1
        case _ => finishes == [])
    && (w.future.Completed? ==> w.stage == Published && finishes == [w.future.ok])
    && (w.future == Pending ==> w.stage in {Acquired, StartFailed, Lost, Started})
    && (w.future == Cancelled ==> w.stage != Running && finishes == [])
  }

  lemma StepTellsFinish(s: State, a: Action, id: Id, finishes: seq<bool>)
    requires Enabled(s, a) && id in Apply(s, a).work
    requires if id in s.work then TellsFinish(s.work[id], finishes) else finishes == []
    ensures TellsFinish(Apply(s, a).work[id], finishes + if a.Finish? && a.id == id then [a.ok] else [])
  {
    assert finishes + [] == finishes;
  }

  lemma {:induction false} RunTellsFinish(states: seq<State>, actions: seq<Action>, i: nat, id: Id)
    requires IsRun(states, actions) && i < |states|
    ensures if id in states[i].work then TellsFinish(states[i].work[id], Finishes(actions, id, i))
            else Finishes(actions, id, i) == []
  {
    if i > 0 {
      RunTellsFinish(states, actions, i - 1, id);
      if id in states[i].work {
        StepTellsFinish(states[i - 1], actions[i - 1], id, Finishes(actions, id, i - 1));
      } else {
        WorkIsKept(states[i - 1], actions[i - 1], id);
      }
    }
  }

  lemma WorkIsKept(s: State, a: Action, id: Id)
    requires Enabled(s, a) && id !in Apply(s, a).work
    ensures id !in s.work && a.id != id
  {
  }

  /** A future carries the result or the exception of its own callback, which ended once. */
  lemma FutureCarriesFinish(states: seq<State>, actions: seq<Action>, i: nat, id: Id)
    requires IsRun(states, actions) && i < |states| && id in states[i].work && states[i].work[id].future.Completed?
    ensures Finishes(actions, id, i) == [states[i].work[id].future.ok]
  {
    RunTellsFinish(states, actions, i, id);
  }

  /** Once a future is cancelled it stays so, and its callback does not run, then or later. */
  lemma {:induction false} CancelledNeverRuns(states: seq<State>, actions: seq<Action>, i: nat, j: nat)
    requires IsRun(states, actions) && i < j < |states| && actions[i].Cancel?
    ensures var id := actions[i].id;
            && id in states[j].work && states[j].work[id].future == Cancelled
            && states[j].work[id].stage != Running && Finishes(actions, id, j) == []
    decreases j
  {
    var id := actions[i].id;
    if i + 1 < j {
      CancelledNeverRuns(states, actions, i, j - 1);
      RunTellsFinish(states, actions, j - 1, id);
      CancelledStays(states[j - 1], actions[j - 1], id);
    }
    RunTellsFinish(states, actions, j, id);
  }

  lemma CancelledStays(s: State, a: Action, id: Id)
    requires Enabled(s, a) && id in s.work && s.work[id].future == Cancelled && s.work[id].stage != Running
    requires s.work[id].stage.Released? ==> s.work[id].stage.outcome == Skipped
    ensures id in Apply(s, a).work && Apply(s, a).work[id].future == Cancelled
  {
  }

  predicate IsDone(f: FutureState) {
    f == Cancelled || f.Completed?
  }

  /** A future that is done still holds its slot exactly if it was cancelled and its thread has not given it back. */
  lemma DoneFutureHoldsSlotIff(states: seq<State>, actions: seq<Action>, i: nat, id: Id)
    requires IsRun(states, actions) && i < |states| && id in states[i].work && IsDone(states[i].work[id].future)
    requires forall a | a in actions :: !a.Interrupt?
    ensures var w := states[i].work[id];
            HoldsSlot(w) <==> w.future == Cancelled && (w.stage == Started || w.stage == Done(Skipped))
  {
    RunKeepsInv(states, actions, i);
    assert Consistent(states[i].work[id]);
  }

  /** Whoever waits for a future in `s` that is done finds its slot free. */
  ghost predicate DoneMeansFree(s: State) {
    forall id | id in s.work && IsDone(s.work[id].future) :: !HoldsSlot(s.work[id])
  }

  /** Without a cancellation no future is ever cancelled. */
  lemma {:induction false} NothingCancelled(states: seq<State>, actions: seq<Action>, i: nat)
    requires IsRun(states, actions) && i < |states| && forall a | a in actions :: !a.Cancel?
    ensures forall id | id in states[i].work :: states[i].work[id].future != Cancelled
  {
    if i > 0 {
      NothingCancelled(states, actions, i - 1);
      assert actions[i - 1] in actions;
      KeepsUncancelled(states[i - 1], actions[i - 1]);
    }
  }

  lemma KeepsUncancelled(s: State, a: Action)
    requires Enabled(s, a) && !a.Cancel? && forall id | id in s.work :: s.work[id].future != Cancelled
    ensures forall id | id in Apply(s, a).work :: Apply(s, a).work[id].future != Cancelled
  {
  }

  /** Right after a cancellation that succeeds, the future is done and its slot is held. */
  lemma CancelLeavesSlotHeld(s: State, id: Id)
    requires Inv(s) && Enabled(s, Cancel(id))
    ensures !DoneMeansFree(Apply(s, Cancel(id)))
  {
    assert Consistent(s.work[id]);
    var w := Apply(s, Cancel(id)).work[id];
    assert IsDone(w.future) && HoldsSlot(w);
  }

  /** A future that is done has freed its slot, in every state of a run, exactly if nobody cancels one in it. */
  lemma DoneMeansFreeIff(states: seq<State>, actions: seq<Action>)
    requires IsRun(states, actions) && forall a | a in actions :: !a.Interrupt?
    ensures (forall i | 0 <= i < |states| :: DoneMeansFree(states[i])) <==> forall a | a in actions :: !a.Cancel?
  {
    if k :| 0 <= k < |actions| && actions[k].Cancel? {
      RunKeepsInv(states, actions, k);
      CancelLeavesSlotHeld(states[k], actions[k].id);
      assert !DoneMeansFree(states[k + 1]);
      assert actions[k] in actions;
    } else {
      forall i | 0 <= i < |states| ensures DoneMeansFree(states[i]) {
        NothingCancelled(states, actions, i);
        forall id | id in states[i].work && IsDone(states[i].work[id].future) ensures !HoldsSlot(states[i].work[id]) {
          DoneFutureHoldsSlotIff(states, actions, i, id);
        }
      }
    }
  }

  /** So a cancelled future may be done while its slot is still held. */
  lemma CancelledFutureMayHoldSlot() returns (states: seq<State>, actions: seq<Action>)
    ensures IsRun(states, actions) && forall a | a in actions :: !a.Interrupt?
    ensures var s := states[|actions|];
            Rejects(s) && s.work.Keys == {0} && s.work[0].future == Cancelled && HoldsSlot(s.work[0])
  {
    actions := [Submit(0), Start(0), Return(0), Cancel(0)];
    var s0 := State(1, 1, map[], false);
    var s1 := Apply(s0, Submit(0));
    var s2 := Apply(s1, Start(0));
    var s3 := Apply(s2, Return(0));
    states := [s0, s1, s2, s3, Apply(s3, Cancel(0))];
  }

  /** An interrupted start lets two callbacks run in a pool of one. */
  lemma InterruptBreaksTheBound() returns (states: seq<State>, actions: seq<Action>)
    ensures IsRun(states, actions) && Interrupt(0) in actions
    ensures var s := states[|actions|];
            s.maxWorkers == 1 && 0 in s.work && 1 in s.work
            && s.work[0].stage == Running && s.work[1].stage == Running
  {
    actions := [Submit(0), Start(0), Interrupt(0), Submit(1), Start(1), Claim(0), Claim(1)];
    var s0 := State(1, 1, map[], false);
    var s1 := Apply(s0, Submit(0));
    var s2 := Apply(s1, Start(0));
    var s3 := Apply(s2, Interrupt(0));
    var s4 := Apply(s3, Submit(1));
    var s5 := Apply(s4, Start(1));
    var s6 := Apply(s5, Claim(0));
    states := [s0, s1, s2, s3, s4, s5, s6, Apply(s6, Claim(1))];
  }
}
