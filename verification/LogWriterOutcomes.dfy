/** What becomes of each record and each handler: admission, reports of drops, and closing. */
module LogWriterOutcomes {
  import opened Basics
  import opened LogWriter
  import opened LogWriterRuns

  // ---------------------------------------------------------------------------
  // Admission
  // ---------------------------------------------------------------------------

  /** The record submitted next has no fate yet. */
  lemma NextRecordIsNew(s: State)
    requires RecordsInv(s)
    ensures s.submitted !in Records(s.accepted) && s.submitted !in s.droppedRecords && s.submitted !in s.rejectedRecords
  {
  }

  /**
   In every run: a record is rejected exactly if the writer is stopping; it is dropped and counted exactly if
   it is not, and the queue is bounded and at its capacity; and otherwise, and only then, it is accepted
   and queued last.
   */
  lemma SubmissionIs(states: seq<State>, actions: seq<Action>, i: nat)
    requires IsRun(states, actions) && i < |actions| && actions[i].Submit?
    ensures var s, s', item := states[i], states[i + 1], Item(actions[i].handlers, states[i].submitted);
            var full := s.writer.capacity > 0 && |s.writer.queue| == s.writer.capacity;
            && (item.record in s'.rejectedRecords <==> s.writer.stopping)
            && (item.record in s'.droppedRecords <==> !s.writer.stopping && full)
            && s'.writer.dropped == s.writer.dropped + (if !s.writer.stopping && full then 1 else 0)
            && (if s.writer.stopping || full
                then s'.accepted == s.accepted && s'.writer.queue == s.writer.queue
                else s'.accepted == s.accepted + [item] && s'.writer.queue == s.writer.queue + [item])
            && s'.submitted == s.submitted + 1
  {
    RunKeepsRecords(states, actions, i);
    NextRecordIsNew(states[i]);
  }

  // ---------------------------------------------------------------------------
  // Reports of drops
  // ---------------------------------------------------------------------------

  /** With every delivery the drops so far are reported, in one report if there are new ones. */
  lemma DeliveryReportsDrops(states: seq<State>, actions: seq<Action>, i: nat)
    requires IsRun(states, actions) && i < |actions| && actions[i].Emit?
    ensures var s, s' := states[i], states[i + 1];
            && s'.delivered == s.delivered + [s.worker.item]
            && s'.reported == s.writer.dropped
            && s'.summaries == s.summaries + if s.reported < s.writer.dropped then 1 else 0
  {
    RunKeepsRecords(states, actions, i);
  }

  // ---------------------------------------------------------------------------
  // Closing
  // ---------------------------------------------------------------------------

  lemma CallersKeepWorker(s: State, a: Action)
    requires Enabled(s, a) && !IsWorkerStep(a)
    ensures Apply(s, a).worker == s.worker
  {
  }

  lemma {:induction false} WorkerWaits(states: seq<State>, actions: seq<Action>, i: nat, j: nat)
    requires IsRun(states, actions) && i <= j < |states|
    requires forall k | i <= k < j :: !IsWorkerStep(actions[k])
    ensures states[j].worker == states[i].worker
    decreases j
  {
    if i < j {
      WorkerWaits(states, actions, i, j - 1);
      CallersKeepWorker(states[j - 1], actions[j - 1]);
    }
  }

  /**
   When the drain thread finds the queue empty, waiting for a record or after delivering one, the next
   thing it does is to take the retired handlers to close them.
   */
  lemma IdleThreadSweeps(states: seq<State>, actions: seq<Action>, i: nat, j: nat)
    requires IsRun(states, actions) && i < j < |actions|
    requires actions[i].GetTimeout? || (actions[i].TestQueue? && states[i].writer.queue == [])
    requires IsWorkerStep(actions[j]) && forall k | i < k < j :: !IsWorkerStep(actions[k])
    ensures actions[j] == Sweep && states[j + 1].writer.retired == {}
    ensures states[j + 1].writer.handlers == states[j].writer.handlers - states[j].writer.retired
  {
    WorkerWaits(states, actions, i + 1, j);
  }

  lemma CallersKeepRetired(s: State, a: Action, h: Handler)
    requires Enabled(s, a) && !IsWorkerStep(a) && h in s.writer.retired && h in s.writer.handlers
    requires a.Wrap? ==> h !in a.targets
    ensures h in Apply(s, a).writer.retired && h in Apply(s, a).writer.handlers
  {
    if a.CloseProxy? { RetiredKeeps(s.writer, s.proxies[a.proxy].handlers, h); }
  }

  lemma {:induction false} RetiredKeeps(w: Writer, hs: seq<Handler>, h: Handler)
    requires h in w.retired && h in w.handlers
    ensures h in Retired(w, hs).retired && h in Retired(w, hs).handlers
  {
    if hs != [] { RetiredKeeps(w, hs[..|hs| - 1], h); }
  }

  lemma {:induction false} MarkedStaysMarked(states: seq<State>, actions: seq<Action>, i: nat, j: nat, h: Handler)
    requires IsRun(states, actions) && i < j < |states| && actions[i].RetireAll? && h in states[i].writer.handlers
    requires forall k | i < k < j :: !IsWorkerStep(actions[k]) && (actions[k].Wrap? ==> h !in actions[k].targets)
    ensures h in states[j].writer.retired && h in states[j].writer.handlers
    decreases j
  {
    if i + 1 < j {
      MarkedStaysMarked(states, actions, i, j - 1, h);
      CallersKeepRetired(states[j - 1], actions[j - 1], h);
    }
  }

  /**
   The end of the drain loop closes everything: whatever is registered then, and is not wrapped again before
   the last sweep, is taken for closing by it, owned or not.
   */
  lemma EndClosesEverything(states: seq<State>, actions: seq<Action>, i: nat, j: nat, h: Handler)
    requires IsRun(states, actions) && i < j < |actions| && actions[i].RetireAll? && IsWorkerStep(actions[j])
    requires forall k | i < k < j :: !IsWorkerStep(actions[k]) && (actions[k].Wrap? ==> h !in actions[k].targets)
    requires h in states[i].writer.handlers
    ensures actions[j] == SweepAll && states[j + 1].worker == Ended
    ensures h !in states[j + 1].writer.handlers
    ensures Owned(states[j + 1].closings, h) == Owned(states[j].closings, h) + 1
  {
    WorkerWaits(states, actions, i + 1, j);
    MarkedStaysMarked(states, actions, i, j, h);
    CountUpCounts(states[j].closings, states[j].writer.retired, h);
  }

  /** A stop is final: the writer is stopping from then on, and whatever is submitted is rejected. */
  lemma StopIsFinal(states: seq<State>, actions: seq<Action>, i: nat, j: nat)
    requires IsRun(states, actions) && i < j < |states| && actions[i].Stop?
    ensures states[j].writer.stopping
    ensures j < |actions| && actions[j].Submit? ==>
              states[j].submitted in states[j + 1].rejectedRecords && states[j + 1].accepted == states[j].accepted
  {
    StaysStopping(states, actions, i + 1, j);
  }

  /** Wrapping registers its targets and takes them out of the retired ones. */
  lemma WrapRegisters(s: State, targets: seq<Handler>, h: Handler)
    requires HandlersInv(s) && targets != [] && h in targets
    ensures Enabled(s, Wrap(targets))
    ensures var s' := Apply(s, Wrap(targets));
            && h in s'.writer.handlers && h !in s'.writer.retired
            && Owned(s'.writer.owners, h) == Owned(s.writer.owners, h) + multiset(targets)[h]
            && s'.proxies == s.proxies + [Proxy(targets, true)]
  {
    AddOwnersCounts(s.writer.owners, targets, h);
  }

  /** Closing a live proxy retires exactly the handlers that no other live proxy holds. */
  lemma LastCloseRetires(s: State, i: nat, h: Handler)
    requires HandlersInv(s) && i < |s.proxies| && s.proxies[i].live && h in s.proxies[i].handlers
    ensures Enabled(s, CloseProxy(i)) && !Apply(s, CloseProxy(i)).proxies[i].live
    ensures h in Apply(s, CloseProxy(i)).writer.retired <==>
            h in s.writer.retired || LiveOwners(s.proxies, h) == multiset(s.proxies[i].handlers)[h]
  {
    forall x ensures Owned(s.writer.owners, x) >= multiset(s.proxies[i].handlers)[x] {
      LiveOwnersAtLeast(s.proxies, i, x);
    }
    RetiredCounts(s.writer, s.proxies[i].handlers, h);
  }
}
