/**
 Every interleaving of the log writer's callers with its drain thread: loggers being wrapped, records
 submitted, proxies closed and shutdown requested, while the thread gets, emits and sweeps.
 */
module LogWriterRuns {
  import opened Basics
  import opened LogWriter

  /** A `_QueuedHandler`, with the handlers it stands for. */
  datatype Proxy = Proxy(handlers: seq<Handler>, live: bool)

  /** Where the drain thread is. */
  datatype Worker =
    | TestingStop            // `not self._stopping.is_set()`
    | TestingEmpty           // `not self.queue.empty()`, once stopping
    | Getting
    | Emitting(item: Item)
    | AfterItem
    | Sweeping
    | Draining               // the loop is over
    | FinalSweep             // everything registered was marked for closing
    | Ended

  datatype State = State(
    writer: Writer,
    proxies: seq<Proxy>,
    worker: Worker,
    reported: nat,                     // drops reported so far
    summaries: nat,                    // drop reports emitted
    submitted: nat,                    // records are numbered by submission
    accepted: seq<Item>,
    delivered: seq<Item>,
    droppedRecords: set<nat>,
    rejectedRecords: set<nat>,         // submitted after the stop
    registrations: map<Handler, int>,  // how often a handler became registered
    closings: map<Handler, int>)       // how often it was taken to be closed

  datatype Action =
    | Wrap(targets: seq<Handler>)
    | Submit(handlers: seq<Handler>)
    | CloseProxy(proxy: nat)
    | Stop
    | TestStop
    | TestEmpty
    | Get
    | GetTimeout
    | Emit
    | TestQueue
    | Sweep
    | RetireAll
    | SweepAll

  predicate Init(s: State) {
    && s.writer.queue == [] && s.writer.dropped == 0 && !s.writer.stopping
    && s.writer.handlers == {} && s.writer.owners == map[] && s.writer.retired == {}
    && s.proxies == [] && s.worker == TestingStop && s.reported == 0 && s.summaries == 0 && s.submitted == 0
    && s.accepted == [] && s.delivered == [] && s.droppedRecords == {} && s.rejectedRecords == {}
    && s.registrations == map[] && s.closings == map[]
  }

  predicate Enabled(s: State, a: Action) {
    match a
    case Wrap(targets) => targets != []
    case Submit(_) => true
    case CloseProxy(i) => i < |s.proxies| && s.proxies[i].live
    case Stop => true
    case TestStop => s.worker == TestingStop
    case TestEmpty => s.worker == TestingEmpty
    case Get => s.worker == Getting && s.writer.queue != []
    case GetTimeout => s.worker == Getting && s.writer.queue == []
    case Emit => s.worker.Emitting?
    case TestQueue => s.worker == AfterItem
    case Sweep => s.worker == Sweeping
    case RetireAll => s.worker == Draining
    case SweepAll => s.worker == FinalSweep
  }

  /** One more for each handler in `hs`. */
  function CountUp(counts: map<Handler, int>, hs: set<Handler>): map<Handler, int> {
    map h | h in counts.Keys + hs :: Owned(counts, h) + if h in hs then 1 else 0
  }

  function Take(s: State, next: Worker): State {
    s.(writer := Swept(s.writer), worker := next, closings := CountUp(s.closings, s.writer.retired))
  }

  function Apply(s: State, a: Action): State
    requires Enabled(s, a)
  {
    match a
    case Wrap(targets) =>
      s.(writer := Wrapped(s.writer, targets), proxies := s.proxies + [Proxy(targets, true)],
         registrations := CountUp(s.registrations, Elements(targets) - s.writer.handlers))
    case Submit(hs) =>
      var item := Item(hs, s.submitted);
      var s' := s.(writer := Submitted(s.writer, item), submitted := s.submitted + 1);
      if s.writer.stopping then s'.(rejectedRecords := s.rejectedRecords + {s.submitted})
      else if IsFull(s.writer) then s'.(droppedRecords := s.droppedRecords + {s.submitted})
      else s'.(accepted := s.accepted + [item])
    case CloseProxy(i) =>
      s.(writer := Retired(s.writer, s.proxies[i].handlers),
         proxies := s.proxies[i := Proxy(s.proxies[i].handlers, false)])
    case Stop => s.(writer := s.writer.(stopping := true))
    case TestStop => s.(worker := if s.writer.stopping then TestingEmpty else Getting)
    case TestEmpty => s.(worker := if s.writer.queue == [] then Draining else Getting)
    case Get => s.(worker := Emitting(s.writer.queue[0]), writer := s.writer.(queue := s.writer.queue[1..]))
    case GetTimeout => s.(worker := Sweeping)
    case Emit =>
      var s' := s.(worker := AfterItem, delivered := s.delivered + [s.worker.item]);
      if s.writer.dropped > s.reported then s'.(reported := s.writer.dropped, summaries := s.summaries + 1) else s'
    case TestQueue => s.(worker := if s.writer.queue == [] then Sweeping else TestingStop)
    case Sweep => Take(s, TestingStop)
    case RetireAll => s.(writer := AllRetired(s.writer), worker := FinalSweep)
    case SweepAll => Take(s, Ended)
  }

  ghost predicate IsRun(states: seq<State>, actions: seq<Action>) {
    && |states| == |actions| + 1
    && Init(states[0])
    && forall i | 0 <= i < |actions| ::
         Enabled(states[i], actions[i]) && states[i + 1] == Apply(states[i], actions[i])
  }

  // ---------------------------------------------------------------------------
  // Records
  // ---------------------------------------------------------------------------

  function InFlight(w: Worker): seq<Item> {
    if w.Emitting? then [w.item] else []
  }

  ghost function Records(items: seq<Item>): set<nat> {
    set i | i in items :: i.record
  }

  /** Admission is in order of submission. */
  ghost predicate InOrder(items: seq<Item>) {
    forall i, j | 0 <= i < j < |items| :: items[i].record < items[j].record
  }

  /** Every submitted record has exactly one of three fates at admission. */
  ghost predicate FatesPartition(s: State) {
    && (forall r | r in Records(s.accepted) :: r < s.submitted && r !in s.droppedRecords && r !in s.rejectedRecords)
    && (forall r | r in s.droppedRecords :: r < s.submitted && r !in s.rejectedRecords)
    && (forall r | r in s.rejectedRecords :: r < s.submitted)
    && (forall r: nat | r < s.submitted :: r in Records(s.accepted) || r in s.droppedRecords || r in s.rejectedRecords)
  }

  ghost predicate RecordsInv(s: State) {
    // accepted records are delivered first in, first out
    && s.accepted == s.delivered + InFlight(s.worker) + s.writer.queue
    && InOrder(s.accepted)
    && FatesPartition(s)
    && s.writer.dropped == |s.droppedRecords| && s.reported <= s.writer.dropped
    && (s.writer.capacity > 0 ==> |s.writer.queue| <= s.writer.capacity)
    && (s.rejectedRecords != {} ==> s.writer.stopping)
    && (s.worker == TestingEmpty ==> s.writer.stopping)
    && (s.worker in {Draining, FinalSweep, Ended} ==> s.writer.stopping && s.writer.queue == [])
  }

  lemma RecordsSnoc(items: seq<Item>, item: Item)
    ensures Records(items + [item]) == Records(items) + {item.record}
  {
    assert forall i | i in items + [item] :: i in items || i == item;
    assert item in items + [item];
  }

  lemma SubmitKeepsFates(s: State, hs: seq<Handler>)
    requires FatesPartition(s) && InOrder(s.accepted)
    ensures FatesPartition(Apply(s, Submit(hs))) && InOrder(Apply(s, Submit(hs)).accepted)
  {
    RecordsSnoc(s.accepted, Item(hs, s.submitted));
    forall i | 0 <= i < |s.accepted| ensures s.accepted[i].record < s.submitted {
      assert s.accepted[i].record in Records(s.accepted);
    }
  }

  lemma SubmitKeepsRecords(s: State, hs: seq<Handler>)
    requires RecordsInv(s)
    ensures RecordsInv(Apply(s, Submit(hs)))
  {
    SubmitKeepsFates(s, hs);
    assert s.submitted !in s.droppedRecords;
    var s' := Apply(s, Submit(hs));
    if !s.writer.stopping && !IsFull(s.writer) {
      assert s'.accepted == s'.delivered + InFlight(s'.worker) + s'.writer.queue;
    }
  }

  lemma StepKeepsRecords(s: State, a: Action)
    requires RecordsInv(s) && Enabled(s, a)
    ensures RecordsInv(Apply(s, a))
  {
    match a
    case Submit(hs) => SubmitKeepsRecords(s, hs);
    case CloseProxy(i) => RetiredLeavesQueue(s.writer, s.proxies[i].handlers);
    case Wrap(_) =>
    case Stop =>
    case _ => WorkerKeepsRecords(s, a);
  }

  /** The drain thread only moves records along. */
  lemma WorkerKeepsRecords(s: State, a: Action)
    requires RecordsInv(s) && Enabled(s, a) && !a.Submit? && !a.CloseProxy? && !a.Wrap? && !a.Stop?
    ensures RecordsInv(Apply(s, a))
  {
    var s' := Apply(s, a);
    assert FatesPartition(s');
    if a.Get? {
      assert [s.writer.queue[0]] + s.writer.queue[1..] == s.writer.queue;
    } else if a.Emit? {
      assert s.delivered + [s.worker.item] + s.writer.queue == s'.delivered + [] + s.writer.queue;
    }
  }

  lemma {:induction false} RetiredLeavesQueue(w: Writer, hs: seq<Handler>)
    ensures Retired(w, hs) == w.(owners := Retired(w, hs).owners, retired := Retired(w, hs).retired)
  {
    if hs != [] { RetiredLeavesQueue(w, hs[..|hs| - 1]); }
  }

  lemma {:induction false} RunKeepsRecords(states: seq<State>, actions: seq<Action>, i: nat)
    requires IsRun(states, actions) && i < |states|
    ensures RecordsInv(states[i])
  {
    if i > 0 {
      RunKeepsRecords(states, actions, i - 1);
      StepKeepsRecords(states[i - 1], actions[i - 1]);
    }
  }

  /**
   Conservation: every submitted record was rejected after the stop, dropped and counted, or accepted;
   accepted records are delivered in order of submission, and those not delivered yet are the one in
   flight and the queue, which never exceeds its capacity.  When the drain loop has ended, every
   accepted record has been delivered.
   */
  lemma RecordsAreConserved(states: seq<State>, actions: seq<Action>, i: nat)
    requires IsRun(states, actions) && i < |states|
    ensures var s := states[i];
            && FatesPartition(s) && InOrder(s.accepted)
            && s.accepted == s.delivered + InFlight(s.worker) + s.writer.queue
            && s.writer.dropped == |s.droppedRecords|
            && (s.writer.capacity > 0 ==> |s.writer.queue| <= s.writer.capacity)
            && (s.rejectedRecords != {} ==> s.writer.stopping)
            && s.submitted == |s.accepted| + |s.droppedRecords| + |s.rejectedRecords|
            && (s.worker in {Draining, FinalSweep, Ended} ==> s.delivered == s.accepted)
  {
    RunKeepsRecords(states, actions, i);
    var s := states[i];
    FatesAddUp(s);
    if s.worker in {Draining, FinalSweep, Ended} {
      assert s.delivered + [] + [] == s.delivered;
    }
  }

  lemma LastIsNew(init: seq<Item>, last: Item)
    requires InOrder(init + [last])
    ensures last.record !in Records(init)
  {
    forall i | i in init ensures i.record < last.record {
      var k :| 0 <= k < |init| && init[k] == i;
      assert (init + [last])[k].record < (init + [last])[|init|].record;
    }
  }

  lemma {:induction false} OrderedSize(items: seq<Item>)
    requires InOrder(items)
    ensures |Records(items)| == |items|
  {
    if items == [] {
      assert Records(items) == {};
    } else {
      var init, last := items[..|items| - 1], items[|items| - 1];
      assert items == init + [last];
      OrderedSize(init);
      RecordsSnoc(init, last);
      LastIsNew(init, last);
    }
  }

  lemma {:induction false} BelowSize(n: nat, below: set<nat>)
    requires forall r: nat :: r in below <==> r < n
    ensures |below| == n
  {
    if n == 0 {
      assert below == {};
    } else {
      BelowSize(n - 1, below - {n - 1});
    }
  }

  lemma FatesAddUp(s: State)
    requires RecordsInv(s)
    ensures s.submitted == |s.accepted| + |s.droppedRecords| + |s.rejectedRecords|
  {
    OrderedSize(s.accepted);
    BelowSize(s.submitted, Records(s.accepted) + s.droppedRecords + s.rejectedRecords);
  }

  // ---------------------------------------------------------------------------
  // The drain loop ends
  // ---------------------------------------------------------------------------

  /** The actions of the drain thread. */
  predicate IsWorkerStep(a: Action) {
    !a.Wrap? && !a.Submit? && !a.CloseProxy? && !a.Stop?
  }

  /** How many of the actions from `i` up to `j` are the drain thread's. */
  function WorkerSteps(actions: seq<Action>, i: nat, j: nat): nat
    requires i <= j <= |actions|
  {
    if i == j then 0 else WorkerSteps(actions, i, j - 1) + if IsWorkerStep(actions[j - 1]) then 1 else 0
  }

  /** How many steps the drain thread has left at most, once stopping: six per queued record, and the way out. */
  function StepsLeft(s: State): nat {
    6 * |s.writer.queue| +
    match s.worker
    case Ended => 0
    case FinalSweep => 1
    case Draining => 2
    case TestingEmpty => 3
    case TestingStop => 4
    case Sweeping => 5
    case AfterItem => 6
    case Emitting(_) => 7
    case Getting => if s.writer.queue == [] then 6 else 2
  }

  lemma StepUsesOne(s: State, a: Action)
    requires s.writer.stopping && Enabled(s, a)
    ensures Apply(s, a).writer.stopping
    ensures StepsLeft(Apply(s, a)) + (if IsWorkerStep(a) then 1 else 0) <= StepsLeft(s)
  {
    if a.CloseProxy? { RetiredLeavesQueue(s.writer, s.proxies[a.proxy].handlers); }
  }

  lemma RunUsesOne(states: seq<State>, actions: seq<Action>, j: nat)
    requires IsRun(states, actions) && j < |actions| && states[j].writer.stopping
    ensures states[j + 1].writer.stopping
    ensures StepsLeft(states[j + 1]) + (if IsWorkerStep(actions[j]) then 1 else 0) <= StepsLeft(states[j])
  {
    StepUsesOne(states[j], actions[j]);
  }

  lemma {:induction false} StaysStopping(states: seq<State>, actions: seq<Action>, i: nat, j: nat)
    requires IsRun(states, actions) && i <= j < |states| && states[i].writer.stopping
    ensures states[j].writer.stopping
    decreases j
  {
    if i < j {
      StaysStopping(states, actions, i, j - 1);
      RunUsesOne(states, actions, j - 1);
    }
  }

  /** A budget from which every step of the drain thread takes one bounds the number of those steps. */
  lemma {:induction false} BudgetBounds(budget: seq<nat>, actions: seq<Action>, i: nat, j: nat)
    requires i <= j <= |actions| < |budget|
    requires forall k | i <= k < j :: budget[k + 1] + (if IsWorkerStep(actions[k]) then 1 else 0) <= budget[k]
    ensures WorkerSteps(actions, i, j) + budget[j] <= budget[i]
    decreases j
  {
    if i < j { BudgetBounds(budget, actions, i, j - 1); }
  }

  lemma StepsAreUsed(states: seq<State>, actions: seq<Action>, i: nat, j: nat)
    requires IsRun(states, actions) && i <= j < |states| && states[i].writer.stopping
    ensures WorkerSteps(actions, i, j) + StepsLeft(states[j]) <= StepsLeft(states[i])
  {
    var budget := seq(|states|, k requires 0 <= k < |states| => StepsLeft(states[k]));
    forall k | i <= k < j ensures budget[k + 1] + (if IsWorkerStep(actions[k]) then 1 else 0) <= budget[k] {
      StaysStopping(states, actions, i, k);
      RunUsesOne(states, actions, k);
    }
    BudgetBounds(budget, actions, i, j);
  }

  /** Until it has ended, the drain thread can take a step. */
  lemma WorkerCanStep(s: State) returns (a: Action)
    requires s.worker != Ended
    ensures Enabled(s, a) && IsWorkerStep(a)
  {
    match s.worker
    case TestingStop => a := TestStop;
    case TestingEmpty => a := TestEmpty;
    case Getting => a := if s.writer.queue == [] then GetTimeout else Get;
    case Emitting(_) => a := Emit;
    case AfterItem => a := TestQueue;
    case Sweeping => a := Sweep;
    case Draining => a := RetireAll;
    case FinalSweep => a := SweepAll;
  }

  /**
   Once the writer is stopped, whatever its callers still do, the drain thread takes at most six more
   steps per queued record and seven besides; it can always take one until it has ended, and it ends
   with every accepted record delivered.
   */
  lemma DrainLoopEnds(states: seq<State>, actions: seq<Action>, i: nat, j: nat)
    requires IsRun(states, actions) && i <= j < |states| && states[i].writer.stopping
    ensures WorkerSteps(actions, i, j) <= 6 * |states[i].writer.queue| + 7
    ensures states[j].worker == Ended ==> states[j].delivered == states[j].accepted
    ensures states[j].worker != Ended ==> exists a :: Enabled(states[j], a) && IsWorkerStep(a)
  {
    StepsAreUsed(states, actions, i, j);
    RecordsAreConserved(states, actions, j);
    if states[j].worker != Ended {
      var a := WorkerCanStep(states[j]);
    }
  }

  // ---------------------------------------------------------------------------
  // Handlers
  // ---------------------------------------------------------------------------

  function Held(p: Proxy, h: Handler): nat {
    if p.live then multiset(p.handlers)[h] else 0
  }

  /** How many live proxies hold `h`, counting repetitions. */
  function LiveOwners(proxies: seq<Proxy>, h: Handler): nat {
    if proxies == [] then 0 else LiveOwners(proxies[..|proxies| - 1], h) + Held(proxies[|proxies| - 1], h)
  }

  lemma {:induction false} LiveOwnersReplace(proxies: seq<Proxy>, i: nat, p: Proxy, h: Handler)
    requires i < |proxies|
    ensures LiveOwners(proxies[i := p], h) == LiveOwners(proxies, h) - Held(proxies[i], h) + Held(p, h)
  {
    var n := |proxies| - 1;
    if i < n {
      assert proxies[i := p][..n] == proxies[..n][i := p];
      LiveOwnersReplace(proxies[..n], i, p, h);
    } else {
      assert proxies[i := p][..n] == proxies[..n];
    }
  }

  lemma LiveOwnersAtLeast(proxies: seq<Proxy>, i: nat, h: Handler)
    requires i < |proxies|
    ensures LiveOwners(proxies, h) >= Held(proxies[i], h)
  {
    LiveOwnersReplace(proxies, i, Proxy([], false), h);
  }

  /** Before final shutdown: no handler was marked for closing wholesale. */
  predicate BeforeFinal(w: Worker) {
    w != FinalSweep && w != Ended
  }

  ghost predicate OwnersMatch(s: State) {
    && Positive(s.writer.owners)
    && forall h :: Owned(s.writer.owners, h) == LiveOwners(s.proxies, h)
  }

  ghost predicate RegistryMatches(s: State) {
    && (s.worker != Ended ==> s.writer.owners.Keys <= s.writer.handlers && s.writer.retired <= s.writer.handlers)
    && (BeforeFinal(s.worker) ==>
          s.writer.handlers == s.writer.owners.Keys + s.writer.retired && s.writer.owners.Keys !! s.writer.retired)
  }

  /** A handler was taken for closing once for every registration that is over. */
  ghost predicate ClosingsMatch(s: State) {
    forall h :: Owned(s.closings, h) + (if h in s.writer.handlers then 1 else 0) == Owned(s.registrations, h)
  }

  ghost predicate HandlersInv(s: State) {
    OwnersMatch(s) && RegistryMatches(s) && ClosingsMatch(s)
  }

  lemma CountUpCounts(counts: map<Handler, int>, hs: set<Handler>, h: Handler)
    ensures Owned(CountUp(counts, hs), h) == Owned(counts, h) + if h in hs then 1 else 0
  {
  }

  lemma WrapKeepsHandlers(s: State, targets: seq<Handler>)
    requires HandlersInv(s) && targets != []
    ensures HandlersInv(Apply(s, Wrap(targets)))
  {
    var s' := Apply(s, Wrap(targets));
    forall h ensures Owned(s'.writer.owners, h) == LiveOwners(s'.proxies, h)
             ensures h in s'.writer.owners <==> h in s.writer.owners || h in targets
             ensures Owned(s'.registrations, h) ==
                     Owned(s.registrations, h) + if h in Elements(targets) - s.writer.handlers then 1 else 0
    {
      AddOwnersCounts(s.writer.owners, targets, h);
      assert s'.proxies[..|s.proxies|] == s.proxies;
      CountUpCounts(s.registrations, Elements(targets) - s.writer.handlers, h);
    }
    AddOwnersPositive(s.writer.owners, targets);
  }

  lemma {:induction false} AddOwnersPositive(owners: map<Handler, int>, targets: seq<Handler>)
    requires Positive(owners)
    ensures Positive(AddOwners(owners, targets))
  {
    if targets != [] { AddOwnersPositive(owners, targets[..|targets| - 1]); }
  }

  lemma CloseKeepsHandlers(s: State, i: nat)
    requires HandlersInv(s) && Enabled(s, CloseProxy(i))
    ensures HandlersInv(Apply(s, CloseProxy(i)))
  {
    var s', hs := Apply(s, CloseProxy(i)), s.proxies[i].handlers;
    forall h ensures Owned(s.writer.owners, h) >= multiset(hs)[h] {
      LiveOwnersAtLeast(s.proxies, i, h);
    }
    forall h
      ensures Owned(s'.writer.owners, h) == LiveOwners(s'.proxies, h) == Owned(s.writer.owners, h) - multiset(hs)[h]
      ensures h in s'.writer.retired <==>
              h in s.writer.retired || (h in hs && Owned(s.writer.owners, h) == multiset(hs)[h])
    {
      RetiredCounts(s.writer, hs, h);
      LiveOwnersReplace(s.proxies, i, Proxy(hs, false), h);
    }
    RetiredLeavesQueue(s.writer, hs);
    RetiredPositive(s.writer, hs);
    forall h ensures h in s'.writer.owners <==> Owned(s'.writer.owners, h) > 0
             ensures h in s.writer.owners <==> Owned(s.writer.owners, h) > 0
             ensures h in hs <==> multiset(hs)[h] > 0 { }
  }

  lemma {:induction false} RetiredPositive(w: Writer, hs: seq<Handler>)
    requires Positive(w.owners)
    ensures Positive(Retired(w, hs).owners)
  {
    if hs != [] { RetiredPositive(w, hs[..|hs| - 1]); }
  }

  lemma TakeKeepsHandlers(s: State, next: Worker)
    requires HandlersInv(s) && s.worker in {Sweeping, FinalSweep}
    requires next == if s.worker == Sweeping then TestingStop else Ended
    ensures HandlersInv(Take(s, next))
  {
    forall h ensures Owned(CountUp(s.closings, s.writer.retired), h) ==
                     Owned(s.closings, h) + if h in s.writer.retired then 1 else 0
    {
      CountUpCounts(s.closings, s.writer.retired, h);
    }
  }

  lemma StepKeepsHandlers(s: State, a: Action)
    requires HandlersInv(s) && Enabled(s, a)
    ensures HandlersInv(Apply(s, a))
  {
    match a
    case Wrap(targets) => WrapKeepsHandlers(s, targets);
    case CloseProxy(i) => CloseKeepsHandlers(s, i);
    case Sweep => TakeKeepsHandlers(s, TestingStop);
    case SweepAll => TakeKeepsHandlers(s, Ended);
    case _ =>
  }

  lemma {:induction false} RunKeepsHandlers(states: seq<State>, actions: seq<Action>, i: nat)
    requires IsRun(states, actions) && i < |states|
    ensures HandlersInv(states[i])
  {
    if i > 0 {
      RunKeepsHandlers(states, actions, i - 1);
      StepKeepsHandlers(states[i - 1], actions[i - 1]);
    }
  }

  /**
   Ownership is counted: a handler has as many owners as live proxies hold it; before final shutdown
   the registered handlers are the owned and the retired ones, and no handler is both; and a handler
   is taken for closing at most once per registration, exactly once for each that is over.
   */
  lemma OwnershipIsCounted(states: seq<State>, actions: seq<Action>, i: nat, h: Handler)
    requires IsRun(states, actions) && i < |states|
    ensures var s := states[i];
            && Owned(s.writer.owners, h) == LiveOwners(s.proxies, h)
            && (BeforeFinal(s.worker) ==>
                  && (h in s.writer.handlers <==> LiveOwners(s.proxies, h) > 0 || h in s.writer.retired)
                  && !(LiveOwners(s.proxies, h) > 0 && h in s.writer.retired))
            && Owned(s.closings, h) <= Owned(s.registrations, h) <= Owned(s.closings, h) + 1
            && (Owned(s.closings, h) == Owned(s.registrations, h) <==> h !in s.writer.handlers)
  {
    RunKeepsHandlers(states, actions, i);
    assert h in states[i].writer.owners <==> Owned(states[i].writer.owners, h) > 0;
  }

  /** Until final shutdown a sweep takes only handlers that no live proxy holds. */
  lemma SweepTakesUnowned(states: seq<State>, actions: seq<Action>, i: nat, h: Handler)
    requires IsRun(states, actions) && i < |actions| && actions[i] == Sweep
    requires h in states[i].writer.retired
    ensures LiveOwners(states[i].proxies, h) == 0
    ensures Owned(states[i + 1].closings, h) == Owned(states[i].closings, h) + 1
  {
    RunKeepsHandlers(states, actions, i);
    CountUpCounts(states[i].closings, states[i].writer.retired, h);
  }
}
