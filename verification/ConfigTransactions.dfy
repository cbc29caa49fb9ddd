/**
 Read-modify-write transactions on the configuration file: `update_config` under a two-level lock,
 first the process-wide thread lock, then the lock file shared by all processes.  Any number of
 threads in any number of processes interleave between the steps below.
 */
module ConfigTransactions {
  import opened Basics
  import opened ConfigTree

  type Thread = nat
  type Process = nat
  type TempName = nat

  /**
   What calling a mutator does: it raises, or returns a document, where Null stands for None.  It may
   edit the document it is given in place; `argument` is that document afterwards.
   */
  datatype Mutation = Raises | Returns(data: Node, argument: Node)

  type Mutator = Node -> Mutation

  /** How a call ends: with an exception, or with a document, after having loaded one. */
  datatype Result = Failed | Value(loaded: Node, data: Node)

  /** Where a thread is in its call. */
  datatype Phase =
    | Idle
    | HasThreadLock(mutator: Mutator)
    | HasBothLocks(mutator: Mutator)
    | Loaded(mutator: Mutator, data: Node)
    | Mutated(mutator: Mutator, loaded: Node, data: Node)
    | TempOpen(mutator: Mutator, loaded: Node, data: Node, name: TempName)
    | TempWritten(mutator: Mutator, loaded: Node, data: Node, name: TempName)
    | Leaving(mutator: Mutator, result: Result)      // still holds both locks
    | FileUnlocked(mutator: Mutator, result: Result) // still holds the thread lock

  datatype Status = Pending | Committed | Skipped

  /** One critical section, entered in file-lock order. */
  datatype Entry = Entry(thread: Thread, mutator: Mutator, status: Status)

  datatype State = State(
    processOf: map<Thread, Process>,
    initial: Node,
    file: Node,
    temps: map<TempName, Option<Node>>,  // temporary files that exist; None while one is being written
    threadLock: map<Process, Thread>,
    fileLock: Option<Thread>,
    phase: map<Thread, Phase>,
    history: seq<Entry>)

  datatype Action =
    | TakeThreadLock(t: Thread, mutator: Mutator)
    | TakeFileLock(t: Thread)
    | FileLockTimeout(t: Thread)
    | Load(t: Thread)
    | LoadFails(t: Thread)
    | Mutate(t: Thread)
    | OpenTemp(t: Thread, name: TempName)
    | WriteTemp(t: Thread)
    | DumpFails(t: Thread)
    | UnlinkFails(t: Thread)             // the dump fails, and so does the removal of its temporary file
    | Replace(t: Thread)
    | DropFileLock(t: Thread)
    | DropThreadLock(t: Thread)

  /** The document a file holds: an empty file loads as null and counts as an empty mapping. */
  function LoadedFrom(file: Node): Node {
    if file.Null? then Mapping(map[]) else file
  }

  ghost predicate Init(s: State) {
    && s.phase.Keys == s.processOf.Keys && (forall t | t in s.phase :: s.phase[t] == Idle)
    && s.threadLock == map[] && s.fileLock == None && s.temps == map[]
    && s.history == [] && s.file == s.initial
  }

  predicate HasTemp(p: Phase) {
    p.TempOpen? || p.TempWritten?
  }

  ghost predicate Enabled(s: State, a: Action) {
    && a.t in s.phase && a.t in s.processOf
    && var p := s.phase[a.t];
       match a
       case TakeThreadLock(t, _) => p.Idle? && s.processOf[t] !in s.threadLock
       case TakeFileLock(_) => p.HasThreadLock? && s.fileLock == None
       case FileLockTimeout(_) => p.HasThreadLock?
       case Load(_) => p.HasBothLocks?
       case LoadFails(_) => p.HasBothLocks?
       case Mutate(_) => p.Loaded?
       case OpenTemp(_, name) => p.Mutated? && name !in s.temps
       case WriteTemp(_) => p.TempOpen?
       case DumpFails(_) => p.Mutated? || HasTemp(p)
       case UnlinkFails(_) => HasTemp(p)
       case Replace(_) => p.TempWritten? && p.name in s.temps && s.temps[p.name].Some?
       case DropFileLock(_) => p.Leaving?
       case DropThreadLock(_) => p.FileUnlocked?
  }

  function Close(history: seq<Entry>, status: Status): seq<Entry> {
    if history == [] then [] else history[|history| - 1 := history[|history| - 1].(status := status)]
  }

  /** Leave the critical section without having changed the file. */
  ghost function Skip(s: State, t: Thread, m: Mutator, result: Result): State {
    s.(phase := s.phase[t := Leaving(m, result)], history := Close(s.history, Skipped))
  }

  ghost function Apply(s: State, a: Action): State
    requires Enabled(s, a)
  {
    var p := s.phase[a.t];
    match a
    case TakeThreadLock(t, m) =>
      s.(threadLock := s.threadLock[s.processOf[t] := t], phase := s.phase[t := HasThreadLock(m)])
    case TakeFileLock(t) =>
      s.(fileLock := Some(t), phase := s.phase[t := HasBothLocks(p.mutator)],
         history := s.history + [Entry(t, p.mutator, Pending)])
    case FileLockTimeout(t) =>
      s.(threadLock := s.threadLock - {s.processOf[t]}, phase := s.phase[t := Idle])
    case Load(t) => s.(phase := s.phase[t := Loaded(p.mutator, LoadedFrom(s.file))])
    case LoadFails(t) => Skip(s, t, p.mutator, Failed)
    case Mutate(t) =>
      (match p.mutator(p.data)
       case Raises => Skip(s, t, p.mutator, Failed)
       case Returns(d, argument) =>
         if d.Null? then Skip(s, t, p.mutator, Value(p.data, argument))
         else s.(phase := s.phase[t := Mutated(p.mutator, p.data, d)]))
    case OpenTemp(t, name) =>
      s.(temps := s.temps[name := None], phase := s.phase[t := TempOpen(p.mutator, p.loaded, p.data, name)])
    case WriteTemp(t) =>
      s.(temps := s.temps[p.name := Some(p.data)],
         phase := s.phase[t := TempWritten(p.mutator, p.loaded, p.data, p.name)])
    case DumpFails(t) => Skip(s, t, p.mutator, Failed).(temps := if HasTemp(p) then s.temps - {p.name} else s.temps)
    case UnlinkFails(t) => Skip(s, t, p.mutator, Failed)
    case Replace(t) =>
      s.(file := s.temps[p.name].value, temps := s.temps - {p.name},
         phase := s.phase[t := Leaving(p.mutator, Value(p.loaded, p.data))],
         history := Close(s.history, Committed))
    case DropFileLock(t) => s.(fileLock := None, phase := s.phase[t := FileUnlocked(p.mutator, p.result)])
    case DropThreadLock(t) =>
      s.(threadLock := s.threadLock - {s.processOf[t]}, phase := s.phase[t := Idle])
  }

  ghost predicate IsRun(states: seq<State>, actions: seq<Action>) {
    && |states| == |actions| + 1
    && Init(states[0])
    && forall i | 0 <= i < |actions| ::
         Enabled(states[i], actions[i]) && states[i + 1] == Apply(states[i], actions[i])
  }

  // ---------------------------------------------------------------------------
  // The serial specification
  // ---------------------------------------------------------------------------

  /** A document after one committed mutator. */
  ghost function Step(doc: Node, m: Mutator): Node {
    match m(LoadedFrom(doc))
    case Raises => doc
    case Returns(d, _) => if d.Null? then doc else d
  }

  /** The committed mutators of a history, one after the other. */
  ghost function Serial(initial: Node, history: seq<Entry>): Node {
    if history == [] then initial
    else
      var e, before := history[|history| - 1], Serial(initial, history[..|history| - 1]);
      if e.status == Committed then Step(before, e.mutator) else before
  }

  // ---------------------------------------------------------------------------
  // The invariant
  // ---------------------------------------------------------------------------

  predicate InSection(p: Phase) {
    p.HasBothLocks? || p.Loaded? || p.Mutated? || HasTemp(p) || p.Leaving?
  }

  /** Still deciding whether to change the file. */
  predicate Undecided(p: Phase) {
    InSection(p) && !p.Leaving?
  }

  ghost predicate LocksMatch(s: State) {
    && s.phase.Keys == s.processOf.Keys
    && (forall t | t in s.phase && !s.phase[t].Idle? ::
          s.processOf[t] in s.threadLock && s.threadLock[s.processOf[t]] == t)
    && (forall p | p in s.threadLock ::
          var t := s.threadLock[p]; t in s.phase && !s.phase[t].Idle? && s.processOf[t] == p)
    && (forall t | t in s.phase && InSection(s.phase[t]) :: s.fileLock == Some(t))
    && (s.fileLock.Some? ==> s.fileLock.value in s.phase && InSection(s.phase[s.fileLock.value]))
  }

  /** The mutator makes `data` of the loaded document, to be written. */
  ghost predicate Makes(m: Mutator, loaded: Node, data: Node) {
    m(loaded).Returns? && m(loaded).data == data && !data.Null?
  }

  /** What the thread in the critical section knows about the file. */
  ghost predicate Knows(s: State, p: Phase) {
    match p
    case Loaded(_, data) => data == LoadedFrom(s.file)
    case Mutated(m, loaded, data) => loaded == LoadedFrom(s.file) && Makes(m, loaded, data)
    case TempOpen(m, loaded, data, _) => loaded == LoadedFrom(s.file) && Makes(m, loaded, data)
    case TempWritten(m, loaded, data, name) =>
      loaded == LoadedFrom(s.file) && Makes(m, loaded, data) && name in s.temps && s.temps[name] == Some(data)
    case Leaving(m, result) =>
      result.Value? ==>
        || (s.file == result.data && Makes(m, result.loaded, result.data))
        || (LoadedFrom(s.file) == result.loaded && m(result.loaded) == Returns(Null, result.data))
    case _ => true
  }

  ghost predicate HistoryMatches(s: State) {
    && (forall i | 0 <= i < |s.history| - 1 :: s.history[i].status != Pending)
    && (forall t | t in s.phase && Undecided(s.phase[t]) ::
          && s.history != []
          && s.history[|s.history| - 1] == Entry(t, s.phase[t].mutator, Pending))
    && (s.history != [] && s.history[|s.history| - 1].status == Pending ==>
          s.fileLock.Some? && s.fileLock.value in s.phase && Undecided(s.phase[s.fileLock.value]))
    && (forall t | t in s.phase :: InSection(s.phase[t]) ==> Knows(s, s.phase[t]))
  }

  ghost predicate Inv(s: State) {
    LocksMatch(s) && HistoryMatches(s) && s.file == Serial(s.initial, s.history)
  }

  /** One thread moves, and the locks move with it. */
  ghost predicate LocksMove(s: State, s': State, t: Thread) {
    && t in s.phase && t in s.processOf && t in s'.phase
    && s'.phase == s.phase[t := s'.phase[t]] && s'.processOf == s.processOf && s'.initial == s.initial
    && var p, p' := s.phase[t], s'.phase[t];
       && s'.threadLock == (if p.Idle? == p'.Idle? then s.threadLock
                            else if p.Idle? then s.threadLock[s.processOf[t] := t]
                            else s.threadLock - {s.processOf[t]})
       && (p.Idle? && !p'.Idle? ==> s.processOf[t] !in s.threadLock)
       && s'.fileLock == (if InSection(p') then Some(t) else if InSection(p) then None else s.fileLock)
       && (InSection(p') && !InSection(p) ==> s.fileLock == None)
  }

  lemma StepMovesLocks(s: State, a: Action)
    requires LocksMatch(s) && Enabled(s, a)
    ensures LocksMove(s, Apply(s, a), a.t)
  {
    if InSection(s.phase[a.t]) { SectionMovesLocks(s, a); }
  }

  /** Inside the critical section the locks stay, until the lock file is dropped. */
  lemma SectionMovesLocks(s: State, a: Action)
    requires Enabled(s, a) && InSection(s.phase[a.t]) && s.fileLock == Some(a.t)
    ensures LocksMove(s, Apply(s, a), a.t)
  {
  }

  lemma LocksFollow(s: State, s': State, t: Thread)
    requires LocksMatch(s) && LocksMove(s, s', t)
    ensures LocksMatch(s')
  {
    assert s'.phase.Keys == s.phase.Keys;
  }

  lemma KeepsLocks(s: State, a: Action)
    requires LocksMatch(s) && Enabled(s, a)
    ensures LocksMatch(Apply(s, a))
  {
    StepMovesLocks(s, a);
    LocksFollow(s, Apply(s, a), a.t);
  }

  /** How the history and the file move with the thread in the critical section. */
  ghost predicate HistoryMoves(s: State, s': State, t: Thread) {
    && t in s.phase && t in s'.phase && s'.phase == s.phase[t := s'.phase[t]]
    && var p, p' := s.phase[t], s'.phase[t];
       && (InSection(p') ==> Knows(s', p'))
       && (!InSection(p) ==> s'.file == s.file && s'.temps == s.temps)
       && (Undecided(p') ==>
             if Undecided(p) then s'.history == s.history && p'.mutator == p.mutator && s'.file == s.file
             else && s'.history == s.history + [Entry(t, p'.mutator, Pending)]
                  && s.fileLock == None && s'.fileLock == Some(t))
       && (!Undecided(p') ==>
             if Undecided(p) then s'.history == Close(s.history, Skipped) || s'.history == Close(s.history, Committed)
             else s'.history == s.history && (s'.fileLock == s.fileLock || p.Leaving?))
       && (Undecided(p) && Undecided(p') ==> s'.fileLock == s.fileLock)
  }

  lemma StepMovesHistory(s: State, a: Action)
    requires LocksMatch(s) && HistoryMatches(s) && Enabled(s, a)
    ensures HistoryMoves(s, Apply(s, a), a.t)
  {
    var p := s.phase[a.t];
    if Undecided(p) {
      assert Knows(s, p);
      SectionMovesHistory(s, a);
    } else {
      assert p.Leaving? ==> InSection(p);
    }
  }

  /** The steps of a call that is still deciding. */
  lemma SectionMovesHistory(s: State, a: Action)
    requires Enabled(s, a) && Undecided(s.phase[a.t]) && Knows(s, s.phase[a.t])
    ensures HistoryMoves(s, Apply(s, a), a.t)
  {
  }

  lemma HistoryFollows(s: State, s': State, t: Thread)
    requires LocksMatch(s) && HistoryMatches(s) && HistoryMoves(s, s', t)
    ensures HistoryMatches(s')
  {
    forall u | u in s.phase && u != t && InSection(s.phase[u])
      ensures !InSection(s.phase[t]) && s'.phase[u] == s.phase[u] { }
    forall u | u in s'.phase && InSection(s'.phase[u]) ensures Knows(s', s'.phase[u]) {
      if u != t { assert Knows(s, s.phase[u]); }
    }
  }

  lemma KeepsHistory(s: State, a: Action)
    requires LocksMatch(s) && HistoryMatches(s) && Enabled(s, a)
    ensures HistoryMatches(Apply(s, a))
  {
    StepMovesHistory(s, a);
    HistoryFollows(s, Apply(s, a), a.t);
  }

  lemma SerialClose(initial: Node, history: seq<Entry>, status: Status)
    requires history != []
    ensures Close(history, status)[..|history| - 1] == history[..|history| - 1]
    ensures Serial(initial, Close(history, status)) ==
            var before := Serial(initial, history[..|history| - 1]);
            if status == Committed then Step(before, history[|history| - 1].mutator) else before
  {
  }

  lemma SerialOpen(initial: Node, history: seq<Entry>, e: Entry)
    requires e.status == Pending
    ensures Serial(initial, history + [e]) == Serial(initial, history)
  {
    assert (history + [e])[..|history|] == history;
  }

  lemma KeepsSerial(s: State, a: Action)
    requires Inv(s) && Enabled(s, a)
    ensures Apply(s, a).file == Serial(s.initial, Apply(s, a).history) && Apply(s, a).initial == s.initial
  {
    var p := s.phase[a.t];
    if a.TakeFileLock? {
      SerialOpen(s.initial, s.history, Entry(a.t, p.mutator, Pending));
    } else if Undecided(p) {
      assert Knows(s, p);
      SectionKeepsSerial(s, a);
    }
  }

  lemma SectionKeepsSerial(s: State, a: Action)
    requires Enabled(s, a) && Undecided(s.phase[a.t]) && Knows(s, s.phase[a.t])
    requires s.history != [] && s.history[|s.history| - 1] == Entry(a.t, s.phase[a.t].mutator, Pending)
    requires s.file == Serial(s.initial, s.history)
    ensures Apply(s, a).file == Serial(s.initial, Apply(s, a).history) && Apply(s, a).initial == s.initial
  {
    SerialClose(s.initial, s.history, Skipped);
    SerialClose(s.initial, s.history, Committed);
  }

  lemma StepKeepsInv(s: State, a: Action)
    requires Inv(s) && Enabled(s, a)
    ensures Inv(Apply(s, a))
  {
    KeepsLocks(s, a);
    KeepsHistory(s, a);
    KeepsSerial(s, a);
  }

  lemma {:induction false} RunKeepsInv(states: seq<State>, actions: seq<Action>, i: nat)
    requires IsRun(states, actions) && i < |states|
    ensures Inv(states[i])
  {
    if i > 0 {
      RunKeepsInv(states, actions, i - 1);
      StepKeepsInv(states[i - 1], actions[i - 1]);
    }
  }

  // ---------------------------------------------------------------------------
  // What every run guarantees
  // ---------------------------------------------------------------------------

  /**
   No update is lost: in every state the file holds the committed mutators applied one after the
   other in the order in which their calls took the lock file; at most one thread of all processes
   is between taking and dropping it; and while nobody is, every entry of the history is
   decided and the only temporary files are those whose removal failed.
   */
  lemma FileIsSerial(states: seq<State>, actions: seq<Action>, i: nat)
    requires IsRun(states, actions) && i < |states|
    ensures var s := states[i];
            && s.file == Serial(s.initial, s.history)
            && (forall t, u | t in s.phase && u in s.phase && InSection(s.phase[t]) && InSection(s.phase[u]) :: t == u)
            && (s.fileLock == None ==>
                  s.temps.Keys == Stranded(states, actions, i) && forall e | e in s.history :: e.status != Pending)
  {
    RunKeepsInv(states, actions, i);
    InvMeans(states[i]);
    TempsLeft(states, actions, i);
  }

  lemma InvMeans(s: State)
    requires Inv(s)
    ensures forall t, u | t in s.phase && u in s.phase && InSection(s.phase[t]) && InSection(s.phase[u]) :: t == u
    ensures s.fileLock == None ==> InUse(s) == {} && forall e | e in s.history :: e.status != Pending
  {
    if s.fileLock == None {
      assert forall t | t in s.phase :: !InSection(s.phase[t]);
    }
  }

  /** `h'` continues `h`: entries stay in place, and a decided entry stays decided. */
  ghost predicate Continues(h: seq<Entry>, h': seq<Entry>) {
    && |h| <= |h'|
    && forall k | 0 <= k < |h| ::
         && h'[k].thread == h[k].thread && h'[k].mutator == h[k].mutator
         && (h[k].status != Pending ==> h'[k].status == h[k].status)
  }

  lemma CloseContinues(h: seq<Entry>, status: Status)
    requires h != [] ==> h[|h| - 1].status == Pending
    ensures Continues(h, Close(h, status)) && |Close(h, status)| == |h|
  {
  }

  /** A step appends an entry, closes the last one, or leaves the history alone. */
  lemma StepTouchesLast(s: State, a: Action)
    requires Enabled(s, a)
    ensures var h := Apply(s, a).history;
            if a.TakeFileLock? then h == s.history + [Entry(a.t, s.phase[a.t].mutator, Pending)]
            else h == s.history
                 || (Undecided(s.phase[a.t]) && (h == Close(s.history, Skipped) || h == Close(s.history, Committed)))
  {
  }

  lemma StepContinues(s: State, a: Action)
    requires Inv(s) && Enabled(s, a)
    ensures Continues(s.history, Apply(s, a).history)
    ensures |Apply(s, a).history| == |s.history| + if a.TakeFileLock? then 1 else 0
  {
    StepTouchesLast(s, a);
    if Undecided(s.phase[a.t]) {
      CloseContinues(s.history, Skipped);
      CloseContinues(s.history, Committed);
    }
  }

  /** The threads that took the lock file, in order. */
  function Acquirers(actions: seq<Action>): seq<Thread> {
    if actions == [] then []
    else
      var a := actions[|actions| - 1];
      Acquirers(actions[..|actions| - 1]) + if a.TakeFileLock? then [a.t] else []
  }

  function Threads(history: seq<Entry>): seq<Thread> {
    seq(|history|, k requires 0 <= k < |history| => history[k].thread)
  }

  lemma StepRecordsAcquirer(s: State, a: Action)
    requires Inv(s) && Enabled(s, a)
    ensures Threads(Apply(s, a).history) == Threads(s.history) + if a.TakeFileLock? then [a.t] else []
  {
    StepContinues(s, a);
  }

  lemma AcquirersSnoc(actions: seq<Action>, i: nat)
    requires i < |actions|
    ensures Acquirers(actions[..i + 1]) ==
            Acquirers(actions[..i]) + if actions[i].TakeFileLock? then [actions[i].t] else []
  {
    assert actions[..i + 1][..i] == actions[..i];
  }

  /** Entry k of the history is the k-th acquisition of the lock file, and there are no other entries. */
  lemma {:induction false} HistoryRecordsAcquirers(states: seq<State>, actions: seq<Action>, i: nat)
    requires IsRun(states, actions) && i < |states|
    ensures Threads(states[i].history) == Acquirers(actions[..i])
  {
    if i == 0 {
      assert Threads(states[0].history) == [];
    } else {
      HistoryRecordsAcquirers(states, actions, i - 1);
      RunKeepsInv(states, actions, i - 1);
      StepRecordsAcquirer(states[i - 1], actions[i - 1]);
      AcquirersSnoc(actions, i - 1);
    }
  }

  /**
   The history is the order of lock acquisition: it lists the acquiring threads, one entry per
   acquisition, and it only grows.
   */
  lemma {:induction false} HistoryIsLockOrder(states: seq<State>, actions: seq<Action>, i: nat, j: nat)
    requires IsRun(states, actions) && i <= j < |states|
    ensures Threads(states[j].history) == Acquirers(actions[..j])
    ensures Continues(states[i].history, states[j].history)
    decreases j
  {
    HistoryRecordsAcquirers(states, actions, j);
    if i < j {
      HistoryIsLockOrder(states, actions, i, j - 1);
      RunKeepsInv(states, actions, j - 1);
      StepContinues(states[j - 1], actions[j - 1]);
    }
  }

  /**
   A call changes the file in one step only, the rename, and then by its own mutator; a call that
   times out, raises, gets None from its mutator or fails to dump ends without having changed it.
   */
  lemma OnlyReplaceChangesFile(states: seq<State>, actions: seq<Action>, i: nat)
    requires IsRun(states, actions) && i < |actions|
    ensures !actions[i].Replace? ==> states[i + 1].file == states[i].file
    ensures actions[i].Replace? ==>
              && states[i + 1].file == Step(states[i].file, states[i].phase[actions[i].t].mutator)
              && states[i].phase[actions[i].t].mutator(
                   if states[i].file.Null? then Mapping(map[]) else states[i].file).Returns?
              && states[i].phase[actions[i].t].mutator(
                   if states[i].file.Null? then Mapping(map[]) else states[i].file).data == states[i + 1].file
              && !states[i + 1].file.Null?
              && states[i].history != [] && states[i + 1].history == Close(states[i].history, Committed)
  {
    RunKeepsInv(states, actions, i);
    var s, a := states[i], actions[i];
    if a.Replace? { assert Knows(s, s.phase[a.t]); }
  }

  /** Given `loaded`, the mutator does not return None after having edited its argument. */
  ghost predicate LeavesOrWrites(m: Mutator, loaded: Node) {
    m(loaded).Returns? && m(loaded).data.Null? ==> m(loaded).argument == loaded
  }

  /**
   The value a call returns is the document in the file as it drops the lock, exactly when its mutator
   did not edit the loaded document and then return None.
   */
  lemma ReturnsWhatIsInTheFile(states: seq<State>, actions: seq<Action>, i: nat)
    requires IsRun(states, actions) && i < |actions|
    requires actions[i].DropFileLock? && states[i].phase[actions[i].t].result.Value?
    ensures var p := states[i].phase[actions[i].t];
            p.result.data == LoadedFrom(states[i].file) <==> LeavesOrWrites(p.mutator, p.result.loaded)
  {
    RunKeepsInv(states, actions, i);
    var s, t := states[i], actions[i].t;
    assert InSection(s.phase[t]) && Knows(s, s.phase[t]);
  }

  /** A run of one thread through its critical section, up to the point where it holds its result. */
  lemma CallRun(file: Node, m: Mutator) returns (states: seq<State>, actions: seq<Action>)
    requires m(LoadedFrom(file)).Returns? && m(LoadedFrom(file)).data.Null?
    ensures IsRun(states, actions) && |actions| == 5 && actions[4] == DropFileLock(0)
    ensures states[4].file == states[0].file == file && 0 in states[4].phase
    ensures states[4].phase[0] == Leaving(m, Value(LoadedFrom(file), m(LoadedFrom(file)).argument))
  {
    var s0 := State(map[0 := 0], file, file, map[], map[], None, map[0 := Idle], []);
    var s1 := Apply(s0, TakeThreadLock(0, m));
    var s2 := Apply(s1, TakeFileLock(0));
    var s3 := Apply(s2, Load(0));
    var s4 := Apply(s3, Mutate(0));
    states := [s0, s1, s2, s3, s4, Apply(s4, DropFileLock(0))];
    actions := [TakeThreadLock(0, m), TakeFileLock(0), Load(0), Mutate(0), DropFileLock(0)];
  }

  /** So for every mutator that edits and returns None, some call returns what is not in the file. */
  lemma EditThenNoneReturnsUnwritten(file: Node, m: Mutator) returns (states: seq<State>, actions: seq<Action>, i: nat)
    requires !LeavesOrWrites(m, LoadedFrom(file))
    ensures IsRun(states, actions) && i < |actions| && actions[i].DropFileLock?
    ensures var p := states[i].phase[actions[i].t];
            p.mutator == m && p.result.Value? && p.result.data != LoadedFrom(states[i].file) && states[i].file == file
  {
    states, actions := CallRun(file, m);
    i := 4;
  }

  /** Such a mutator: it makes sure there is a permissions mapping, then finds nothing to change. */
  lemma EnsuringMutator() returns (m: Mutator)
    ensures !LeavesOrWrites(m, Mapping(map[]))
  {
    m := (d: Node) =>
      Returns(Null, if d.Mapping? && "permissions" !in d.fields then Mapping(d.fields["permissions" := Mapping(map[])])
                    else d);
    var empty: Node := Mapping(map[]);
    assert "permissions" in m(empty).argument.fields;
  }

  // ---------------------------------------------------------------------------
  // Temporary files
  // ---------------------------------------------------------------------------

  /** The temporary files of calls under way. */
  ghost function InUse(s: State): set<TempName> {
    set t | t in s.phase && HasTemp(s.phase[t]) :: s.phase[t].name
  }

  /** The temporary files whose removal failed before state `i`. */
  ghost function Stranded(states: seq<State>, actions: seq<Action>, i: nat): set<TempName>
    requires IsRun(states, actions) && i < |states|
  {
    if i == 0 then {}
    else
      var a := actions[i - 1];
      Stranded(states, actions, i - 1) + if a.UnlinkFails? then {states[i - 1].phase[a.t].name} else {}
  }

  ghost predicate TempsAre(s: State, left: set<TempName>) {
    s.temps.Keys == InUse(s) + left && InUse(s) !! left
  }

  lemma InUseIs(s: State, t: Thread)
    requires t in s.phase && forall u | u in s.phase && HasTemp(s.phase[u]) :: u == t
    ensures InUse(s) == if HasTemp(s.phase[t]) then {s.phase[t].name} else {}
  {
    if HasTemp(s.phase[t]) { assert s.phase[t].name in InUse(s); }
  }

  lemma InUseElsewhere(s: State, s': State, t: Thread)
    requires t in s.phase && t in s'.phase && s'.phase == s.phase[t := s'.phase[t]]
    requires !HasTemp(s.phase[t]) && !HasTemp(s'.phase[t])
    ensures InUse(s') == InUse(s)
  {
    forall n | n in InUse(s) ensures n in InUse(s') {
      var u :| u in s.phase && HasTemp(s.phase[u]) && s.phase[u].name == n;
      assert s'.phase[u] == s.phase[u];
    }
    forall n | n in InUse(s') ensures n in InUse(s) {
      var u :| u in s'.phase && HasTemp(s'.phase[u]) && s'.phase[u].name == n;
      assert s'.phase[u] == s.phase[u];
    }
  }

  /** What a step in the critical section does to the temporary files, told from where the thread was and is. */
  ghost predicate TempsMove(s: State, s': State, p: Phase, p': Phase, fails: bool) {
    && (HasTemp(p) && !HasTemp(p') ==>
          s'.temps.Keys == if fails then s.temps.Keys else s.temps.Keys - {p.name})
    && (HasTemp(p) && HasTemp(p') ==> p'.name == p.name && s'.temps.Keys == s.temps.Keys + {p.name})
    && (!HasTemp(p) && HasTemp(p') ==> p'.name !in s.temps && s'.temps.Keys == s.temps.Keys + {p'.name})
    && (!HasTemp(p) && !HasTemp(p') ==> s'.temps == s.temps)
    && (fails ==> HasTemp(p) && !HasTemp(p'))
  }

  lemma SectionMovesTemps(s: State, a: Action)
    requires Enabled(s, a) && InSection(s.phase[a.t])
    ensures TempsMove(s, Apply(s, a), s.phase[a.t], Apply(s, a).phase[a.t], a.UnlinkFails?)
  {
  }

  lemma TempsFollow(s: State, s': State, t: Thread, left: set<TempName>, fails: bool)
    requires t in s.phase && t in s'.phase && s'.phase == s.phase[t := s'.phase[t]]
    requires forall u | u in s.phase && HasTemp(s.phase[u]) :: u == t
    requires TempsMove(s, s', s.phase[t], s'.phase[t], fails) && TempsAre(s, left)
    ensures TempsAre(s', left + if fails then {s.phase[t].name} else {})
  {
    InUseIs(s, t);
    InUseIs(s', t);
  }

  lemma StepOutsideKeepsTemps(s: State, a: Action)
    requires Enabled(s, a) && !InSection(s.phase[a.t])
    ensures Apply(s, a).temps == s.temps && !HasTemp(Apply(s, a).phase[a.t]) && !a.UnlinkFails?
  {
  }

  lemma StepMovesTemps(s: State, a: Action, left: set<TempName>)
    requires LocksMatch(s) && Enabled(s, a) && TempsAre(s, left)
    ensures TempsAre(Apply(s, a), left + if a.UnlinkFails? then {s.phase[a.t].name} else {})
  {
    var s', t := Apply(s, a), a.t;
    StepMovesLocks(s, a);
    if InSection(s.phase[t]) {
      SectionMovesTemps(s, a);
      // the thread in the critical section is the only one with a temporary file
      assert forall u | u in s.phase && HasTemp(s.phase[u]) :: InSection(s.phase[u]);
      TempsFollow(s, s', t, left, a.UnlinkFails?);
    } else {
      StepOutsideKeepsTemps(s, a);
      InUseElsewhere(s, s', t);
    }
  }

  /**
   The temporary files that exist are those of calls under way and those whose removal failed, and these
   are not the same; so while nobody holds the lock file, what is left is what could not be removed.
   */
  lemma {:induction false} TempsLeft(states: seq<State>, actions: seq<Action>, i: nat)
    requires IsRun(states, actions) && i < |states|
    ensures TempsAre(states[i], Stranded(states, actions, i))
    ensures states[i].fileLock == None ==> states[i].temps.Keys == Stranded(states, actions, i)
  {
    RunKeepsInv(states, actions, i);
    if i == 0 {
      assert InUse(states[0]) == {};
    } else {
      TempsLeft(states, actions, i - 1);
      RunKeepsInv(states, actions, i - 1);
      StepMovesTemps(states[i - 1], actions[i - 1], Stranded(states, actions, i - 1));
    }
    InvMeans(states[i]);
  }

  // ---------------------------------------------------------------------------
  // Calls end
  // ---------------------------------------------------------------------------

  /** A step of a call that is neither its start nor a time-out nor a failure. */
  ghost predicate GoesOn(s: State, a: Action) {
    && Enabled(s, a)
    && !a.TakeThreadLock? && !a.FileLockTimeout? && !a.LoadFails? && !a.DumpFails? && !a.UnlinkFails?
  }

  /** The two locks cannot deadlock: while a call is under way, some call can go on without a time-out. */
  lemma DeadlockFree(s: State, t: Thread) returns (a: Action)
    requires Inv(s) && t in s.phase && !s.phase[t].Idle?
    ensures GoesOn(s, a)
  {
    var u := if s.phase[t].HasThreadLock? && s.fileLock.Some? then s.fileLock.value else t;
    match s.phase[u]
    case HasThreadLock(_) => a := TakeFileLock(u);
    case HasBothLocks(_) => a := Load(u);
    case Loaded(_, _) => a := Mutate(u);
    case Mutated(_, _, _) =>
      var name := FreshName(s.temps.Keys);
      a := OpenTemp(u, name);
    case TempOpen(_, _, _, _) => a := WriteTemp(u);
    case TempWritten(_, _, _, _) =>
      assert Knows(s, s.phase[u]);
      a := Replace(u);
    case Leaving(_, _) => a := DropFileLock(u);
    case FileUnlocked(_, _) => a := DropThreadLock(u);
  }

  lemma {:induction false} FreshName(names: set<TempName>) returns (unused: TempName)
    ensures unused !in names && forall n | n in names :: n < unused
    decreases |names|
  {
    if names == {} {
      unused := 0;
    } else {
      var n := SomeElement(names);
      var above := FreshName(names - {n});
      assert forall x | x in names :: x == n || x in names - {n};
      unused := if n < above then above else n + 1;
    }
  }

  const CALL_STEPS := 8

  /** How many steps a call has left at most. */
  function StepsLeft(p: Phase): nat {
    match p
    case Idle => 0
    case HasThreadLock(_) => CALL_STEPS
    case HasBothLocks(_) => 7
    case Loaded(_, _) => 6
    case Mutated(_, _, _) => 5
    case TempOpen(_, _, _, _) => 4
    case TempWritten(_, _, _, _) => 3
    case Leaving(_, _) => 2
    case FileUnlocked(_, _) => 1
  }

  ghost function Work(s: State): nat {
    Total(map t | t in s.phase :: StepsLeft(s.phase[t]))
  }

  lemma WorkAfterMove(s: State, s': State, t: Thread)
    requires t in s.phase && t in s'.phase && s'.phase == s.phase[t := s'.phase[t]]
    ensures Work(s') == Work(s) - StepsLeft(s.phase[t]) + StepsLeft(s'.phase[t])
  {
    var before := map u | u in s.phase :: StepsLeft(s.phase[u]);
    TotalUpdate(before, t, StepsLeft(s'.phase[t]));
    assert (map u | u in s'.phase :: StepsLeft(s'.phase[u])) == before[t := StepsLeft(s'.phase[t])];
  }

  lemma StepMovesOneThread(s: State, a: Action)
    requires Enabled(s, a)
    ensures a.t in Apply(s, a).phase && Apply(s, a).phase == s.phase[a.t := Apply(s, a).phase[a.t]]
    ensures StepsLeft(Apply(s, a).phase[a.t]) + 1 <=
            StepsLeft(s.phase[a.t]) + if a.TakeThreadLock? then CALL_STEPS + 1 else 0
  {
  }

  lemma StepUsesWork(s: State, a: Action)
    requires Enabled(s, a)
    ensures Work(Apply(s, a)) + 1 <= Work(s) + if a.TakeThreadLock? then CALL_STEPS + 1 else 0
  {
    StepMovesOneThread(s, a);
    WorkAfterMove(s, Apply(s, a), a.t);
  }

  /** How many of the actions from `i` up to `j` start a call. */
  function Calls(actions: seq<Action>, i: nat, j: nat): nat
    requires i <= j <= |actions|
  {
    if i == j then 0 else Calls(actions, i, j - 1) + if actions[j - 1].TakeThreadLock? then 1 else 0
  }

  lemma {:induction false} BudgetBounds(work: seq<nat>, actions: seq<Action>, i: nat, j: nat)
    requires i <= j <= |actions| < |work|
    requires forall k | i <= k < j ::
               work[k + 1] + 1 <= work[k] + if actions[k].TakeThreadLock? then CALL_STEPS + 1 else 0
    ensures j - i + work[j] <= work[i] + (CALL_STEPS + 1) * Calls(actions, i, j)
    decreases j
  {
    if i < j { BudgetBounds(work, actions, i, j - 1); }
  }

  ghost predicate AllIdle(s: State) {
    forall t | t in s.phase :: s.phase[t].Idle?
  }

  /**
   Calls end.  However threads interleave and whatever fails, a stretch of a run is no longer than the
   steps left to the calls under way at its start and nine steps for each call that starts in it; and where
   it can go no further, without the help of a time-out or a failure, no call is under way.
   */
  lemma CallsEnd(states: seq<State>, actions: seq<Action>, i: nat, j: nat)
    requires IsRun(states, actions) && i <= j < |states|
    ensures j - i + Work(states[j]) <= Work(states[i]) + (CALL_STEPS + 1) * Calls(actions, i, j)
    ensures AllIdle(states[j]) || exists a :: GoesOn(states[j], a)
  {
    var work := seq(|states|, k requires 0 <= k < |states| => Work(states[k]));
    forall k | i <= k < j
      ensures work[k + 1] + 1 <= work[k] + if actions[k].TakeThreadLock? then CALL_STEPS + 1 else 0
    {
      StepUsesWork(states[k], actions[k]);
    }
    BudgetBounds(work, actions, i, j);
    RunKeepsInv(states, actions, j);
    if t :| t in states[j].phase && !states[j].phase[t].Idle? {
      var a := DeadlockFree(states[j], t);
    }
  }
}
