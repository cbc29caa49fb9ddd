/** What a call of `update_config` returns, told from the steps its thread took. */
module ConfigResults {
  import opened Basics
  import opened ConfigTree
  import opened ConfigTransactions

  /** The last action of thread `t` among the first `i`. */
  function Previous(actions: seq<Action>, t: Thread, i: nat): Option<Action>
    requires i <= |actions|
  {
    if i == 0 then None
    else if actions[i - 1].t == t then Some(actions[i - 1])
    else Previous(actions, t, i - 1)
  }

  /** What the last mutator makes of the document in the file; an empty file counts as a mapping. */
  ghost function Made(s: State): Mutation
    requires s.history != []
  {
    s.history[|s.history| - 1].mutator(if s.file.Null? then Mapping(map[]) else s.file)
  }

  /**
   The thread is leaving its critical section after action `a`, with this result: the new document if it
   replaced the file; the loaded one, as the mutator left it, if the mutator returned None; else an exception.
   */
  ghost predicate Explains(s: State, t: Thread, a: Action, result: Result) {
    && s.history != []
    && var e := s.history[|s.history| - 1];
       && e.thread == t
       && match a
          case Replace(_) =>
            e.status == Committed && result.Value? && result.data == s.file && !s.file.Null?
          case Mutate(_) =>
            && e.status == Skipped
            && (match Made(s)
                case Raises => result == Failed
                case Returns(d, argument) => d.Null? && result.Value? && result.data == argument)
          case LoadFails(_) => e.status == Skipped && result == Failed
          case DumpFails(_) => e.status == Skipped && result == Failed
          case UnlinkFails(_) => e.status == Skipped && result == Failed
          case _ => false
  }

  /** While a thread is leaving, nobody else touches the file or the history. */
  lemma OthersWait(s: State, a: Action, t: Thread)
    requires LocksMatch(s) && Enabled(s, a) && t in s.phase && s.phase[t].Leaving? && a.t != t
    ensures Apply(s, a).file == s.file && Apply(s, a).history == s.history && Apply(s, a).phase[t] == s.phase[t]
  {
    assert InSection(s.phase[t]);
    assert !InSection(s.phase[a.t]);
  }

  ghost predicate IsExplained(s: State, t: Thread, last: Option<Action>) {
    && t in s.phase && s.phase[t].Leaving? && last.Some?
    && Explains(s, t, last.value, s.phase[t].result)
    && s.history[|s.history| - 1].mutator == s.phase[t].mutator
  }

  /** A step that ends a critical section. */
  lemma LeavesExplained(s: State, a: Action)
    requires LocksMatch(s) && HistoryMatches(s) && Enabled(s, a) && Apply(s, a).phase[a.t].Leaving?
    ensures IsExplained(Apply(s, a), a.t, Some(a))
  {
    assert Undecided(s.phase[a.t]) && Knows(s, s.phase[a.t]);
    if a.Replace? {
      ReplaceExplained(s, a);
    } else if a.Mutate? {
      MutateExplained(s, a);
    }
  }

  lemma ReplaceExplained(s: State, a: Action)
    requires Enabled(s, a) && a.Replace? && Knows(s, s.phase[a.t])
    requires s.history != [] && s.history[|s.history| - 1] == Entry(a.t, s.phase[a.t].mutator, Pending)
    ensures IsExplained(Apply(s, a), a.t, Some(a))
  {
  }

  lemma MutateExplained(s: State, a: Action)
    requires Enabled(s, a) && a.Mutate? && Knows(s, s.phase[a.t]) && Apply(s, a).phase[a.t].Leaving?
    requires s.history != [] && s.history[|s.history| - 1] == Entry(a.t, s.phase[a.t].mutator, Pending)
    ensures IsExplained(Apply(s, a), a.t, Some(a))
  {
  }

  lemma StepExplains(s: State, a: Action, t: Thread, last: Option<Action>)
    requires LocksMatch(s) && HistoryMatches(s) && Enabled(s, a)
    requires t in Apply(s, a).phase && Apply(s, a).phase[t].Leaving?
    requires a.t != t ==> IsExplained(s, t, last)
    ensures IsExplained(Apply(s, a), t, if a.t == t then Some(a) else last)
  {
    if a.t == t {
      LeavesExplained(s, a);
    } else {
      OthersWait(s, a, t);
    }
  }

  lemma {:induction false} LeavingIsExplained(states: seq<State>, actions: seq<Action>, i: nat, t: Thread)
    requires IsRun(states, actions) && i < |states| && t in states[i].phase && states[i].phase[t].Leaving?
    ensures IsExplained(states[i], t, Previous(actions, t, i))
  {
    assert i > 0 by { assert Init(states[0]); }
    var before := Previous(actions, t, i - 1);
    if actions[i - 1].t != t {
      OnlyActorMoves(states[i - 1], actions[i - 1], t);
      LeavingIsExplained(states, actions, i - 1, t);
    }
    RunStepExplains(states, actions, i - 1, t, before);
  }

  lemma RunStepExplains(states: seq<State>, actions: seq<Action>, i: nat, t: Thread, last: Option<Action>)
    requires IsRun(states, actions) && i < |actions| && t in states[i + 1].phase && states[i + 1].phase[t].Leaving?
    requires actions[i].t != t ==> IsExplained(states[i], t, last)
    ensures IsExplained(states[i + 1], t, if actions[i].t == t then Some(actions[i]) else last)
  {
    RunKeepsInv(states, actions, i);
    StepExplains(states[i], actions[i], t, last);
  }

  lemma OnlyActorMoves(s: State, a: Action, t: Thread)
    requires Enabled(s, a) && a.t != t
    ensures t in Apply(s, a).phase <==> t in s.phase
    ensures t in s.phase ==> Apply(s, a).phase[t] == s.phase[t]
  {
  }

  /**
   The result of a call, as it drops the lock file, follows from the last thing it did: it replaced the
   file, and returns the document that is now in it; its mutator returned None, and it returns the loaded
   document as the mutator left it; or loading, mutating or dumping raised, and so does the call.
   */
  lemma ResultFollows(states: seq<State>, actions: seq<Action>, i: nat)
    requires IsRun(states, actions) && i < |actions| && actions[i].DropFileLock?
    ensures var s, t, last := states[i], actions[i].t, Previous(actions, actions[i].t, i);
            && last.Some? && Explains(s, t, last.value, s.phase[t].result)
            && (s.phase[t].result.Value? <==>
                  || s.history[|s.history| - 1].status == Committed
                  || (last.value.Mutate? && Made(s).Returns? && Made(s).data.Null?))
            && (s.history[|s.history| - 1].status == Committed <==> last.value.Replace?)
  {
    LeavingIsExplained(states, actions, i, actions[i].t);
  }

  lemma UnlockKeepsResult(s: State, t: Thread)
    requires Enabled(s, DropFileLock(t))
    ensures Apply(s, DropFileLock(t)).phase[t] == FileUnlocked(s.phase[t].mutator, s.phase[t].result)
  {
  }

  lemma OnlyUnlockUnlocks(s: State, a: Action)
    requires Enabled(s, a) && Apply(s, a).phase[a.t].FileUnlocked?
    ensures a.DropFileLock?
  {
  }

  /** What a call returns, as it drops the thread lock, is the result it had when it dropped the lock file. */
  lemma {:induction false} ResultIsReturned(states: seq<State>, actions: seq<Action>, j: nat, t: Thread)
    returns (i: nat)
    requires IsRun(states, actions) && j < |states| && t in states[j].phase && states[j].phase[t].FileUnlocked?
    ensures i < j && actions[i] == DropFileLock(t) && states[i].phase[t].result == states[j].phase[t].result
    ensures Previous(actions, t, j) == Some(DropFileLock(t))
  {
    var s, a := states[j - 1], actions[j - 1];
    if a.t == t {
      OnlyUnlockUnlocks(s, a);
      UnlockKeepsResult(s, t);
      i := j - 1;
    } else {
      OnlyActorMoves(s, a, t);
      i := ResultIsReturned(states, actions, j - 1, t);
    }
  }

  /** A call can start exactly when its process has no other under way, whatever other processes do. */
  lemma StartsIff(s: State, t: Thread, m: Mutator)
    requires Inv(s) && t in s.phase && s.phase[t].Idle?
    ensures Enabled(s, TakeThreadLock(t, m)) <==>
            forall u | u in s.phase && s.processOf[u] == s.processOf[t] :: s.phase[u].Idle?
  {
    if s.processOf[t] in s.threadLock {
      var u := s.threadLock[s.processOf[t]];
      assert u in s.phase && !s.phase[u].Idle?;
    }
  }

  /** It can take the lock file exactly when no call of any process is in its critical section, and may time out. */
  lemma TakesFileLockIff(s: State, t: Thread)
    requires Inv(s) && t in s.phase && s.phase[t].HasThreadLock?
    ensures Enabled(s, TakeFileLock(t)) <==> forall u | u in s.phase :: !InSection(s.phase[u])
    ensures Enabled(s, FileLockTimeout(t))
    ensures var s' := Apply(s, FileLockTimeout(t));
            s'.phase[t].Idle? && s'.file == s.file && s'.history == s.history && s'.temps == s.temps
  {
  }

  /** Loading and dumping may fail at any point of theirs, and the removal of the temporary file as well. */
  lemma MayFail(s: State, t: Thread)
    requires Inv(s) && t in s.phase
    ensures Enabled(s, LoadFails(t)) <==> s.phase[t].HasBothLocks?
    ensures Enabled(s, DumpFails(t)) <==> s.phase[t].Mutated? || s.phase[t].TempOpen? || s.phase[t].TempWritten?
    ensures Enabled(s, UnlinkFails(t)) <==> s.phase[t].TempOpen? || s.phase[t].TempWritten?
  {
  }
}
