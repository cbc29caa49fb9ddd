/** How often a `_read_with_retry` call tries, and when it gives up, counted over the steps of the run. */
module ParseAttempts {
  import opened Basics
  import opened ConfigTree
  import opened ParseCache

  /** What one call did so far: opens, opens that found no file, parses that failed and parses that succeeded. */
  datatype Tally = Tally(opens: nat, absent: nat, bad: nat, good: nat)

  const NOTHING := Tally(0, 0, 0, 0)

  /** Reader `r` takes action `a` in state `s`. */
  function Counted(tally: Tally, s: State, a: Action, parse: Parser): Tally
    requires Enabled(s, a) && !a.Install?
  {
    match a
    case Call(_) => NOTHING
    case Open(_) =>
      tally.(opens := tally.opens + 1, absent := tally.absent + if s.versions[|s.versions| - 1] == Absent then 1 else 0)
    case Parse(r) =>
      if parse(s.versions[s.phase[r].seen].text).None? then tally.(bad := tally.bad + 1)
      else tally.(good := tally.good + 1)
    case _ => tally
  }

  /** What the latest call of reader `r` did in the first `i` steps. */
  ghost function TallyOf(states: seq<State>, actions: seq<Action>, parse: Parser, r: Reader, i: nat): Tally
    requires IsRun(states, actions, parse) && i < |states|
  {
    if i == 0 then NOTHING
    else
      var before, a := TallyOf(states, actions, parse, r, i - 1), actions[i - 1];
      if a.Install? || a.r != r then before else Counted(before, states[i - 1], a, parse)
  }

  /** The phase of a call fits what the call did. */
  predicate Fits(p: Phase, n: Tally, max: nat) {
    match p
    case Idle => true
    case Called(_) => n == NOTHING
    case Stamped(_, _) => n == NOTHING
    case Reading(_, _, left) => n == Tally(n.bad, 0, n.bad, 0) && left + n.bad == max && (left == 0 ==> max == 0)
    case Opened(_, _, left, _) => n == Tally(n.bad + 1, 0, n.bad, 0) && left + n.bad == max && left > 0
    case Parsed(_, _, _, _) => n == Tally(n.bad + 1, 0, n.bad, 1) && n.bad < max
    case Returned(_, _, _) => n == NOTHING || (n == Tally(n.bad + 1, 0, n.bad, 1) && n.bad < max)
    case Failed =>
      (n == Tally(n.bad + 1, 1, n.bad, 0) && n.bad < max) || (n == Tally(n.bad, 0, n.bad, 0) && n.bad == max > 0)
  }

  lemma StepFits(s: State, a: Action, parse: Parser, n: Tally)
    requires Enabled(s, a) && !a.Install? && Fits(s.phase[a.r], n, s.maxAttempts)
    ensures Fits(Apply(s, a, parse).phase[a.r], Counted(n, s, a, parse), s.maxAttempts)
  {
  }

  lemma OthersKeepPhase(s: State, a: Action, parse: Parser, r: Reader)
    requires Enabled(s, a) && r in Apply(s, a, parse).phase && (a.Install? || a.r != r)
    ensures r in s.phase && Apply(s, a, parse).phase[r] == s.phase[r]
  {
  }

  lemma {:induction false} PhaseFits(states: seq<State>, actions: seq<Action>, parse: Parser, r: Reader, i: nat)
    requires IsRun(states, actions, parse) && i < |states| && r in states[i].phase
    ensures Fits(states[i].phase[r], TallyOf(states, actions, parse, r, i), states[i].maxAttempts)
  {
    if i > 0 {
      var s, a := states[i - 1], actions[i - 1];
      VersionsGrow(states, actions, parse, i - 1, i);
      if a.Install? || a.r != r {
        OthersKeepPhase(s, a, parse, r);
        PhaseFits(states, actions, parse, r, i - 1);
      } else {
        PhaseFits(states, actions, parse, r, i - 1);
        StepFits(s, a, parse, TallyOf(states, actions, parse, r, i - 1));
      }
    }
  }

  /**
   A call opens the file at most `maxAttempts` times.  It fails exactly if one of its opens found no file,
   or if as many of its parses failed as it has attempts; so one failed parse, with attempts left, does not
   end it, and a call that parses a document returns.
   */
  lemma FailsIff(states: seq<State>, actions: seq<Action>, parse: Parser, r: Reader, i: nat)
    requires IsRun(states, actions, parse) && i < |states| && r in states[i].phase
    requires states[i].phase[r].Returned? || states[i].phase[r].Failed?
    ensures var n, max := TallyOf(states, actions, parse, r, i), states[0].maxAttempts;
            && n.opens <= max && n.bad <= max
            && (states[i].phase[r].Failed? <==> n.absent > 0 || (max > 0 && n.bad == max))
            && (n.good > 0 ==> states[i].phase[r].Returned?)
            && (states[i].phase[r].Returned? ==> n.good == 1 || n.opens == 0)
  {
    VersionsGrow(states, actions, parse, 0, i);
    PhaseFits(states, actions, parse, r, i);
  }

  /** A call whose file was there and whose parses failed fewer times than it has attempts can open the file again. */
  lemma RetriesWhileItMay(states: seq<State>, actions: seq<Action>, parse: Parser, r: Reader, i: nat)
    requires IsRun(states, actions, parse) && i < |states| && r in states[i].phase
    requires var n := TallyOf(states, actions, parse, r, i);
             n.bad == n.opens && 0 < n.bad < states[0].maxAttempts && n.absent == 0
    requires !states[i].phase[r].Idle?
    ensures Enabled(states[i], Open(r))
  {
    VersionsGrow(states, actions, parse, 0, i);
    PhaseFits(states, actions, parse, r, i);
  }
}
