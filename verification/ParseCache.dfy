/**
 The stamp-keyed parse cache in front of a configuration file that other threads and processes
 replace.  A reader takes the file's stamp, consults the cache, and otherwise opens and parses the
 file, with retries, and fills the cache under the stamp it took first, which by then may be stale.
 */
module ParseCache {
  import opened Basics
  import opened ConfigTree

  type Reader = nat

  /** `(mtime_ns, size)` */
  datatype Stamp = Stamp(mtime: int, size: int)

  /** The file at one time: absent, or a text with its stamp. */
  datatype Version = Absent | Present(stamp: Stamp, text: string)

  /** `yaml.safe_load(f) or {}`: a document, or a parse error. */
  type Parser = string -> Option<Node>

  /** A cache entry, with the versions its filler had taken the stamp from and had opened. */
  datatype Cached = Cached(stamp: Stamp, doc: Node, stamped: nat, seen: nat)

  /**
   Where a `_read_with_retry` call is.  Version numbers tell what was current at the start of the
   call, when the stamp was taken, and when the file was opened.
   */
  datatype Phase =
    | Idle
    | Called(start: nat)
    | Stamped(start: nat, stamped: nat)
    | Reading(start: nat, stamped: nat, attempts: nat)
    | Opened(start: nat, stamped: nat, attempts: nat, seen: nat)
    | Parsed(start: nat, stamped: nat, seen: nat, doc: Node)
    | Returned(start: nat, end: nat, doc: Node)
    | Failed

  datatype State = State(
    maxAttempts: nat,
    versions: seq<Version>,        // the file's history; the last one is current
    cache: Option<Cached>,
    phase: map<Reader, Phase>)

  datatype Action =
    | Install(version: Version)    // an atomic replacement, or a removal
    | Call(r: Reader)
    | TakeStamp(r: Reader)
    | Consult(r: Reader)
    | Open(r: Reader)
    | Parse(r: Reader)
    | Fill(r: Reader)
    | RunOut(r: Reader)
    | Forget(r: Reader)            // the caller goes on; the reader may call again

  function Current(s: State): int {
    |s.versions| - 1
  }

  function StampOf(v: Version): Option<Stamp> {
    if v.Present? then Some(v.stamp) else None
  }

  predicate Init(s: State) {
    |s.versions| == 1 && s.cache == None && forall r | r in s.phase :: s.phase[r] == Idle
  }

  predicate Enabled(s: State, a: Action) {
    && s.versions != []
    && (a.Install? || (
        && a.r in s.phase
        && var p := s.phase[a.r];
           match a
           case Call(_) => p.Idle?
           case TakeStamp(_) => p.Called?
           case Consult(_) => p.Stamped? && p.stamped < |s.versions|
           case Open(_) => p.Reading? && p.attempts > 0
           case Parse(_) => p.Opened? && p.seen < |s.versions| && s.versions[p.seen].Present?
           case Fill(_) => p.Parsed? && p.stamped < |s.versions|
           case RunOut(_) => p.Reading? && p.attempts == 0
           case Forget(_) => p.Returned? || p.Failed?))
  }

  /** The cache is hit when it holds an entry under the stamp that was taken. */
  predicate Hits(s: State, stamped: nat)
    requires stamped < |s.versions|
  {
    s.cache.Some? && StampOf(s.versions[stamped]) == Some(s.cache.value.stamp)
  }

  function Next(s: State, r: Reader, p: Phase): State {
    s.(phase := s.phase[r := p])
  }

  function Apply(s: State, a: Action, parse: Parser): State
    requires Enabled(s, a)
  {
    if a.Install? then s.(versions := s.versions + [a.version])
    else
      var p := s.phase[a.r];
      match a
      case Call(r) => Next(s, r, Called(Current(s)))
      case TakeStamp(r) => Next(s, r, Stamped(p.start, Current(s)))
      case Consult(r) =>
        if Hits(s, p.stamped) then Next(s, r, Returned(p.start, Current(s), s.cache.value.doc))
        else Next(s, r, Reading(p.start, p.stamped, s.maxAttempts))
      case Open(r) =>
        if s.versions[Current(s)].Absent? then Next(s, r, Failed)
        else Next(s, r, Opened(p.start, p.stamped, p.attempts, Current(s)))
      case Parse(r) =>
        var doc := parse(s.versions[p.seen].text);
        if doc.Some? then Next(s, r, Parsed(p.start, p.stamped, p.seen, doc.value))
        else if p.attempts <= 1 then Next(s, r, Failed)
        else Next(s, r, Reading(p.start, p.stamped, p.attempts - 1))
      case Fill(r) =>
        var filled := if s.versions[p.stamped].Absent? then s
                      else s.(cache := Some(Cached(s.versions[p.stamped].stamp, p.doc, p.stamped, p.seen)));
        Next(filled, r, Returned(p.start, Current(s), p.doc))
      case RunOut(r) => Next(s, r, Returned(p.start, Current(s), Mapping(map[])))
      case Forget(r) => Next(s, r, Idle)
  }

  ghost predicate IsRun(states: seq<State>, actions: seq<Action>, parse: Parser) {
    && |states| == |actions| + 1
    && Init(states[0])
    && forall i | 0 <= i < |actions| ::
         Enabled(states[i], actions[i]) && states[i + 1] == Apply(states[i], actions[i], parse)
  }

  /** No two versions of the file have the same stamp. */
  ghost predicate StampsNeverRecur(versions: seq<Version>) {
    forall i, j | 0 <= i < j < |versions| && versions[i].Present? && versions[j].Present? ::
      versions[i].stamp != versions[j].stamp
  }

  /**
   Version `j` has the stamp of an earlier version `i`, and a document other than that of a version `k`
   that a reader can have opened after taking the stamp of `i`.
   */
  ghost predicate Misleads(versions: seq<Version>, parse: Parser, i: nat, k: nat, j: nat) {
    && i <= k < j < |versions|
    && versions[i].Present? && versions[k].Present? && versions[j].Present?
    && versions[i].stamp == versions[j].stamp
    && parse(versions[k].text).Some? && parse(versions[k].text) != parse(versions[j].text)
  }

  /** A stamp recurs, if at all, on the document that was read under it. */
  ghost predicate StampsTellDocuments(versions: seq<Version>, parse: Parser) {
    forall i, k, j :: !Misleads(versions, parse, i, k, j)
  }

  /** `doc` is the parse of a version that was the current file at some instant of the call. */
  ghost predicate WasCurrent(versions: seq<Version>, parse: Parser, start: nat, end: nat, doc: Node) {
    exists v | start <= v <= end && v < |versions| ::
      versions[v].Present? && parse(versions[v].text) == Some(doc)
  }

  // ---------------------------------------------------------------------------
  // The invariant
  // ---------------------------------------------------------------------------

  /** `doc` is the parse of version `v`. */
  ghost predicate IsParseOf(versions: seq<Version>, parse: Parser, v: nat, doc: Node) {
    v < |versions| && versions[v].Present? && parse(versions[v].text) == Some(doc)
  }

  /** An entry may be filed under an older stamp than its document, never under a newer one. */
  ghost predicate CacheSound(s: State, parse: Parser) {
    s.cache.Some? ==>
      var c := s.cache.value;
      && c.stamped <= c.seen
      && c.stamped < |s.versions| && StampOf(s.versions[c.stamped]) == Some(c.stamp)
      && IsParseOf(s.versions, parse, c.seen, c.doc)
  }

  ghost predicate PhaseSound(s: State, parse: Parser, p: Phase) {
    match p
    case Idle => true
    case Called(start) => start < |s.versions|
    case Stamped(start, stamped) => start <= stamped < |s.versions|
    case Reading(start, stamped, _) => start <= stamped < |s.versions|
    case Opened(start, stamped, _, seen) => start <= stamped <= seen < |s.versions| && s.versions[seen].Present?
    case Parsed(start, stamped, seen, doc) =>
      start <= stamped <= seen && IsParseOf(s.versions, parse, seen, doc)
    case Returned(start, end, doc) =>
      start <= end < |s.versions| && (s.maxAttempts > 0 ==> WasCurrent(s.versions, parse, start, end, doc))
    case Failed => true
  }

  ghost predicate Inv(s: State, parse: Parser) {
    s.versions != [] && CacheSound(s, parse) && forall r | r in s.phase :: PhaseSound(s, parse, s.phase[r])
  }

  /** A reader that is still to read has no attempt left only if it never had one. */
  ghost predicate AttemptsSound(s: State) {
    forall r | r in s.phase ::
      && (s.phase[r].Reading? ==> (s.phase[r].attempts == 0 <==> s.maxAttempts == 0))
      && (s.phase[r].Opened? ==> s.phase[r].attempts > 0 && s.maxAttempts > 0)
  }

  lemma KeepsAttempts(s: State, a: Action, parse: Parser)
    requires AttemptsSound(s) && Enabled(s, a)
    ensures AttemptsSound(Apply(s, a, parse))
  {
  }

  lemma PhaseStaysSound(s: State, s': State, parse: Parser, p: Phase)
    requires PhaseSound(s, parse, p) && s'.maxAttempts == s.maxAttempts && s.versions <= s'.versions
    ensures PhaseSound(s', parse, p)
  {
    if p.Returned? && s.maxAttempts > 0 {
      var v :| p.start <= v <= p.end && v < |s.versions|
               && s.versions[v].Present? && parse(s.versions[v].text) == Some(p.doc);
      assert s'.versions[v] == s.versions[v];
    }
  }

  /**
   A hit is sound although the entry may be newer than its stamp: it is then newer than the call's start
   too, or its document is that of the version the stamp was taken from.
   */
  lemma HitIsCurrent(s: State, parse: Parser, start: nat, stamped: nat)
    requires Inv(s, parse) && StampsTellDocuments(s.versions, parse)
    requires start <= stamped < |s.versions| && Hits(s, stamped)
    ensures WasCurrent(s.versions, parse, start, Current(s), s.cache.value.doc)
  {
    var c := s.cache.value;
    assert IsParseOf(s.versions, parse, c.seen, c.doc);
    if c.seen < start {
      assert !Misleads(s.versions, parse, c.stamped, c.seen, stamped);
      assert IsParseOf(s.versions, parse, stamped, c.doc);
    }
  }

  lemma MovedPhaseSound(s: State, a: Action, parse: Parser)
    requires Inv(s, parse) && AttemptsSound(s) && StampsTellDocuments(s.versions, parse) && Enabled(s, a) && !a.Install?
    ensures PhaseSound(Apply(s, a, parse), parse, Apply(s, a, parse).phase[a.r])
  {
    var p := s.phase[a.r];
    assert PhaseSound(s, parse, p);
    if a.Consult? && Hits(s, p.stamped) { HitIsCurrent(s, parse, p.start, p.stamped); }
    if a.Fill? { assert p.start <= p.seen <= Current(s) && IsParseOf(s.versions, parse, p.seen, p.doc); }
  }

  lemma StepKeepsInv(s: State, a: Action, parse: Parser)
    requires Inv(s, parse) && AttemptsSound(s) && StampsTellDocuments(s.versions, parse) && Enabled(s, a)
    ensures Inv(Apply(s, a, parse), parse)
  {
    var s' := Apply(s, a, parse);
    forall r | r in s'.phase ensures PhaseSound(s', parse, s'.phase[r]) {
      if !a.Install? && r == a.r {
        MovedPhaseSound(s, a, parse);
      } else {
        PhaseStaysSound(s, s', parse, s.phase[r]);
      }
    }
    if a.Fill? { assert PhaseSound(s, parse, s.phase[a.r]); }
  }

  lemma {:induction false} VersionsGrow(states: seq<State>, actions: seq<Action>, parse: Parser, i: nat, j: nat)
    requires IsRun(states, actions, parse) && i <= j < |states|
    ensures states[i].versions <= states[j].versions
    ensures states[j].maxAttempts == states[i].maxAttempts
    decreases j
  {
    if i < j { VersionsGrow(states, actions, parse, i, j - 1); }
  }

  lemma {:induction false} RunKeepsAttempts(states: seq<State>, actions: seq<Action>, parse: Parser, i: nat)
    requires IsRun(states, actions, parse) && i < |states|
    ensures AttemptsSound(states[i])
  {
    if i > 0 {
      RunKeepsAttempts(states, actions, parse, i - 1);
      KeepsAttempts(states[i - 1], actions[i - 1], parse);
    }
  }

  lemma PrefixTellsDocuments(versions: seq<Version>, all: seq<Version>, parse: Parser)
    requires versions <= all && StampsTellDocuments(all, parse)
    ensures StampsTellDocuments(versions, parse)
  {
    forall i, k, j | Misleads(versions, parse, i, k, j) ensures false { assert Misleads(all, parse, i, k, j); }
  }

  lemma {:induction false} RunKeepsInv(states: seq<State>, actions: seq<Action>, parse: Parser, i: nat)
    requires IsRun(states, actions, parse) && i < |states|
    requires StampsTellDocuments(states[|actions|].versions, parse)
    ensures Inv(states[i], parse)
  {
    if i > 0 {
      RunKeepsInv(states, actions, parse, i - 1);
      RunKeepsAttempts(states, actions, parse, i - 1);
      VersionsGrow(states, actions, parse, i - 1, |actions|);
      PrefixTellsDocuments(states[i - 1].versions, states[|actions|].versions, parse);
      StepKeepsInv(states[i - 1], actions[i - 1], parse);
    }
  }

  // ---------------------------------------------------------------------------
  // What a reader gets
  // ---------------------------------------------------------------------------

  /**
   Every document a call returns is the parse of a version that was the file at some instant between
   the start and the end of that call, whatever readers, fills and replacements interleave.
   */
  lemma ReadsWereCurrent(states: seq<State>, actions: seq<Action>, parse: Parser, i: nat, r: Reader)
    requires IsRun(states, actions, parse) && i < |states|
    requires StampsTellDocuments(states[|actions|].versions, parse) && states[0].maxAttempts > 0
    requires r in states[i].phase && states[i].phase[r].Returned?
    ensures var p := states[i].phase[r];
            p.start <= p.end < |states[i].versions| && WasCurrent(states[i].versions, parse, p.start, p.end, p.doc)
  {
    RunKeepsInv(states, actions, parse, i);
    VersionsGrow(states, actions, parse, 0, i);
    assert PhaseSound(states[i], parse, states[i].phase[r]);
  }

  /** Stamps that never recur are enough. */
  lemma NeverRecurSuffices(versions: seq<Version>, parse: Parser)
    requires StampsNeverRecur(versions)
    ensures StampsTellDocuments(versions, parse)
  {
  }

  /** A call that has to read falls through to the empty document exactly if it is allowed no attempt at all. */
  lemma FallThroughMeansNoAttempts(states: seq<State>, actions: seq<Action>, parse: Parser, i: nat, r: Reader)
    requires IsRun(states, actions, parse) && i < |states| && r in states[i].phase && states[i].phase[r].Reading?
    ensures Enabled(states[i], RunOut(r)) <==> states[0].maxAttempts == 0
    ensures Enabled(states[i], Open(r)) <==> states[0].maxAttempts > 0
  {
    RunKeepsAttempts(states, actions, parse, i);
    VersionsGrow(states, actions, parse, 0, i);
  }

  // ---------------------------------------------------------------------------
  // The condition on stamps is exact
  // ---------------------------------------------------------------------------

  /** `s` is the last state of a run. */
  ghost predicate Reachable(s: State, parse: Parser) {
    exists states, actions :: IsRun(states, actions, parse) && states[|actions|] == s
  }

  lemma ReachInit(s: State, parse: Parser)
    requires Init(s)
    ensures Reachable(s, parse)
  {
    assert IsRun([s], [], parse);
  }

  lemma ReachStep(s: State, a: Action, parse: Parser)
    requires Reachable(s, parse) && Enabled(s, a)
    ensures Reachable(Apply(s, a, parse), parse)
  {
    var states, actions :| IsRun(states, actions, parse) && states[|actions|] == s;
    assert IsRun(states + [Apply(s, a, parse)], actions + [a], parse);
  }

  /** The file may be replaced any number of times in a row. */
  lemma {:induction false} ReachVersions(s: State, versions: seq<Version>, parse: Parser)
    requires Reachable(s, parse) && s.versions != [] && s.versions <= versions
    ensures Reachable(s.(versions := versions), parse)
    decreases |versions|
  {
    if s.versions == versions {
      assert s.(versions := versions) == s;
    } else {
      var n := |versions| - 1;
      ReachVersions(s, versions[..n], parse);
      var s' := s.(versions := versions[..n]);
      ReachStep(s', Install(versions[n]), parse);
      assert versions[..n] + [versions[n]] == versions;
    }
  }

  /** A reader takes its stamp and misses the empty cache; the file moves on; it opens, parses and fills. */
  lemma ReachFilled(s: State, versions: seq<Version>, parse: Parser, k: nat)
    requires Reachable(s, parse) && s.cache == None && 0 in s.phase && s.phase[0] == Idle && s.maxAttempts > 0
    requires k < |versions| && s.versions != [] && s.versions <= versions[..k + 1]
    requires versions[Current(s)].Present? && versions[k].Present? && parse(versions[k].text).Some?
    ensures var i, doc := Current(s), parse(versions[k].text).value;
            Reachable(State(s.maxAttempts, versions[..k + 1], Some(Cached(versions[i].stamp, doc, i, k)),
                            s.phase[0 := Returned(i, k, doc)]), parse)
  {
    var i, doc := Current(s), parse(versions[k].text).value;
    ReachStep(s, Call(0), parse);
    var s1 := Apply(s, Call(0), parse);
    ReachStep(s1, TakeStamp(0), parse);
    var s2 := Apply(s1, TakeStamp(0), parse);
    ReachStep(s2, Consult(0), parse);
    var s3 := Apply(s2, Consult(0), parse);
    assert s3 == s.(phase := s.phase[0 := Reading(i, i, s.maxAttempts)]);
    ReachVersions(s3, versions[..k + 1], parse);
    ReachOpened(s3.(versions := versions[..k + 1]), parse, i);
    assert s3.phase[0 := Returned(i, k, doc)] == s.phase[0 := Returned(i, k, doc)];
  }

  lemma ReachOpened(s: State, parse: Parser, i: nat)
    requires Reachable(s, parse) && 0 in s.phase && s.phase[0] == Reading(i, i, s.maxAttempts) && s.maxAttempts > 0
    requires i < |s.versions| && s.versions[i].Present?
    requires s.versions[Current(s)].Present? && parse(s.versions[Current(s)].text).Some?
    ensures var k := Current(s);
            var doc := parse(s.versions[k].text).value;
            Reachable(s.(cache := Some(Cached(s.versions[i].stamp, doc, i, k)),
                         phase := s.phase[0 := Returned(i, k, doc)]), parse)
  {
    var k := Current(s);
    var doc := parse(s.versions[k].text).value;
    ReachStep(s, Open(0), parse);
    var s1 := Apply(s, Open(0), parse);
    ReachStep(s1, Parse(0), parse);
    var s2 := Apply(s1, Parse(0), parse);
    ReachStep(s2, Fill(0), parse);
    assert Apply(s2, Fill(0), parse).phase == s.phase[0 := Returned(i, k, doc)];
  }

  /** A second reader takes the same stamp from the current version, and is served from the cache. */
  lemma ReachServed(s: State, parse: Parser)
    requires Reachable(s, parse) && 1 in s.phase && s.phase[1] == Idle && s.versions != []
    requires Hits(s, Current(s))
    ensures var j := Current(s);
            Reachable(s.(phase := s.phase[1 := Returned(j, j, s.cache.value.doc)]), parse)
  {
    var j := Current(s);
    ReachStep(s, Call(1), parse);
    var s1 := Apply(s, Call(1), parse);
    ReachStep(s1, TakeStamp(1), parse);
    var s2 := Apply(s1, TakeStamp(1), parse);
    ReachStep(s2, Consult(1), parse);
    assert Apply(s2, Consult(1), parse).phase == s.phase[1 := Returned(j, j, s.cache.value.doc)];
  }

  /**
   Whenever a stamp misleads, two readers are enough: the first takes the stamp of version `i` and fills
   the cache from version `k`; the second, called while version `j` is current, is served that document.
   */
  lemma MisleadingStampServesStale(versions: seq<Version>, parse: Parser, i: nat, k: nat, j: nat, maxAttempts: nat)
    returns (s: State)
    requires Misleads(versions, parse, i, k, j) && maxAttempts > 0
    ensures Reachable(s, parse) && s.versions == versions && s.maxAttempts == maxAttempts && s.phase.Keys == {0, 1}
    ensures s.phase[1].Returned? && !WasCurrent(versions, parse, s.phase[1].start, s.phase[1].end, s.phase[1].doc)
  {
    var doc := parse(versions[k].text).value;
    var s0 := State(maxAttempts, versions[..1], None, map[0 := Idle, 1 := Idle]);
    ReachInit(s0, parse);
    ReachVersions(s0, versions[..i + 1], parse);
    var s1 := s0.(versions := versions[..i + 1]);
    ReachFilled(s1, versions, parse, k);
    var cached := Some(Cached(versions[i].stamp, doc, i, k));
    var s2 := State(maxAttempts, versions[..k + 1], cached, s1.phase[0 := Returned(i, k, doc)]);
    ReachVersions(s2, versions[..j + 1], parse);
    var s3 := s2.(versions := versions[..j + 1]);
    ReachServed(s3, parse);
    var s4 := s3.(phase := s3.phase[1 := Returned(j, j, doc)]);
    ReachVersions(s4, versions, parse);
    s := s4.(versions := versions);
  }

  /** Every reader that has returned got a document that was current during its call. */
  ghost predicate ReadsCurrent(s: State, parse: Parser) {
    forall r | r in s.phase && s.phase[r].Returned? ::
      WasCurrent(s.versions, parse, s.phase[r].start, s.phase[r].end, s.phase[r].doc)
  }

  /** In no interleaving of any readers with this history of the file does a reader get a stale document. */
  ghost predicate NeverStale(versions: seq<Version>, parse: Parser) {
    forall s | Reachable(s, parse) && s.versions == versions && s.maxAttempts > 0 :: ReadsCurrent(s, parse)
  }

  /** A history of the file is safe for all readers exactly when none of its stamps misleads. */
  lemma NeverStaleIff(versions: seq<Version>, parse: Parser)
    ensures NeverStale(versions, parse) <==> StampsTellDocuments(versions, parse)
  {
    if StampsTellDocuments(versions, parse) {
      forall s | Reachable(s, parse) && s.versions == versions && s.maxAttempts > 0 ensures ReadsCurrent(s, parse) {
        var states, actions :| IsRun(states, actions, parse) && states[|actions|] == s;
        VersionsGrow(states, actions, parse, 0, |actions|);
        forall r | r in s.phase && s.phase[r].Returned?
          ensures WasCurrent(s.versions, parse, s.phase[r].start, s.phase[r].end, s.phase[r].doc)
        {
          ReadsWereCurrent(states, actions, parse, |actions|, r);
        }
      }
    } else {
      var i, k, j :| Misleads(versions, parse, i, k, j);
      var s := MisleadingStampServesStale(versions, parse, i, k, j, 1);
    }
  }

  function EchoText(text: string): Option<Node> {
    Some(Text(text))
  }

  /** Two texts of one length written within one tick of the clock: the stamp is reused, and a reader is misled. */
  lemma ReusedStampServesStale(stamp: Stamp) returns (s: State)
    ensures Reachable(s, EchoText) && s.versions == [Present(stamp, "a"), Present(stamp, "b")]
    ensures 1 in s.phase && s.phase[1].Returned?
    ensures !WasCurrent(s.versions, EchoText, s.phase[1].start, s.phase[1].end, s.phase[1].doc)
  {
    var versions := [Present(stamp, "a"), Present(stamp, "b")];
    assert EchoText("a") != EchoText("b") by { assert "b"[0] != "a"[0]; }
    s := MisleadingStampServesStale(versions, EchoText, 0, 0, 1, 3);
  }
}
