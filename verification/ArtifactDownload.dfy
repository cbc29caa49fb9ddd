/**
 Downloading one wheel: a mirror and an origin, up to five attempts on each, checksum verification
 after every transfer, and a wheel file that an attempt writes and a handled failure removes.
 What an attempt does is an arbitrary parameter; progress reports and back-off delays are left out.
 */
module ArtifactDownload {
  import opened Basics

  type Content = seq<Byte>

  const ATTEMPTS_PER_SOURCE := 5

  /** What the transport does in one attempt, with what it had written to the wheel file by then. */
  datatype Transfer =
    | Completed(content: Content)
    | HttpStatus(code: int)                     // an error status, before the file is opened
    | TransportFailed(partial: Option<Content>) // time-out or other HTTP failure
    | StorageFailed(partial: Option<Content>)   // OSError
    | OtherFailed(partial: Option<Content>)     // anything no handler catches: unloadable CA roots, a raising callback

  /**
   One attempt: the transfer, whether the file can be read back for verification, and whether it can be
   removed if a handler has to.
   */
  datatype Attempt = Attempt(transfer: Transfer, readable: bool, removable: bool)

  datatype Verdict = Accepted | Retry | NextSource | RaiseStorage | RaiseUnreadable | RaiseOther | RaiseUnremoved

  /** An attempt is numbered by its source, from 0, and its turn on that source, from 1. */
  datatype Turn = Turn(source: nat, attempt: nat)

  datatype Outcome =
    | Downloaded | NoSource | AllSourcesFailed | StorageError | UnreadableError | OtherError | RemovalError

  datatype Checksum = Checksum(digest: Content -> string, expected: string) {
    predicate Matches(c: Content) {
      digest(c) == expected
    }
  }

  /** The configured URLs, mirror first; empty ones are skipped. */
  function Sources(mirror: Option<string>, url: string): (urls: seq<string>)
    ensures |urls| == Unit(mirror.Some? && mirror.value != "") + Unit(url != "")
  {
    (if mirror.Some? && mirror.value != "" then [mirror.value] else []) + if url != "" then [url] else []
  }

  predicate IsRetryableStatus(code: int) {
    code in {408, 425, 429} || code >= 500
  }

  /** How an attempt ends, by the exception handlers of the loop, if they succeed in removing the file. */
  function Handle(a: Attempt, sum: Checksum): Verdict {
    match a.transfer
    case HttpStatus(code) => if IsRetryableStatus(code) then Retry else NextSource
    case TransportFailed(_) => Retry
    case StorageFailed(_) => RaiseStorage
    case OtherFailed(_) => RaiseOther
    case Completed(c) => if !a.readable then RaiseUnreadable else if sum.Matches(c) then Accepted else NextSource
  }

  /** How an attempt ends: every handler removes the file first, and raises if that fails. */
  function Judge(a: Attempt, sum: Checksum): Verdict {
    var v := Handle(a, sum);
    if v in {Retry, NextSource, RaiseStorage} && !a.removable then RaiseUnremoved else v
  }

  /** The wheel file after the transfer, before any handler removes it. */
  function Written(wheel: Option<Content>, t: Transfer): Option<Content> {
    match t
    case Completed(c) => Some(c)
    case HttpStatus(_) => wheel
    case TransportFailed(p) => if p.Some? then p else wheel
    case StorageFailed(p) => if p.Some? then p else wheel
    case OtherFailed(p) => if p.Some? then p else wheel
  }

  /** The turn that follows, if any: again on this source, else on the next one. */
  function Following(turn: Turn, v: Verdict, sources: nat): Option<Turn> {
    if v == Retry && turn.attempt < ATTEMPTS_PER_SOURCE then Some(Turn(turn.source, turn.attempt + 1))
    else if (v == Retry || v == NextSource) && turn.source + 1 < sources then Some(Turn(turn.source + 1, 1))
    else None
  }

  /** The first turn is the first of all, and each later one follows the one before. */
  ghost predicate IsChain(turns: seq<Turn>, sources: nat, plan: Turn -> Attempt, sum: Checksum) {
    && (turns != [] ==> turns[0] == Turn(0, 1))
    && forall i | 0 < i < |turns| ::
         Following(turns[i - 1], Judge(plan(turns[i - 1]), sum), sources) == Some(turns[i])
  }

  /** The turns taken, from the first to the one with no successor. */
  ghost predicate IsSchedule(turns: seq<Turn>, sources: nat, plan: Turn -> Attempt, sum: Checksum) {
    && IsChain(turns, sources, plan, sum)
    && (turns == [] <==> sources == 0)
    && (turns != [] ==> Following(turns[|turns| - 1], Judge(plan(turns[|turns| - 1]), sum), sources) == None)
  }

  lemma ChainGrows(turns: seq<Turn>, turn: Turn, sources: nat, plan: Turn -> Attempt, sum: Checksum)
    requires IsChain(turns, sources, plan, sum)
    requires if turns == [] then turn == Turn(0, 1)
             else Following(turns[|turns| - 1], Judge(plan(turns[|turns| - 1]), sum), sources) == Some(turn)
    ensures IsChain(turns + [turn], sources, plan, sum)
  {
  }

  /** The wheel file as the last turn finds it: only the first turn can find one. */
  function Found(turns: seq<Turn>, before: Option<Content>): Option<Content> {
    if |turns| <= 1 then before else None
  }

  /** How a download ends, and what it leaves at the wheel's path, told from its last turn. */
  function Ending(
      turns: seq<Turn>, plan: Turn -> Attempt, sum: Checksum, before: Option<Content>): (Outcome, Option<Content>)
  {
    if turns == [] then (NoSource, before)
    else
      var last := plan(turns[|turns| - 1]);
      var written := Written(Found(turns, before), last.transfer);
      match Judge(last, sum)
      case Accepted => (Downloaded, written)
      case RaiseStorage => (StorageError, None)
      case RaiseUnreadable => (UnreadableError, written)
      case RaiseOther => (OtherError, written)
      case RaiseUnremoved => (RemovalError, written)
      case _ => (AllSourcesFailed, None)
  }

  /** The transfer wrote nothing to the wheel file. */
  predicate WroteNothing(t: Transfer) {
    t.HttpStatus? || (!t.Completed? && t.partial.None?)
  }

  /** The turn ends in an error that leaves the file to be. */
  predicate KeepsFile(v: Verdict) {
    v in {RaiseUnreadable, RaiseOther, RaiseUnremoved}
  }

  /**
   What a download leaves behind.  It returns only with a file whose checksum matches.  When it raises,
   there is no file exactly if there was none and no source to try, or if the last turn's error was
   handled and the file removed, or if neither that turn nor anything before it had written one.
   */
  ghost predicate EndsAsPromised(
      outcome: Outcome, wheel: Option<Content>, turns: seq<Turn>,
      plan: Turn -> Attempt, sum: Checksum, before: Option<Content>)
  {
    && (outcome == Downloaded ==> wheel.Some? && sum.Matches(wheel.value))
    && (outcome == NoSource <==> turns == [])
    && (outcome != Downloaded ==>
          (wheel == None <==>
           if turns == [] then before == None
           else
             var last := plan(turns[|turns| - 1]);
             || !KeepsFile(Judge(last, sum))
             || (WroteNothing(last.transfer) && (|turns| > 1 || before == None))))
  }

  lemma ChainEnds(turns: seq<Turn>, sources: nat, plan: Turn -> Attempt, sum: Checksum, before: Option<Content>)
    requires IsChain(turns, sources, plan, sum) && (turns == [] <==> sources == 0)
    requires turns != [] ==> Following(turns[|turns| - 1], Judge(plan(turns[|turns| - 1]), sum), sources) == None
    ensures IsSchedule(turns, sources, plan, sum)
    ensures var (outcome, wheel) := Ending(turns, plan, sum, before);
            EndsAsPromised(outcome, wheel, turns, plan, sum, before)
  {
  }

  /** `_download_wheel_artifact` */
  method DownloadWheel(
      mirror: Option<string>, url: string, plan: Turn -> Attempt, sum: Checksum, before: Option<Content>)
    returns (outcome: Outcome, wheel: Option<Content>, turns: seq<Turn>, requested: seq<string>)
    ensures IsSchedule(turns, |Sources(mirror, url)|, plan, sum)
    ensures (outcome, wheel) == Ending(turns, plan, sum, before)
    ensures EndsAsPromised(outcome, wheel, turns, plan, sum, before)
    ensures RequestsFollow(requested, turns, mirror, url)
  {
    var urls := Sources(mirror, url);
    wheel, turns, requested := before, [], [];
    for source := 0 to |urls|
      invariant turns == [] <==> source == 0
      invariant wheel == if turns == [] then before else None
      invariant turns != [] ==> Exhausted(turns[|turns| - 1], source, plan, sum)
      invariant IsChain(turns, |urls|, plan, sum)
      invariant RequestsFollow(requested, turns, mirror, url)
    {
      var attempt := 1;
      while true
        invariant 1 <= attempt <= ATTEMPTS_PER_SOURCE
        invariant attempt == 1 ==> (turns == [] <==> source == 0)
        invariant attempt == 1 && turns != [] ==> Exhausted(turns[|turns| - 1], source, plan, sum)
        invariant attempt > 1 ==>
                    && turns != [] && turns[|turns| - 1] == Turn(source, attempt - 1)
                    && Judge(plan(turns[|turns| - 1]), sum) == Retry
        invariant IsChain(turns, |urls|, plan, sum)
        invariant wheel == if turns == [] then before else None
        invariant RequestsFollow(requested, turns, mirror, url)
        decreases ATTEMPTS_PER_SOURCE - attempt
      {
        var turn := Turn(source, attempt);
        ChainGrows(turns, turn, |urls|, plan, sum);
        RequestGrows(requested, turns, turn, mirror, url);
        turns, requested := turns + [turn], requested + [urls[source]];
        var verdict := Judge(plan(turn), sum);
        wheel := Written(wheel, plan(turn).transfer);
        match verdict {
          case Retry =>
            wheel := None;
            if attempt >= ATTEMPTS_PER_SOURCE { break; }
            attempt := attempt + 1;
          case NextSource =>
            wheel := None;
            break;
          case RaiseStorage =>
            wheel := None;
            ChainEnds(turns, |urls|, plan, sum, before);
            return StorageError, wheel, turns, requested;
          case RaiseOther =>
            ChainEnds(turns, |urls|, plan, sum, before);
            return OtherError, wheel, turns, requested;
          case RaiseUnremoved =>
            ChainEnds(turns, |urls|, plan, sum, before);
            return RemovalError, wheel, turns, requested;
          case RaiseUnreadable =>
            ChainEnds(turns, |urls|, plan, sum, before);
            return UnreadableError, wheel, turns, requested;
          case Accepted =>
            ChainEnds(turns, |urls|, plan, sum, before);
            return Downloaded, wheel, turns, requested;
        }
      }
    }
    ChainEnds(turns, |urls|, plan, sum, before);
    outcome := if urls == [] then NoSource else AllSourcesFailed;
  }

  predicate IsGiven(url: Option<string>) {
    url.Some? && url.value != ""
  }

  /** Turns on the first source request the mirror, if one is given; all others request the origin. */
  ghost predicate RequestsFollow(requested: seq<string>, turns: seq<Turn>, mirror: Option<string>, url: string) {
    && |requested| == |turns|
    && forall i | 0 <= i < |turns| ::
         && (turns[i].source == 0 && IsGiven(mirror) ==> mirror == Some(requested[i]))
         && (turns[i].source == 0 && !IsGiven(mirror) ==> requested[i] == url != "")
         && (turns[i].source > 0 ==> turns[i].source == 1 && IsGiven(mirror) && requested[i] == url != "")
  }

  lemma RequestGrows(requested: seq<string>, turns: seq<Turn>, turn: Turn, mirror: Option<string>, url: string)
    requires RequestsFollow(requested, turns, mirror, url) && turn.source < |Sources(mirror, url)|
    ensures RequestsFollow(requested + [Sources(mirror, url)[turn.source]], turns + [turn], mirror, url)
  {
  }

  /** The last turn was on the source before `source` and gave it up. */
  ghost predicate Exhausted(last: Turn, source: nat, plan: Turn -> Attempt, sum: Checksum) {
    && last.source + 1 == source
    && var v := Judge(plan(last), sum);
       v == NextSource || (v == Retry && last.attempt >= ATTEMPTS_PER_SOURCE)
  }

  // ---------------------------------------------------------------------------
  // What the schedule means
  // ---------------------------------------------------------------------------

  lemma {:induction false} TurnsInRange(turns: seq<Turn>, sources: nat, plan: Turn -> Attempt, sum: Checksum, i: nat)
    requires IsSchedule(turns, sources, plan, sum) && i < |turns|
    ensures turns[i].source < sources && 1 <= turns[i].attempt <= ATTEMPTS_PER_SOURCE
    ensures i + 1 <= turns[i].source * ATTEMPTS_PER_SOURCE + turns[i].attempt
  {
    if i > 0 { TurnsInRange(turns, sources, plan, sum, i - 1); }
  }

  /** Sources are used in order, and on one source the attempts are numbered consecutively. */
  lemma {:induction false} TurnsInOrder(
      turns: seq<Turn>, sources: nat, plan: Turn -> Attempt, sum: Checksum, i: nat, j: nat)
    requires IsSchedule(turns, sources, plan, sum) && i < j < |turns|
    ensures turns[i].source <= turns[j].source
    ensures turns[i].source == turns[j].source ==>
              turns[j].attempt == turns[i].attempt + (j - i) && Judge(plan(turns[i]), sum) == Retry
    decreases j
  {
    if i + 1 < j { TurnsInOrder(turns, sources, plan, sum, i, j - 1); }
  }

  /**
   At most five attempts on each source, mirror first; a source is used again only after a retryable
   failure, never after a final one or a checksum mismatch; and every source before the last turn's
   was given up for a reason.
   */
  lemma ScheduleIsSound(turns: seq<Turn>, sources: nat, plan: Turn -> Attempt, sum: Checksum)
    requires IsSchedule(turns, sources, plan, sum)
    ensures |turns| <= sources * ATTEMPTS_PER_SOURCE
    ensures forall i, j | 0 <= i < j < |turns| ::
              && turns[i] != turns[j]
              && turns[i].source <= turns[j].source
              && (turns[i].source == turns[j].source ==> Judge(plan(turns[i]), sum) == Retry)
    ensures forall i | 0 <= i < |turns| :: turns[i].source < sources && 1 <= turns[i].attempt <= ATTEMPTS_PER_SOURCE
    ensures forall i | 0 <= i < |turns| - 1 :: Judge(plan(turns[i]), sum) in {Retry, NextSource}
  {
    forall i | 0 <= i < |turns|
      ensures turns[i].source < sources && 1 <= turns[i].attempt <= ATTEMPTS_PER_SOURCE
      ensures i + 1 <= sources * ATTEMPTS_PER_SOURCE
    {
      TurnsInRange(turns, sources, plan, sum, i);
    }
    forall i, j | 0 <= i < j < |turns|
      ensures turns[i] != turns[j] && turns[i].source <= turns[j].source
      ensures turns[i].source == turns[j].source ==> Judge(plan(turns[i]), sum) == Retry
    {
      TurnsInOrder(turns, sources, plan, sum, i, j);
    }
    forall i | 0 <= i < |turns| - 1 ensures Judge(plan(turns[i]), sum) in {Retry, NextSource} {
      assert Following(turns[i + 1 - 1], Judge(plan(turns[i + 1 - 1]), sum), sources) == Some(turns[i + 1]);
    }
  }

  /** A failure after which the same source is tried again: a transport error or a passing status. */
  predicate IsPassing(a: Attempt) {
    && a.removable
    && (a.transfer.TransportFailed? ||
        (a.transfer.HttpStatus? && (a.transfer.code in {408, 425, 429} || 500 <= a.transfer.code)))
  }

  /** A failure that gives the source up: any other status, or a file with the wrong digest. */
  predicate IsLasting(a: Attempt, sum: Checksum) {
    && a.removable
    && match a.transfer
       case HttpStatus(code) => code !in {408, 425, 429} && code < 500
       case Completed(c) => a.readable && sum.digest(c) != sum.expected
       case _ => false
  }

  /**
   Which turn follows: the same source again after a passing failure, up to the fifth attempt; else the next
   source, if there is one, after a passing or lasting failure; and no other.
   */
  lemma NextTurnIs(turns: seq<Turn>, sources: nat, plan: Turn -> Attempt, sum: Checksum, i: nat)
    requires IsSchedule(turns, sources, plan, sum) && i < |turns|
    ensures var turn, a := turns[i], plan(turns[i]);
            && (i + 1 < |turns| <==>
                  || (IsPassing(a) && turn.attempt < 5)
                  || ((IsPassing(a) || IsLasting(a, sum)) && turn.source + 1 < sources))
            && (i + 1 < |turns| ==>
                  turns[i + 1] == if IsPassing(a) && turn.attempt < 5 then Turn(turn.source, turn.attempt + 1)
                                  else Turn(turn.source + 1, 1))
  {
    if i + 1 < |turns| {
      assert Following(turns[i + 1 - 1], Judge(plan(turns[i + 1 - 1]), sum), sources) == Some(turns[i + 1]);
    }
  }

  /** The outcome, by what the last turn's transfer did. */
  lemma OutcomeIs(turns: seq<Turn>, plan: Turn -> Attempt, sum: Checksum, before: Option<Content>)
    requires turns != []
    ensures var a, outcome := plan(turns[|turns| - 1]), Ending(turns, plan, sum, before).0;
            && (outcome == Downloaded <==>
                  a.transfer.Completed? && a.readable && sum.digest(a.transfer.content) == sum.expected)
            && (outcome == UnreadableError <==> a.transfer.Completed? && !a.readable)
            && (outcome == StorageError <==> a.transfer.StorageFailed? && a.removable)
            && (outcome == OtherError <==> a.transfer.OtherFailed?)
            && (outcome == AllSourcesFailed <==> IsPassing(a) || IsLasting(a, sum))
            && (outcome == Downloaded ==> Ending(turns, plan, sum, before).1 == Some(a.transfer.content))
  {
  }

  /** A schedule depends on nothing but the plan: there is only one. */
  lemma {:induction false} ScheduleIsUnique(
      turns: seq<Turn>, turns': seq<Turn>, sources: nat, plan: Turn -> Attempt, sum: Checksum, i: nat)
    requires IsSchedule(turns, sources, plan, sum) && IsSchedule(turns', sources, plan, sum)
    requires i < |turns|
    ensures i < |turns'| && turns[i] == turns'[i]
  {
    if i > 0 {
      ScheduleIsUnique(turns, turns', sources, plan, sum, i - 1);
      assert Following(turns[i - 1], Judge(plan(turns[i - 1]), sum), sources) == Some(turns[i]);
    }
  }

  /** When the file cannot be read back, the verification error is one that no handler catches, and the file stays. */
  lemma UnreadableWheelStays(content: Content, sum: Checksum) returns (plan: Turn -> Attempt, turns: seq<Turn>)
    ensures IsSchedule(turns, 1, plan, sum)
    ensures forall before :: Ending(turns, plan, sum, before) == (UnreadableError, Some(content))
  {
    plan, turns := _ => Attempt(Completed(content), false, true), [Turn(0, 1)];
  }

  /** The same for an exception of another kind: a partial file stays, and so does one from before the call. */
  lemma UncaughtErrorKeepsWheel(partial: Option<Content>, sum: Checksum)
    returns (plan: Turn -> Attempt, turns: seq<Turn>)
    ensures IsSchedule(turns, 1, plan, sum)
    ensures forall before :: Ending(turns, plan, sum, before) == (OtherError, if partial.Some? then partial else before)
  {
    plan, turns := _ => Attempt(OtherFailed(partial), true, true), [Turn(0, 1)];
  }

  /** And for a file that a handler fails to remove, here after a checksum mismatch. */
  lemma UnremovableWheelStays(content: Content, sum: Checksum) returns (plan: Turn -> Attempt, turns: seq<Turn>)
    requires !sum.Matches(content)
    ensures IsSchedule(turns, 2, plan, sum)
    ensures forall before :: Ending(turns, plan, sum, before) == (RemovalError, Some(content))
  {
    plan, turns := _ => Attempt(Completed(content), true, false), [Turn(0, 1)];
  }
}
