/**
 The background log writer: a bounded queue with non-blocking admission, and reference-counted
 ownership of the wrapped handlers.  Every method below is one block under the writer's lock.
 */
module LogWriter {
  import opened Basics

  datatype Handler = Handler(id: nat)

  /** A queued record, numbered in order of submission, with the handlers it is meant for. */
  datatype Item = Item(handlers: seq<Handler>, record: nat)

  /** The writer's fields. */
  datatype Writer = Writer(
    capacity: int,                 // queue.Queue(maxsize): unbounded unless positive
    queue: seq<Item>,
    dropped: nat,
    stopping: bool,
    handlers: set<Handler>,
    owners: map<Handler, int>,
    retired: set<Handler>)

  function Owned(owners: map<Handler, int>, h: Handler): int {
    if h in owners then owners[h] else 0
  }

  predicate IsFull(w: Writer) {
    w.capacity > 0 && |w.queue| >= w.capacity
  }

  // ---------------------------------------------------------------------------
  // The blocks, as functions of the fields
  // ---------------------------------------------------------------------------

  /** `wrap`: every target gets one more owner. */
  function AddOwners(owners: map<Handler, int>, targets: seq<Handler>): map<Handler, int> {
    if targets == [] then owners
    else
      var h, before := targets[|targets| - 1], AddOwners(owners, targets[..|targets| - 1]);
      before[h := Owned(before, h) + 1]
  }

  function Wrapped(w: Writer, targets: seq<Handler>): Writer {
    w.(handlers := w.handlers + Elements(targets),
       owners := AddOwners(w.owners, targets),
       retired := w.retired - Elements(targets))
  }

  function Submitted(w: Writer, item: Item): Writer {
    if w.stopping then w
    else if IsFull(w) then w.(dropped := w.dropped + 1)
    else w.(queue := w.queue + [item])
  }

  /** `retire`: every handler loses one owner, and the last owner leaves it to be closed. */
  function Retired(w: Writer, hs: seq<Handler>): Writer {
    if hs == [] then w
    else
      var h, before := hs[|hs| - 1], Retired(w, hs[..|hs| - 1]);
      var n := Owned(before.owners, h) - 1;
      if n > 0 then before.(owners := before.owners[h := n])
      else before.(owners := before.owners - {h}, retired := before.retired + {h})
  }

  /** The locked part of `_close_retired`: the retired handlers are taken out, to be closed. */
  function Swept(w: Writer): Writer {
    w.(retired := {}, handlers := w.handlers - w.retired)
  }

  /** The end of the drain loop: whatever is still registered is to be closed. */
  function AllRetired(w: Writer): Writer {
    w.(retired := w.retired + w.handlers)
  }

  // ---------------------------------------------------------------------------
  // What they count
  // ---------------------------------------------------------------------------

  lemma {:induction false} AddOwnersCounts(owners: map<Handler, int>, targets: seq<Handler>, h: Handler)
    ensures Owned(AddOwners(owners, targets), h) == Owned(owners, h) + multiset(targets)[h]
    ensures h in AddOwners(owners, targets) <==> h in owners || h in targets
  {
    if targets != [] {
      AddOwnersCounts(owners, targets[..|targets| - 1], h);
      assert targets == targets[..|targets| - 1] + [targets[|targets| - 1]];
    }
  }

  /** Owners are counted, never below one. */
  ghost predicate Positive(owners: map<Handler, int>) {
    forall h | h in owners :: owners[h] > 0
  }

  /** If every handler has at least as many owners as are given up, exactly those are given up. */
  lemma {:induction false} RetiredCounts(w: Writer, hs: seq<Handler>, h: Handler)
    requires Positive(w.owners) && forall x | x in hs :: Owned(w.owners, x) >= multiset(hs)[x]
    ensures Positive(Retired(w, hs).owners)
    ensures Owned(Retired(w, hs).owners, h) == Owned(w.owners, h) - multiset(hs)[h]
    ensures h in Retired(w, hs).retired <==> h in w.retired || (h in hs && Owned(w.owners, h) == multiset(hs)[h])
    ensures Retired(w, hs) == w.(owners := Retired(w, hs).owners, retired := Retired(w, hs).retired)
  {
    if hs != [] {
      var init, last := hs[..|hs| - 1], hs[|hs| - 1];
      assert hs == init + [last];
      assert forall x | x in init :: multiset(init)[x] <= multiset(hs)[x];
      RetiredCounts(w, init, h);
      RetiredCounts(w, init, last);
      assert last in hs;
      assert h in init || h == last <==> h in hs;
      assert h in init ==> multiset(init)[h] > 0;
    }
  }

  // ---------------------------------------------------------------------------
  // The object
  // ---------------------------------------------------------------------------

  class BackgroundLogWriter {
    var capacity: int
    var queue: seq<Item>
    var dropped: nat
    var stopping: bool
    var handlers: set<Handler>
    var owners: map<Handler, int>
    var retired: set<Handler>

    function View(): Writer
      reads this
    {
      Writer(capacity, queue, dropped, stopping, handlers, owners, retired)
    }

    constructor (maxsize: int)
      ensures View() == Writer(maxsize, [], 0, false, {}, map[], {})
    {
      capacity, queue, dropped, stopping := maxsize, [], 0, false;
      handlers, owners, retired := {}, map[], {};
    }

    method Wrap(targets: seq<Handler>)
      modifies this
      ensures View() == Wrapped(old(View()), targets)
    {
      handlers := handlers + Elements(targets);
      for i := 0 to |targets|
        modifies `owners, `retired
        invariant owners == AddOwners(old(owners), targets[..i])
        invariant retired == old(retired) - Elements(targets[..i])
      {
        var h := targets[i];
        assert targets[..i + 1][..i] == targets[..i];
        assert Elements(targets[..i + 1]) == Elements(targets[..i]) + {h};
        owners := owners[h := Owned(owners, h) + 1];
        retired := retired - {h};
      }
      assert targets[..|targets|] == targets;
    }

    method Submit(item: Item)
      modifies this
      ensures View() == Submitted(old(View()), item)
      ensures old(stopping) ==> queue == old(queue) && dropped == old(dropped)
      ensures !old(stopping) && (capacity <= 0 || |old(queue)| < capacity) ==>
                queue == old(queue) + [item] && dropped == old(dropped)
      ensures !old(stopping) && capacity > 0 && |old(queue)| >= capacity ==>
                queue == old(queue) && dropped == old(dropped) + 1
    {
      if stopping { return; }
      if capacity <= 0 || |queue| < capacity {
        queue := queue + [item];
      } else {
        dropped := dropped + 1;
      }
    }

    method Retire(hs: seq<Handler>)
      modifies this
      ensures View() == Retired(old(View()), hs)
    {
      for i := 0 to |hs|
        modifies `owners, `retired
        invariant View() == Retired(old(View()), hs[..i])
      {
        var h := hs[i];
        assert hs[..i + 1][..i] == hs[..i];
        var n := Owned(owners, h) - 1;
        if n > 0 {
          owners := owners[h := n];
        } else {
          owners := owners - {h};
          retired := retired + {h};
        }
      }
      assert hs[..|hs|] == hs;
    }

    method Stop()
      modifies this
      ensures View() == old(View()).(stopping := true)
    {
      stopping := true;
    }

    /** The locked part of `_close_retired`; the caller closes what is returned. */
    method TakeRetired() returns (taken: set<Handler>)
      modifies this
      ensures taken == old(retired) && View() == Swept(old(View()))
    {
      taken := retired;
      retired := {};
      handlers := handlers - taken;
    }
  }
}
