/** What a thread does with its callbacks: the fail callbacks of an attempt, and the loops that run
    the queued success callbacks once their grace period is over. */
module ThreadData {
  import opened Bits
  import opened Quiescence
  import Stm

  /** The callbacks of some chunks, in order. */
  function Calls(chunks: seq<Chunk>): seq<Callback> {
    if chunks == [] then [] else chunks[0].callbacks + Calls(chunks[1..])
  }

  ghost predicate AllBelow(chunks: seq<Chunk>, n: nat, bound: Epoch)
    requires n <= |chunks|
  {
    forall k | 0 < k < n :: chunks[k].epoch < bound
  }

  lemma AllBelowNext(chunks: seq<Chunk>, n: nat, bound: Epoch, rest: seq<Chunk>)
    requires n <= |chunks| && AllBelow(chunks, n, bound) && rest == chunks[n..] && rest != []
    requires rest[0].epoch < bound
    ensures n < |chunks| && AllBelow(chunks, n + 1, bound)
  {
  }

  /** `reclaim_all_possible` runs `n` chunks: the first, and more as long as the next is below
      the bound. */
  ghost predicate Releases(chunks: seq<Chunk>, n: nat, bound: Epoch) {
    && 0 < n <= |chunks| && AllBelow(chunks, n, bound)
    && (n < |chunks| ==> bound <= chunks[n].epoch)
  }

  ghost predicate InOrder(chunks: seq<Chunk>) {
    forall j, k | 0 <= j < k < |chunks| :: chunks[j].epoch <= chunks[k].epoch
  }

  /** With epochs in order the loop stops neither early nor late. */
  lemma ReleasesExactly(chunks: seq<Chunk>, n: nat, bound: Epoch, k: nat)
    requires InOrder(chunks) && Releases(chunks, n, bound) && k < |chunks|
    ensures k < n <==> k == 0 || chunks[k].epoch < bound
  {
    if k >= n {
      assert chunks[n].epoch <= chunks[k].epoch;
    }
  }

  // ---------------------------------------------------------------- the scan

  const OFF_STATE: Epoch := Stm.OFF_STATE

  /** What a scan that waits for everything up to `goal` returns when `shown` is what the nodes show as
      it looks at them: the least epoch above the goal.  A node that shows an epoch up to the goal is
      waited for and left out. */
  function MinAbove(shown: seq<Epoch>, goal: Epoch): Epoch {
    if shown == [] then OFF_STATE
    else
      var rest, last := MinAbove(shown[..|shown| - 1], goal), shown[|shown| - 1];
      if goal < last < rest then last else rest
  }

  lemma {:induction false} MinAboveIsLeast(shown: seq<Epoch>, goal: Epoch, k: nat)
    requires k < |shown| && goal < shown[k]
    ensures MinAbove(shown, goal) <= shown[k]
    decreases |shown|
  {
    if k < |shown| - 1 {
      MinAboveIsLeast(shown[..|shown| - 1], goal, k);
    }
  }

  lemma {:induction false} MinAboveIsShown(shown: seq<Epoch>, goal: Epoch)
    ensures MinAbove(shown, goal) == OFF_STATE || (goal < MinAbove(shown, goal) && MinAbove(shown, goal) in shown)
    decreases |shown|
  {
    if shown != [] {
      MinAboveIsShown(shown[..|shown| - 1], goal);
    }
  }

  /** `wait_min_epoch`.  Waiting itself is up to the other threads. */
  method WaitMinEpoch(goal: Epoch, shown: seq<Epoch>) returns (result: Epoch)
    ensures result == MinAbove(shown, goal)
  {
    result := OFF_STATE;
    for i := 0 to |shown|
      invariant result == MinAbove(shown[..i], goal)
    {
      assert shown[..i + 1][..i] == shown[..i];
      if goal < shown[i] && shown[i] < result {
        result := shown[i];
      }
    }
    assert shown[..|shown|] == shown;
  }

  // ---------------------------------------------------------------- callbacks

  /** What a thread does outside its transactions: it waits for an epoch, and finds a bound; it runs a
      callback. */
  datatype Event = Waited(goal: Epoch, found: Epoch) | Ran(call: Callback)

  function Runs(calls: seq<Callback>): seq<Event> {
    seq(|calls|, k requires 0 <= k < |calls| => Ran(calls[k]))
  }

  lemma RunsAppend(a: seq<Callback>, b: seq<Callback>)
    ensures Runs(a + b) == Runs(a) + Runs(b)
  {
  }

  lemma {:induction false} CallsAppend(a: seq<Chunk>, b: seq<Chunk>)
    ensures Calls(a + b) == Calls(a) + Calls(b)
  {
    if a == [] {
      assert a + b == b;
    } else {
      assert (a + b)[1..] == a[1..] + b;
      CallsAppend(a[1..], b);
    }
  }

  lemma FrontOf(chunks: seq<Chunk>, n: nat, c: Chunk, rest: seq<Chunk>)
    requires n <= |chunks| && chunks[n..] == [c] + rest
    ensures n < |chunks| && chunks[n] == c && chunks[n + 1..] == rest
  {
    assert chunks[n..][0] == c && chunks[n..][1..] == rest;
  }

  lemma CallsNext(chunks: seq<Chunk>, n: nat)
    requires n < |chunks|
    ensures Calls(chunks[..n + 1]) == Calls(chunks[..n]) + chunks[n].callbacks
  {
    CallsAppend(chunks[..n], [chunks[n]]);
    assert chunks[..n + 1] == chunks[..n] + [chunks[n]];
    assert Calls([chunks[n]]) == chunks[n].callbacks + Calls([chunks[n]][1..]);
  }

  class ThreadData {
    const succCallbacks: QuiescenceBuffer
    var failCallbacks: seq<Callback>

    /** Everything this thread has waited for and run, in order. */
    ghost var history: seq<Event>

    ghost predicate Valid()
      reads this, succCallbacks, succCallbacks.buffer
    {
      succCallbacks.Valid()
    }

    /** What is queued. */
    ghost function Queue(): seq<Chunk>
      reads succCallbacks
    {
      succCallbacks.chunks
    }

    constructor ()
      ensures Valid() && Queue() == [] && succCallbacks.working == [] && failCallbacks == [] && history == []
      ensures fresh(succCallbacks) && fresh(succCallbacks.buffer)
    {
      assert PowerOfTwo(64) && PowerOfTwo(1024);
      succCallbacks := new QuiescenceBuffer(1024);
      failCallbacks, history := [], [];
    }

    /** Runs the fail callbacks of an attempt, last registered first, and forgets its success
        callbacks. */
    method Fail() returns (ran: seq<Callback>)
      requires Valid()
      modifies this, succCallbacks
      ensures Valid() && Queue() == old(Queue()) && succCallbacks.working == [] && failCallbacks == []
      ensures |ran| == |old(failCallbacks)|
      ensures forall k | 0 <= k < |ran| :: ran[k] == old(failCallbacks)[|ran| - 1 - k]
      ensures history == old(history) + Runs(ran)
    {
      succCallbacks.ClearWorkingEpoch();
      ran := [];
      var calls := failCallbacks;
      var riter := |calls|;
      while riter != 0
        invariant 0 <= riter <= |calls| && |ran| == |calls| - riter
        invariant forall k | 0 <= k < |ran| :: ran[k] == calls[|calls| - 1 - k]
      {
        riter := riter - 1;
        ran := ran + [calls[riter]];
      }
      history := history + Runs(ran);
      failCallbacks := [];
    }

    method SynchronizeMinEpoch(goal: Epoch, shown: seq<Epoch>) returns (result: Epoch)
      modifies `history
      ensures result == MinAbove(shown, goal) && history == old(history) + [Waited(goal, result)]
    {
      result := WaitMinEpoch(goal, shown);
      history := history + [Waited(goal, result)];
    }

    /** Runs the oldest of the chunks `was`, of which `n` have been run since `before`. */
    method DoSuccCallbacksFront(ran: seq<Callback>, ghost was: seq<Chunk>, ghost n: nat, ghost before: seq<Event>)
      returns (ran': seq<Callback>)
      requires Valid() && succCallbacks.working == [] && n < |was| && Queue() == was[n..]
      requires ran == Calls(was[..n]) && history == before + Runs(ran)
      modifies `history, succCallbacks
      ensures Valid() && succCallbacks.working == [] && Queue() == was[n + 1..]
      ensures ran' == Calls(was[..n + 1]) && history == before + Runs(ran')
    {
      ghost var epoch := Queue()[0].epoch;
      var more := succCallbacks.DoFirstEpochCallbacks();
      FrontOf(was, n, Chunk(epoch, more), Queue());
      CallsNext(was, n);
      RunsAppend(ran, more);
      ran' := ran + more;
      history := history + Runs(more);
    }

    /** Waits once, for the newest epoch queued, and then runs everything that is queued. */
    method ReclaimAll(shown: seq<Epoch>) returns (ran: seq<Callback>)
      requires Valid() && succCallbacks.working == [] && Queue() != []
      modifies `history, succCallbacks
      ensures Valid() && Queue() == [] && succCallbacks.working == []
      ensures ran == Calls(old(Queue()))
      ensures var goal := old(Queue())[|old(Queue())| - 1].epoch;
        history == old(history) + [Waited(goal, MinAbove(shown, goal))] + Runs(ran)
    {
      ghost var was, n := Queue(), 1;
      var back := succCallbacks.BackEpoch();
      var ignored := SynchronizeMinEpoch(back, shown);
      ghost var before := history;
      ran := DoSuccCallbacksFront([], was, 0, before);
      while !succCallbacks.Empty()
        invariant Valid() && succCallbacks.working == [] && 0 < n <= |was| && Queue() == was[n..]
        invariant ran == Calls(was[..n]) && history == before + Runs(ran)
        decreases |was| - n
      {
        ran := DoSuccCallbacksFront(ran, was, n, before);
        n := n + 1;
      }
      assert was[..n] == was;
    }

    /** Runs the chunks whose grace period the scan has found to be over. */
    method ReclaimAllPossible(minEpoch: Epoch) returns (ran: seq<Callback>, ghost n: nat)
      requires Valid() && succCallbacks.working == [] && Queue() != []
      modifies `history, succCallbacks
      ensures Valid() && succCallbacks.working == []
      ensures Releases(old(Queue()), n, minEpoch) && Queue() == old(Queue())[n..]
      ensures ran == Calls(old(Queue())[..n]) && history == old(history) + Runs(ran)
    {
      ghost var was := Queue();
      n := 1;
      ran := DoSuccCallbacksFront([], was, 0, history);
      while !succCallbacks.Empty() && succCallbacks.FrontEpoch() < minEpoch
        invariant Valid() && succCallbacks.working == [] && 0 < n <= |was| && Queue() == was[n..]
        invariant ran == Calls(was[..n]) && AllBelow(was, n, minEpoch) && history == old(history) + Runs(ran)
        decreases |was| - n
      {
        AllBelowNext(was, n, minEpoch, Queue());
        ran := DoSuccCallbacksFront(ran, was, n, old(history));
        n := n + 1;
      }
    }

    /** Waits for the oldest epoch queued and then runs what the scan allows. */
    method ReclaimSlowPath(shown: seq<Epoch>) returns (ran: seq<Callback>, ghost n: nat)
      requires Valid() && succCallbacks.working == [] && Queue() != []
      modifies `history, succCallbacks
      ensures Valid() && succCallbacks.working == []
      ensures Releases(old(Queue()), n, MinAbove(shown, old(Queue())[0].epoch)) && Queue() == old(Queue())[n..]
      ensures ran == Calls(old(Queue())[..n])
      ensures var goal := old(Queue())[0].epoch;
        history == old(history) + [Waited(goal, MinAbove(shown, goal))] + Runs(ran)
    {
      var minEpoch := SynchronizeMinEpoch(succCallbacks.FrontEpoch(), shown);
      ran, n := ReclaimAllPossible(minEpoch);
    }

    /** Queues the callbacks of a commit and, once enough are waiting, reclaims up to the bound a scan
        on the oldest epoch finds. */
    method Reclaim(syncEpoch: Epoch, shown: seq<Epoch>) returns (ran: seq<Callback>, ghost n: nat)
      requires Valid()
      modifies `history, succCallbacks, succCallbacks.buffer
      ensures Valid() && succCallbacks.working == []
      ensures var working := old(succCallbacks.working);
        var queue := if working == [] then old(Queue()) else old(Queue()) + [Chunk(syncEpoch, working)];
        if working != [] && Length(queue) + 1 >= succCallbacks.reclaimLimit then
          var found := MinAbove(shown, queue[0].epoch);
          && Releases(queue, n, found) && Queue() == queue[n..] && ran == Calls(queue[..n])
          && history == old(history) + [Waited(queue[0].epoch, found)] + Runs(ran)
        else Queue() == queue && ran == [] && history == old(history)
    {
      var due := succCallbacks.FinalizeEpoch(syncEpoch);
      ran, n := [], 0;
      if due {
        ran, n := ReclaimSlowPath(shown);
      }
    }
  }
}
