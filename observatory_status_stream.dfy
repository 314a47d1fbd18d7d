/**
 * OSLowLevelSdkClient::StreamObservatoryStatus (client.cpp): open a
 * server-streaming call on a completion queue, read status messages with a
 * per-read deadline, hand each one to the callback, then finish the call and
 * shut the queue down.
 *
 * The completion queue is the results it hands back, in order: the result of
 * the first blocking Next, then one result per AsyncNext. The calls the
 * method makes (on the stub, the reader, the context, the queue and the
 * callback) are returned as a log, in order.
 */
module ObservatoryStatusStream {

  /** The tags the method gives the queue: open, read, finish. */
  const StartTag: nat := 1
  const ReadTag: nat := 2
  const FinishTag: nat := 3

  /** The deadline set on the whole call, in seconds (line 34). */
  const CallDeadlineSeconds: nat := 30

  /** The deadline of each AsyncNext, in seconds from the moment it is computed (line 54). */
  const ReadDeadlineSeconds: nat := 2

  /** A V1ObservatoryStatus message; only its timestamp is read by the method. */
  datatype ObservatoryStatus = ObservatoryStatus(timestampSeconds: int)

  /**
   * What one AsyncNext returns: GOT_EVENT with the tag and the ok flag (and,
   * for a completed read, the message the read stored into `response`),
   * TIMEOUT, or SHUTDOWN.
   */
  datatype WaitResult =
    | GotEvent(tag: nat, ok: bool, message: ObservatoryStatus)
    | Timeout
    | Shutdown

  /** One call the method makes, in the order it makes them. */
  datatype Action =
    | StartCall(minimumIntervalMicroseconds: int, deadlineSeconds: nat, tag: nat)
    | Next
    | Read(tag: nat)
    | AsyncNext(deadlineSeconds: nat)
    | TryCancel
    | Callback(message: ObservatoryStatus)
    | Finish(tag: nat)
    | QueueShutdown

  /** A wait result after which the read loop breaks. */
  predicate EndsLoop(w: WaitResult) {
    w.Timeout? || w.Shutdown? || !w.ok
  }

  /** The results contain one that ends the loop. */
  ghost predicate LoopEnds(waits: seq<WaitResult>) {
    exists i :: 0 <= i < |waits| && EndsLoop(waits[i])
  }

  /** The first Next reported the open call, with tag 1. */
  predicate Opened(openTag: nat, openOk: bool) {
    openOk && openTag == StartTag
  }

  /** The calls of the read loop, given the AsyncNext results from here on. */
  function LoopActions(waits: seq<WaitResult>): seq<Action>
    decreases |waits|
  {
    if waits == [] then []
    else
      [Read(ReadTag), AsyncNext(ReadDeadlineSeconds)] +
      match waits[0]
      case Timeout => [TryCancel]
      case Shutdown => []
      case GotEvent(tag, ok, message) =>
        if !ok then []
        else (if tag == ReadTag then [Callback(message)] else []) + LoopActions(waits[1..])
  }

  /** Every call of one invocation, from the open request to the queue shutdown. */
  function SessionActions(minimumIntervalMicroseconds: int, openTag: nat, openOk: bool,
                          waits: seq<WaitResult>): seq<Action>
  {
    [StartCall(minimumIntervalMicroseconds, CallDeadlineSeconds, StartTag), Next] +
    if !Opened(openTag, openOk) then []
    else LoopActions(waits) + [Finish(FinishTag), Next, QueueShutdown]
  }

  /**
   * StreamObservatoryStatus. `openTag`/`openOk` are what the first Next
   * reports; `waits` are the AsyncNext results. When the call opened, some
   * result ends the loop: the 30-second call deadline fails the read that is
   * pending when it expires. `timeoutMilliseconds` is accepted and not used.
   * Returns the calls made, in order; the context is cancelled iff TryCancel is among them.
   */
  method StreamObservatoryStatus(minimumIntervalMicroseconds: int, timeoutMilliseconds: int,
                                 openTag: nat, openOk: bool, waits: seq<WaitResult>)
    returns (actions: seq<Action>)
    requires Opened(openTag, openOk) ==> LoopEnds(waits)
    ensures actions == SessionActions(minimumIntervalMicroseconds, openTag, openOk, waits)
  {
    actions := [StartCall(minimumIntervalMicroseconds, CallDeadlineSeconds, StartTag)];

    // Wait for the stream to be initialized
    actions := actions + [Next];
    var gotTag, ok := openTag, openOk;
    if !ok || gotTag != StartTag {
      return;
    }

    var loop := ReadLoop(waits);
    actions := actions + loop;

    // Finish the stream
    actions := actions + [Finish(FinishTag)];
    actions := actions + [Next];
    actions := actions + [QueueShutdown];
  }

  /**
   * The read loop of StreamObservatoryStatus: request a read, wait up to
   * 2 seconds for the queue, cancel on a timeout, stop on a shutdown or a
   * failed event, and hand each completed read to the callback. Returns the
   * calls it makes, in order.
   */
  method ReadLoop(waits: seq<WaitResult>) returns (actions: seq<Action>)
    requires LoopEnds(waits)
    ensures actions == LoopActions(waits)
  {
    FirstEndFound(waits);
    actions := [];
    var response := ObservatoryStatus(0);
    var i := 0;
    while true
      invariant 0 <= i <= FirstEnd(waits) < |waits|
      invariant actions + LoopActions(waits[i..]) == LoopActions(waits)
      decreases |waits| - i
    {
      ghost var before := actions;
      actions := actions + [Read(ReadTag)];
      actions := actions + [AsyncNext(ReadDeadlineSeconds)];
      var status := waits[i];
      assert status == waits[i..][0];

      if status.Timeout? {
        actions := actions + [TryCancel];
        LoopActionsStop(waits[i..]);
        assert actions == before + LoopActions(waits[i..]);
        break;
      }
      if status.Shutdown? {
        LoopActionsStop(waits[i..]);
        assert actions == before + LoopActions(waits[i..]);
        break;
      }
      var gotTag, ok := status.tag, status.ok;
      if !ok {
        LoopActionsStop(waits[i..]);
        assert actions == before + LoopActions(waits[i..]);
        break;
      }
      if gotTag == ReadTag {
        response := status.message;
        actions := actions + [Callback(response)];
      }
      assert actions == before + IterationHead(status);
      LoopAdvance(waits, i, before);
      i := i + 1;
    }
  }

  /** An iteration that does not end the loop keeps the loop invariant of ReadLoop. */
  lemma LoopAdvance(waits: seq<WaitResult>, i: nat, before: seq<Action>)
    requires i < |waits| && !EndsLoop(waits[i])
    requires before + LoopActions(waits[i..]) == LoopActions(waits)
    ensures (before + IterationHead(waits[i])) + LoopActions(waits[i + 1..]) == LoopActions(waits)
  {
    LoopActionsUnfold(waits[i..]);
    assert waits[i..][1..] == waits[i + 1..];
    var h, r := IterationHead(waits[i]), LoopActions(waits[i + 1..]);
    assert (before + h) + r == before + (h + r);
  }

  /** When some result ends the loop, FirstEnd finds it. */
  lemma FirstEndFound(waits: seq<WaitResult>)
    requires LoopEnds(waits)
    ensures FirstEnd(waits) < |waits|
  {
    var j :| 0 <= j < |waits| && EndsLoop(waits[j]);
    assert FirstEnd(waits) <= j;
  }

  /** The calls of the iteration that ends the loop. */
  lemma LoopActionsStop(waits: seq<WaitResult>)
    requires waits != [] && EndsLoop(waits[0])
    ensures LoopActions(waits) ==
      [Read(ReadTag), AsyncNext(ReadDeadlineSeconds)] + (if waits[0].Timeout? then [TryCancel] else [])
  {
  }

  // ---------------------------------------------------------------------
  // Reference definitions and properties of the logged calls

  /** The index of the first result that ends the loop, or |waits| if none does. */
  function FirstEnd(waits: seq<WaitResult>): (r: nat)
    ensures r <= |waits|
    ensures forall j :: 0 <= j < r ==> !EndsLoop(waits[j])
    ensures r < |waits| ==> EndsLoop(waits[r])
    decreases |waits|
  {
    if waits == [] || EndsLoop(waits[0]) then 0 else 1 + FirstEnd(waits[1..])
  }

  /** The messages of successful reads (tag 2) among the given results, in order. */
  function ReadMessages(waits: seq<WaitResult>): seq<ObservatoryStatus>
    decreases |waits|
  {
    if waits == [] then []
    else
      (if waits[0].GotEvent? && waits[0].ok && waits[0].tag == ReadTag then [waits[0].message] else []) +
      ReadMessages(waits[1..])
  }

  /** The messages handed to the callback, in the order of the calls. */
  function Callbacks(actions: seq<Action>): seq<ObservatoryStatus>
    decreases |actions|
  {
    if actions == [] then []
    else (if actions[0].Callback? then [actions[0].message] else []) + Callbacks(actions[1..])
  }

  /** The number of AsyncNext calls in a log. */
  function Waits(actions: seq<Action>): nat
    decreases |actions|
  {
    if actions == [] then 0 else (if actions[0].AsyncNext? then 1 else 0) + Waits(actions[1..])
  }

  lemma {:induction false} CallbacksAppend(a: seq<Action>, b: seq<Action>)
    ensures Callbacks(a + b) == Callbacks(a) + Callbacks(b)
    decreases |a|
  {
    if a == [] {
      assert a + b == b;
    } else {
      assert (a + b)[0] == a[0];
      assert (a + b)[1..] == a[1..] + b;
      CallbacksAppend(a[1..], b);
    }
  }

  /** A log without Callback calls hands nothing to the callback. */
  lemma {:induction false} NoCallbacks(a: seq<Action>)
    requires forall k :: 0 <= k < |a| ==> !a[k].Callback?
    ensures Callbacks(a) == []
    decreases |a|
  {
    if a != [] {
      NoCallbacks(a[1..]);
    }
  }

  lemma {:induction false} WaitsAppend(a: seq<Action>, b: seq<Action>)
    ensures Waits(a + b) == Waits(a) + Waits(b)
    decreases |a|
  {
    if a == [] {
      assert a + b == b;
    } else {
      assert (a + b)[0] == a[0];
      assert (a + b)[1..] == a[1..] + b;
      WaitsAppend(a[1..], b);
    }
  }

  /**
   * The callback receives exactly the messages of the successful reads that
   * arrive before the loop ends, in arrival order.
   */
  lemma {:induction false} CallbacksAreDeliveredReads(waits: seq<WaitResult>)
    ensures Callbacks(LoopActions(waits)) == ReadMessages(waits[..FirstEnd(waits)])
    decreases |waits|
  {
    if waits == [] {
    } else {
      var head: seq<Action> := [Read(ReadTag), AsyncNext(ReadDeadlineSeconds)];
      NoCallbacks(head);
      if EndsLoop(waits[0]) {
        assert waits[..FirstEnd(waits)] == [];
        match waits[0]
        case Timeout =>
          CallbacksAppend(head, [TryCancel]);
          NoCallbacks([TryCancel]);
        case Shutdown =>
          assert head + [] == head;
        case GotEvent(_, _, _) =>
          assert head + [] == head;
      } else {
        var w := waits[0];
        var cb: seq<Action> := if w.tag == ReadTag then [Callback(w.message)] else [];
        var rest := waits[1..];
        assert LoopActions(waits) == head + (cb + LoopActions(rest));
        CallbacksAppend(head, cb + LoopActions(rest));
        CallbacksAppend(cb, LoopActions(rest));
        assert Callbacks(cb) == (if w.tag == ReadTag then [w.message] else []) by {
          if w.tag == ReadTag { assert cb[1..] == []; }
        }
        CallbacksAreDeliveredReads(rest);
        var n := FirstEnd(waits);
        assert n == 1 + FirstEnd(rest);
        assert waits[..n][0] == w;
        assert waits[..n][1..] == rest[..FirstEnd(rest)];
      }
    }
  }

  /**
   * One Read and one AsyncNext per result consumed: the loop consumes the
   * results up to and including the first one that ends it, and no more.
   */
  lemma {:induction false} OneWaitPerResultConsumed(waits: seq<WaitResult>)
    requires LoopEnds(waits)
    ensures FirstEnd(waits) < |waits|
    ensures Waits(LoopActions(waits)) == FirstEnd(waits) + 1
    decreases |waits|
  {
    var head: seq<Action> := [Read(ReadTag), AsyncNext(ReadDeadlineSeconds)];
    assert Waits(head) == 1 by {
      assert head[1..] == [AsyncNext(ReadDeadlineSeconds)];
      assert head[1..][1..] == [];
    }
    if EndsLoop(waits[0]) {
      match waits[0]
      case Timeout =>
        WaitsAppend(head, [TryCancel]);
        assert Waits([TryCancel]) == 0 by { assert [TryCancel][1..] == []; }
      case Shutdown =>
        assert head + [] == head;
      case GotEvent(_, _, _) =>
        assert head + [] == head;
    } else {
      var w := waits[0];
      var cb: seq<Action> := if w.tag == ReadTag then [Callback(w.message)] else [];
      var rest := waits[1..];
      assert LoopEnds(rest) by {
        var j :| 0 <= j < |waits| && EndsLoop(waits[j]);
        assert j != 0;
        assert rest[j - 1] == waits[j];
      }
      assert LoopActions(waits) == head + (cb + LoopActions(rest));
      WaitsAppend(head, cb + LoopActions(rest));
      WaitsAppend(cb, LoopActions(rest));
      assert Waits(cb) == 0 by {
        if w.tag == ReadTag { assert cb[1..] == []; }
      }
      OneWaitPerResultConsumed(rest);
    }
  }

  /** Every AsyncNext waits 2 seconds right after a Read with tag 2; every Read has tag 2. */
  predicate ReadsPairedWithWaits(a: seq<Action>) {
    (forall k :: 0 <= k < |a| && a[k].AsyncNext? ==>
       a[k].deadlineSeconds == ReadDeadlineSeconds && 0 < k && a[k - 1] == Read(ReadTag)) &&
    (forall k :: 0 <= k < |a| && a[k].Read? ==> a[k].tag == ReadTag)
  }

  /** TryCancel, if called at all, is the last call. */
  predicate CancelIsLast(a: seq<Action>) {
    forall k :: 0 <= k < |a| && a[k] == TryCancel ==> k == |a| - 1
  }

  /** The calls of one loop iteration before the rest of the loop. */
  function IterationHead(w: WaitResult): (r: seq<Action>)
    requires !EndsLoop(w)
    ensures |r| >= 2 && r[..2] == [Read(ReadTag), AsyncNext(ReadDeadlineSeconds)]
    ensures forall k :: 2 <= k < |r| ==> r[k] == Callback(w.message)
  {
    [Read(ReadTag), AsyncNext(ReadDeadlineSeconds)] + if w.tag == ReadTag then [Callback(w.message)] else []
  }

  lemma LoopActionsUnfold(waits: seq<WaitResult>)
    requires waits != [] && !EndsLoop(waits[0])
    ensures LoopActions(waits) == IterationHead(waits[0]) + LoopActions(waits[1..])
  {
  }

  /**
   * Every AsyncNext has the 2-second deadline and directly follows a Read
   * with tag 2, and every Read carries tag 2.
   */
  lemma {:induction false} EveryWaitFollowsARead(waits: seq<WaitResult>)
    ensures ReadsPairedWithWaits(LoopActions(waits))
    decreases |waits|
  {
    if waits != [] {
      if EndsLoop(waits[0]) {
        var a := LoopActions(waits);
        assert a == [Read(ReadTag), AsyncNext(ReadDeadlineSeconds)] + (if waits[0].Timeout? then [TryCancel] else []);
      } else {
        var h := IterationHead(waits[0]);
        var r := LoopActions(waits[1..]);
        LoopActionsUnfold(waits);
        EveryWaitFollowsARead(waits[1..]);
        var a := h + r;
        forall k | 0 <= k < |a| && a[k].AsyncNext?
          ensures a[k].deadlineSeconds == ReadDeadlineSeconds && 0 < k && a[k - 1] == Read(ReadTag)
        {
          if k < |h| {
            assert k < 2 ==> a[k] == h[..2][k];
          } else {
            assert a[k] == r[k - |h|];
            assert r[k - |h| - 1] == Read(ReadTag);
            assert a[k - 1] == r[k - |h| - 1];
          }
        }
        forall k | 0 <= k < |a| && a[k].Read?
          ensures a[k].tag == ReadTag
        {
          if k < |h| {
            assert k < 2 ==> a[k] == h[..2][k];
          } else {
            assert a[k] == r[k - |h|];
          }
        }
      }
    }
  }

  /** TryCancel is called only as the loop's last call. */
  lemma {:induction false} CancelOnlyLast(waits: seq<WaitResult>)
    ensures CancelIsLast(LoopActions(waits))
    decreases |waits|
  {
    if waits != [] {
      if EndsLoop(waits[0]) {
        var a := LoopActions(waits);
        assert a == [Read(ReadTag), AsyncNext(ReadDeadlineSeconds)] + (if waits[0].Timeout? then [TryCancel] else []);
      } else {
        var h := IterationHead(waits[0]);
        var r := LoopActions(waits[1..]);
        LoopActionsUnfold(waits);
        CancelOnlyLast(waits[1..]);
        var a := h + r;
        assert TryCancel !in h by {
          forall k | 0 <= k < |h| ensures h[k] != TryCancel {
            assert k < 2 ==> h[k] == h[..2][k];
          }
        }
        forall k | 0 <= k < |a| && a[k] == TryCancel
          ensures k == |a| - 1
        {
          if k >= |h| {
            assert a[k] == r[k - |h|];
          }
        }
      }
    }
  }

  /**
   * The context is cancelled only when a read times out: TryCancel appears in
   * the loop's calls exactly when the result that ends the loop is TIMEOUT.
   */
  lemma {:induction false} CancelOnlyOnTimeout(waits: seq<WaitResult>)
    ensures TryCancel in LoopActions(waits) <==> FirstEnd(waits) < |waits| && waits[FirstEnd(waits)].Timeout?
    decreases |waits|
  {
    if waits != [] {
      if EndsLoop(waits[0]) {
        var a := LoopActions(waits);
        assert a == [Read(ReadTag), AsyncNext(ReadDeadlineSeconds)] + (if waits[0].Timeout? then [TryCancel] else []);
        assert waits[0].Timeout? ==> a[2] == TryCancel;
      } else {
        var h := IterationHead(waits[0]);
        var r := LoopActions(waits[1..]);
        LoopActionsUnfold(waits);
        CancelOnlyOnTimeout(waits[1..]);
        assert FirstEnd(waits) == 1 + FirstEnd(waits[1..]);
        var a := h + r;
        assert TryCancel !in h by {
          forall k | 0 <= k < |h| ensures h[k] != TryCancel {
            assert k < 2 ==> h[k] == h[..2][k];
          }
        }
        assert TryCancel in a <==> TryCancel in r;
      }
    }
  }

  /** The loop's own calls never start, finish or shut anything down. */
  lemma {:induction false} LoopMakesOnlyLoopCalls(waits: seq<WaitResult>)
    ensures forall x :: x in LoopActions(waits) ==> x.Read? || x.AsyncNext? || x.TryCancel? || x.Callback?
    decreases |waits|
  {
    if waits != [] && waits[0].GotEvent? && waits[0].ok {
      LoopMakesOnlyLoopCalls(waits[1..]);
    }
  }

  /**
   * A session that opened starts the call once with the 30-second deadline,
   * finishes it with tag 3, waits once more and shuts the queue down, each
   * exactly once and in that order at the end; the callback receives the
   * delivered reads. A session whose open failed only starts the call and
   * waits once, and does not shut the queue down.
   */
  lemma SessionShape(minimumIntervalMicroseconds: int, openTag: nat, openOk: bool, waits: seq<WaitResult>)
    ensures var a := SessionActions(minimumIntervalMicroseconds, openTag, openOk, waits);
      a[..2] == [StartCall(minimumIntervalMicroseconds, CallDeadlineSeconds, StartTag), Next] &&
      (!Opened(openTag, openOk) ==> a == a[..2]) &&
      (Opened(openTag, openOk) ==>
         |a| >= 5 &&
         a[|a| - 3..] == [Finish(FinishTag), Next, QueueShutdown] &&
         (forall k :: 0 <= k < |a| - 3 ==> !a[k].Finish? && !a[k].QueueShutdown?) &&
         (forall k :: 0 < k < |a| ==> !a[k].StartCall?) &&
         Callbacks(a) == ReadMessages(waits[..FirstEnd(waits)]))
  {
    var a := SessionActions(minimumIntervalMicroseconds, openTag, openOk, waits);
    var start: seq<Action> := [StartCall(minimumIntervalMicroseconds, CallDeadlineSeconds, StartTag), Next];
    if Opened(openTag, openOk) {
      var loop := LoopActions(waits);
      var fin: seq<Action> := [Finish(FinishTag), Next, QueueShutdown];
      assert a == start + loop + fin;
      LoopMakesOnlyLoopCalls(waits);
      forall k | 0 <= k < |a| - 3
        ensures !a[k].Finish? && !a[k].QueueShutdown?
      {
        if k >= 2 { assert a[k] == loop[k - 2]; assert loop[k - 2] in loop; }
      }
      forall k | 0 < k < |a|
        ensures !a[k].StartCall?
      {
        if 2 <= k < |a| - 3 { assert a[k] == loop[k - 2]; assert loop[k - 2] in loop; }
      }
      CallbacksAppend(start, loop);
      CallbacksAppend(start + loop, fin);
      NoCallbacks(start);
      NoCallbacks(fin);
      CallbacksAreDeliveredReads(waits);
    }
  }
}
