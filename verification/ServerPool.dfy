/** The server's pool inside whole server runs: dead-peer removal (section 4.5 of RFC 7641). */
module ServerPool {
  import opened Types
  import opened Config
  import opened Codec
  import opened Reliability
  import opened PoolRuns
  import opened PoolCauses
  import opened Paths
  import opened ServerSpec
  import opened ServerProps

  // ------------------------------------------------------------------ the pool operations a server step performs

  function NotifyOneOps(s: ServerState, i: nat, idx: nat, payload: seq<byte>, format: u16, confirmable: bool,
                        now: nat): seq<Op>
    requires i < |s.observers| && idx < |s.resources|
  {
    if !confirmable || s.observers[i].Nothing? || s.observers[i].value.resource != idx then []
    else
      var o := s.observers[i].value;
      var m := Notification(o, s.nextMid, s.resources[idx].sequence, payload, format, true);
      if Transmit(o.remote, m) == [] then [] else [OpStart(o.remote, s.nextMid, o.token, EncodeMsg(m), now)]
  }

  function NotifyOps(s: ServerState, k: nat, idx: nat, payload: seq<byte>, format: u16, confirmable: bool,
                     now: nat): seq<Op>
    requires k <= |s.observers| && idx < |s.resources|
  {
    if k == 0 then []
    else
      var before := NotifyUpTo(s, k - 1, idx, payload, format, confirmable).state;
      NotifyOps(s, k - 1, idx, payload, format, confirmable, now)
      + NotifyOneOps(before, k - 1, idx, payload, format, confirmable, now)
  }

  /** `now` is the time of the server's last tick on the unbounded clock. */
  function PoolOps(s: ServerState, op: ServerOp, now: nat): seq<Op> {
    match op
    case OpAdd(_, _, _) => []
    case OpTickTo(at) => [OpTick(at)]
    case OpReceive(from, bytes, _) =>
      var d := DecodeMsg(Received(bytes));
      if d.Decoded? && d.msg.typ.ACK? then [OpComplete(from.Addr(), d.msg.mid)] else []
    case OpNotify(path, payload, format, confirmable) =>
      if !CanNotify(s, path) then []
      else
        var idx := FindResource(s.resources, path);
        NotifyOps(BumpSequence(s, idx), |s.observers|, idx, payload, format, confirmable, now)
    case OpRespond(handle, code, payload, format) =>
      if handle >= |s.deferred| || s.deferred[handle].Nothing? || !s.deferred[handle].value.wasConfirmable then []
      else
        var d := s.deferred[handle].value;
        var m := SeparateResponse(d, s.nextMid, code, payload, format);
        if Transmit(d.remote, m) == [] then [] else [OpStart(d.remote, s.nextMid, d.token, EncodeMsg(m), now)]
  }

  lemma NotifyOnePool(s: ServerState, i: nat, idx: nat, payload: seq<byte>, format: u16, confirmable: bool, now: nat)
    requires i < |s.observers| && idx < |s.resources| && s.now == now % WRAP
    ensures var ops := NotifyOneOps(s, i, idx, payload, format, confirmable, now);
            var t := NotifyOne(s, i, idx, payload, format, confirmable).state;
            && |ops| <= 1 && t.now == s.now
            && t.pool == if ops == [] then s.pool else Step(Wrapping, s.pool, ops[0])
  {
    hide AfterStart, EncodeMsg, Notification;
    var ops := NotifyOneOps(s, i, idx, payload, format, confirmable, now);
    if ops != [] {
      WrappedReading(s.pool, ops[0]);
    }
  }

  lemma {:induction false} NotifyPool(s: ServerState, k: nat, idx: nat, payload: seq<byte>, format: u16,
                                      confirmable: bool, now: nat)
    requires k <= |s.observers| && idx < |s.resources| && s.now == now % WRAP
    ensures var t := NotifyUpTo(s, k, idx, payload, format, confirmable).state;
            t.now == s.now && t.pool == Steps(s.pool, NotifyOps(s, k, idx, payload, format, confirmable, now))
  {
    hide NotifyOne, NotifyOneOps, Step;
    if k > 0 {
      NotifyPool(s, k - 1, idx, payload, format, confirmable, now);
      var before := NotifyUpTo(s, k - 1, idx, payload, format, confirmable).state;
      NotifyOnePool(before, k - 1, idx, payload, format, confirmable, now);
      StepsSnoc(s.pool, NotifyOps(s, k - 1, idx, payload, format, confirmable, now),
                NotifyOneOps(before, k - 1, idx, payload, format, confirmable, now));
    }
  }

  predicate Starts(op: ServerOp) {
    op.OpNotify? || op.OpRespond?
  }

  lemma RespondPool(s: ServerState, handle: nat, code: byte, payload: seq<byte>, format: u16, now: nat)
    requires s.now == now % WRAP
    ensures var ops := PoolOps(s, OpRespond(handle, code, payload, format), now);
            && |ops| <= 1
            && Respond(s, handle, code, payload, format).state.pool == if ops == [] then s.pool
                 else Step(Wrapping, s.pool, ops[0])
  {
    hide AfterStart, EncodeMsg, SeparateResponse;
    var ops := PoolOps(s, OpRespond(handle, code, payload, format), now);
    if ops != [] { WrappedReading(s.pool, ops[0]); }
  }

  lemma ReceivePool(s: ServerState, from: Endpoint, bytes: seq<byte>, h: Handler, now: nat)
    ensures var ops := PoolOps(s, OpReceive(from, bytes, h), now);
            && |ops| <= 1
            && Receive(s, from, bytes, h).state.pool == if ops == [] then s.pool else Step(Wrapping, s.pool, ops[0])
  {
    hide AfterComplete, DecodeMsg, HandleRequest;
  }

  /** A server step does to its pool exactly what its pool operations do. */
  lemma PoolOfStep(s: ServerState, op: ServerOp, now: nat)
    requires Starts(op) ==> s.now == now % WRAP
    ensures ServerStep(s, op).state.pool == Steps(s.pool, PoolOps(s, op, now))
  {
    hide Respond, Receive, NotifyUpTo, NotifyOps, FindResource, AfterTick, PoolOps, Steps;
    var ops := PoolOps(s, op, now);
    StepsSnoc(s.pool, [], if |ops| <= 1 then ops else []);
    NoSteps(s.pool);
    assert [] + ops == ops;
    match op
    case OpAdd(_, _, _) => OtherOps(s, op, now);
    case OpTickTo(at) =>
      OtherOps(s, op, now);
      WrappedReading(s.pool, OpTick(at));
    case OpReceive(from, bytes, h) => ReceivePool(s, from, bytes, h, now);
    case OpNotify(path, payload, format, confirmable) =>
      OtherOps(s, op, now);
      if CanNotify(s, path) {
        var idx := FindResource(s.resources, path);
        NotifyPool(BumpSequence(s, idx), |s.observers|, idx, payload, format, confirmable, now);
      }
    case OpRespond(handle, code, payload, format) => RespondPool(s, handle, code, payload, format, now);
  }

  lemma OtherOps(s: ServerState, op: ServerOp, now: nat)
    ensures op.OpAdd? ==> PoolOps(s, op, now) == []
    ensures op.OpTickTo? ==> PoolOps(s, op, now) == [OpTick(op.now)]
    ensures op.OpNotify? && !CanNotify(s, op.path) ==> PoolOps(s, op, now) == []
    ensures op.OpNotify? && CanNotify(s, op.path) ==>
              var idx := FindResource(s.resources, op.path);
              PoolOps(s, op, now) ==
                NotifyOps(BumpSequence(s, idx), |s.observers|, idx, op.payload, op.format, op.confirmable, now)
  {
    hide NotifyOps, FindResource;
  }

  // ------------------------------------------------------------------ over a run

  /** Time of the last tick; `origin` before the first one. */
  function LastNow(ops: seq<ServerOp>, origin: nat): nat {
    if ops == [] then origin
    else if ops[|ops| - 1].OpTickTo? then ops[|ops| - 1].now else LastNow(ops[..|ops| - 1], origin)
  }

  /** The server is polled before it sends anything on its own, and is polled again at most `gap` after each poll. */
  predicate Polled(ops: seq<ServerOp>, origin: nat, gap: nat) {
    ops == [] ||
    var before, op := ops[..|ops| - 1], ops[|ops| - 1];
    && Polled(before, origin, gap)
    && (op.OpTickTo? ==> LastNow(before, origin) <= op.now <= LastNow(before, origin) + gap)
    && (Starts(op) ==> exists k :: 0 <= k < |before| && before[k].OpTickTo?)
  }

  function PoolTrace(ops: seq<ServerOp>, origin: nat): seq<Op> {
    if ops == [] then []
    else
      var before := ops[..|ops| - 1];
      PoolTrace(before, origin) + PoolOps(RunServer(before), ops[|ops| - 1], LastNow(before, origin))
  }

  lemma {:induction false} ClockOfServer(ops: seq<ServerOp>, origin: nat)
    requires exists k :: 0 <= k < |ops| && ops[k].OpTickTo?
    ensures RunServer(ops).now == LastNow(ops, origin) % WRAP
  {
    hide HandleRequest, NotifyUpTo, DecodeMsg, FindResource, AfterStart, EncodeMsg, AfterTick, AfterComplete,
         RemoveExpired, Resends, Firings;
    var n := |ops| - 1;
    var before, op := ops[..n], ops[n];
    if !op.OpTickTo? {
      var k :| 0 <= k < |ops| && ops[k].OpTickTo?;
      assert before[k].OpTickTo?;
      ClockOfServer(before, origin);
      if op.OpNotify? && CanNotify(RunServer(before), op.path) {
        var s := RunServer(before);
        var idx := FindResource(s.resources, op.path);
        NotifyKeepsDeferred(BumpSequence(s, idx), |s.observers|, idx, op.payload, op.format, op.confirmable);
      }
    }
  }

  /** The server's pool after a run is the pool run on the projected operations. */
  lemma {:induction false} PoolOfRun(ops: seq<ServerOp>, origin: nat, gap: nat)
    requires Polled(ops, origin, gap)
    ensures RunServer(ops).pool == Run(Wrapping, PoolTrace(ops, origin)).slots
  {
    hide ServerStep, PoolOps, Steps, Apply;
    if ops != [] {
      var n := |ops| - 1;
      var before := ops[..n];
      PoolOfRun(before, origin, gap);
      var now := LastNow(before, origin);
      if Starts(ops[n]) { ClockOfServer(before, origin); }
      PoolOfStep(RunServer(before), ops[n], now);
      RunSteps(PoolTrace(before, origin), PoolOps(RunServer(before), ops[n], now));
    }
  }

  // ------------------------------------------------------------------ timing of the projected run

  lemma {:induction false} NotifyOpsStart(s: ServerState, k: nat, idx: nat, payload: seq<byte>, format: u16,
                                          confirmable: bool, now: nat)
    requires k <= |s.observers| && idx < |s.resources|
    ensures StartsAt(NotifyOps(s, k, idx, payload, format, confirmable, now), now)
  {
    hide NotifyUpTo, EncodeMsg, Notification;
    if k > 0 { NotifyOpsStart(s, k - 1, idx, payload, format, confirmable, now); }
  }

  lemma PoolOpsStart(s: ServerState, op: ServerOp, now: nat)
    requires !op.OpTickTo?
    ensures StartsAt(PoolOps(s, op, now), now)
  {
    hide NotifyOps, EncodeMsg, DecodeMsg, FindResource, SeparateResponse;
    match op
    case OpNotify(path, payload, format, confirmable) =>
      if CanNotify(s, path) {
        var idx := FindResource(s.resources, path);
        NotifyOpsStart(BumpSequence(s, idx), |s.observers|, idx, payload, format, confirmable, now);
      }
    case _ =>
  }

  lemma {:induction false} TraceTimed(ops: seq<ServerOp>, origin: nat, gap: nat)
    requires Polled(ops, origin, gap)
    ensures var trace := PoolTrace(ops, origin);
            && WellTimed(trace, origin, gap)
            && LastTick(trace, origin) == LastNow(ops, origin) == Now(trace, origin)
  {
    hide PoolOps, RunServer, StartsAt;
    if ops != [] {
      var n := |ops| - 1;
      var before, op := ops[..n], ops[n];
      TraceTimed(before, origin, gap);
      var base, more := PoolTrace(before, origin), PoolOps(RunServer(before), op, LastNow(before, origin));
      if op.OpTickTo? {
        TickOps(RunServer(before), op, LastNow(before, origin));
        assert (base + more)[..|base + more| - 1] == base;
      } else {
        PoolOpsStart(RunServer(before), op, LastNow(before, origin));
        StartsTimed(base, more, LastNow(before, origin), origin, gap);
      }
    }
  }

  lemma TickOps(s: ServerState, op: ServerOp, now: nat)
    requires op.OpTickTo?
    ensures PoolOps(s, op, now) == [OpTick(op.now)]
  {
  }

  // ------------------------------------------------------------------ dead peers

  /** A transaction that times out in a tick is reported by that tick's callbacks. */
  lemma {:induction false} ExpiryFires(c: Clock, h: Hist, now: nat, k: nat, n: nat)
    requires |h.owner| == |h.slots| && k <= |h.slots|
    requires n in TickUpTo(c, h, now, k).expired && n !in h.expired
    ensures exists i :: 0 <= i < k && h.slots[i].Just? && h.owner[i] == n
                        && Expires(Firings(c, h.slots[..k], now), Key(h.slots[i].value.remote.Addr(), h.slots[i].value.token))
  {
    hide Firings, Expires, TickOne;
    var before := TickUpTo(c, h, now, k - 1);
    TickUpToSlots(c, h, now, k - 1);
    FiringsSnoc(c, h.slots, now, k - 1);
    var earlier, last := Firings(c, h.slots[..k - 1], now), Fired(c, h.slots[k - 1], now);
    if n in before.expired {
      ExpiryFires(c, h, now, k - 1, n);
      var i :| 0 <= i < k - 1 && h.slots[i].Just? && h.owner[i] == n
               && Expires(earlier, Key(h.slots[i].value.remote.Addr(), h.slots[i].value.token));
      ExpiresIn(earlier, last, Key(h.slots[i].value.remote.Addr(), h.slots[i].value.token));
    } else {
      assert before.slots[k - 1] == h.slots[k - 1];
      ExpiresHere(c, before, now, k - 1, n);
      ExpiresIn(earlier, last, Key(h.slots[k - 1].value.remote.Addr(), h.slots[k - 1].value.token));
    }
  }

  lemma ExpiresHere(c: Clock, h: Hist, now: nat, i: nat, n: nat)
    requires |h.owner| == |h.slots| && i < |h.slots| && n in TickOne(c, h, now, i).expired && n !in h.expired
    ensures h.slots[i].Just? && h.owner[i] == n
    ensures Expires(Fired(c, h.slots[i], now), Key(h.slots[i].value.remote.Addr(), h.slots[i].value.token))
  {
    hide Due;
    var last := Fired(c, h.slots[i], now);
    assert last[0].Expire?;
  }

  lemma ExpiresIn(a: seq<Firing>, b: seq<Firing>, key: Key)
    requires Expires(a, key) || Expires(b, key)
    ensures Expires(a + b, key)
  {
    if Expires(a, key) {
      var i :| 0 <= i < |a| && a[i].Expire? && Key(a[i].remote.Addr(), a[i].token) == key;
      assert (a + b)[i] == a[i];
    } else {
      var i :| 0 <= i < |b| && b[i].Expire? && Key(b[i].remote.Addr(), b[i].token) == key;
      assert (a + b)[|a| + i] == b[i];
    }
  }

  ghost predicate RemovedAt(ops: seq<ServerOp>, k: nat, key: Key) {
    k < |ops| && ops[k].OpTickTo? && !Observing(RunServer(ops[..k + 1]).observers, key)
  }

  /** The tick in which transaction `n` times out leaves no observer with its (remote, token). */
  lemma ExpiryRemoves(ops: seq<ServerOp>, origin: nat, gap: nat, n: nat)
    requires Polled(ops, origin, gap) && ops != []
    requires var before := ops[..|ops| - 1];
             && n in Run(Wrapping, PoolTrace(ops, origin)).expired
             && n !in Run(Wrapping, PoolTrace(before, origin)).expired
    ensures IsStart(PoolTrace(ops, origin), n)
    ensures var op := PoolTrace(ops, origin)[n];
            RemovedAt(ops, |ops| - 1, Key(op.remote.Addr(), op.token))
  {
    hide RunServer, PoolOps, Apply, TickUpTo, Firings, Observing, Expires, ObserversOk, TxnOk, DecodeMsg, RemoveExpired,
         CountResent, AfterTick, Resends;
    var last := |ops| - 1;
    var before, op := ops[..last], ops[last];
    var base, s := PoolTrace(before, origin), RunServer(before);
    var more := PoolOps(s, op, LastNow(before, origin));
    var h := Run(Wrapping, base);
    PoolOfRun(before, origin, gap);
    if !op.OpTickTo? {
      PoolOpsStart(s, op, LastNow(before, origin));
      NoTickNoExpiry(base, more, LastNow(before, origin));
      assert false;
    } else {
      TickOps(s, op, LastNow(before, origin));
      RunOneMore(base, OpTick(op.now));
      ApplyTick(h, op.now, |base|);
      ExpiryFires(Wrapping, h, op.now, |h.slots|, n);
      assert h.slots[..|h.slots|] == h.slots;
      var i :| 0 <= i < |h.slots| && h.slots[i].Just? && h.owner[i] == n
               && Expires(Firings(Wrapping, h.slots, op.now), Key(h.slots[i].value.remote.Addr(), h.slots[i].value.token));
      RunInv(Wrapping, base, origin, AnyPace);
      OwnerStarted(base, h, i, LastTick(base, origin), Now(base, origin));
      WrappedReading(s.pool, OpTick(op.now));
      ObserverTableAlways(before);
      RemoveExpiredOk(s.observers, s.resources, Firings(Wrapping, s.pool, op.now % WRAP));
      StepOfRun(ops);
      assert ops[..last + 1] == ops;
    }
  }

  lemma StepOfRun(ops: seq<ServerOp>)
    requires ops != [] && ops[|ops| - 1].OpTickTo?
    ensures var s := RunServer(ops[..|ops| - 1]);
            RunServer(ops).observers == RemoveExpired(s.observers, Firings(Wrapping, s.pool, ops[|ops| - 1].now % WRAP))
  {
    hide RemoveExpired, Firings, AfterTick, Resends;
  }

  lemma {:induction false} TracePrefix(ops: seq<ServerOp>, k: nat, origin: nat)
    requires k <= |ops|
    ensures PoolTrace(ops[..k], origin) <= PoolTrace(ops, origin)
    decreases |ops|
  {
    hide PoolOps, RunServer;
    if k == |ops| {
      assert ops[..k] == ops;
    } else {
      assert ops[..|ops| - 1][..k] == ops[..k];
      TracePrefix(ops[..|ops| - 1], k, origin);
    }
  }

  lemma {:induction false} PolledPrefix(ops: seq<ServerOp>, k: nat, origin: nat, gap: nat)
    requires Polled(ops, origin, gap) && k <= |ops|
    ensures Polled(ops[..k], origin, gap)
    decreases |ops|
  {
    if k == |ops| {
      assert ops[..k] == ops;
    } else {
      assert ops[..|ops| - 1][..k] == ops[..k];
      PolledPrefix(ops[..|ops| - 1], k, origin, gap);
    }
  }

  /** Every timed-out transaction was cleaned up after in the poll that timed it out. */
  lemma {:induction false} ExpiredWereRemoved(ops: seq<ServerOp>, origin: nat, gap: nat, n: nat) returns (k: nat)
    requires Polled(ops, origin, gap) && n in Run(Wrapping, PoolTrace(ops, origin)).expired
    ensures IsStart(PoolTrace(ops, origin), n)
    ensures var op := PoolTrace(ops, origin)[n]; RemovedAt(ops, k, Key(op.remote.Addr(), op.token))
    ensures n in Run(Wrapping, PoolTrace(ops[..k + 1], origin)).expired
    ensures n !in Run(Wrapping, PoolTrace(ops[..k], origin)).expired
    decreases |ops|
  {
    hide RunServer, PoolOps, Apply, Observing;
    var last := |ops| - 1;
    var before := ops[..last];
    TracePrefix(ops, last, origin);
    if n in Run(Wrapping, PoolTrace(before, origin)).expired {
      k := ExpiredWereRemoved(before, origin, gap, n);
      assert before[..k + 1] == ops[..k + 1] && before[..k] == ops[..k];
    } else {
      ExpiryRemoves(ops, origin, gap, n);
      k := last;
      assert ops[..k + 1] == ops;
    }
  }

  /** What becomes of transaction `n`: 31 t0 plus five poll gaps after its start it is acknowledged or timed out, and
      if it timed out, some poll within the backoff bound left no observer with its (remote, token). */
  ghost predicate Settles(ops: seq<ServerOp>, trace: seq<Op>, h: Hist, last: nat, gap: nat, n: nat) {
    && IsStart(trace, n)
    && (Overdue(trace[n], last, gap) ==> n in h.acked || n in h.expired)
    && (n in h.expired ==> exists k :: TimedOutAt(ops, k, trace[n], gap))
  }

  predicate Overdue(op: Op, last: nat, gap: nat)
    requires op.OpStart?
  {
    last >= op.now + 31 * InitialTimeout(op.mid) + 5 * gap
  }

  ghost predicate TimedOutAt(ops: seq<ServerOp>, k: nat, op: Op, gap: nat) {
    k < |ops| && op.OpStart? && RemovedAt(ops, k, Key(op.remote.Addr(), op.token)) && WaitedOk(op, ops[k].now, gap)
  }

  /** Dead-peer removal, for every transaction the server starts: a CON notification or a separate response. */
  lemma DeadPeerRemoval(ops: seq<ServerOp>, origin: nat, gap: nat, n: nat)
    requires Polled(ops, origin, gap) && gap < 0x8000_0000 && n in Run(Wrapping, PoolTrace(ops, origin)).started
    ensures Settles(ops, PoolTrace(ops, origin), Run(Wrapping, PoolTrace(ops, origin)), LastNow(ops, origin), gap, n)
  {
    hide RunServer, PoolOps, PoolTrace, Run, Observing, InitialTimeout, WaitedOk;
    var trace := PoolTrace(ops, origin);
    TraceTimed(ops, origin, gap);
    ClockRefinement(trace, origin, gap);
    TimeoutHappens(Wrapping, trace, origin, gap, n);
    if n in Run(Wrapping, trace).expired {
      var k := ExpiredWereRemoved(ops, origin, gap, n);
      ExpiryTime(ops, origin, gap, n, k);
      assert TimedOutAt(ops, k, trace[n], gap);
    }
  }

  lemma ExpiryTime(ops: seq<ServerOp>, origin: nat, gap: nat, n: nat, k: nat)
    requires Polled(ops, origin, gap) && gap < 0x8000_0000 && k < |ops| && ops[k].OpTickTo?
    requires n in Run(Wrapping, PoolTrace(ops[..k + 1], origin)).expired
    requires n !in Run(Wrapping, PoolTrace(ops[..k], origin)).expired
    ensures IsStart(PoolTrace(ops, origin), n) && WaitedOk(PoolTrace(ops, origin)[n], ops[k].now, gap)
  {
    hide RunServer, PoolOps, Run, Apply, TickUpTo, WaitedOk, Inv;
    var upto := ops[..k + 1];
    assert upto[..k] == ops[..k] && |upto| - 1 == k;
    PolledPrefix(ops, k + 1, origin, gap);
    PolledPrefix(ops, k, origin, gap);
    TracePrefix(ops, k + 1, origin);
    TraceTimed(upto, origin, gap);
    TraceTimed(ops[..k], origin, gap);
    var base := PoolTrace(ops[..k], origin);
    TickOps(RunServer(ops[..k]), ops[k], LastNow(ops[..k], origin));
    assert PoolTrace(upto, origin) == base + [OpTick(ops[k].now)];
    ClockRefinement(base, origin, gap);
    ClockRefinement(base + [OpTick(ops[k].now)], origin, gap);
    assert (base + [OpTick(ops[k].now)])[..|base|] == base;
    var h := Run(Unbounded, base);
    RunUnbounded(base, ops[k].now);
    TickExpiryLogged(Unbounded, h, ops[k].now, |h.slots|, n);
    var t := TickUpTo(Unbounded, h, ops[k].now, |h.slots|);
    var j :| 0 <= j < |t.log| && t.log[j].Expired? && t.log[j].serial == n && t.log[j].at == ops[k].now;
    TimeoutBound(Unbounded, base + [OpTick(ops[k].now)], origin, gap, j);
  }

  lemma RunUnbounded(base: seq<Op>, now: nat)
    ensures var h := Run(Unbounded, base);
            Run(Unbounded, base + [OpTick(now)]) == TickUpTo(Unbounded, h, now, |h.slots|)
  {
    assert (base + [OpTick(now)])[..|base|] == base;
  }

  // ------------------------------------------------------------------ what a confirmable notify tracks

  /** Each transaction a `notify` starts belongs to an observer of the resource that was active when `notify` was
      called. */
  lemma {:induction false} NotifyTracksObservers(s: ServerState, k: nat, idx: nat, payload: seq<byte>, format: u16,
                                                 now: nat, j: nat)
    requires k <= |s.observers| && idx < |s.resources| && j < |NotifyOps(s, k, idx, payload, format, true, now)|
    ensures var op := NotifyOps(s, k, idx, payload, format, true, now)[j];
            op.OpStart? && exists i :: 0 <= i < k && s.observers[i].Just? && s.observers[i].value.resource == idx
                                       && s.observers[i].value.remote == op.remote
                                       && s.observers[i].value.token == op.token
  {
    hide EncodeMsg, Notification, NotifyUpTo;
    var earlier := NotifyOps(s, k - 1, idx, payload, format, true, now);
    if j < |earlier| {
      NotifyTracksObservers(s, k - 1, idx, payload, format, now, j);
    } else {
      NotifyLeavesLater(s, k - 1, idx, payload, format, true);
    }
  }

  lemma {:induction false} NotifyLeavesLater(s: ServerState, k: nat, idx: nat, payload: seq<byte>, format: u16,
                                             confirmable: bool)
    requires k <= |s.observers| && idx < |s.resources|
    ensures var t := NotifyUpTo(s, k, idx, payload, format, confirmable).state;
            t.observers[k..] == s.observers[k..]
  {
    hide EncodeMsg, Notification, AfterStart, Transmit;
    if k > 0 {
      NotifyLeavesLater(s, k - 1, idx, payload, format, confirmable);
      var t := NotifyUpTo(s, k - 1, idx, payload, format, confirmable).state;
      assert t.observers[k..] == t.observers[k - 1..][1..] && s.observers[k..] == s.observers[k - 1..][1..];
    }
  }

  // ------------------------------------------------------------------ what the server sends again

  lemma {:induction false} ResendsLogged(fired: seq<Firing>, log: seq<Entry>, now: nat)
    requires |log| == |fired| && forall i :: 0 <= i < |fired| ==> Reports(fired[i], log[i], now)
    ensures Resends(fired) == SentAgain(log)
  {
    if fired != [] {
      var n := |fired| - 1;
      ResendsLogged(fired[..n], log[..n], now);
      assert Reports(fired[n], log[n], now);
    }
  }

  /** The datagrams a poll retransmits are exactly, and in order, the resends its pool history logs at that tick. */
  lemma ServerRetransmits(ops: seq<ServerOp>, origin: nat, gap: nat)
    requires Polled(ops, origin, gap) && ops != [] && ops[|ops| - 1].OpTickTo?
    ensures var before, op := ops[..|ops| - 1], ops[|ops| - 1];
            var h, r := Run(Wrapping, PoolTrace(before, origin)), Run(Wrapping, PoolTrace(ops, origin));
            && h.log <= r.log
            && ServerStep(RunServer(before), op).sent == SentAgain(r.log[|h.log|..])
            && forall i :: |h.log| <= i < |r.log| ==> r.log[i].at == op.now
  {
    hide RunServer, PoolOps, Apply, TickUpTo, Firings, Resends, SentAgain, RemoveExpired, AfterTick;
    var before, op := ops[..|ops| - 1], ops[|ops| - 1];
    var base, s := PoolTrace(before, origin), RunServer(before);
    var h := Run(Wrapping, base);
    PoolOfRun(before, origin, gap);
    TickOps(s, op, LastNow(before, origin));
    RunOneMore(base, OpTick(op.now));
    ApplyTick(h, op.now, |base|);
    TickReports(Wrapping, h, op.now, |h.slots|);
    assert h.slots[..|h.slots|] == h.slots;
    WrappedReading(s.pool, OpTick(op.now));
    var r := TickUpTo(Wrapping, h, op.now, |h.slots|);
    ResendsLogged(Firings(Wrapping, s.pool, op.now), r.log[|h.log|..], op.now);
    assert ServerStep(s, op).sent == Resends(Firings(Wrapping, s.pool, op.now % WRAP));
  }

  /** An acknowledgement ends one active transaction that was started for its remote with its message ID, if there is
      one, and otherwise leaves the pool as it was. */
  lemma ServerAcknowledged(ops: seq<ServerOp>, origin: nat, gap: nat, m: Msg)
    requires Polled(ops, origin, gap) && ops != [] && ops[|ops| - 1].OpReceive?
    requires DecodeMsg(Received(ops[|ops| - 1].bytes)) == Decoded(m) && m.typ.ACK?
    ensures var before, op := ops[..|ops| - 1], ops[|ops| - 1];
            var trace := PoolTrace(ops, origin);
            var h, r := Run(Wrapping, PoolTrace(before, origin)), Run(Wrapping, trace);
            if exists n :: Awaits(trace, h, n, op.from.Addr(), m.mid)
            then exists n :: Awaits(trace, h, n, op.from.Addr(), m.mid) && EndsOnly(h, r, n)
            else r == h
  {
    hide RunServer, Apply, Run, Active, DecodeMsg, Received, PoolTrace;
    var before, op := ops[..|ops| - 1], ops[|ops| - 1];
    var base, end := PoolTrace(before, origin), OpComplete(op.from.Addr(), m.mid);
    AckTrace(ops, origin, m);
    assert (base + [end])[..|base|] == base;
    AckEnds(Wrapping, base + [end]);
    var h := Run(Wrapping, base);
    forall n ensures Awaits(base + [end], h, n, op.from.Addr(), m.mid) <==> Endable(base + [end], h, end, n) {}
  }

  /** Transaction `n` is active and was started for this remote with this message ID. */
  predicate Awaits(trace: seq<Op>, h: Hist, n: nat, addr: Address, mid: u16)
    requires |h.owner| == |h.slots|
  {
    n in Active(h) && IsStart(trace, n) && trace[n].remote.Addr() == addr && trace[n].mid == mid
  }

  lemma AckTrace(ops: seq<ServerOp>, origin: nat, m: Msg)
    requires ops != [] && ops[|ops| - 1].OpReceive?
    requires DecodeMsg(Received(ops[|ops| - 1].bytes)) == Decoded(m) && m.typ.ACK?
    ensures PoolTrace(ops, origin) ==
            PoolTrace(ops[..|ops| - 1], origin) + [OpComplete(ops[|ops| - 1].from.Addr(), m.mid)]
  {
    hide RunServer, DecodeMsg, Received;
  }
}
