/** The client's pool inside whole client runs: what it retransmits, and that an unanswered confirmable request is
    reported as timed out. */
module ClientPool {
  import opened Types
  import opened Config
  import opened Codec
  import opened OptionValues
  import opened Reliability
  import opened PoolRuns
  import opened PoolCauses
  import opened Paths
  import opened ClientSpec
  import opened ClientProps
  import opened ClientRequests
  import opened ClientOutcomes

  // ------------------------------------------------------------------ the pool operations a client step performs

  /** Every confirmable datagram the client sends is handed to the pool. */
  function StartsOf(sent: seq<Datagram>, at: nat): seq<Op> {
    if sent == [] then []
    else
      var d := sent[|sent| - 1];
      var m := DecodeMsg(d.bytes);
      StartsOf(sent[..|sent| - 1], at) +
        if m.Decoded? && m.msg.typ.CON? then [OpStart(d.remote, m.msg.mid, m.msg.token, d.bytes, at)] else []
  }

  function Incoming(op: ClientOp): DecodeResult
    requires op.OpPoll?
  {
    if op.incoming.Just? then DecodeMsg(Received(op.incoming.value.bytes)) else Rejected(TooShort)
  }

  predicate TakesReset(op: ClientOp) {
    op.OpPoll? && Incoming(op).Decoded? && Incoming(op).msg.typ.RST?
  }

  /** The acknowledgement a poll takes, and what it sends in answer, before its tick. */
  function ArrivalOps(s: ClientState, op: ClientOp, at: nat): seq<Op>
    requires Sized(s) && op.OpPoll? && !TakesReset(op)
  {
    if Incoming(op).Rejected? then []
    else
      var m, from := Incoming(op).msg, op.incoming.value.remote;
      (if m.typ.ACK? then [OpComplete(from.Addr(), m.mid)] else [])
      + StartsOf(HandleMsg(s.(now := op.now), from, m, op.link).sent, at)
  }

  /** `at` is the time of the poll, or of the last one before any other operation, on the unbounded clock. */
  function PoolOps(s: ClientState, op: ClientOp, at: nat): seq<Op>
    requires Sized(s)
  {
    if !op.OpPoll? then StartsOf(ClientStep(s, op).sent, at)
    else if TakesReset(op) then [OpComplete(op.incoming.value.remote.Addr(), Incoming(op).msg.mid)]
    else ArrivalOps(s, op, at) + [OpTick(at)]
  }

  lemma OneStart(d: Datagram, m: Msg, at: nat)
    requires ValidMsg(m) && d.bytes == EncodeMsg(m)
    ensures StartsOf([d], at) == if m.typ.CON? then [OpStart(d.remote, m.mid, m.token, d.bytes, at)] else []
  {
    hide DecodeMsg, EncodeMsg;
    DecodeEncode(m);
    assert [d][..0] == [];
    assert StartsOf([], at) == [];
  }

  lemma NoStart(at: nat)
    ensures StartsOf([], at) == []
  {
  }

  lemma {:induction false} StartsConcat(a: seq<Datagram>, b: seq<Datagram>, at: nat)
    ensures StartsOf(a + b, at) == StartsOf(a, at) + StartsOf(b, at)
    decreases |b|
  {
    hide DecodeMsg;
    if b == [] {
      assert a + b == a;
    } else {
      assert (a + b)[..|a + b| - 1] == a + b[..|b| - 1];
      StartsConcat(a, b[..|b| - 1], at);
    }
  }

  /** The pool after tracking a message just sent. */
  lemma TrackIsStart(s: ClientState, remote: Endpoint, m: Msg, at: nat)
    requires ValidMsg(m) && s.now == at % WRAP
    ensures var bytes := EncodeMsg(m);
            Steps(s.pool, [OpStart(remote, m.mid, m.token, bytes, at)])
            == AfterStart(Wrapping, s.pool, remote, m.mid, m.token, bytes, s.now)
  {
    hide AfterStart, EncodeMsg;
    var op := OpStart(remote, m.mid, m.token, EncodeMsg(m), at);
    NoSteps(s.pool);
    StepsSnoc(s.pool, [], [op]);
    assert [] + [op] == [op];
    WrappedReading(s.pool, op);
  }

  /** The step sent at most one datagram, and its pool is the old one after the starts. */
  predicate Pooled(s: ClientState, r: Result, at: nat)
    requires Sized(s)
  {
    r.state.pool == Steps(s.pool, StartsOf(r.sent, at))
  }

  lemma SilentPooled(s: ClientState, r: Result, at: nat)
    requires Sized(s) && r.sent == [] && r.state.pool == s.pool
    ensures Pooled(s, r, at)
  {
    NoStart(at);
    NoSteps(s.pool);
  }

  lemma RequestPooled(s: ClientState, server: Endpoint, path: seq<byte>, verb: byte, payload: seq<byte>, format: u16,
                      confirmable: bool, observe: Maybe<u32>, observing: bool, link: bool, at: nat)
    requires Sized(s) && s.now == at % WRAP
    ensures Pooled(s, SendRequest(s, server, path, verb, payload, format, confirmable, observe, observing, link), at)
  {
    hide EncodeMsg, AfterStart, RequestOptions, StartsOf, Steps;
    var r := SendRequest(s, server, path, verb, payload, format, confirmable, observe, observing, link);
    if r.ok {
      var m := Msg(if confirmable then CON else NON, verb, s.nextMid, TokenOf(s.issued),
                   RequestOptions(path, payload, format, observe).value, payload);
      OneStart(Datagram(server, EncodeMsg(m)), m, at);
      NoSteps(s.pool);
      TrackIsStart(s, server, m, at);
    } else {
      SilentPooled(s, r, at);
    }
  }

  lemma Block1Pooled(s: ClientState, slot: nat, serial: nat, link: bool, at: nat)
    requires Sized(s) && s.now == at % WRAP && slot < |s.uploads| && s.uploads[slot].Just?
    ensures Pooled(s, SendBlock1(s, slot, serial, link), at)
  {
    hide EncodeMsg, AfterStart, BlockOptions, StartsOf, Steps, BlockOffset, BlockPayload;
    var r := SendBlock1(s, slot, serial, link);
    if r.ok {
      var up := s.uploads[slot].value;
      var m := BlockRequest(up, s.nextMid).value;
      OneStart(Datagram(up.server, EncodeMsg(m)), m, at);
      TrackIsStart(s, up.server, m, at);
    } else {
      SilentPooled(s, r, at);
    }
  }

  lemma Block2Pooled(s: ClientState, slot: nat, link: bool, at: nat)
    requires Sized(s) && s.now == at % WRAP && slot < |s.pending| && s.pending[slot].Just?
    ensures Pooled(s, SendBlock2(s, slot, link), at)
  {
    hide EncodeMsg, AfterStart, Block2Options, StartsOf, Steps;
    var r := SendBlock2(s, slot, link);
    if r.ok {
      var p, recv := s.pending[slot].value, s.recvs[slot];
      var m := Msg(CON, GET, s.nextMid, p.token, Block2Options(recv.path, recv.nextNum, recv.szx).value, []);
      OneStart(Datagram(recv.server, EncodeMsg(m)), m, at);
      TrackIsStart(s, recv.server, m, at);
    } else {
      SilentPooled(s, r, at);
    }
  }

  lemma UploadPooled(s: ClientState, server: Endpoint, path: seq<byte>, verb: byte, payload: seq<byte>, format: u16,
                     link: bool, at: nat)
    requires Sized(s) && s.now == at % WRAP
    ensures Pooled(s, BeginUpload(s, server, path, verb, payload, format, link), at)
  {
    hide SendBlock1, StartsOf, Steps, TokenByte;
    var r, i := BeginUpload(s, server, path, verb, payload, format, link), First(s.pending, IsFree<Pending>());
    if i >= 0 && |path| < MAX_URI_PATH_LEN {
      var n := s.issued;
      var s2 := s.(issued := n + 1, pending := s.pending[i := Just(Pending(n, server, TokenOf(n), false, path))],
                   uploads := s.uploads[i := Just(Upload(payload, 0, BLOCK_SZX, format, verb, server, path, TokenByte(n)))],
                   recvs := s.recvs[i := s.recvs[i].(active := false)]);
      Block1Pooled(s2, i, n, link, at);
    } else {
      SilentPooled(s, r, at);
    }
  }

  lemma DiscoverPooled(s: ClientState, to: Endpoint, link: bool, at: nat)
    requires Sized(s)
    ensures Pooled(s, Discover(s, to, link), at)
  {
    hide EncodeMsg, AddPath, StartsOf;
    var r := Discover(s, to, link);
    if r.ok {
      var m := Msg(NON, GET, s.nextMid, TokenOf(s.issued), AddPath([], WELL_KNOWN).value, []);
      OneStart(Datagram(to, EncodeMsg(m)), m, at);
      NoSteps(s.pool);
    } else {
      SilentPooled(s, r, at);
    }
  }

  lemma SendPooled(s: ClientState, op: ClientOp, at: nat)
    requires Sized(s) && s.now == at % WRAP && !op.OpPoll?
    ensures Pooled(s, ClientStep(s, op), at)
  {
    hide SendRequest, BeginUpload, Discover, StartsOf, Steps, BlockSize;
    match op
    case OpIssue(server, path, verb, payload, format, confirmable, observe, link) =>
      UploadPooled(s, server, path, verb, payload, format, link, at);
      RequestPooled(s, server, path, verb, payload, format, confirmable, if observe then Just(0) else Nothing, observe,
                    link, at);
    case OpCancel(server, path, link) =>
      var i := First(s.pending, ObservesPath(server.Addr(), path));
      if i >= 0 {
        RequestPooled(s.(pending := s.pending[i := Nothing]), server, path, GET, [], 0, true, Just(1), false, link, at);
      } else {
        SilentPooled(s, ClientStep(s, op), at);
      }
    case OpDiscover(to, link) => DiscoverPooled(s, to, link, at);
  }

  lemma ResponsePooled(s: ClientState, slot: nat, from: Endpoint, m: Msg, link: bool, at: nat)
    requires Sized(s) && s.now == at % WRAP && slot < |s.pending| && s.pending[slot].Just?
    ensures Pooled(s, HandleResponse(s, slot, from, m, link), at)
  {
    hide SendBlock1, SendBlock2, StartsOf, Steps, Accumulate, Block2Of, FormatOf;
    var r := HandleResponse(s, slot, from, m, link);
    if m.code == CONTINUE && s.uploads[slot].Just? {
      var up := s.uploads[slot].value;
      var s1 := s.(uploads := s.uploads[slot := Just(up.(nextNum := (up.nextNum + 1) % WRAP))]);
      Block1Pooled(s1, slot, s.pending[slot].value.serial, link, at);
    } else if Block2Of(m).Just? && Block2Of(m).value.more {
      var recv := Accumulate(s.recvs[slot], from, m, Block2Of(m).value);
      Block2Pooled(s.(uploads := s.uploads[slot := Nothing], recvs := s.recvs[slot := recv]), slot, link, at);
    } else {
      SilentPooled(s, r, at);
    }
  }

  lemma MsgPooled(s: ClientState, from: Endpoint, m: Msg, link: bool, at: nat)
    requires Sized(s) && s.now == at % WRAP
    ensures var r := HandleMsg(s, from, m, link);
            r.state.pool == Steps(if m.typ.ACK? then AfterComplete(s.pool, from.Addr(), m.mid) else s.pool,
                                  StartsOf(r.sent, at))
  {
    hide HandleResponse, StartsOf, Steps, AfterComplete, AckOf;
    var s1 := if m.typ.ACK? then s.(pool := AfterComplete(s.pool, from.Addr(), m.mid)) else s;
    var r := HandleMsg(s, from, m, link);
    if m.code == EMPTY || IsMethodCode(m.code) {
      SilentPooled(s1, r, at);
    } else {
      var d := Deliver(s1, from, m, link);
      var slot := First(s1.pending, HasToken(m.token));
      if slot >= 0 && First(s1.discovers, HasDiscoverToken(m.token)) < 0 {
        ResponsePooled(s1, slot, from, m, link, at);
      } else {
        SilentPooled(s1, d, at);
      }
      StartsConcat(AckOf(m, from), d.sent, at);
      AckStartsNothing(m, from, at);
      assert [] + StartsOf(d.sent, at) == StartsOf(d.sent, at);
    }
  }

  lemma AckStartsNothing(m: Msg, from: Endpoint, at: nat)
    ensures StartsOf(AckOf(m, from), at) == []
  {
    hide EncodeMsg, StartsOf;
    var ack := Msg(ACK, EMPTY, m.mid, [], [], []);
    NoStart(at);
    OneStart(Datagram(from, EncodeMsg(ack)), ack, at);
  }

  lemma {:induction false} StepsConcat(p: Slots, a: seq<Op>, b: seq<Op>)
    ensures Steps(p, a + b) == Steps(Steps(p, a), b)
    decreases |b|
  {
    hide Step;
    if b == [] {
      assert a + b == a;
    } else {
      assert (a + b)[..|a + b| - 1] == a + b[..|b| - 1];
      StepsConcat(p, a, b[..|b| - 1]);
    }
  }

  lemma OneStep(p: Slots, op: Op)
    ensures Steps(p, [op]) == Step(Wrapping, p, op)
  {
    hide Step;
    NoSteps(p);
    StepsSnoc(p, [], [op]);
    assert [] + [op] == [op];
  }

  lemma TickPool(s: ClientState, now: u32)
    requires Sized(s)
    ensures TickClient(ExpireDiscovers(s, now), now).state.pool == AfterTick(Wrapping, s.pool, now)
  {
    hide Firings, HandleFirings, AfterTick;
  }

  lemma PollPooled(s: ClientState, op: ClientOp, at: nat)
    requires Sized(s) && op.OpPoll? && op.now == at % WRAP
    ensures ClientStep(s, op).state.pool == Steps(s.pool, PoolOps(s, op, at))
  {
    hide HandleMsg, Step, Steps, StartsOf, AfterTick, TickClient, ExpireDiscovers, DecodeMsg, Received;
    var s0 := s.(now := op.now);
    if TakesReset(op) {
      ResetPool(s0, op.incoming.value.remote, Incoming(op).msg.mid);
      OneStep(s.pool, OpComplete(op.incoming.value.remote.Addr(), Incoming(op).msg.mid));
    } else {
      var r := if Incoming(op).Decoded? then HandleMsg(s0, op.incoming.value.remote, Incoming(op).msg, op.link)
               else Result(s0, [], [], true);
      ArrivalPool(s, op, at);
      TickPool(r.state, op.now);
      StepsConcat(s.pool, ArrivalOps(s, op, at), [OpTick(at)]);
      OneStep(r.state.pool, OpTick(at));
      WrappedReading(r.state.pool, OpTick(at));
      TickIsStep(r.state.pool, op.now);
    }
  }

  lemma TickIsStep(p: Slots, now: nat)
    ensures Step(Wrapping, p, OpTick(now)) == AfterTick(Wrapping, p, now)
  {
  }

  lemma ResetPool(s: ClientState, from: Endpoint, mid: u16)
    requires Sized(s)
    ensures HandleReset(s, from, mid).state.pool == Step(Wrapping, s.pool, OpComplete(from.Addr(), mid))
  {
  }

  lemma ArrivalPool(s: ClientState, op: ClientOp, at: nat)
    requires Sized(s) && op.OpPoll? && op.now == at % WRAP && !TakesReset(op)
    ensures var s0 := s.(now := op.now);
            var r := if Incoming(op).Decoded? then HandleMsg(s0, op.incoming.value.remote, Incoming(op).msg, op.link)
                     else Result(s0, [], [], true);
            r.state.pool == Steps(s.pool, ArrivalOps(s, op, at))
  {
    hide HandleMsg, Steps, StartsOf, DecodeMsg, Received, AfterComplete;
    var s0 := s.(now := op.now);
    NoSteps(s.pool);
    if Incoming(op).Decoded? {
      var m, from := Incoming(op).msg, op.incoming.value.remote;
      var starts := StartsOf(HandleMsg(s0, from, m, op.link).sent, at);
      MsgPooled(s0, from, m, op.link, at);
      if m.typ.ACK? {
        OneStep(s.pool, OpComplete(from.Addr(), m.mid));
        StepsConcat(s.pool, [OpComplete(from.Addr(), m.mid)], starts);
      } else {
        assert [] + starts == starts;
      }
    }
  }

  // ------------------------------------------------------------------ over a run

  /** The time of the last poll; `times` gives the unbounded time of each. */
  function LastPoll(ops: seq<ClientOp>, times: seq<nat>, origin: nat): nat
    requires |times| == |ops|
  {
    if ops == [] then origin
    else if ops[|ops| - 1].OpPoll? then times[|ops| - 1]
    else LastPoll(ops[..|ops| - 1], times[..|ops| - 1], origin)
  }

  /** The time of the last poll that ticked: one that takes a Reset does not. */
  function LastTicked(ops: seq<ClientOp>, times: seq<nat>, origin: nat): nat
    requires |times| == |ops|
  {
    if ops == [] then origin
    else if ops[|ops| - 1].OpPoll? && !TakesReset(ops[|ops| - 1]) then times[|ops| - 1]
    else LastTicked(ops[..|ops| - 1], times[..|ops| - 1], origin)
  }

  /** The client is polled before its first request and again at most `gap` after the last poll that ticked. */
  predicate Polled(ops: seq<ClientOp>, times: seq<nat>, origin: nat, gap: nat)
    requires |times| == |ops|
  {
    ops == [] ||
    var n := |ops| - 1;
    && Polled(ops[..n], times[..n], origin, gap)
    && if ops[n].OpPoll? then
         && ops[n].now == times[n] % WRAP
         && LastPoll(ops[..n], times[..n], origin) <= times[n] <= LastTicked(ops[..n], times[..n], origin) + gap
       else exists k :: 0 <= k < n && ops[k].OpPoll?
  }

  function PoolTrace(ops: seq<ClientOp>, times: seq<nat>, origin: nat): seq<Op>
    requires |times| == |ops|
  {
    if ops == [] then []
    else
      var n := |ops| - 1;
      PoolTrace(ops[..n], times[..n], origin) + PoolOps(RunClient(ops[..n]).state, ops[n], LastPoll(ops, times, origin))
  }

  lemma {:induction false} ClockOfClient(ops: seq<ClientOp>, times: seq<nat>, origin: nat, gap: nat)
    requires |times| == |ops| && Polled(ops, times, origin, gap) && exists k :: 0 <= k < |ops| && ops[k].OpPoll?
    ensures RunClient(ops).state.now == LastPoll(ops, times, origin) % WRAP
  {
    hide ClientStep;
    var n := |ops| - 1;
    var s := RunClient(ops[..n]).state;
    StepClock(s, ops[n]);
    if !ops[n].OpPoll? {
      var k :| 0 <= k < |ops| && ops[k].OpPoll?;
      assert ops[..n][k].OpPoll?;
      ClockOfClient(ops[..n], times[..n], origin, gap);
    }
  }

  lemma StepClock(s: ClientState, op: ClientOp)
    requires Sized(s)
    ensures ClientStep(s, op).state.now == if op.OpPoll? then op.now else s.now
  {
    hide EncodeMsg, Accumulate, Block2Of, BlockRequest, Block2Options, RequestOptions, AfterStart, AckOf, AfterComplete,
         FormatOf, First, BlockOffset, DecodeMsg, Received, Firings, AfterTick, HandleFirings, ExpireDiscovers, AddPath,
         TokenByte, BlockSize, HandleMsg;
    if op.OpPoll? && Incoming(op).Decoded? {
      MsgClock(s.(now := op.now), op.incoming.value.remote, Incoming(op).msg, op.link);
    }
  }

  lemma MsgClock(s: ClientState, from: Endpoint, m: Msg, link: bool)
    requires Sized(s)
    ensures HandleMsg(s, from, m, link).state.now == s.now
  {
    hide EncodeMsg, Accumulate, Block2Of, BlockRequest, Block2Options, AfterStart, AckOf, AfterComplete, FormatOf,
         First, BlockOffset;
  }

  /** The client's pool after a run is the pool run on the projected operations. */
  lemma {:induction false} PoolOfRun(ops: seq<ClientOp>, times: seq<nat>, origin: nat, gap: nat)
    requires |times| == |ops| && Polled(ops, times, origin, gap)
    ensures RunClient(ops).state.pool == Run(Wrapping, PoolTrace(ops, times, origin)).slots
  {
    hide ClientStep, PoolOps, Steps, Apply;
    if ops != [] {
      var n := |ops| - 1;
      PoolOfRun(ops[..n], times[..n], origin, gap);
      var s, at := RunClient(ops[..n]).state, LastPoll(ops, times, origin);
      if ops[n].OpPoll? {
        PollPooled(s, ops[n], at);
      } else {
        ClockOfClient(ops[..n], times[..n], origin, gap);
        SendPooled(s, ops[n], at);
        SendOps(s, ops[n], at);
      }
      RunSteps(PoolTrace(ops[..n], times[..n], origin), PoolOps(s, ops[n], at));
    }
  }

  lemma SendOps(s: ClientState, op: ClientOp, at: nat)
    requires Sized(s) && !op.OpPoll?
    ensures PoolOps(s, op, at) == StartsOf(ClientStep(s, op).sent, at)
  {
    hide ClientStep, StartsOf;
  }

  // ------------------------------------------------------------------ timing

  lemma {:induction false} StartsOfAt(sent: seq<Datagram>, at: nat)
    ensures StartsAt(StartsOf(sent, at), at)
  {
    hide DecodeMsg;
    if sent != [] { StartsOfAt(sent[..|sent| - 1], at); }
  }

  lemma PoolOpsAt(s: ClientState, op: ClientOp, at: nat)
    requires Sized(s)
    ensures if op.OpPoll? && !TakesReset(op) then StartsAt(ArrivalOps(s, op, at), at)
            else StartsAt(PoolOps(s, op, at), at)
  {
    hide ClientStep, HandleMsg, StartsOf, DecodeMsg, Received;
    if !op.OpPoll? {
      StartsOfAt(ClientStep(s, op).sent, at);
    } else if !TakesReset(op) && Incoming(op).Decoded? {
      StartsOfAt(HandleMsg(s.(now := op.now), op.incoming.value.remote, Incoming(op).msg, op.link).sent, at);
    }
  }

  lemma {:induction false} TraceTimed(ops: seq<ClientOp>, times: seq<nat>, origin: nat, gap: nat)
    requires |times| == |ops| && Polled(ops, times, origin, gap)
    ensures var trace := PoolTrace(ops, times, origin);
            && WellTimed(trace, origin, gap) && LastTick(trace, origin) == LastTicked(ops, times, origin)
            && Now(trace, origin) <= LastPoll(ops, times, origin) <= LastTicked(ops, times, origin) + gap
  {
    hide PoolOps, RunClient, StartsAt, ArrivalOps, TakesReset;
    if ops != [] {
      var n := |ops| - 1;
      TraceTimed(ops[..n], times[..n], origin, gap);
      var s, at := RunClient(ops[..n]).state, LastPoll(ops, times, origin);
      var base := PoolTrace(ops[..n], times[..n], origin);
      PoolOpsAt(s, ops[n], at);
      if ops[n].OpPoll? && !TakesReset(ops[n]) {
        var arrival := ArrivalOps(s, ops[n], at);
        TickLast(s, ops[n], at);
        StartsTimed(base, arrival, at, origin, gap);
        assert base + (arrival + [OpTick(at)]) == (base + arrival) + [OpTick(at)];
        assert ((base + arrival) + [OpTick(at)])[..|base + arrival|] == base + arrival;
      } else {
        StartsTimed(base, PoolOps(s, ops[n], at), at, origin, gap);
      }
    }
  }

  lemma TickLast(s: ClientState, op: ClientOp, at: nat)
    requires Sized(s) && op.OpPoll? && !TakesReset(op)
    ensures PoolOps(s, op, at) == ArrivalOps(s, op, at) + [OpTick(at)]
  {
    hide ArrivalOps, TakesReset;
  }

  // ------------------------------------------------------------------ what a poll sends again

  lemma {:induction false} FiringsSend(s: ClientState, fired: seq<Firing>, log: seq<Entry>, now: nat)
    requires Sized(s) && |log| == |fired| && forall i :: 0 <= i < |fired| ==> Reports(fired[i], log[i], now)
    ensures HandleFirings(s, fired).sent == SentAgain(log)
  {
    hide HandleTimeout;
    if fired != [] {
      var n := |fired| - 1;
      FiringsSend(s, fired[..n], log[..n], now);
      assert Reports(fired[n], log[n], now);
    }
  }

  /** What a poll takes in and sends in answer, before its tick. */
  function Arrival(s: ClientState, op: ClientOp): (r: Result)
    requires Sized(s) && op.OpPoll?
    ensures Sized(r.state)
  {
    if Incoming(op).Decoded? then HandleMsg(s.(now := op.now), op.incoming.value.remote, Incoming(op).msg, op.link)
    else Result(s.(now := op.now), [], [], true)
  }

  /** The history just before the tick of the last poll. */
  function BeforeTick(ops: seq<ClientOp>, times: seq<nat>, origin: nat): seq<Op>
    requires |times| == |ops| > 0 && ops[|ops| - 1].OpPoll? && !TakesReset(ops[|ops| - 1])
  {
    var n := |ops| - 1;
    PoolTrace(ops[..n], times[..n], origin) + ArrivalOps(RunClient(ops[..n]).state, ops[n], times[n])
  }

  /** One tick takes the history from `pre` to `trace`, and the client's callbacks report what it logs. */
  predicate Ticked(pre: seq<Op>, trace: seq<Op>, at: nat, now: u32, pool: Slots) {
    var h, r := Run(Wrapping, pre), Run(Wrapping, trace);
    var fired := Firings(Wrapping, pool, now);
    && trace == pre + [OpTick(at)] && r == TickUpTo(Wrapping, h, at, |h.slots|) && pool == h.slots
    && h.log <= r.log && |fired| == |r.log| - |h.log|
    && forall i :: 0 <= i < |fired| ==> Reports(fired[i], r.log[|h.log| + i], at)
  }

  lemma TraceBeforeTick(ops: seq<ClientOp>, times: seq<nat>, origin: nat)
    requires |times| == |ops| > 0 && ops[|ops| - 1].OpPoll? && !TakesReset(ops[|ops| - 1])
    ensures PoolTrace(ops, times, origin) == BeforeTick(ops, times, origin) + [OpTick(times[|ops| - 1])]
  {
    hide RunClient, ArrivalOps, TakesReset;
    var n := |ops| - 1;
    var s, at, base := RunClient(ops[..n]).state, times[n], PoolTrace(ops[..n], times[..n], origin);
    TickLast(s, ops[n], at);
    assert base + (ArrivalOps(s, ops[n], at) + [OpTick(at)]) == (base + ArrivalOps(s, ops[n], at)) + [OpTick(at)];
  }

  lemma PoolBeforeTick(ops: seq<ClientOp>, times: seq<nat>, origin: nat, gap: nat)
    requires |times| == |ops| > 0 && Polled(ops, times, origin, gap)
    requires ops[|ops| - 1].OpPoll? && !TakesReset(ops[|ops| - 1])
    ensures Arrival(RunClient(ops[..|ops| - 1]).state, ops[|ops| - 1]).state.pool
              == Run(Wrapping, BeforeTick(ops, times, origin)).slots
    ensures ops[|ops| - 1].now == times[|ops| - 1] % WRAP
  {
    hide RunClient, ArrivalOps, TakesReset, Steps, Arrival, Run, PoolTrace, LastPoll, LastTicked;
    var n := |ops| - 1;
    var s, at := RunClient(ops[..n]).state, times[n];
    PoolOfRun(ops[..n], times[..n], origin, gap);
    ArrivalIs(s, ops[n], at);
    RunSteps(PoolTrace(ops[..n], times[..n], origin), ArrivalOps(s, ops[n], at));
  }

  lemma TickOfRun(ops: seq<ClientOp>, times: seq<nat>, origin: nat, gap: nat)
    requires |times| == |ops| > 0 && Polled(ops, times, origin, gap)
    requires ops[|ops| - 1].OpPoll? && !TakesReset(ops[|ops| - 1])
    ensures Ticked(BeforeTick(ops, times, origin), PoolTrace(ops, times, origin), times[|ops| - 1], ops[|ops| - 1].now,
                   Arrival(RunClient(ops[..|ops| - 1]).state, ops[|ops| - 1]).state.pool)
  {
    hide RunClient, Run, Apply, TickUpTo, Firings, TakesReset, Arrival, Reports, PoolTrace, BeforeTick, Polled;
    var at, all := times[|ops| - 1], BeforeTick(ops, times, origin);
    TraceBeforeTick(ops, times, origin);
    PoolBeforeTick(ops, times, origin, gap);
    RunOneMore(all, OpTick(at));
    var h := Run(Wrapping, all);
    ApplyTick(h, at, |all|);
    TickReports(Wrapping, h, at, |h.slots|);
    assert h.slots[..|h.slots|] == h.slots;
    WrappedReading(h.slots, OpTick(at));
  }

  lemma ArrivalIs(s: ClientState, op: ClientOp, at: nat)
    requires Sized(s) && op.OpPoll? && op.now == at % WRAP && !TakesReset(op)
    ensures Arrival(s, op).state.pool == Steps(s.pool, ArrivalOps(s, op, at))
  {
    hide HandleMsg, Steps, ArrivalOps, DecodeMsg, Received;
    ArrivalPool(s, op, at);
  }

  lemma PollIs(s: ClientState, op: ClientOp)
    requires Sized(s) && op.OpPoll? && !TakesReset(op)
    ensures var a := Arrival(s, op);
            var x := ExpireDiscovers(a.state, op.now);
            var t := HandleFirings(x.(pool := AfterTick(Wrapping, x.pool, op.now)),
                                   Firings(Wrapping, a.state.pool, op.now));
            ClientStep(s, op) == t.(sent := a.sent + t.sent, events := a.events + t.events)
  {
    hide HandleMsg, HandleFirings, Firings, AfterTick, ExpireDiscovers, DecodeMsg, Received;
  }

  /** After `answer` come the datagrams the log says were sent again, all at this time. */
  predicate Resent(before: seq<Entry>, after: seq<Entry>, at: nat, answer: seq<Datagram>, sent: seq<Datagram>) {
    && before <= after && sent == answer + SentAgain(after[|before|..])
    && forall i :: |before| <= i < |after| ==> after[i].at == at
  }

  /** What the last poll sent in answer to its datagram, and what it sent in all. */
  function LastAnswer(ops: seq<ClientOp>): seq<Datagram>
    requires ops != [] && ops[|ops| - 1].OpPoll?
  {
    Arrival(RunClient(ops[..|ops| - 1]).state, ops[|ops| - 1]).sent
  }

  function LastSent(ops: seq<ClientOp>): seq<Datagram>
    requires ops != []
  {
    ClientStep(RunClient(ops[..|ops| - 1]).state, ops[|ops| - 1]).sent
  }

  function LogOf(trace: seq<Op>): seq<Entry> {
    Run(Wrapping, trace).log
  }

  /** A poll sends what answers its datagram, and then exactly, and in order, the resends its pool history logs at that
      tick. */
  lemma ClientRetransmits(ops: seq<ClientOp>, times: seq<nat>, origin: nat, gap: nat)
    requires |times| == |ops| > 0 && Polled(ops, times, origin, gap)
    requires ops[|ops| - 1].OpPoll? && !TakesReset(ops[|ops| - 1])
    ensures Resent(LogOf(BeforeTick(ops, times, origin)), LogOf(PoolTrace(ops, times, origin)), times[|ops| - 1],
                   LastAnswer(ops), LastSent(ops))
  {
    hide RunClient, Run, TickUpTo, Firings, BeforeTick, TakesReset, Arrival, ClientStep, HandleFirings, ExpireDiscovers,
         AfterTick, SentAgain, PoolTrace, Polled;
    var n := |ops| - 1;
    var s := RunClient(ops[..n]).state;
    TickOfRun(ops, times, origin, gap);
    PollIs(s, ops[n]);
    var h, r := Run(Wrapping, BeforeTick(ops, times, origin)), Run(Wrapping, PoolTrace(ops, times, origin));
    var x := ExpireDiscovers(Arrival(s, ops[n]).state, ops[n].now);
    FiringsSend(x.(pool := AfterTick(Wrapping, x.pool, ops[n].now)), Firings(Wrapping, h.slots, ops[n].now),
                r.log[|h.log|..], times[n]);
    forall i | |h.log| <= i < |r.log| ensures r.log[i].at == times[n] {
      assert Reports(Firings(Wrapping, h.slots, ops[n].now)[i - |h.log|], r.log[i], times[n]);
    }
  }

  // ------------------------------------------------------------------ timeouts are reported

  /** Fewer than 256 tokens were issued since any live request's. */
  predicate PendingInWindow(s: ClientState) {
    forall i :: 0 <= i < |s.pending| && s.pending[i].Just? ==> s.issued - s.pending[i].value.serial <= 0x100
  }

  lemma TokenCloses(s: ClientState, q: nat)
    requires SerialsOk(s) && Sized(s) && PendingInWindow(s) && q < s.issued
    ensures !Live(HandleTimeout(s, TokenOf(q)).state, q)
  {
    hide TokenOf, UploadOk, DiscoverOk, TxOk;
    var slot := First(s.pending, HasToken(TokenOf(q)));
    if Live(s, q) {
      var i: nat :| i < |s.pending| && s.pending[i].Just? && s.pending[i].value.serial == q;
      assert PendingOk(s, i);
      assert HasToken(TokenOf(q))(s.pending[i]);
      assert PendingOk(s, slot);
      TokenTellsSerial(s.issued, q, s.pending[slot].value.serial);
      assert slot == i;
    }
  }

  predicate Names(fired: seq<Firing>, token: seq<byte>) {
    exists i :: 0 <= i < |fired| && fired[i].Expire? && fired[i].token == token
  }

  lemma {:induction false} FiringsClose(s: ClientState, fired: seq<Firing>, q: nat)
    requires SerialsOk(s) && Sized(s) && PendingInWindow(s) && q < s.issued && Names(fired, TokenOf(q))
    ensures !Live(HandleFirings(s, fired).state, q)
  {
    hide SerialsOk, HandleTimeout, TokenOf;
    var n := |fired| - 1;
    var before := HandleFirings(s, fired[..n]);
    ClientProps.FiringsClose(s, fired[..n]);
    FiringsShrink(s, fired[..n]);
    if fired[n].Expire? { TimeoutShrinks(before.state, fired[n].token); }
    if fired[n].Expire? && fired[n].token == TokenOf(q) {
      TokenCloses(before.state, q);
    } else {
      var i :| 0 <= i < |fired| && fired[i].Expire? && fired[i].token == TokenOf(q);
      assert fired[..n][i] == fired[i];
      FiringsClose(s, fired[..n], q);
      StaysClosed(before.state, HandleFirings(s, fired).state, q);
    }
  }

  lemma StaysClosed(s: ClientState, t: ClientState, q: nat)
    requires |t.pending| == |s.pending| && !Live(s, q)
    requires forall i :: 0 <= i < |s.pending| ==> t.pending[i] == s.pending[i] || t.pending[i].Nothing?
    ensures !Live(t, q)
  {
  }

  /** The tick in which a transaction carrying a request's token times out closes that request. */
  lemma ExpiryCloses(ops: seq<ClientOp>, times: seq<nat>, origin: nat, gap: nat, n: nat, q: nat)
    requires |times| == |ops| > 0 && Polled(ops, times, origin, gap)
    requires var k := |ops| - 1;
             && n in Run(Wrapping, PoolTrace(ops, times, origin)).expired
             && n !in Run(Wrapping, PoolTrace(ops[..k], times[..k], origin)).expired
             && PendingInWindow(RunClient(ops[..k]).state) && q < RunClient(ops[..k]).state.issued
    requires IsStart(PoolTrace(ops, times, origin), n) && PoolTrace(ops, times, origin)[n].token == TokenOf(q)
    ensures !Live(RunClient(ops).state, q)
  {
    hide RunClient, Run, TickUpTo, Firings, BeforeTick, TakesReset, Arrival, ClientStep, HandleFirings, ExpireDiscovers,
         AfterTick, PoolTrace, SerialsOk, Live, PendingInWindow, Reports, TokenOf;
    var k := |ops| - 1;
    var s := RunClient(ops[..k]).state;
    ExpiryIsTick(ops, times, origin, gap, n);
    TickOfRun(ops, times, origin, gap);
    var trace := PoolTrace(ops, times, origin);
    var h, r := Run(Wrapping, BeforeTick(ops, times, origin)), Run(Wrapping, trace);
    TickExpiryLogged(Wrapping, h, times[k], |h.slots|, n);
    var j :| |h.log| <= j < |r.log| && r.log[j].Expired? && r.log[j].serial == n;
    LoggedToken(trace, j);
    var fired := Firings(Wrapping, h.slots, ops[k].now);
    ReportsToken(fired, j - |h.log|, r.log[j], times[k]);
    PollIs(s, ops[k]);
    SerialsAlways(ops[..k]);
    ArrivalOk(s, ops[k], q);
    var x := ExpireDiscovers(Arrival(s, ops[k]).state, ops[k].now);
    FiringsClose(x.(pool := AfterTick(Wrapping, x.pool, ops[k].now)), fired, q);
    RunsTo(ops);
    SamePendingLive(ClientStep(s, ops[k]).state, RunClient(ops).state, q);
  }

  lemma SamePendingLive(s: ClientState, t: ClientState, q: nat)
    requires s.pending == t.pending
    ensures Live(s, q) == Live(t, q)
  {
  }

  lemma RunsTo(ops: seq<ClientOp>)
    requires ops != []
    ensures RunClient(ops).state == ClientStep(RunClient(ops[..|ops| - 1]).state, ops[|ops| - 1]).state
  {
    hide ClientStep;
  }

  lemma ReportsToken(fired: seq<Firing>, i: nat, e: Entry, now: nat)
    requires i < |fired| && Reports(fired[i], e, now) && e.Expired?
    ensures Names(fired, e.token)
  {
  }

  lemma LoggedToken(trace: seq<Op>, j: nat)
    requires j < |Run(Wrapping, trace).log| && Run(Wrapping, trace).log[j].Expired?
    ensures var e := Run(Wrapping, trace).log[j]; IsStart(trace, e.serial) && e.token == trace[e.serial].token
  {
    hide Run;
    RunInv(Wrapping, trace, 0, AnyPace);
    assert EntryOk(trace, Run(Wrapping, trace), Run(Wrapping, trace).log[j], AnyPace);
  }

  /** The state in which a poll ticks: in order, with the same tokens issued and no new request. */
  lemma ArrivalOk(s: ClientState, op: ClientOp, q: nat)
    requires SerialsOk(s) && Sized(s) && PendingInWindow(s) && q < s.issued && op.OpPoll? && !TakesReset(op)
    ensures var x := ExpireDiscovers(Arrival(s, op).state, op.now);
            var t := x.(pool := AfterTick(Wrapping, x.pool, op.now));
            SerialsOk(t) && PendingInWindow(t) && q < t.issued
  {
    hide SerialsOk, HandleMsg, DecodeMsg, Received, ExpireDiscovers, Closes, AfterTick;
    var s0, r := s.(now := op.now), Arrival(s, op);
    CountersOk(s, s0);
    if Incoming(op).Decoded? {
      HandleMsgOk(s0, op.incoming.value.remote, Incoming(op).msg, op.link);
      HandleMsgCloses(s0, op.incoming.value.remote, Incoming(op).msg, op.link);
      HandleMsgIssued(s0, op.incoming.value.remote, Incoming(op).msg, op.link);
      WindowKept(s0, r.state, r.events);
    }
    var x := ExpireDiscovers(r.state, op.now);
    ShrinksOk(r.state, x);
    TickedTokens(x.pool, op.now);
    ShrinksOk(x, x.(pool := AfterTick(Wrapping, x.pool, op.now)));
  }

  lemma WindowKept(s: ClientState, t: ClientState, events: seq<Event>)
    requires PendingInWindow(s) && Closes(s, t, events) && t.issued == s.issued
    ensures PendingInWindow(t)
  {
    hide CountFor, Live, OneShot;
  }

  /** Only a tick times anything out. */
  lemma ExpiryIsTick(ops: seq<ClientOp>, times: seq<nat>, origin: nat, gap: nat, n: nat)
    requires |times| == |ops| > 0 && Polled(ops, times, origin, gap)
    requires var k := |ops| - 1;
             && n in Run(Wrapping, PoolTrace(ops, times, origin)).expired
             && n !in Run(Wrapping, PoolTrace(ops[..k], times[..k], origin)).expired
    ensures var k := |ops| - 1;
            ops[k].OpPoll? && !TakesReset(ops[k]) && n !in Run(Wrapping, BeforeTick(ops, times, origin)).expired
  {
    hide RunClient, Run, PoolOps, ArrivalOps, StartsAt, TakesReset;
    var k := |ops| - 1;
    var s, at := RunClient(ops[..k]).state, LastPoll(ops, times, origin);
    var base := PoolTrace(ops[..k], times[..k], origin);
    PoolOpsAt(s, ops[k], at);
    if ops[k].OpPoll? && !TakesReset(ops[k]) {
      NoTickNoExpiry(base, ArrivalOps(s, ops[k], at), at);
    } else {
      NoTickNoExpiry(base, PoolOps(s, ops[k], at), at);
    }
  }

  lemma {:induction false} TracePrefix(ops: seq<ClientOp>, times: seq<nat>, k: nat, origin: nat)
    requires |times| == |ops| && k <= |ops|
    ensures PoolTrace(ops[..k], times[..k], origin) <= PoolTrace(ops, times, origin)
    decreases |ops|
  {
    hide PoolOps, RunClient;
    if k == |ops| {
      assert ops[..k] == ops && times[..k] == times;
    } else {
      var n := |ops| - 1;
      assert ops[..n][..k] == ops[..k] && times[..n][..k] == times[..k];
      TracePrefix(ops[..n], times[..n], k, origin);
    }
  }

  /** In every run so far the window held. */
  ghost predicate AlwaysInWindow(ops: seq<ClientOp>) {
    forall k :: 0 <= k <= |ops| ==> PendingInWindow(RunClient(ops[..k]).state)
  }

  /** Once transaction `n` has timed out, the request whose token it carries holds no slot. */
  lemma {:induction false} ExpiredIsClosed(ops: seq<ClientOp>, times: seq<nat>, origin: nat, gap: nat, k: nat, n: nat,
                                           q: nat)
    requires |times| == |ops| && Polled(ops, times, origin, gap) && AlwaysInWindow(ops) && k < |ops|
    requires |PoolTrace(ops[..k], times[..k], origin)| <= n && q < RunClient(ops[..k + 1]).state.issued
    requires IsStart(PoolTrace(ops, times, origin), n) && PoolTrace(ops, times, origin)[n].token == TokenOf(q)
    requires n in Run(Wrapping, PoolTrace(ops, times, origin)).expired
    ensures !Live(RunClient(ops).state, q) && q < RunClient(ops).state.issued
    decreases |ops|
  {
    hide RunClient, Run, PoolTrace, TokenOf, Live, PendingInWindow, ClientStep;
    var j := |ops| - 1;
    var before, earlier := ops[..j], times[..j];
    TracePrefix(ops, times, j, origin);
    if n in Run(Wrapping, PoolTrace(before, earlier, origin)).expired {
      ExpiredStarted(PoolTrace(before, earlier, origin), n);
      NotYetThere(ops, times, k, n, origin);
      assert before[..k] == ops[..k] && earlier[..k] == times[..k] && before[..k + 1] == ops[..k + 1];
      forall i | 0 <= i <= j ensures PendingInWindow(RunClient(before[..i]).state) { assert before[..i] == ops[..i]; }
      ExpiredIsClosed(before, earlier, origin, gap, k, n, q);
      ClosedLater(ops, q);
    } else {
      ExpiryIsTick(ops, times, origin, gap, n);
      IssuedBefore(ops, k, q);
      assert PendingInWindow(RunClient(ops[..j]).state);
      ExpiryCloses(ops, times, origin, gap, n, q);
      ClosedIssued(ops);
    }
  }

  lemma ExpiredStarted(trace: seq<Op>, n: nat)
    requires n in Run(Wrapping, trace).expired
    ensures IsStart(trace, n)
  {
    hide Run;
    RunInv(Wrapping, trace, 0, AnyPace);
    assert SerialOk(trace, Run(Wrapping, trace), n);
  }

  lemma NotYetThere(ops: seq<ClientOp>, times: seq<nat>, k: nat, n: nat, origin: nat)
    requires |times| == |ops| > 0 && k < |ops| && |PoolTrace(ops[..k], times[..k], origin)| <= n
    requires n < |PoolTrace(ops[..|ops| - 1], times[..|ops| - 1], origin)|
    ensures k < |ops| - 1
  {
    hide PoolOps, RunClient;
  }

  lemma ClosedIssued(ops: seq<ClientOp>)
    requires ops != []
    ensures RunClient(ops[..|ops| - 1]).state.issued <= RunClient(ops).state.issued
  {
    hide ClientStep, Issues;
    var s, op := RunClient(ops[..|ops| - 1]).state, ops[|ops| - 1];
    if op.OpPoll? {
      PollIssued(s, op.now, op.incoming, op.link);
      StepIsPoll(s, op);
    } else {
      OtherIssues(s, op);
      IssuedGrows(s, op);
    }
  }

  lemma {:induction false} IssuedBefore(ops: seq<ClientOp>, k: nat, q: nat)
    requires k < |ops| && q < RunClient(ops[..k + 1]).state.issued && ops[|ops| - 1].OpPoll?
    ensures q < RunClient(ops[..|ops| - 1]).state.issued
    decreases |ops|
  {
    hide RunClient, Issues;
    var n := |ops| - 1;
    if k == n {
      assert ops[..k + 1] == ops;
      var s := RunClient(ops[..n]).state;
      RunsTo(ops);
      PollIssued(s, ops[n].now, ops[n].incoming, ops[n].link);
    } else {
      IssuedMonotone(ops[..n], k + 1);
      assert ops[..n][..k + 1] == ops[..k + 1];
    }
  }

  lemma {:induction false} IssuedMonotone(ops: seq<ClientOp>, k: nat)
    requires k <= |ops|
    ensures RunClient(ops[..k]).state.issued <= RunClient(ops).state.issued
    decreases |ops|
  {
    hide RunClient;
    if k == |ops| {
      assert ops[..k] == ops;
    } else {
      assert ops[..|ops| - 1][..k] == ops[..k];
      IssuedMonotone(ops[..|ops| - 1], k);
      ClosedIssued(ops);
    }
  }

  lemma ClosedLater(ops: seq<ClientOp>, q: nat)
    requires ops != [] && !Live(RunClient(ops[..|ops| - 1]).state, q) && q < RunClient(ops[..|ops| - 1]).state.issued
    ensures !Live(RunClient(ops).state, q) && q < RunClient(ops).state.issued
  {
    hide RunClient, ClientStep, Live, Closes;
    var s, op := RunClient(ops[..|ops| - 1]).state, ops[|ops| - 1];
    RunsTo(ops);
    ClosedIssued(ops);
    SerialsAlways(ops[..|ops| - 1]);
    if op.OpPoll? {
      PollCloses(s, op.now, op.incoming, op.link);
      StepIsPoll(s, op);
      PollStaysClosed(s, ClientStep(s, op).state, ClientStep(s, op).events, q);
    } else {
      StepOpens(s, op);
    }
  }

  lemma PollStaysClosed(s: ClientState, t: ClientState, events: seq<Event>, q: nat)
    requires Closes(s, t, events) && !Live(s, q)
    ensures !Live(t, q)
  {
    hide CountFor;
    StaysClosed(s, t, q);
  }

  // ------------------------------------------------------------------ the unanswered request

  /** Operation k is a confirmable request of at most one block that was sent, with a free slot in the pool. */
  predicate Tracked(ops: seq<ClientOp>, k: nat) {
    && k < |ops| && ops[k].OpIssue? && ops[k].confirmable
    && ((ops[k].verb == PUT || ops[k].verb == POST) ==> |ops[k].payload| <= BlockSize(BLOCK_SZX))
    && var s := RunClient(ops[..k]).state;
       ClientStep(s, ops[k]).ok && exists i :: 0 <= i < |s.pool| && s.pool[i].Nothing?
  }

  /** No later poll takes an acknowledgement or a Reset for its message from its server. */
  predicate Unacknowledged(ops: seq<ClientOp>, k: nat)
    requires k < |ops| && ops[k].OpIssue?
  {
    forall j :: k < j < |ops| && ops[j].OpPoll? && Incoming(ops[j]).Decoded?
      && (Incoming(ops[j]).msg.typ.ACK? || Incoming(ops[j]).msg.typ.RST?)
      && ops[j].incoming.value.remote.Addr() == ops[k].server.Addr()
      ==> Incoming(ops[j]).msg.mid != RunClient(ops[..k]).state.nextMid
  }

  /** What the request adds to the pool's history. */
  lemma RequestTrace(ops: seq<ClientOp>, times: seq<nat>, origin: nat, gap: nat, k: nat)
    requires |times| == |ops| && Tracked(ops, k) && Polled(ops[..k + 1], times[..k + 1], origin, gap)
    ensures var s, n := RunClient(ops[..k]).state, |PoolTrace(ops[..k], times[..k], origin)|;
            var trace := PoolTrace(ops[..k + 1], times[..k + 1], origin);
            && |trace| == n + 1 && trace[n].OpStart? && trace[n].remote == ops[k].server && trace[n].mid == s.nextMid
            && trace[n].token == TokenOf(s.issued) && trace[n].now == LastPoll(ops[..k], times[..k], origin)
            && |trace[n].bytes| <= MAX_MSG_SIZE && n in Run(Wrapping, trace).started
  {
    hide RunClient, ClientStep, DecodeMsg, Run, StartsOf, BlockSize, Kept, Wanted, FindUint, FindOption, OptionsFit;
    var o, t := ops[..k + 1], times[..k + 1];
    assert o[..k] == ops[..k] && t[..k] == times[..k];
    var s, at := RunClient(ops[..k]).state, LastPoll(o, t, origin);
    var r := ClientStep(s, ops[k]);
    SentStart(s, ops[k], at);
    var base, start := PoolTrace(ops[..k], times[..k], origin), StartsOf(r.sent, at)[0];
    assert PoolTrace(o, t, origin) == base + [start];
    PoolOfRun(ops[..k], times[..k], origin, gap);
    RunOneMore(base, start);
    StartTaken(Run(Wrapping, base), start, |base|);
  }

  lemma SentStart(s: ClientState, op: ClientOp, at: nat)
    requires Sized(s) && op.OpIssue? && op.confirmable && ClientStep(s, op).ok
    requires (op.verb == PUT || op.verb == POST) ==> |op.payload| <= BlockSize(BLOCK_SZX)
    ensures PoolOps(s, op, at) == StartsOf(ClientStep(s, op).sent, at)
    ensures var starts := StartsOf(ClientStep(s, op).sent, at);
            && |starts| == 1 && starts[0].OpStart? && starts[0].remote == op.server && starts[0].mid == s.nextMid
            && starts[0].token == TokenOf(s.issued) && starts[0].now == at && |starts[0].bytes| <= MAX_MSG_SIZE
  {
    hide Issue, DecodeMsg, BlockSize, Kept, Wanted, FindUint, FindOption, OptionsFit, JoinPath, CString, Normalize;
    IssueCarries(s, op.server, op.path, op.verb, op.payload, op.format, op.confirmable, op.observe, op.link);
    IssueFits(s, op);
    var d := ClientStep(s, op).sent[0];
    assert ClientStep(s, op).sent == [d] && [d][..0] == [];
    NoStart(at);
  }

  lemma IssueFits(s: ClientState, op: ClientOp)
    requires Sized(s) && op.OpIssue? && ((op.verb == PUT || op.verb == POST) ==> |op.payload| <= BlockSize(BLOCK_SZX))
    ensures var r := ClientStep(s, op); r.ok ==> |r.sent| == 1 && |r.sent[0].bytes| <= MAX_MSG_SIZE
  {
    hide EncodeMsg, AfterStart, RequestOptions, BlockSize;
  }

  lemma StartTaken(h: Hist, op: Op, n: nat)
    requires |h.owner| == |h.slots| && op.OpStart? && |op.token| <= MAX_TOKEN_LEN && |op.bytes| <= MAX_MSG_SIZE
    requires exists i :: 0 <= i < |h.slots| && h.slots[i].Nothing?
    ensures n in Apply(Wrapping, h, op, n).started
  {
    hide AfterStart;
  }

  lemma {:induction false} StartedStays(trace: seq<Op>, m: nat, n: nat)
    requires m <= |trace| && n in Run(Wrapping, trace[..m]).started
    ensures n in Run(Wrapping, trace).started
    decreases |trace|
  {
    hide AfterStart, TickUpTo;
    if m == |trace| {
      assert trace[..m] == trace;
    } else {
      var last := |trace| - 1;
      assert trace[..last][..m] == trace[..m];
      StartedStays(trace[..last], m, n);
      var h := Run(Wrapping, trace[..last]);
      if trace[last].OpTick? { TickUpToSlots(Wrapping, h, trace[last].now, |h.slots|); }
    }
  }

  /** Completing operations come from acknowledgements and Resets. */
  lemma {:induction false} EndSource(ops: seq<ClientOp>, times: seq<nat>, origin: nat, j: nat) returns (i: nat)
    requires |times| == |ops| && j < |PoolTrace(ops, times, origin)| && IsEnd(PoolTrace(ops, times, origin)[j])
    ensures i < |ops| && ops[i].OpPoll? && Incoming(ops[i]).Decoded?
    ensures Incoming(ops[i]).msg.typ.ACK? || Incoming(ops[i]).msg.typ.RST?
    ensures PoolTrace(ops, times, origin)[j] ==
            OpComplete(ops[i].incoming.value.remote.Addr(), Incoming(ops[i]).msg.mid)
    ensures j < |PoolTrace(ops[..i + 1], times[..i + 1], origin)|
  {
    hide RunClient, DecodeMsg, Received, PoolOps;
    var n := |ops| - 1;
    var base := PoolTrace(ops[..n], times[..n], origin);
    assert ops[..n + 1] == ops && times[..n + 1] == times;
    if j < |base| {
      i := EndSource(ops[..n], times[..n], origin, j);
      assert ops[..n][..i + 1] == ops[..i + 1] && times[..n][..i + 1] == times[..i + 1];
    } else {
      i := n;
      StepEnd(RunClient(ops[..n]).state, ops[n], LastPoll(ops, times, origin), j - |base|);
    }
  }

  lemma StepEnd(s: ClientState, op: ClientOp, at: nat, j: nat)
    requires Sized(s) && j < |PoolOps(s, op, at)| && IsEnd(PoolOps(s, op, at)[j])
    ensures op.OpPoll? && Incoming(op).Decoded? && (Incoming(op).msg.typ.ACK? || Incoming(op).msg.typ.RST?)
    ensures PoolOps(s, op, at)[j] == OpComplete(op.incoming.value.remote.Addr(), Incoming(op).msg.mid)
  {
    hide ClientStep, HandleMsg, StartsOf, DecodeMsg, Received;
    if !op.OpPoll? {
      OnlyStarts(ClientStep(s, op).sent, at);
    } else if !TakesReset(op) && Incoming(op).Decoded? {
      OnlyStarts(HandleMsg(s.(now := op.now), op.incoming.value.remote, Incoming(op).msg, op.link).sent, at);
    }
  }

  lemma {:induction false} OnlyStarts(sent: seq<Datagram>, at: nat)
    ensures forall i :: 0 <= i < |StartsOf(sent, at)| ==> StartsOf(sent, at)[i].OpStart?
  {
    hide DecodeMsg;
    if sent != [] { OnlyStarts(sent[..|sent| - 1], at); }
  }

  lemma NotAcked(ops: seq<ClientOp>, times: seq<nat>, origin: nat, gap: nat, k: nat)
    requires |times| == |ops| && Polled(ops, times, origin, gap) && Tracked(ops, k) && Unacknowledged(ops, k)
    requires Polled(ops[..k + 1], times[..k + 1], origin, gap)
    ensures |PoolTrace(ops[..k], times[..k], origin)| !in Run(Wrapping, PoolTrace(ops, times, origin)).acked
  {
    hide RunClient, Run, PoolTrace, Active, Tracked, Incoming, Polled, Endable, TokenOf;
    TrackedIs(ops, k);
    var n, trace := |PoolTrace(ops[..k], times[..k], origin)|, PoolTrace(ops, times, origin);
    RequestTrace(ops, times, origin, gap, k);
    TracePrefix(ops, times, k + 1, origin);
    if n in Run(Wrapping, trace).acked {
      AckedByMatch(Wrapping, trace, n);
      var j: nat :| EndedAt(Wrapping, trace, n, j);
      EndableMatches(trace, Run(Wrapping, trace[..j]), trace[j], n);
      ActiveBefore(trace, j, n);
      var i := EndSource(ops, times, origin, j);
      LaterSource(ops, times, origin, k, i, j);
      assert false;
    }
  }

  lemma EndableMatches(trace: seq<Op>, h: Hist, op: Op, n: nat)
    requires |h.owner| == |h.slots| && Endable(trace, h, op, n)
    ensures n < |trace| && trace[n].OpStart? && IsEnd(op) && n in Active(h)
    ensures op.OpComplete? ==> op.addr == trace[n].remote.Addr() && op.mid == trace[n].mid
  {
    hide Active;
  }

  lemma LaterSource(ops: seq<ClientOp>, times: seq<nat>, origin: nat, k: nat, i: nat, j: nat)
    requires |times| == |ops| && k < |ops| && i < |ops|
    requires |PoolTrace(ops[..k + 1], times[..k + 1], origin)| <= j < |PoolTrace(ops[..i + 1], times[..i + 1], origin)|
    ensures k < i
  {
    hide PoolTrace;
    if i <= k {
      assert ops[..k + 1][..i + 1] == ops[..i + 1] && times[..k + 1][..i + 1] == times[..i + 1];
      TracePrefix(ops[..k + 1], times[..k + 1], i + 1, origin);
    }
  }

  lemma ActiveBefore(trace: seq<Op>, j: nat, n: nat)
    requires j <= |trace| && n in Active(Run(Wrapping, trace[..j]))
    ensures n < j
  {
    hide Run;
    RunInv(Wrapping, trace[..j], 0, AnyPace);
    var h := Run(Wrapping, trace[..j]);
    var i: nat :| i < |h.slots| && h.slots[i].Just? && h.owner[i] == n;
    OwnerStarted(trace[..j], h, i, LastTick(trace[..j], 0), Now(trace[..j], 0));
  }

  lemma {:induction false} PolledPrefix(ops: seq<ClientOp>, times: seq<nat>, k: nat, origin: nat, gap: nat)
    requires |times| == |ops| && Polled(ops, times, origin, gap) && k <= |ops|
    ensures Polled(ops[..k], times[..k], origin, gap)
    decreases |ops|
  {
    if k == |ops| {
      assert ops[..k] == ops && times[..k] == times;
    } else {
      var n := |ops| - 1;
      assert ops[..n][..k] == ops[..k] && times[..n][..k] == times[..k];
      PolledPrefix(ops[..n], times[..n], k, origin, gap);
    }
  }

  lemma {:induction false} OpenedStays(ops: seq<ClientOp>, k: nat)
    requires k < |ops| && ops[k].OpIssue? && ClientStep(RunClient(ops[..k]).state, ops[k]).ok
    ensures RunClient(ops[..k]).state.issued in Opened(ops)
  {
    hide RunClient, ClientStep;
    if k < |ops| - 1 {
      assert ops[..|ops| - 1][..k] == ops[..k];
      OpenedStays(ops[..|ops| - 1], k);
    }
  }

  /** A serial number belongs to the one operation that issued it. */
  lemma {:induction false} NotObserved(ops: seq<ClientOp>, k: nat)
    requires k < |ops| && ops[k].OpIssue? && !ops[k].observe
    requires RunClient(ops[..k]).state.issued < RunClient(ops[..k + 1]).state.issued
    ensures RunClient(ops[..k]).state.issued !in ObserveSerials(ops)
  {
    hide RunClient;
    var n := |ops| - 1;
    if k < n {
      assert ops[..n][..k] == ops[..k] && ops[..n][..k + 1] == ops[..k + 1];
      NotObserved(ops[..n], k);
      IssuedMonotone(ops[..n], k + 1);
    } else {
      assert ops[..n] == ops[..k] && ops[..k + 1] == ops;
      OutcomesAlways(ops[..n]);
      NextNotObserved(ops[..n], RunClient(ops[..n]).state, RunClient(ops[..n]).events);
    }
  }

  lemma IssuesToken(ops: seq<ClientOp>, k: nat)
    requires Tracked(ops, k)
    ensures RunClient(ops[..k + 1]).state.issued == RunClient(ops[..k]).state.issued + 1
  {
    hide RunClient, EncodeMsg, AfterStart, RequestOptions, BlockSize;
    assert ops[..k + 1][..k] == ops[..k];
    RunsTo(ops[..k + 1]);
  }

  /** An unanswered request times out. A confirmable request of at most one block that was sent and tracked, and that no
      acknowledgement or Reset of its server names, holds no slot any more 31 t0 plus five poll gaps later, while tokens
      stay in the window; and unless a response was delivered for it, the application was told of the timeout. */
  lemma UnansweredTimesOut(ops: seq<ClientOp>, times: seq<nat>, origin: nat, gap: nat, k: nat)
    requires |times| == |ops| && Polled(ops, times, origin, gap) && gap < 0x8000_0000 && AlwaysInWindow(ops)
    requires Tracked(ops, k) && Unacknowledged(ops, k)
    requires LastTicked(ops, times, origin) >=
             LastPoll(ops[..k], times[..k], origin) + 31 * InitialTimeout(RunClient(ops[..k]).state.nextMid) + 5 * gap
    ensures var q, r := RunClient(ops[..k]).state.issued, RunClient(ops);
            && !Live(r.state, q)
            && (!ops[k].observe && !HasAnswer(r.events, q) ==> TimedOut(Just(q)) in r.events)
  {
    hide RunClient, Run, PoolTrace, InitialTimeout, Tracked, Unacknowledged, AlwaysInWindow, Live, HasAnswer, Polled,
         TokenOf;
    TrackedIs(ops, k);
    var n, q := |PoolTrace(ops[..k], times[..k], origin)|, RunClient(ops[..k]).state.issued;
    UnansweredExpires(ops, times, origin, gap, k);
    IssuesToken(ops, k);
    ExpiredIsClosed(ops, times, origin, gap, k, n, q);
    if !ops[k].observe && !HasAnswer(RunClient(ops).events, q) { ToldOfTimeout(ops, k); }
  }

  lemma UnansweredExpires(ops: seq<ClientOp>, times: seq<nat>, origin: nat, gap: nat, k: nat)
    requires |times| == |ops| && Polled(ops, times, origin, gap) && gap < 0x8000_0000
    requires Tracked(ops, k) && Unacknowledged(ops, k)
    requires LastTicked(ops, times, origin) >=
             LastPoll(ops[..k], times[..k], origin) + 31 * InitialTimeout(RunClient(ops[..k]).state.nextMid) + 5 * gap
    ensures var n, trace := |PoolTrace(ops[..k], times[..k], origin)|, PoolTrace(ops, times, origin);
            && n in Run(Wrapping, trace).expired && IsStart(trace, n)
            && trace[n].token == TokenOf(RunClient(ops[..k]).state.issued)
  {
    hide RunClient, Run, PoolTrace, InitialTimeout, Tracked, Unacknowledged, Polled, TokenOf;
    TrackedIs(ops, k);
    var n, trace := |PoolTrace(ops[..k], times[..k], origin)|, PoolTrace(ops, times, origin);
    PolledPrefix(ops, times, k + 1, origin, gap);
    RequestTrace(ops, times, origin, gap, k);
    TracePrefix(ops, times, k + 1, origin);
    assert trace[..n + 1] == PoolTrace(ops[..k + 1], times[..k + 1], origin);
    StartedStays(trace, n + 1, n);
    TraceTimed(ops, times, origin, gap);
    TimeoutHappens(Wrapping, trace, origin, gap, n);
    NotAcked(ops, times, origin, gap, k);
  }

  lemma ToldOfTimeout(ops: seq<ClientOp>, k: nat)
    requires Tracked(ops, k) && !ops[k].observe && !Live(RunClient(ops).state, RunClient(ops[..k]).state.issued)
    requires !HasAnswer(RunClient(ops).events, RunClient(ops[..k]).state.issued)
    ensures TimedOut(Just(RunClient(ops[..k]).state.issued)) in RunClient(ops).events
  {
    hide RunClient, Tracked, CountFor, Opened, ObserveSerials, Live, HasAnswer, ClientStep;
    TrackedIs(ops, k);
    var q := RunClient(ops[..k]).state.issued;
    IssuesToken(ops, k);
    OpenedStays(ops, k);
    NotObserved(ops, k);
    ExactlyOneOutcome(ops, q);
    OutcomeCounts(RunClient(ops).events, q);
  }

  lemma TrackedIs(ops: seq<ClientOp>, k: nat)
    requires Tracked(ops, k)
    ensures k < |ops| && ops[k].OpIssue? && ClientStep(RunClient(ops[..k]).state, ops[k]).ok
  {
    hide RunClient, ClientStep, BlockSize;
  }
}
