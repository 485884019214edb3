/** Requests do not vanish: whatever closes a slot is reported, and what arrives is delivered. */
module ClientOutcomes {
  import opened Types
  import opened Config
  import opened Codec
  import opened OptionValues
  import opened Reliability
  import opened Paths
  import opened ClientSpec
  import opened ClientProps
  import opened ClientRequests

  // ------------------------------------------------------------------ a closed slot was reported

  predicate HasAnswer(events: seq<Event>, n: nat) {
    exists k :: 0 <= k < |events| && events[k].Answered? && events[k].serial == n
  }

  /** The application was told why this slot is gone: a timeout, or the response to a request that does not observe. */
  predicate Told(events: seq<Event>, p: Pending) {
    TimedOut(Just(p.serial)) in events || (!p.observing && HasAnswer(events, p.serial))
  }

  /** Every slot that is gone was reported. */
  predicate Accounts(s: ClientState, t: ClientState, events: seq<Event>) {
    && |t.pending| == |s.pending|
    && forall i :: 0 <= i < |s.pending| && s.pending[i].Just? && t.pending[i] != s.pending[i] ==>
         Told(events, s.pending[i].value)
  }

  lemma AccountsThen(s: ClientState, t: ClientState, u: ClientState, a: seq<Event>, b: seq<Event>)
    requires Accounts(s, t, a) && Accounts(t, u, b)
    ensures Accounts(s, u, a + b)
  {
    forall i | 0 <= i < |s.pending| && s.pending[i].Just? && u.pending[i] != s.pending[i]
      ensures Told(a + b, s.pending[i].value)
    {
      ToldLonger(a, b, s.pending[i].value);
    }
  }

  lemma ToldLonger(a: seq<Event>, b: seq<Event>, p: Pending)
    requires Told(a, p) || Told(b, p)
    ensures Told(a + b, p)
  {
    if HasAnswer(a, p.serial) {
      var k :| 0 <= k < |a| && a[k].Answered? && a[k].serial == p.serial;
      assert (a + b)[k] == a[k];
    }
    if HasAnswer(b, p.serial) {
      var k :| 0 <= k < |b| && b[k].Answered? && b[k].serial == p.serial;
      assert (a + b)[|a| + k] == b[k];
    }
  }

  lemma SamePending(s: ClientState, t: ClientState)
    requires t.pending == s.pending
    ensures Accounts(s, t, [])
  {
  }

  lemma ResponseAccounts(s: ClientState, slot: nat, from: Endpoint, m: Msg, link: bool)
    requires Sized(s) && slot < |s.pending| && s.pending[slot].Just?
    ensures var r := HandleResponse(s, slot, from, m, link); Accounts(s, r.state, r.events)
  {
    hide SendBlock1, SendBlock2, Accumulate, Block2Of, FormatOf;
    var r := HandleResponse(s, slot, from, m, link);
    if r.state.pending != s.pending {
      var e := r.events[0];
      assert r.events == [e] && (e.Answered? || e == TimedOut(Just(s.pending[slot].value.serial)));
    }
  }

  lemma MsgAccounts(s: ClientState, from: Endpoint, m: Msg, link: bool)
    requires Sized(s)
    ensures var r := HandleMsg(s, from, m, link); Accounts(s, r.state, r.events)
  {
    hide HandleResponse, AckOf, AfterComplete, Accounts;
    var s1 := if m.typ.ACK? then s.(pool := AfterComplete(s.pool, from.Addr(), m.mid)) else s;
    var slot := First(s1.pending, HasToken(m.token));
    if slot >= 0 { ResponseAccounts(s1, slot, from, m, link); }
    QuietAccounts(s, s1, HandleMsg(s, from, m, link));
  }

  lemma QuietAccounts(s: ClientState, s1: ClientState, r: Result)
    requires s1.pending == s.pending && (r.state.pending == s.pending || Accounts(s1, r.state, r.events))
    ensures Accounts(s, r.state, r.events)
  {
  }

  lemma ResetAccounts(s: ClientState, from: Endpoint, mid: u16)
    requires Sized(s)
    ensures var r := HandleReset(s, from, mid); Accounts(s, r.state, r.events)
  {
    hide AfterComplete;
    var r := HandleReset(s, from, mid);
    if r.state.pending != s.pending { assert r.events[0] in r.events; }
  }

  lemma TimeoutAccounts(s: ClientState, token: seq<byte>)
    requires Sized(s)
    ensures var r := HandleTimeout(s, token); Accounts(s, r.state, r.events)
  {
    var r := HandleTimeout(s, token);
    if r.state.pending != s.pending { assert r.events[0] in r.events; }
  }

  lemma {:induction false} FiringsAccount(s: ClientState, fired: seq<Firing>)
    requires Sized(s)
    ensures var r := HandleFirings(s, fired); Accounts(s, r.state, r.events)
  {
    hide HandleTimeout, Accounts;
    if fired == [] {
      SamePending(s, s);
    } else {
      var before, f := HandleFirings(s, fired[..|fired| - 1]), fired[|fired| - 1];
      FiringsAccount(s, fired[..|fired| - 1]);
      if f.Expire? {
        TimeoutAccounts(before.state, f.token);
        var last := HandleTimeout(before.state, f.token);
        AccountsThen(s, before.state, last.state, before.events, last.events);
      }
    }
  }

  /** Every slot that is gone after a poll was reported by that poll; a slot that observes only by a timeout. */
  lemma PollAccounts(s: ClientState, now: u32, incoming: Maybe<Datagram>, link: bool)
    requires Sized(s)
    ensures var r := Poll(s, now, incoming, link); Accounts(s, r.state, r.events)
  {
    hide HandleMsg, HandleReset, HandleFirings, DecodeMsg, Received, Firings, AfterTick, ExpireDiscovers, Accounts;
    var s0 := s.(now := now);
    SamePending(s, s0);
    var d := if incoming.Just? then DecodeMsg(Received(incoming.value.bytes)) else Rejected(TooShort);
    if d.Decoded? && d.msg.typ.RST? {
      ResetAccounts(s0, incoming.value.remote, d.msg.mid);
      QuietAccounts(s, s0, HandleReset(s0, incoming.value.remote, d.msg.mid));
    } else {
      var r := if d.Decoded? then HandleMsg(s0, incoming.value.remote, d.msg, link) else Result(s0, [], [], true);
      if d.Decoded? { MsgAccounts(s0, incoming.value.remote, d.msg, link); } else { SamePending(s0, s0); }
      QuietAccounts(s, s0, r);
      TickAccounts(r.state, now);
      var t := TickClient(ExpireDiscovers(r.state, now), now);
      AccountsThen(s, r.state, t.state, r.events, t.events);
    }
  }

  lemma TickAccounts(s: ClientState, now: u32)
    requires Sized(s)
    ensures var r := TickClient(ExpireDiscovers(s, now), now); Accounts(s, r.state, r.events)
  {
    hide HandleFirings, Firings, AfterTick, ExpireDiscovers, Accounts;
    var x := ExpireDiscovers(s, now);
    var x1 := x.(pool := AfterTick(Wrapping, x.pool, now));
    FiringsAccount(x1, Firings(Wrapping, x.pool, now));
    QuietAccounts(s, x1, TickClient(x, now));
  }

  lemma {:induction false} OutcomeCounts(events: seq<Event>, n: nat)
    ensures (TimedOut(Just(n)) in events || HasAnswer(events, n)) <==> CountFor(events, n) > 0
  {
    if events != [] {
      var k := |events| - 1;
      OutcomeCounts(events[..k], n);
      if HasAnswer(events[..k], n) {
        var j :| 0 <= j < k && events[..k][j].Answered? && events[..k][j].serial == n;
        assert events[j].Answered?;
      }
      if HasAnswer(events, n) && !events[k].Answered? {
        var j :| 0 <= j < |events| && events[j].Answered? && events[j].serial == n;
        assert events[..k][j] == events[j];
      }
      assert events == events[..k] + [events[k]];
    }
  }

  /** In every poll, a request that was live and is not any more has an outcome among the poll's callbacks: exactly one
      if it does not observe, and a timeout if it does. */
  lemma PollOutcome(s: ClientState, now: u32, incoming: Maybe<Datagram>, link: bool, n: nat)
    requires SerialsOk(s) && Sized(s) && Live(s, n) && !Live(Poll(s, now, incoming, link).state, n)
    ensures var events := Poll(s, now, incoming, link).events;
            && CountFor(events, n) >= 1
            && (if OneShot(s, n) then CountFor(events, n) == 1 else TimedOut(Just(n)) in events)
  {
    hide SerialsOk, Poll, CountFor;
    var r := Poll(s, now, incoming, link);
    PollAccounts(s, now, incoming, link);
    PollCloses(s, now, incoming, link);
    OutcomeCounts(r.events, n);
    var i :| 0 <= i < |s.pending| && s.pending[i].Just? && s.pending[i].value.serial == n;
    assert r.state.pending[i] != s.pending[i];
    if !OneShot(s, n) { SoleSlot(s, i, n); }
  }

  lemma SoleSlot(s: ClientState, i: nat, n: nat)
    requires SerialsOk(s) && i < |s.pending| && s.pending[i].Just? && s.pending[i].value.serial == n && !OneShot(s, n)
    ensures s.pending[i].value.observing
  {
    hide PendingOk, UploadOk, DiscoverOk, TxOk;
    var j :| 0 <= j < |s.pending| && s.pending[j].Just? && s.pending[j].value.serial == n
        && s.pending[j].value.observing;
    assert i == j;
  }

  // ------------------------------------------------------------------ over a run

  /** The requests that were sent: each by an operation that succeeded. */
  function Opened(ops: seq<ClientOp>): set<nat> {
    if ops == [] then {}
    else
      var op, s := ops[|ops| - 1], RunClient(ops[..|ops| - 1]).state;
      Opened(ops[..|ops| - 1]) + if (op.OpIssue? || op.OpCancel?) && ClientStep(s, op).ok then {s.issued} else {}
  }

  /** What an operation other than `poll` does: it opens a slot for the next serial exactly when it sends a request, and
      closes none but observing ones. */
  ghost predicate Opening(s: ClientState, r: Result, request: bool) {
    && |r.state.pending| == |s.pending| && r.events == []
    && (forall i :: 0 <= i < |s.pending| && s.pending[i].Just? && r.state.pending[i] != s.pending[i] ==>
          s.pending[i].value.observing)
    && (forall n :: Live(r.state, n) ==> Live(s, n) || (request && r.ok && n == s.issued))
    && (request && r.ok ==> Live(r.state, s.issued))
  }

  lemma RequestOpens(s: ClientState, server: Endpoint, path: seq<byte>, verb: byte, payload: seq<byte>, format: u16,
                     confirmable: bool, observe: Maybe<u32>, observing: bool, link: bool)
    requires Sized(s)
    ensures Opening(s, SendRequest(s, server, path, verb, payload, format, confirmable, observe, observing, link), true)
  {
    hide SendRequest, Kept, Carries, Wanted, DecodeMsg, OptionsFit, EncodeMsg;
    var r := SendRequest(s, server, path, verb, payload, format, confirmable, observe, observing, link);
    RequestCarries(s, server, path, verb, payload, format, confirmable, observe, observing, link);
    if r.ok {
      var i: nat :| i < |s.pending| == |r.state.pending| && s.pending[i].Nothing?
        && r.state.pending == s.pending[i := Just(Pending(s.issued, server, [(1 + s.issued) % 0x100], observing, StoredPath(path)))];
      SlotOpens(s, r, i);
    }
  }

  lemma SlotOpens(s: ClientState, r: Result, i: nat)
    requires r.ok && r.events == [] && i < |s.pending| && s.pending[i].Nothing? && |r.state.pending| == |s.pending|
    requires r.state.pending[i].Just? && r.state.pending[i].value.serial == s.issued
    requires forall j :: 0 <= j < |s.pending| && j != i ==> r.state.pending[j] == s.pending[j]
    ensures Opening(s, r, true)
  {
    var t := r.state;
    forall n | Live(t, n) ensures Live(s, n) || n == s.issued {
      var j :| 0 <= j < |t.pending| && t.pending[j].Just? && t.pending[j].value.serial == n;
      if j != i { assert s.pending[j] == t.pending[j]; }
    }
    assert Live(t, s.issued);
  }

  lemma UploadOpens(s: ClientState, server: Endpoint, path: seq<byte>, verb: byte, payload: seq<byte>, format: u16,
                    link: bool)
    requires Sized(s)
    ensures Opening(s, BeginUpload(s, server, path, verb, payload, format, link), true)
  {
    hide SendBlock1, TokenByte;
    var r, i := BeginUpload(s, server, path, verb, payload, format, link), First(s.pending, IsFree<Pending>());
    if r.ok { SlotOpens(s, r, i); } else { assert r.state.pending == s.pending; }
  }

  lemma StepOpens(s: ClientState, op: ClientOp)
    requires Sized(s) && !op.OpPoll?
    ensures Opening(s, ClientStep(s, op), op.OpIssue? || op.OpCancel?)
  {
    hide SendRequest, BeginUpload, EncodeMsg, AddPath, Opening, Live, BlockSize;
    match op
    case OpIssue(server, path, verb, payload, format, confirmable, observe, link) =>
      UploadOpens(s, server, path, verb, payload, format, link);
      RequestOpens(s, server, path, verb, payload, format, confirmable, if observe then Just(0) else Nothing, observe,
                   link);
    case OpCancel(server, path, link) => CancelOpens(s, server, path, link);
    case OpDiscover(to, link) => NothingOpens(s, ClientStep(s, op));
  }

  lemma NothingOpens(s: ClientState, r: Result)
    requires r.state.pending == s.pending && r.events == []
    ensures Opening(s, r, false)
    ensures !r.ok ==> Opening(s, r, true)
  {
  }

  lemma CancelOpens(s: ClientState, server: Endpoint, path: seq<byte>, link: bool)
    requires Sized(s)
    ensures Opening(s, CancelObserve(s, server, path, link), true)
  {
    hide SendRequest, Opening;
    var i := First(s.pending, ObservesPath(server.Addr(), path));
    if i < 0 {
      NothingOpens(s, CancelObserve(s, server, path, link));
    } else {
      var s1 := s.(pending := s.pending[i := Nothing]);
      RequestOpens(s1, server, path, GET, [], 0, true, Just(1), false, link);
      OpensAfterClosing(s, s1, i, CancelObserve(s, server, path, link));
    }
  }

  lemma OpensAfterClosing(s: ClientState, s1: ClientState, i: nat, r: Result)
    requires i < |s.pending| && s.pending[i].Just? && s.pending[i].value.observing
    requires s1 == s.(pending := s.pending[i := Nothing]) && Opening(s1, r, true)
    ensures Opening(s, r, true)
  {
    forall n | Live(s1, n) ensures Live(s, n) {
      var j :| 0 <= j < |s1.pending| && s1.pending[j].Just? && s1.pending[j].value.serial == n;
      assert s.pending[j] == s1.pending[j];
    }
  }

  /** Live requests were sent; one that was sent and does not observe is live or has had an outcome. */
  ghost predicate Complete(ops: seq<ClientOp>, s: ClientState, events: seq<Event>) {
    && (forall n: nat :: Live(s, n) || CountFor(events, n) > 0 ==> n in Opened(ops))
    && (forall n: nat :: n in Opened(ops) && n !in ObserveSerials(ops) ==> Live(s, n) || CountFor(events, n) > 0)
  }

  lemma OpenKeepsComplete(ops: seq<ClientOp>, before: Result, r: Result, request: bool)
    requires ops != [] && Complete(ops[..|ops| - 1], before.state, before.events) && Opening(before.state, r, request)
    requires OutcomesOk(ops[..|ops| - 1], before.state, before.events)
    requires Opened(ops) == Opened(ops[..|ops| - 1]) + if request && r.ok then {before.state.issued} else {}
    requires ObserveSerials(ops[..|ops| - 1]) <= ObserveSerials(ops)
    ensures Complete(ops, r.state, before.events)
  {
    hide CountFor, ObserveSerials, Opened;
    var s, t := before.state, r.state;
    forall n: nat | n in Opened(ops) && n !in ObserveSerials(ops) ensures Live(t, n) || CountFor(before.events, n) > 0 {
      if Live(s, n) {
        var i :| 0 <= i < |s.pending| && s.pending[i].Just? && s.pending[i].value.serial == n;
        assert t.pending[i] == s.pending[i];
      }
    }
  }

  lemma PollKeepsComplete(ops: seq<ClientOp>, before: Result, t: ClientState, events: seq<Event>)
    requires ops != [] && Complete(ops[..|ops| - 1], before.state, before.events)
    requires Opened(ops) == Opened(ops[..|ops| - 1]) && ObserveSerials(ops) == ObserveSerials(ops[..|ops| - 1])
    requires Closes(before.state, t, events) && Accounts(before.state, t, events)
    ensures Complete(ops, t, before.events + events)
  {
    hide CountFor, ObserveSerials, Opened;
    var s := before.state;
    forall n: nat ensures CountFor(before.events + events, n) == CountFor(before.events, n) + CountFor(events, n) {
      CountConcat(before.events, events, n);
    }
    forall n: nat | Live(t, n) ensures Live(s, n) {
      var i :| 0 <= i < |t.pending| && t.pending[i].Just? && t.pending[i].value.serial == n;
      assert t.pending[i] == s.pending[i];
    }
    forall n: nat | Live(s, n) && !Live(t, n) ensures CountFor(events, n) > 0 {
      var i :| 0 <= i < |s.pending| && s.pending[i].Just? && s.pending[i].value.serial == n;
      assert t.pending[i] != s.pending[i];
      OutcomeCounts(events, n);
    }
  }

  lemma {:induction false} CompleteAlways(ops: seq<ClientOp>)
    ensures Complete(ops, RunClient(ops).state, RunClient(ops).events)
  {
    hide ClientStep, Complete, OutcomesOk, Closes, Accounts, Opening, SerialsOk;
    if ops == [] {
      NothingAtFirst();
    } else {
      var n := |ops| - 1;
      var before, op := RunClient(ops[..n]), ops[n];
      CompleteAlways(ops[..n]);
      SerialsAlways(ops[..n]);
      OutcomesAlways(ops[..n]);
      if op.OpPoll? {
        PollCloses(before.state, op.now, op.incoming, op.link);
        PollAccounts(before.state, op.now, op.incoming, op.link);
        StepIsPoll(before.state, op);
        PollKeepsComplete(ops, before, ClientStep(before.state, op).state, ClientStep(before.state, op).events);
      } else {
        StepOpens(before.state, op);
        OpeningQuiet(before.state, ClientStep(before.state, op), op.OpIssue? || op.OpCancel?);
        assert before.events + [] == before.events;
        OpenKeepsComplete(ops, before, ClientStep(before.state, op), op.OpIssue? || op.OpCancel?);
      }
    }
  }

  lemma OpeningQuiet(s: ClientState, r: Result, request: bool)
    requires Opening(s, r, request)
    ensures r.events == []
  {
  }

  lemma NothingAtFirst()
    ensures Complete([], InitialClient(), [])
  {
  }

  /** Client outcome, exactly: over every run a request that was sent and does not observe either still holds its slot
      and has had no outcome, or has had exactly one and holds none. One that was never sent has neither. */
  lemma ExactlyOneOutcome(ops: seq<ClientOp>, n: nat)
    requires n !in ObserveSerials(ops)
    ensures var r := RunClient(ops);
            if n in Opened(ops) then CountFor(r.events, n) == if Live(r.state, n) then 0 else 1
            else CountFor(r.events, n) == 0 && !Live(r.state, n)
  {
    hide RunClient, CountFor, Opened;
    CompleteAlways(ops);
    OneOutcome(ops, n);
  }

  // ------------------------------------------------------------------ what arrives is delivered

  /** The slot that a message's token finds. */
  predicate FindsSlot(s: ClientState, token: Token, slot: int) {
    && 0 <= slot < |s.pending| && s.pending[slot].Just? && s.pending[slot].value.token == token
    && forall j :: 0 <= j < slot && s.pending[j].Just? ==> s.pending[j].value.token != token
  }

  predicate FindsDiscovery(s: ClientState, token: Token, d: int) {
    && 0 <= d < |s.discovers| && s.discovers[d].Just? && s.discovers[d].value.token == token
    && forall j :: 0 <= j < d && s.discovers[j].Just? ==> s.discovers[j].value.token != token
  }

  /** A response, as opposed to an empty message or a request. */
  predicate IsResponse(m: Msg) {
    !m.typ.RST? && m.code != EMPTY && !IsMethodCode(m.code)
  }

  /** The message is for this slot, no discovery takes it, and it is no step of a block-wise transfer. */
  ghost predicate AnswersSlot(s: ClientState, m: Msg, slot: int)
    requires Sized(s)
  {
    && FindsSlot(s, m.token, slot) && !(exists d :: FindsDiscovery(s, m.token, d))
    && !(m.code == CONTINUE && s.uploads[slot].Just?) && FindOption(m.options, BLOCK2) == Nothing
  }

  /** A poll that receives a response delivers it: to a discovery waiting for its token, else to the pending request,
      with code, payload and content format, freeing the slot unless it observes. (Uploads that are told to continue
      and responses in blocks go on as block-wise transfers instead.) */
  lemma PollDelivers(s: ClientState, now: u32, from: Endpoint, m: Msg, link: bool)
    requires Sized(s) && ValidMsg(m) && Fits(m) && IsResponse(m)
    ensures var r := Poll(s, now, Just(Datagram(from, EncodeMsg(m))), link);
            && (forall d :: FindsDiscovery(s, m.token, d) ==>
                  r.events != [] && r.events[0] == Discovered(s.discovers[d].value.serial, from, m.payload))
            && (forall slot :: AnswersSlot(s, m, slot) ==>
                    && r.events != []
                    && r.events[0] == Answered(s.pending[slot].value.serial, m.code, m.payload, DeclaredFormat(m))
                    && (!s.pending[slot].value.observing ==> r.state.pending[slot].Nothing?))
  {
    hide HandleMsg, TickClient, ExpireDiscovers, EncodeMsg, DecodeMsg, FindOption, FormatOf, DeclaredFormat;
    DecodeEncode(m);
    var s0 := s.(now := now);
    var r := HandleMsg(s0, from, m, link);
    var t := TickClient(ExpireDiscovers(r.state, now), now);
    TickAccounts(r.state, now);
    forall d | FindsDiscovery(s, m.token, d)
      ensures r.events == [Discovered(s.discovers[d].value.serial, from, m.payload)] { MsgDiscovers(s0, from, m, link, d); }
    forall slot | AnswersSlot(s, m, slot)
      ensures r.events == [Answered(s.pending[slot].value.serial, m.code, m.payload, DeclaredFormat(m))]
      ensures !s.pending[slot].value.observing ==> t.state.pending[slot].Nothing?
    {
      MsgAnswers(s0, from, m, link, slot);
      TickKeepsFree(r.state, now, slot);
    }
  }

  /** The content format option read as 16 bits, or 0. */
  function DeclaredFormat(m: Msg): u16 {
    var f := FindUint(m.options, CONTENT_FORMAT);
    if f.Just? then f.value % 0x1_0000 else 0
  }

  lemma MsgDiscovers(s: ClientState, from: Endpoint, m: Msg, link: bool, d: int)
    requires Sized(s) && IsResponse(m) && FindsDiscovery(s, m.token, d)
    ensures HandleMsg(s, from, m, link).events == [Discovered(s.discovers[d].value.serial, from, m.payload)]
  {
    hide HandleResponse, AckOf, AfterComplete;
    FirstIs(s.discovers, HasDiscoverToken(m.token), d);
  }

  lemma MsgAnswers(s: ClientState, from: Endpoint, m: Msg, link: bool, slot: int)
    requires Sized(s) && IsResponse(m) && AnswersSlot(s, m, slot)
    ensures var r := HandleMsg(s, from, m, link);
            && r.events == [Answered(s.pending[slot].value.serial, m.code, m.payload, DeclaredFormat(m))]
            && r.state.pending == if s.pending[slot].value.observing then s.pending else s.pending[slot := Nothing]
  {
    hide AckOf, AfterComplete, FindOption, ReadUint;
    var d := First(s.discovers, HasDiscoverToken(m.token));
    if d >= 0 { assert !FindsDiscovery(s, m.token, d); }
    FirstIs(s.pending, HasToken(m.token), slot);
  }

  lemma TickKeepsFree(s: ClientState, now: u32, slot: nat)
    requires Sized(s) && slot < |s.pending|
    ensures s.pending[slot].Nothing? ==> TickClient(ExpireDiscovers(s, now), now).state.pending[slot].Nothing?
  {
    hide Firings, HandleFirings, AfterTick;
    var x := ExpireDiscovers(s, now);
    FiringsShrink(x.(pool := AfterTick(Wrapping, x.pool, now)), Firings(Wrapping, x.pool, now));
  }

  /** The transaction that a Reset or acknowledgement names. */
  predicate FindsTxn(p: Slots, addr: Address, mid: u16, i: int) {
    && 0 <= i < |p| && p[i].Just? && p[i].value.remote.Addr() == addr && p[i].value.mid == mid
    && forall j :: 0 <= j < i && p[j].Just? ==> p[j].value.remote.Addr() != addr || p[j].value.mid != mid
  }

  /** The Reset is for the transaction in slot `i`, whose token names the request in slot `slot`. */
  predicate Rejects(s: ClientState, addr: Address, mid: u16, i: int, slot: int) {
    && FindsTxn(s.pool, addr, mid, i) && s.pool[i].value.token != [] && |s.pool[i].value.token| <= MAX_TOKEN_LEN
    && FindsSlot(s, s.pool[i].value.token, slot)
  }

  predicate AnyTxn(p: Slots, addr: Address, mid: u16) {
    exists i :: 0 <= i < |p| && FindsTxn(p, addr, mid, i)
  }

  lemma ResetEnds(s: ClientState, from: Endpoint, mid: u16, i: nat, slot: nat)
    requires Sized(s) && Rejects(s, from.Addr(), mid, i, slot)
    ensures HandleReset(s, from, mid) ==
              Result(s.(pool := s.pool[i := Nothing], pending := s.pending[slot := Nothing]), [],
                     [TimedOut(Just(s.pending[slot].value.serial))], true)
  {
    FirstIs(s.pool, HasMid(from.Addr(), mid), i);
    FirstIs(s.pending, HasToken(s.pool[i].value.token), slot);
  }

  lemma ResetFrees(s: ClientState, from: Endpoint, mid: u16, i: nat)
    requires Sized(s) && FindsTxn(s.pool, from.Addr(), mid, i)
    ensures HandleReset(s, from, mid).state.pool == s.pool[i := Nothing]
  {
    FirstIs(s.pool, HasMid(from.Addr(), mid), i);
  }

  lemma ResetOfNothing(s: ClientState, from: Endpoint, mid: u16)
    requires Sized(s) && !AnyTxn(s.pool, from.Addr(), mid)
    ensures HandleReset(s, from, mid) == Result(s, [], [], true)
  {
    var i := First(s.pool, HasMid(from.Addr(), mid));
    if i >= 0 { assert !FindsTxn(s.pool, from.Addr(), mid, i); }
  }

  lemma ResetPolled(s: ClientState, now: u32, from: Endpoint, m: Msg, link: bool)
    requires Sized(s) && ValidMsg(m) && Fits(m) && m.typ.RST?
    ensures Poll(s, now, Just(Datagram(from, EncodeMsg(m))), link) == HandleReset(s.(now := now), from, m.mid)
    ensures HandleReset(s.(now := now), from, m.mid).sent == []
  {
    hide EncodeMsg, DecodeMsg, First, AfterComplete;
    DecodeEncode(m);
  }

  /** A poll that receives a Reset for a transaction ends it, and reports a timeout for the request whose token it
      carries, if there is one, freeing its slot; nothing is sent. A Reset for no transaction changes nothing but the clock. */
  lemma PollRejects(s: ClientState, now: u32, from: Endpoint, m: Msg, link: bool)
    requires Sized(s) && ValidMsg(m) && Fits(m) && m.typ.RST?
    ensures var r := Poll(s, now, Just(Datagram(from, EncodeMsg(m))), link);
            && r.sent == []
            && (forall i :: FindsTxn(s.pool, from.Addr(), m.mid, i) ==> r.state.pool == s.pool[i := Nothing])
            && (forall i, slot :: Rejects(s, from.Addr(), m.mid, i, slot) ==>
                  r == Result(s.(now := now, pool := s.pool[i := Nothing], pending := s.pending[slot := Nothing]), [],
                              [TimedOut(Just(s.pending[slot].value.serial))], true))
            && (!AnyTxn(s.pool, from.Addr(), m.mid) ==> r == Result(s.(now := now), [], [], true))
  {
    hide EncodeMsg, DecodeMsg, Poll, HandleReset;
    var s0, r := s.(now := now), Poll(s, now, Just(Datagram(from, EncodeMsg(m))), link);
    ResetPolled(s, now, from, m, link);
    if !AnyTxn(s.pool, from.Addr(), m.mid) { ResetOfNothing(s0, from, m.mid); }
    forall i | FindsTxn(s.pool, from.Addr(), m.mid, i) ensures r.state.pool == s.pool[i := Nothing] {
      ResetFrees(s0, from, m.mid, i);
    }
    forall i, slot | Rejects(s, from.Addr(), m.mid, i, slot)
      ensures r == Result(s.(now := now, pool := s.pool[i := Nothing], pending := s.pending[slot := Nothing]), [],
                          [TimedOut(Just(s.pending[slot].value.serial))], true)
    {
      ResetEnds(s0, from, m.mid, i, slot);
    }
  }

  /** A confirmable response is acknowledged first, if four bytes fit a message: an empty ACK with its message ID, back
      to its sender. Nothing else received is. */
  lemma PollAcknowledges(s: ClientState, now: u32, from: Endpoint, m: Msg, link: bool)
    requires Sized(s) && ValidMsg(m) && Fits(m) && MAX_MSG_SIZE >= 4
    ensures var r := Poll(s, now, Just(Datagram(from, EncodeMsg(m))), link);
            IsResponse(m) && m.typ.CON? ==>
              r.sent != [] && r.sent[0].remote == from
              && DecodeMsg(r.sent[0].bytes) == Decoded(Msg(ACK, EMPTY, m.mid, [], [], []))
  {
    hide Deliver, TickClient, ExpireDiscovers, EncodeMsg, DecodeMsg, AfterComplete;
    DecodeEncode(m);
    var ack := Msg(ACK, EMPTY, m.mid, [], [], []);
    DecodeEncode(ack);
    AckIsShort(m.mid);
  }

  lemma AckIsShort(mid: u16)
    ensures |EncodeMsg(Msg(ACK, EMPTY, mid, [], [], []))| == 4
  {
  }

  /** A discovery ends in the first poll, other than one that takes a Reset, DISCOVER_TIMEOUT_MS after it was issued on
      the 32-bit clock, and never before. */
  lemma DiscoveriesExpire(s: ClientState, now: u32, incoming: Maybe<Datagram>, link: bool, d: nat)
    requires Sized(s) && d < |s.discovers| && s.discovers[d].Just?
    ensures var t := Poll(s, now, incoming, link).state;
            && |t.discovers| == |s.discovers|
            && var reset := incoming.Just? && DecodeMsg(Received(incoming.value.bytes)).Decoded?
                            && DecodeMsg(Received(incoming.value.bytes)).msg.typ.RST?;
               t.discovers[d] == if !reset && (now - s.discovers[d].value.issuedAt) % 0x1_0000_0000 >= 5000 then Nothing
                                 else s.discovers[d]
  {
    hide DecodeMsg, Received, HandleMsg, HandleFirings, Firings, AfterTick;
    if incoming.Just? && DecodeMsg(Received(incoming.value.bytes)).Decoded? {
      MsgKeeps(s.(now := now), incoming.value.remote, DecodeMsg(Received(incoming.value.bytes)).msg, link);
    }
  }

  /** A datagram leaves the discover slots alone, and the pool its size. */
  lemma MsgKeeps(s: ClientState, from: Endpoint, m: Msg, link: bool)
    requires Sized(s)
    ensures var t := HandleMsg(s, from, m, link).state; t.discovers == s.discovers && |t.pool| == |s.pool|
  {
    hide HandleResponse, AckOf, AfterComplete;
    var s1 := if m.typ.ACK? then s.(pool := AfterComplete(s.pool, from.Addr(), m.mid)) else s;
    var slot := First(s1.pending, HasToken(m.token));
    if slot >= 0 { ResponseKeeps(s1, slot, from, m, link); }
  }

  lemma ResponseKeeps(s: ClientState, slot: nat, from: Endpoint, m: Msg, link: bool)
    requires Sized(s) && slot < |s.pending| && s.pending[slot].Just?
    ensures var t := HandleResponse(s, slot, from, m, link).state; t.discovers == s.discovers && |t.pool| == |s.pool|
  {
    hide EncodeMsg, Accumulate, Block2Of, BlockRequest, Block2Options, AfterStart, FormatOf, First, BlockOffset;
  }

  // ------------------------------------------------------------------ table sizes

  lemma StepSized(s: ClientState, op: ClientOp)
    requires Sized(s)
    ensures var t := ClientStep(s, op).state; |t.pool| == |s.pool| && |t.discovers| == |s.discovers|
  {
    hide EncodeMsg, RequestOptions, AfterStart, First, BlockOffset, DecodeMsg, Received, Firings, AfterTick,
         HandleFirings, ExpireDiscovers, AddPath, TokenByte, BlockSize, HandleMsg, BlockRequest, AfterComplete;
    if op.OpPoll? && op.incoming.Just? && DecodeMsg(Received(op.incoming.value.bytes)).Decoded? {
      var m := DecodeMsg(Received(op.incoming.value.bytes)).msg;
      MsgKeeps(s.(now := op.now), op.incoming.value.remote, m, op.link);
    }
  }

  /** The tables keep their configured sizes. */
  lemma {:induction false} TablesAlwaysSized(ops: seq<ClientOp>)
    ensures var s := RunClient(ops).state;
            && |s.pending| == |s.uploads| == |s.recvs| == |s.pool| == MAX_TRANSACTIONS && |s.discovers| == MAX_DISCOVERS
  {
    hide ClientStep;
    if ops != [] {
      TablesAlwaysSized(ops[..|ops| - 1]);
      StepSized(RunClient(ops[..|ops| - 1]).state, ops[|ops| - 1]);
    }
  }
}
