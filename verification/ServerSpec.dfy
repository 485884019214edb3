/** The server as functions from state to outcome: request dispatch, observers (RFC 7641), deferred responses
    (section 5.2.2 of RFC 7252) and block-wise transfer (RFC 7959). The application handler is a function given
    to each step, so it may answer differently every time. */
module ServerSpec {
  import opened Types
  import opened Config
  import opened Codec
  import opened OptionValues
  import opened Reliability
  import opened Paths

  datatype Observer = Observer(resource: nat, remote: Endpoint, token: Token, lastMid: u16) {
    function Id(): Key { Key(remote.Addr(), token) }
  }

  datatype Deferred = Deferred(remote: Endpoint, token: Token, wasConfirmable: bool)

  /** A Block1 reassembly session; `body` are the assembled bytes, `next` the block number expected. */
  datatype Session = Session(remote: Endpoint, token: Token, next: nat, body: seq<byte>) {
    function Id(): Key { Key(remote.Addr(), token) }
  }

  datatype Request = Request(verb: byte, msg: Msg, remote: Endpoint, deferHandle: Maybe<nat>, body: Maybe<seq<byte>>,
                             params: seq<PathParam>)

  datatype Response = Response(code: byte, format: u16, payload: seq<byte>, deferred: bool)

  /** What the application's handlers answer: resource index and request to response. */
  type Handler = (nat, Request) -> Response

  datatype Call = Call(resource: nat, request: Request)

  datatype ServerState = ServerState(
    resources: seq<Resource>,
    observers: seq<Maybe<Observer>>,
    deferred: seq<Maybe<Deferred>>,
    sessions: seq<Maybe<Session>>,
    pool: Slots,
    now: u32,
    nextMid: u16)

  /** New state, datagrams sent and handler calls made, both in order. */
  datatype Outcome = Outcome(state: ServerState, sent: seq<Datagram>, calls: seq<Call>)

  /** Answering a request touches only deferred slots, sessions and the message ID counter. */
  predicate SameElsewhere(s: ServerState, t: ServerState) {
    t.resources == s.resources && t.observers == s.observers && t.pool == s.pool && t.now == s.now
  }

  predicate SameTables(s: ServerState, t: ServerState) {
    SameElsewhere(s, t) && t.deferred == s.deferred && t.sessions == s.sessions
  }

  /** What handling a request does to the deferred table, read off its handler call: one more active slot, bound to the
      request, exactly when the handler deferred with a slot free. */
  function DeferredAfter(s: ServerState, m: Msg, from: Endpoint, h: Handler, calls: seq<Call>): seq<Maybe<Deferred>> {
    var d := First(s.deferred, IsFree<Deferred>());
    if calls != [] && h(calls[0].resource, calls[0].request).deferred && d >= 0
    then s.deferred[d := Just(Deferred(from, m.token, m.typ.CON?))] else s.deferred
  }

  /** The handler is offered the lowest free deferred slot. */
  predicate OffersSlot(s: ServerState, calls: seq<Call>) {
    var d := First(s.deferred, IsFree<Deferred>());
    forall i :: 0 <= i < |calls| ==> calls[i].request.deferHandle == if d >= 0 then Just(d) else Nothing
  }

  function KeyOf(from: Endpoint, m: Msg): Key {
    Key(from.Addr(), m.token)
  }

  // ------------------------------------------------------------------ replies

  /** One datagram if the message fits the buffer, none otherwise. */
  function Transmit(to: Endpoint, m: Msg): (sent: seq<Datagram>)
    requires ValidMsg(m)
    ensures |sent| <= 1
  {
    if |EncodeMsg(m)| <= MAX_MSG_SIZE then [Datagram(to, EncodeMsg(m))] else []
  }

  function ReplyMsg(s: ServerState, req: Msg, code: byte, options: seq<Opt>, payload: seq<byte>): Msg {
    if req.typ.CON? then Msg(ACK, code, req.mid, req.token, options, payload)
    else Msg(NON, code, s.nextMid, req.token, options, payload)
  }

  function Reply(s: ServerState, req: Msg, to: Endpoint, code: byte, options: seq<Opt>,
                 payload: seq<byte>): (r: Outcome)
    requires ValidOptions(options)
    ensures SameTables(s, r.state) && r.calls == []
  {
    Outcome(if req.typ.CON? then s else s.(nextMid := (s.nextMid + 1) % 0x1_0000),
            Transmit(to, ReplyMsg(s, req, code, options, payload)), [])
  }

  function ObserveOptions(observe: Maybe<u32>): (os: seq<Opt>)
    ensures |os| <= 1 && ValidOptions(os)
  {
    if observe.Just? then [UintOpt(OBSERVE, observe.value)] else []
  }

  function PiggybackOptions(payload: seq<byte>, format: u16, observe: Maybe<u32>): (os: seq<Opt>)
    ensures ValidOptions(os)
  {
    ObserveOptions(observe) + if payload != [] then [UintOpt(CONTENT_FORMAT, format)] else []
  }

  function Piggyback(s: ServerState, req: Msg, to: Endpoint, code: byte, payload: seq<byte>, format: u16,
                     observe: Maybe<u32>): (r: Outcome)
    ensures SameTables(s, r.state) && r.calls == []
  {
    Reply(s, req, to, code, PiggybackOptions(payload, format, observe), payload)
  }

  /** A bare response code. */
  function Plain(s: ServerState, req: Msg, to: Endpoint, code: byte): (r: Outcome)
    ensures SameTables(s, r.state) && r.calls == []
  {
    Piggyback(s, req, to, code, [], 0, Nothing)
  }

  function EmptyAck(mid: u16, to: Endpoint): seq<Datagram> {
    Transmit(to, Msg(ACK, EMPTY, mid, [], [], []))
  }

  function Slice(body: seq<byte>, offset: nat, size: nat): seq<byte>
    requires offset <= |body|
  {
    if |body| - offset > size then body[offset..offset + size] else body[offset..]
  }

  function Block2Options(format: u16, observe: Maybe<u32>, num: nat, more: bool, szx: nat): (os: seq<Opt>)
    ensures ValidOptions(os)
  {
    ObserveOptions(observe) + [UintOpt(CONTENT_FORMAT, format), BlockOpt(BLOCK2, num, more, szx)]
  }

  /** One slice of a large payload with its Block2 option. */
  function Block2Reply(s: ServerState, req: Msg, to: Endpoint, res: Response, observe: Maybe<u32>, num: nat,
                       szx: nat): (r: Outcome)
    requires num * BlockSize(szx) < |res.payload|
    ensures SameTables(s, r.state) && r.calls == []
  {
    var offset := num * BlockSize(szx);
    var more := |res.payload| - offset > BlockSize(szx);
    Reply(s, req, to, res.code, Block2Options(res.format, observe, num, more, szx),
          Slice(res.payload, offset, BlockSize(szx)))
  }

  // ------------------------------------------------------------------ observers

  function HasObserverKey(key: Key): Maybe<Observer> -> bool {
    (x: Maybe<Observer>) => x.Just? && x.value.Id() == key
  }

  function HasLastMid(addr: Address, mid: u16): Maybe<Observer> -> bool {
    (x: Maybe<Observer>) => x.Just? && x.value.remote.Addr() == addr && x.value.lastMid == mid
  }

  /** Refreshes the entry with this key in place, else takes the lowest free slot, else drops the registration. */
  function Register(os: seq<Maybe<Observer>>, idx: nat, from: Endpoint, token: Token): (r: seq<Maybe<Observer>>)
    ensures |r| == |os|
  {
    var i := First(os, HasObserverKey(Key(from.Addr(), token)));
    if i >= 0 then os[i := Just(os[i].value.(resource := idx))]
    else
      var j := First(os, IsFree<Observer>());
      if j >= 0 then os[j := Just(Observer(idx, from, token, 0))] else os
  }

  function Stamp(os: seq<Maybe<Observer>>, key: Key, mid: u16): (r: seq<Maybe<Observer>>)
    ensures |r| == |os|
  {
    var i := First(os, HasObserverKey(key));
    if i >= 0 then os[i := Just(os[i].value.(lastMid := mid))] else os
  }

  function RemoveKey(os: seq<Maybe<Observer>>, key: Key): (r: seq<Maybe<Observer>>)
    ensures |r| == |os|
    ensures forall i :: 0 <= i < |os| ==> r[i] == if HasObserverKey(key)(os[i]) then Nothing else os[i]
  {
    seq(|os|, i requires 0 <= i < |os| => if HasObserverKey(key)(os[i]) then Nothing else os[i])
  }

  /** Timeout callbacks of one tick, in order. */
  function RemoveExpired(os: seq<Maybe<Observer>>, fired: seq<Firing>): (r: seq<Maybe<Observer>>)
    ensures |r| == |os|
  {
    if fired == [] then os
    else
      var before := RemoveExpired(os, fired[..|fired| - 1]);
      match fired[|fired| - 1]
      case Resend(_, _) => before
      case Expire(remote, token) => RemoveKey(before, Key(remote.Addr(), token))
  }

  function IsObserveRequest(r: Resource, m: Msg): bool {
    r.observable && m.code == GET && FindOption(m.options, OBSERVE).Just?
  }

  /** GET with Observe 0 registers, with any other value deregisters. */
  function ObserveStep(s: ServerState, idx: nat, m: Msg, from: Endpoint): (r: ServerState)
    requires idx < |s.resources|
    ensures r == s.(observers := r.observers) && |r.observers| == |s.observers|
  {
    if !IsObserveRequest(s.resources[idx], m) then s
    else if ReadUint(FindOption(m.options, OBSERVE).value) == 0 then
      s.(observers := Stamp(Register(s.observers, idx, from, m.token), KeyOf(from, m), m.mid))
    else s.(observers := RemoveKey(s.observers, KeyOf(from, m)))
  }

  /** The Observe value of the response: the sequence number when it is not negative as a signed 32-bit number. */
  function ObserveValue(s: ServerState, idx: nat, m: Msg): Maybe<u32>
    requires idx < |s.resources|
  {
    if IsObserveRequest(s.resources[idx], m) && ReadUint(FindOption(m.options, OBSERVE).value) == 0
       && s.resources[idx].sequence < 0x8000_0000
    then Just(s.resources[idx].sequence) else Nothing
  }

  // ------------------------------------------------------------------ running a handler

  datatype HandlerRun = HandlerRun(state: ServerState, response: Response, kept: bool, call: Call)

  /** Reserves the lowest deferred slot for the call and keeps it only if the handler defers. */
  function RunHandler(s: ServerState, idx: nat, m: Msg, from: Endpoint, params: seq<PathParam>, body: Maybe<seq<byte>>,
                      h: Handler): (r: HandlerRun)
    ensures SameElsewhere(s, r.state) && r.state.sessions == s.sessions && r.state.nextMid == s.nextMid
  {
    var d := First(s.deferred, IsFree<Deferred>());
    var req := Request(m.code, m, from, if d >= 0 then Just(d) else Nothing, body, params);
    var res := h(idx, req);
    var kept := res.deferred && d >= 0;
    HandlerRun(if kept then s.(deferred := s.deferred[d := Just(Deferred(from, m.token, m.typ.CON?))]) else s, res, kept, Call(idx, req))
  }

  function AckDeferral(m: Msg, from: Endpoint): seq<Datagram> {
    if m.typ.CON? then EmptyAck(m.mid, from) else []
  }

  // ------------------------------------------------------------------ Block1

  function HasSessionKey(key: Key): Maybe<Session> -> bool {
    (x: Maybe<Session>) => x.Just? && x.value.Id() == key
  }

  function SessionSlot(ss: seq<Maybe<Session>>, key: Key): int {
    First(ss, HasSessionKey(key))
  }

  function HandleBlock1(s: ServerState, idx: nat, m: Msg, from: Endpoint, params: seq<PathParam>, observe: Maybe<u32>,
                        value: seq<byte>, h: Handler): (r: Outcome)
    ensures SameElsewhere(s, r.state) && |r.calls| <= 1
    ensures r.state.deferred == DeferredAfter(s, m, from, h, r.calls) && OffersSlot(s, r.calls)
  {
    var b := ReadBlock(value);
    if b.Nothing? then Plain(s, m, from, BAD_OPTION)
    else
      var i := SessionSlot(s.sessions, KeyOf(from, m));
      if i >= 0 then AcceptBlock(s, i, idx, m, from, params, observe, b.value, h)
      else if b.value.num != 0 then Plain(s, m, from, REQUEST_ENTITY_INCOMPLETE)
      else
        var j := First(s.sessions, IsFree<Session>());
        if j < 0 then Plain(s, m, from, SERVICE_UNAVAILABLE)
        else AcceptBlock(s.(sessions := s.sessions[j := Just(Session(from, m.token, 0, []))]), j, idx, m, from, params,
                         observe, b.value, h)
  }

  function AcceptBlock(s: ServerState, i: nat, idx: nat, m: Msg, from: Endpoint, params: seq<PathParam>,
                       observe: Maybe<u32>, b: Block, h: Handler): (r: Outcome)
    requires i < |s.sessions| && s.sessions[i].Just?
    ensures SameElsewhere(s, r.state) && |r.calls| <= 1
    ensures r.state.deferred == DeferredAfter(s, m, from, h, r.calls) && OffersSlot(s, r.calls)
  {
    var sess := s.sessions[i].value;
    if b.num != sess.next then
      Reply(s, m, from, CONTINUE, [BlockOpt(BLOCK1, (sess.next - 1) % WRAP, true, b.szx)], [])
    else if |sess.body| + |m.payload| > BLOCK1_MAX_BODY then
      Plain(s.(sessions := s.sessions[i := Nothing]), m, from, REQUEST_ENTITY_TOO_LARGE)
    else
      var grown := sess.(next := sess.next + 1, body := sess.body + m.payload);
      var s1 := s.(sessions := s.sessions[i := Just(grown)]);
      if b.more then Reply(s1, m, from, CONTINUE, [BlockOpt(BLOCK1, b.num, false, b.szx)], [])
      else FinishUpload(s1, i, idx, m, from, params, observe, grown.body, h)
  }

  function FinishUpload(s: ServerState, i: nat, idx: nat, m: Msg, from: Endpoint, params: seq<PathParam>,
                        observe: Maybe<u32>, body: seq<byte>, h: Handler): (r: Outcome)
    requires i < |s.sessions|
    ensures SameElsewhere(s, r.state) && |r.calls| <= 1
    ensures r.state.deferred == DeferredAfter(s, m, from, h, r.calls) && OffersSlot(s, r.calls)
  {
    var run := RunHandler(s, idx, m, from, params, Just(body), h);
    var s1 := run.state.(sessions := run.state.sessions[i := Nothing]);
    if run.kept then Outcome(s1, AckDeferral(m, from), [run.call])
    else Piggyback(s1, m, from, run.response.code, run.response.payload, run.response.format,
                   observe).(calls := [run.call])
  }

  // ------------------------------------------------------------------ plain requests and Block2

  function HandlePlain(s: ServerState, idx: nat, m: Msg, from: Endpoint, params: seq<PathParam>, observe: Maybe<u32>,
                       h: Handler): (r: Outcome)
    ensures SameElsewhere(s, r.state) && |r.calls| <= 1
    ensures r.state.deferred == DeferredAfter(s, m, from, h, r.calls) && OffersSlot(s, r.calls)
  {
    var run := RunHandler(s, idx, m, from, params, Nothing, h);
    if run.kept then Outcome(run.state, AckDeferral(m, from), [run.call])
    else Respond2(run.state, m, from, run.response, observe).(calls := [run.call])
  }

  function RequestedBlock2(m: Msg): Maybe<Block> {
    var o := FindOption(m.options, BLOCK2);
    if o.Nothing? then Nothing else ReadBlock(o.value)
  }

  /** The inline response, fragmented when it is larger than a block or a block was asked for. */
  function Respond2(s: ServerState, m: Msg, from: Endpoint, res: Response, observe: Maybe<u32>): (r: Outcome)
    ensures SameTables(s, r.state) && r.calls == []
  {
    var b := RequestedBlock2(m);
    var szx := if b.Just? then b.value.szx else BLOCK_SZX;
    var num := if b.Just? then b.value.num else 0;
    if res.payload != [] && (|res.payload| > BlockSize(szx) || b.Just?) then
      if num * BlockSize(szx) >= |res.payload| then Plain(s, m, from, BAD_REQUEST)
      else Block2Reply(s, m, from, res, observe, num, szx)
    else Piggyback(s, m, from, res.code, res.payload, res.format, observe)
  }

  // ------------------------------------------------------------------ dispatch

  predicate IsUploadBlock(m: Msg) {
    FindOption(m.options, BLOCK1).Just? && (m.code == PUT || m.code == POST)
  }

  function RequestPath(m: Msg): seq<byte> {
    CString(JoinPath(m.options))
  }

  function Dispatch(s: ServerState, idx: nat, m: Msg, from: Endpoint, h: Handler): (r: Outcome)
    requires idx < |s.resources|
    ensures SameElsewhere(ObserveStep(s, idx, m, from), r.state) && |r.calls| <= 1
    ensures r.state.deferred == DeferredAfter(s, m, from, h, r.calls) && OffersSlot(s, r.calls)
  {
    var params := ParamsFor(s.resources[idx], RequestPath(m));
    var s1 := ObserveStep(s, idx, m, from);
    var observe := ObserveValue(s, idx, m);
    if IsUploadBlock(m) then HandleBlock1(s1, idx, m, from, params, observe, FindOption(m.options, BLOCK1).value, h)
    else HandlePlain(s1, idx, m, from, params, observe, h)
  }

  /** The resource a request is dispatched to, or the code it is refused with. */
  datatype Route = To(idx: nat) | Refused(code: byte)

  function RouteBy(rs: seq<Resource>, m: Msg): (r: Route)
    ensures r.To? ==> r.idx < |rs| && r.idx == FindResource(rs, RequestPath(m)) && m.code in rs[r.idx].methods
  {
    if |JoinPath(m.options)| >= MAX_URI_PATH_LEN then Refused(BAD_OPTION)
    else
      var idx := FindResource(rs, RequestPath(m));
      if idx < 0 then Refused(NOT_FOUND)
      else if m.code !in {GET, POST, PUT, DELETE} then Refused(NOT_IMPLEMENTED)
      else if m.code !in rs[idx].methods then Refused(METHOD_NOT_ALLOWED)
      else To(idx)
  }

  function RouteOf(s: ServerState, m: Msg): (r: Route)
    ensures r.To? ==> r.idx < |s.resources| && r.idx == FindResource(s.resources, RequestPath(m)) && m.code in s.resources[r.idx].methods
  {
    RouteBy(s.resources, m)
  }

  function HandleRequest(s: ServerState, m: Msg, from: Endpoint, h: Handler): (r: Outcome)
    ensures r.state.resources == s.resources && r.state.pool == s.pool && r.state.now == s.now && |r.calls| <= 1
    ensures r.state.deferred == DeferredAfter(s, m, from, h, r.calls) && OffersSlot(s, r.calls)
    ensures r.state.observers == if RouteOf(s, m).To? then ObserveStep(s, RouteOf(s, m).idx, m, from).observers
            else s.observers
  {
    match RouteOf(s, m)
    case Refused(code) => Plain(s, m, from, code)
    case To(idx) => Dispatch(s, idx, m, from, h)
  }

  // ------------------------------------------------------------------ poll

  function Resends(fired: seq<Firing>): seq<Datagram> {
    if fired == [] then []
    else
      match fired[|fired| - 1]
      case Resend(remote, bytes) => Resends(fired[..|fired| - 1]) + [Datagram(remote, bytes)]
      case Expire(_, _) => Resends(fired[..|fired| - 1])
  }

  /** The first half of `poll`: the clock, retransmissions and timeouts. */
  function TickTo(s: ServerState, now: u32): Outcome {
    var fired := Firings(Wrapping, s.pool, now);
    Outcome(s.(now := now, pool := AfterTick(Wrapping, s.pool, now), observers := RemoveExpired(s.observers, fired)),
            Resends(fired), [])
  }

  /** `receive` copies at most a buffer's worth of the datagram. */
  function Received(bytes: seq<byte>): seq<byte> {
    if |bytes| > MAX_MSG_SIZE then bytes[..MAX_MSG_SIZE] else bytes
  }

  /** The second half of `poll`: one datagram. */
  function Receive(s: ServerState, from: Endpoint, bytes: seq<byte>, h: Handler): Outcome {
    var d := DecodeMsg(Received(bytes));
    if d.Rejected? then Outcome(s, [], [])
    else ReceiveMsg(s, from, d.msg, h)
  }

  function ReceiveMsg(s: ServerState, from: Endpoint, m: Msg, h: Handler): Outcome {
    if m.typ.RST? then
      var i := First(s.observers, HasLastMid(from.Addr(), m.mid));
      Outcome(if i < 0 then s else s.(observers := s.observers[i := Nothing]), [], [])
    else if m.typ.ACK? then Outcome(s.(pool := AfterComplete(s.pool, from.Addr(), m.mid)), [], [])
    else if IsMethodCode(m.code) then HandleRequest(s, m, from, h)
    else Outcome(s, [], [])
  }

  // ------------------------------------------------------------------ notify and respond

  function Notification(o: Observer, mid: u16, sequence: u32, payload: seq<byte>, format: u16,
                        confirmable: bool): (m: Msg)
    ensures ValidMsg(m)
  {
    Msg(if confirmable then CON else NON, CONTENT, mid, o.token,
        [UintOpt(OBSERVE, sequence), UintOpt(CONTENT_FORMAT, format)], payload)
  }

  function NotifyOne(s: ServerState, i: nat, idx: nat, payload: seq<byte>, format: u16, confirmable: bool): Outcome
    requires i < |s.observers| && idx < |s.resources|
  {
    if s.observers[i].Nothing? || s.observers[i].value.resource != idx then Outcome(s, [], [])
    else
      var o := s.observers[i].value;
      var m := Notification(o, s.nextMid, s.resources[idx].sequence, payload, format, confirmable);
      var sent := Transmit(o.remote, m);
      Outcome(s.(observers := s.observers[i := Just(o.(lastMid := s.nextMid))],
                 nextMid := (s.nextMid + 1) % 0x1_0000,
                 pool := if sent != [] && confirmable
                         then AfterStart(Wrapping, s.pool, o.remote, s.nextMid, o.token, EncodeMsg(m), s.now)
                             else s.pool),
              sent, [])
  }

  function NotifyUpTo(s: ServerState, k: nat, idx: nat, payload: seq<byte>, format: u16,
                      confirmable: bool): (r: Outcome)
    requires k <= |s.observers| && idx < |s.resources|
    ensures |r.state.observers| == |s.observers| && r.state.resources == s.resources
  {
    if k == 0 then Outcome(s, [], [])
    else
      var before := NotifyUpTo(s, k - 1, idx, payload, format, confirmable);
      var last := NotifyOne(before.state, k - 1, idx, payload, format, confirmable);
      last.(sent := before.sent + last.sent)
  }

  function BumpSequence(s: ServerState, idx: nat): (r: ServerState)
    requires idx < |s.resources|
    ensures |r.resources| == |s.resources|
  {
    var r := s.resources[idx];
    s.(resources := s.resources[idx := r.(sequence := (r.sequence + 1) % WRAP)])
  }

  predicate CanNotify(s: ServerState, path: seq<byte>) {
    var idx := FindResource(s.resources, path);
    idx >= 0 && s.resources[idx].observable
  }

  function Notify(s: ServerState, path: seq<byte>, payload: seq<byte>, format: u16, confirmable: bool): Outcome {
    if !CanNotify(s, path) then Outcome(s, [], [])
    else
      var idx := FindResource(s.resources, path);
      NotifyUpTo(BumpSequence(s, idx), |s.observers|, idx, payload, format, confirmable)
  }

  function SeparateResponse(d: Deferred, mid: u16, code: byte, payload: seq<byte>, format: u16): (m: Msg)
    ensures ValidMsg(m)
  {
    Msg(if d.wasConfirmable then CON else NON, code, mid, d.token,
        if payload != [] then [UintOpt(CONTENT_FORMAT, format)] else [], payload)
  }

  function Respond(s: ServerState, handle: nat, code: byte, payload: seq<byte>, format: u16): Outcome {
    if handle >= |s.deferred| || s.deferred[handle].Nothing? then Outcome(s, [], [])
    else
      var d := s.deferred[handle].value;
      var m := SeparateResponse(d, s.nextMid, code, payload, format);
      var sent := Transmit(d.remote, m);
      Outcome(s.(deferred := s.deferred[handle := Nothing],
                 nextMid := (s.nextMid + 1) % 0x1_0000,
                 pool := if sent != [] && d.wasConfirmable
                         then AfterStart(Wrapping, s.pool, d.remote, s.nextMid, d.token, EncodeMsg(m), s.now)
                             else s.pool),
              sent, [])
  }

  /** Registration appends; `handler` and `path` are never null here. */
  function AddResource(s: ServerState, path: seq<byte>, methods: set<byte>, observable: bool): ServerState {
    if |s.resources| >= MAX_RESOURCES then s
        else s.(resources := s.resources + [Resource(path, methods, observable, 0)])
  }

  // ------------------------------------------------------------------ runs

  datatype ServerOp =
    | OpAdd(path: seq<byte>, methods: set<byte>, observable: bool)
    | OpTickTo(now: nat)
    | OpReceive(from: Endpoint, bytes: seq<byte>, handler: Handler)
    | OpNotify(path: seq<byte>, payload: seq<byte>, format: u16, confirmable: bool)
    | OpRespond(handle: nat, code: byte, payload: seq<byte>, format: u16)

  /** One step; ticks give the time on an unbounded clock, of which the server sees the low 32 bits. */
  function ServerStep(s: ServerState, op: ServerOp): Outcome {
    match op
    case OpAdd(path, methods, observable) => Outcome(AddResource(s, path, methods, observable), [], [])
    case OpTickTo(now) => TickTo(s, now % WRAP)
    case OpReceive(from, bytes, h) => Receive(s, from, bytes, h)
    case OpNotify(path, payload, format, confirmable) => Notify(s, path, payload, format, confirmable)
    case OpRespond(handle, code, payload, format) => Respond(s, handle, code, payload, format)
  }

  function InitialServer(): ServerState {
    ServerState([], FreeSlots<Observer>(MAX_OBSERVERS), FreeSlots<Deferred>(MAX_DEFERRED),
                FreeSlots<Session>(MAX_BLOCK1_SESSIONS),
                FreeSlots<Txn>(MAX_TRANSACTIONS), 0, 1)
  }

  function RunServer(ops: seq<ServerOp>): ServerState {
    if ops == [] then InitialServer() else ServerStep(RunServer(ops[..|ops| - 1]), ops[|ops| - 1]).state
  }
}
