/** The server side of a Block2 download and the whole system. */
module Block2System {
  import opened Types
  import opened Config
  import opened Codec
  import opened OptionValues
  import opened Reliability
  import opened Paths
  import opened S = ServerSpec
  import P = ServerProps
  import C = ClientSpec
  import CP = ClientProps
  import T = Traffic
  import B = Block1Safety
  import opened Block2Safety

  // ------------------------------------------------------------------ what the server owes the download

  /** How the server routes the request. */
  function RouteFor(d: Download, rs: seq<Resource>): Route {
    RouteBy(rs, Msg(CON, GET, 0, [], UriOptions(Segments(d.path)), []))
  }

  predicate NoObserver(os: seq<Maybe<Observer>>, key: Key) {
    forall i :: 0 <= i < |os| && os[i].Just? ==> os[i].value.Id() != key
  }

  predicate NoDeferred(ds: seq<Maybe<Deferred>>, key: Key) {
    forall i :: 0 <= i < |ds| && ds[i].Just? ==> Key(ds[i].value.remote.Addr(), ds[i].value.token) != key
  }

  predicate ForeignTo(d: Download, bytes: seq<byte>) {
    var r := DecodeMsg(C.Received(bytes));
    r.Decoded? ==> r.msg.token != d.Token()
  }

  predicate PoolForeign(d: Download, p: Slots) {
    forall i :: 0 <= i < |p| && p[i].Just? && p[i].value.remote.Addr() == d.addr ==> ForeignTo(d, p[i].value.bytes)
  }

  /** The request is routed as the download says, and nothing else at the server uses its key. */
  predicate ServerOk(d: Download, s: ServerState) {
    && RouteFor(d, s.resources) == d.route
    && NoObserver(s.observers, d.Key()) && NoDeferred(s.deferred, d.Key()) && PoolForeign(d, s.pool)
  }

  /** What is sent to the client's address. */
  predicate DownOk(d: Download, bound: nat, sent: seq<Datagram>) {
    forall i :: 0 <= i < |sent| && sent[i].remote.Addr() == d.addr ==> AnswerOk(d, bound, sent[i].bytes)
  }

  /** The resource's handler always answers with the body, and does not defer. */
  ghost predicate ConstantHandler(d: Download, h: Handler) {
    d.route.To? ==> forall req :: h(d.route.idx, req).payload == d.body && !h(d.route.idx, req).deferred
  }

  // ------------------------------------------------------------------ answering the download's own requests

  lemma TransmitAnswer(d: Download, bound: nat, to: Endpoint, m: Msg)
    requires ValidMsg(m) && (m.token == d.Token() ==> IsAnswer(d, m, bound))
    ensures DownOk(d, bound, Transmit(to, m))
  {
    hide EncodeMsg, IsAnswer, AnswerOk;
    if |EncodeMsg(m)| <= MAX_MSG_SIZE { AnswerMsg(d, bound, m); }
  }

  lemma NoBlock2(m: Msg)
    requires forall i :: 0 <= i < |m.options| ==> m.options[i].number != BLOCK2
    ensures C.Block2Of(m) == Nothing
  {
    assert forall j :: 0 <= j < |m.options| ==> !HasNumber(BLOCK2)(m.options[j]);
  }

  lemma PlainAnswer(d: Download, bound: nat, s: ServerState, m: Msg, from: Endpoint, code: byte)
    requires d.route == Refused(code)
    ensures DownOk(d, bound, Plain(s, m, from, code).sent)
  {
    hide Transmit, C.Block2Of, DownOk;
    assert PiggybackOptions([], 0, Nothing) == [];
    var r := ReplyMsg(s, m, code, [], []);
    NoBlock2(r);
    TransmitAnswer(d, bound, from, r);
  }

  lemma SliceLabel(num: nat, more: bool, format: u16)
    requires num < 0x10_0000
    ensures FindOption(Block2Options(format, Nothing, num, more, BLOCK_SZX), BLOCK2) ==
            Just(BlockBytes(num, more, BLOCK_SZX))
    ensures ReadBlock(BlockBytes(num, more, BLOCK_SZX)) == Just(Block(num, more, BLOCK_SZX))
  {
    hide UintBytes, BlockValue, ReadBlock;
    var os := Block2Options(format, Nothing, num, more, BLOCK_SZX);
    assert os == [UintOpt(CONTENT_FORMAT, format), BlockOpt(BLOCK2, num, more, BLOCK_SZX)];
    FirstIs(os, HasNumber(BLOCK2), 1);
    BlockRoundTrip(num, more, BLOCK_SZX);
  }

  lemma SliceAnswer(d: Download, bound: nat, s: ServerState, m: Msg, from: Endpoint, res: Response, num: nat)
    requires d.route.To? && num <= bound && num < 0x10_0000 && num * SIZE < |d.body| && res.payload == d.body
    ensures DownOk(d, bound, Block2Reply(s, m, from, res, Nothing, num, BLOCK_SZX).sent)
  {
    hide Transmit, DownOk, Slice, Block2Options, ReadBlock, BlockBytes, BlockSize, FindOption, EncodeMsg;
    var more := |d.body| - num * SIZE > SIZE;
    var r := ReplyMsg(s, m, res.code, Block2Options(res.format, Nothing, num, more, BLOCK_SZX),
                      Slice(d.body, num * SIZE, SIZE));
    SliceLabel(num, more, res.format);
    assert C.Block2Of(r) == Just(Block(num, more, BLOCK_SZX));
    TransmitAnswer(d, bound, from, r);
  }

  lemma WholeAnswer(d: Download, bound: nat, s: ServerState, m: Msg, from: Endpoint, res: Response)
    requires d.route.To? && res.payload == d.body && |d.body| <= SIZE
    ensures DownOk(d, bound, Piggyback(s, m, from, res.code, res.payload, res.format, Nothing).sent)
  {
    hide Transmit, DownOk, C.Block2Of, UintBytes, BlockSize;
    var r := ReplyMsg(s, m, res.code, PiggybackOptions(res.payload, res.format, Nothing), res.payload);
    NoBlock2(r);
    TransmitAnswer(d, bound, from, r);
  }

  lemma AskedBlock(d: Download, m: Msg, bound: nat, k: Maybe<nat>)
    requires IsRequest(d, m, bound, k)
    ensures RequestedBlock2(m) == if k.Just? && k.value < 0x10_0000 then Just(Block(k.value, false, BLOCK_SZX))
            else Nothing
    ensures FindOption(m.options, OBSERVE) == Nothing
  {
    hide Segments, ReadBlock, BlockSize, UintBytes, BlockValue;
    if k.Just? {
      B.FindOwnOption(d.path, [BlockOpt(BLOCK2, k.value, false, BLOCK_SZX)], BLOCK2, 0);
      B.FindNoOption(d.path, [BlockOpt(BLOCK2, k.value, false, BLOCK_SZX)], OBSERVE);
      BlockRoundTrip(k.value, false, BLOCK_SZX);
    } else {
      B.FindNoOption(d.path, [], BLOCK2);
      B.FindNoOption(d.path, [], OBSERVE);
    }
  }

  lemma RespondAnswer(d: Download, bound: nat, s: ServerState, m: Msg, from: Endpoint, res: Response, k: Maybe<nat>)
    requires d.route.To? && IsRequest(d, m, bound, k) && res.payload == d.body
    ensures DownOk(d, bound, Respond2(s, m, from, res, Nothing).sent)
  {
    hide IsRequest, DownOk, Block2Reply, Piggyback, Plain, BlockSize, RequestedBlock2;
    AskedBlock(d, m, bound, k);
    AskedBound(d, m, bound, k);
    var b := RequestedBlock2(m);
    var num := if b.Just? then b.value.num else 0;
    assert 0 * SIZE == 0;
    if d.body != [] && (|d.body| > SIZE || b.Just?) {
      SliceAnswer(d, bound, s, m, from, res, num);
    } else {
      WholeAnswer(d, bound, s, m, from, res);
    }
  }

  lemma AskedBound(d: Download, m: Msg, bound: nat, k: Maybe<nat>)
    requires IsRequest(d, m, bound, k)
    ensures k.Just? ==> k.value <= bound && k.value * SIZE < |d.body|
  {
  }

  /** Every request of the download is routed alike. */
  lemma SameRoute(d: Download, s: ServerState, m: Msg, bound: nat, k: Maybe<nat>)
    requires IsRequest(d, m, bound, k)
    ensures RouteOf(s, m) == RouteFor(d, s.resources)
  {
    hide Segments, JoinOptions, CString, UintBytes, FindResource;
    var after := if k.Just? then [BlockOpt(BLOCK2, k.value, false, BLOCK_SZX)] else [];
    assert [] + UriOptions(Segments(d.path)) == UriOptions(Segments(d.path));
    JoinedOptions([], Segments(d.path), after);
  }

  /** A request of the download: answered with a slice, the whole body or a refusal, leaving the server as it was. */
  lemma OwnRequest(d: Download, bound: nat, s: ServerState, m: Msg, from: Endpoint, h: Handler, k: Maybe<nat>)
    requires ServerOk(d, s) && ConstantHandler(d, h) && IsRequest(d, m, bound, k)
    ensures var o := HandleRequest(s, m, from, h);
            DownOk(d, bound, o.sent) && o.state.observers == s.observers && o.state.deferred == s.deferred
  {
    hide DownOk, Plain, HandlePlain, ParamsFor, NoObserver, NoDeferred, PoolForeign, RequestPath, RouteOf, RouteFor,
         FindOption, HandleBlock1;
    SameRoute(d, s, m, bound, k);
    AskedBlock(d, m, bound, k);
    match RouteOf(s, m)
    case Refused(code) => PlainAnswer(d, bound, s, m, from, code);
    case To(idx) =>
      assert !IsUploadBlock(m);
      OwnPlain(d, bound, s, m, from, ParamsFor(s.resources[idx], RequestPath(m)), h, k);
  }

  lemma OwnPlain(d: Download, bound: nat, s: ServerState, m: Msg, from: Endpoint, params: seq<PathParam>, h: Handler,
                 k: Maybe<nat>)
    requires d.route.To? && ConstantHandler(d, h) && IsRequest(d, m, bound, k)
    ensures var o := HandlePlain(s, d.route.idx, m, from, params, Nothing, h);
            DownOk(d, bound, o.sent) && o.state.deferred == s.deferred
  {
    hide DownOk, Respond2, IsRequest;
    var run := RunHandler(s, d.route.idx, m, from, params, Nothing, h);
    RespondAnswer(d, bound, run.state, m, from, run.response, k);
  }

  // ------------------------------------------------------------------ everything else the server does

  lemma ForeignAnswer(d: Download, bound: nat, bytes: seq<byte>)
    requires ForeignTo(d, bytes)
    ensures AnswerOk(d, bound, bytes)
  {
    hide DecodeMsg, C.Received;
  }

  lemma ForeignMsg(d: Download, m: Msg)
    requires ValidMsg(m) && |EncodeMsg(m)| <= MAX_MSG_SIZE && m.token != d.Token()
    ensures ForeignTo(d, EncodeMsg(m))
  {
    hide DecodeMsg, EncodeMsg;
    DecodeEncode(m);
  }

  lemma OtherReplies(d: Download, bound: nat, s: ServerState, m: Msg, from: Endpoint, h: Handler)
    requires KeyOf(from, m) != d.Key()
    ensures DownOk(d, bound, HandleRequest(s, m, from, h).sent)
  {
    hide HandleRequest, Transmit, DownOk, IsAnswer, C.TokenOf, P.Owed, RouteOf;
    P.RequestPays(s, m, from, h);
    var o := HandleRequest(s, m, from, h);
    NothingDown(d, bound);
    if o.sent != [] {
      var r := P.OwedReply(s, m, from, h, o.calls, o.state.deferred != s.deferred);
      assert o.sent == Transmit(from, r);
      if from.Addr() == d.addr {
        OneByteToken(d);
        TransmitAnswer(d, bound, from, r);
      } else {
        SentElsewhere(d, bound, from, r);
      }
    }
  }

  lemma NothingDown(d: Download, bound: nat)
    ensures DownOk(d, bound, [])
  {
  }

  lemma OneByteToken(d: Download)
    ensures |d.Token()| == 1
  {
  }

  lemma SentElsewhere(d: Download, bound: nat, to: Endpoint, m: Msg)
    requires ValidMsg(m) && to.Addr() != d.addr
    ensures DownOk(d, bound, Transmit(to, m))
  {
    hide EncodeMsg;
  }

  lemma RegisterOther(os: seq<Maybe<Observer>>, idx: nat, from: Endpoint, token: Token, mid: u16, key: Key)
    requires NoObserver(os, key) && Key(from.Addr(), token) != key
    ensures NoObserver(Stamp(Register(os, idx, from, token), Key(from.Addr(), token), mid), key)
  {
  }

  lemma ObserveStepOther(s: ServerState, idx: nat, m: Msg, from: Endpoint, key: Key)
    requires idx < |s.resources| && NoObserver(s.observers, key) && KeyOf(from, m) != key
    ensures NoObserver(ObserveStep(s, idx, m, from).observers, key)
  {
    hide FindOption, ReadUint, Stamp, Register;
    RegisterOther(s.observers, idx, from, m.token, m.mid, key);
  }

  lemma {:induction false} RemoveExpiredOther(os: seq<Maybe<Observer>>, fired: seq<Firing>, key: Key)
    requires NoObserver(os, key)
    ensures NoObserver(RemoveExpired(os, fired), key)
  {
    if fired != [] { RemoveExpiredOther(os, fired[..|fired| - 1], key); }
  }

  lemma OtherRequest(d: Download, bound: nat, s: ServerState, m: Msg, from: Endpoint, h: Handler)
    requires ServerOk(d, s) && KeyOf(from, m) != d.Key()
    ensures var o := HandleRequest(s, m, from, h); DownOk(d, bound, o.sent) && ServerOk(d, o.state)
  {
    hide HandleRequest, DownOk, ObserveStep, PoolForeign, FindResource, NoObserver, C.TokenOf, RouteOf;
    OtherReplies(d, bound, s, m, from, h);
    if RouteOf(s, m).To? { ObserveStepOther(s, RouteOf(s, m).idx, m, from, d.Key()); }
  }

  lemma ReceiveDownload(d: Download, bound: nat, s: ServerState, from: Endpoint, m: Msg, h: Handler)
    requires ServerOk(d, s) && ConstantHandler(d, h)
    requires KeyOf(from, m) == d.Key() ==> exists k :: IsRequest(d, m, bound, k)
    ensures var o := ReceiveMsg(s, from, m, h); DownOk(d, bound, o.sent) && ServerOk(d, o.state)
  {
    hide HandleRequest, DownOk, FindResource, RouteFor, C.TokenOf, IsRequest, ForeignTo, ConstantHandler;
    NothingDown(d, bound);
    if !m.typ.RST? && !m.typ.ACK? && IsMethodCode(m.code) {
      if KeyOf(from, m) == d.Key() {
        var k :| IsRequest(d, m, bound, k);
        OwnRequest(d, bound, s, m, from, h, k);
      } else {
        OtherRequest(d, bound, s, m, from, h);
      }
    }
  }

  lemma {:induction false} ResendsForeign(d: Download, bound: nat, p: Slots, now: u32)
    requires PoolForeign(d, p)
    ensures DownOk(d, bound, Resends(Firings(Wrapping, p, now)))
  {
    hide ForeignTo, AnswerOk;
    if p != [] {
      var before := p[..|p| - 1];
      ResendsForeign(d, bound, before, now);
      ResendsConcat(Firings(Wrapping, before, now), Fired(Wrapping, p[|p| - 1], now));
      if p[|p| - 1].Just? && p[|p| - 1].value.remote.Addr() == d.addr {
        ForeignAnswer(d, bound, p[|p| - 1].value.bytes);
      }
    }
  }

  lemma ResendsConcat(a: seq<Firing>, b: seq<Firing>)
    requires |b| <= 1
    ensures Resends(a + b) == Resends(a) + (if b != [] && b[0].Resend? then [Datagram(b[0].remote, b[0].bytes)] else [])
  {
    if b == [] { assert a + b == a; } else { assert (a + b)[..|a|] == a; }
  }

  lemma TickDownload(d: Download, bound: nat, s: ServerState, now: u32)
    requires ServerOk(d, s)
    ensures var o := TickTo(s, now); DownOk(d, bound, o.sent) && ServerOk(d, o.state)
  {
    hide ForeignTo, DownOk, Firings, Resends, FindResource, RouteFor, RemoveExpired, C.TokenOf, NoObserver;
    ResendsForeign(d, bound, s.pool, now);
    RemoveExpiredOther(s.observers, Firings(Wrapping, s.pool, now), d.Key());
    CP.TickedTokens(s.pool, now);
  }

  lemma StartForeign(d: Download, p: Slots, remote: Endpoint, mid: u16, m: Msg, now: nat)
    requires PoolForeign(d, p) && ValidMsg(m) && |EncodeMsg(m)| <= MAX_MSG_SIZE
    requires (remote.Addr() == d.addr ==> m.token != d.Token())
    ensures PoolForeign(d, AfterStart(Wrapping, p, remote, mid, m.token, EncodeMsg(m), now))
  {
    hide ForeignTo, EncodeMsg, C.TokenOf, InitialTimeout;
    if remote.Addr() == d.addr { ForeignMsg(d, m); }
  }

  lemma SendForeign(d: Download, bound: nat, to: Endpoint, m: Msg)
    requires ValidMsg(m) && (to.Addr() == d.addr ==> m.token != d.Token())
    ensures DownOk(d, bound, Transmit(to, m))
  {
    hide Transmit, DownOk, IsAnswer, C.TokenOf;
    if to.Addr() == d.addr { TransmitAnswer(d, bound, to, m); } else { SentElsewhere(d, bound, to, m); }
  }

  lemma NotifyOneDownload(d: Download, bound: nat, s: ServerState, i: nat, idx: nat, payload: seq<byte>, format: u16,
                          confirmable: bool)
    requires ServerOk(d, s) && i < |s.observers| && idx < |s.resources|
    ensures var o := NotifyOne(s, i, idx, payload, format, confirmable);
            DownOk(d, bound, o.sent) && ServerOk(d, o.state)
  {
    hide DownOk, AfterStart, EncodeMsg, FindResource, RouteFor, PoolForeign, C.TokenOf, Transmit;
    NothingDown(d, bound);
    if s.observers[i].Just? {
      var ob := s.observers[i].value;
      var m := Notification(ob, s.nextMid, s.resources[idx].sequence, payload, format, confirmable);
      SendForeign(d, bound, ob.remote, m);
      TransmitFits(ob.remote, m);
      if Transmit(ob.remote, m) != [] { StartForeign(d, s.pool, ob.remote, s.nextMid, m, s.now); }
    }
  }

  lemma TransmitFits(to: Endpoint, m: Msg)
    requires ValidMsg(m)
    ensures Transmit(to, m) != [] ==> |EncodeMsg(m)| <= MAX_MSG_SIZE
  {
    hide EncodeMsg;
  }

  lemma {:induction false} NotifyDownload(d: Download, bound: nat, s: ServerState, k: nat, idx: nat, payload: seq<byte>,
                                          format: u16, confirmable: bool)
    requires ServerOk(d, s) && k <= |s.observers| && idx < |s.resources|
    ensures var o := NotifyUpTo(s, k, idx, payload, format, confirmable);
            DownOk(d, bound, o.sent) && ServerOk(d, o.state)
  {
    hide NotifyOne, ServerOk, AnswerOk;
    if k > 0 {
      NotifyDownload(d, bound, s, k - 1, idx, payload, format, confirmable);
      NotifyOneDownload(d, bound, NotifyUpTo(s, k - 1, idx, payload, format, confirmable).state, k - 1, idx, payload,
                        format, confirmable);
    }
  }

  /** Sequence numbers do not matter to routing. */
  lemma BumpKeepsRoute(d: Download, s: ServerState, idx: nat)
    requires idx < |s.resources|
    ensures RouteFor(d, BumpSequence(s, idx).resources) == RouteFor(d, s.resources)
  {
    hide FindResource, JoinPath, CString, Segments;
    BumpKeepsResource(s, idx, RequestPath(Msg(CON, GET, 0, [], UriOptions(Segments(d.path)), [])));
  }

  lemma BumpKeepsResource(s: ServerState, idx: nat, path: seq<byte>)
    requires idx < |s.resources|
    ensures FindResource(BumpSequence(s, idx).resources, path) == FindResource(s.resources, path)
  {
    hide Matches;
    var rs, qs := s.resources, BumpSequence(s, idx).resources;
    assert forall j :: 0 <= j < |rs| ==> HasExactPath(path)(rs[j]) == HasExactPath(path)(qs[j]);
    assert forall j :: 0 <= j < |rs| ==> HasMatchingTemplate(path)(rs[j]) == HasMatchingTemplate(path)(qs[j]);
    FirstAgrees(rs, HasExactPath(path), qs, HasExactPath(path));
    FirstAgrees(rs, HasMatchingTemplate(path), qs, HasMatchingTemplate(path));
  }

  lemma RespondDownload(d: Download, bound: nat, s: ServerState, handle: nat, code: byte, payload: seq<byte>,
                        format: u16)
    requires ServerOk(d, s)
    ensures var o := Respond(s, handle, code, payload, format); DownOk(d, bound, o.sent) && ServerOk(d, o.state)
  {
    hide DownOk, AfterStart, EncodeMsg, FindResource, RouteFor, PoolForeign, C.TokenOf, Transmit, NoObserver;
    NothingDown(d, bound);
    if handle < |s.deferred| && s.deferred[handle].Just? {
      var df := s.deferred[handle].value;
      var m := SeparateResponse(df, s.nextMid, code, payload, format);
      SendForeign(d, bound, df.remote, m);
      TransmitFits(df.remote, m);
      if Transmit(df.remote, m) != [] { StartForeign(d, s.pool, df.remote, s.nextMid, m, s.now); }
    }
  }

  /** Only registrations that keep the route, a constant handler, and from the client's address only what it sent or
      other tokens. */
  ghost predicate ServerMay(d: Download, s: ServerState, up: set<seq<byte>>, op: ServerOp) {
    && (op.OpAdd? ==> RouteFor(d, ServerStep(s, op).state.resources) == RouteFor(d, s.resources))
    && (op.OpReceive? ==>
          && ConstantHandler(d, op.handler)
          && (op.from.Addr() == d.addr ==> op.bytes in up || ForeignTo(d, op.bytes)))
  }

  lemma ServerKeepsDownload(d: Download, bound: nat, s: ServerState, up: set<seq<byte>>, op: ServerOp)
    requires ServerOk(d, s) && ServerMay(d, s, up, op) && forall w :: w in up ==> RequestOk(d, bound, w)
    ensures var o := ServerStep(s, op); DownOk(d, bound, o.sent) && ServerOk(d, o.state)
  {
    hide DownOk, ReceiveMsg, NotifyUpTo, TickTo, Respond, FindResource, RouteFor, DecodeMsg, C.TokenOf, PoolForeign,
         IsRequest, NoObserver, NoDeferred, ConstantHandler, S.Received, C.Received;
    NothingDown(d, bound);
    match op
    case OpTickTo(now) => TickDownload(d, bound, s, now % WRAP);
    case OpReceive(from, bytes, h) =>
      var r := DecodeMsg(S.Received(bytes));
      B.SameReceived(bytes);
      if r.Decoded? {
        assert bytes in up ==> RequestOk(d, bound, bytes);
        ReceiveDownload(d, bound, s, from, r.msg, h);
      }
    case OpNotify(path, payload, format, confirmable) =>
      if CanNotify(s, path) {
        var idx := FindResource(s.resources, path);
        BumpKeepsRoute(d, s, idx);
        NotifyDownload(d, bound, BumpSequence(s, idx), |s.observers|, idx, payload, format, confirmable);
      }
    case OpRespond(handle, code, payload, format) => RespondDownload(d, bound, s, handle, code, payload, format);
    case OpAdd(_, _, _) =>
  }

  // ------------------------------------------------------------------ the whole system

  /** `up` are the datagrams the client has sent, `down` those the server has sent to the client's address: each may
      be delivered any number of times, in any order, or never. */
  datatype System = System(client: C.ClientState, server: ServerState, up: set<seq<byte>>, down: set<seq<byte>>,
                           events: seq<C.Event>)

  datatype Action = ClientActs(cop: C.ClientOp) | ServerActs(sop: ServerOp)

  function BytesTo(addr: Address, sent: seq<Datagram>): set<seq<byte>> {
    set i | 0 <= i < |sent| && sent[i].remote.Addr() == addr :: sent[i].bytes
  }

  function Next(d: Download, y: System, a: Action): (z: System)
    requires C.Sized(y.client)
    ensures C.Sized(z.client)
  {
    match a
    case ClientActs(op) =>
      var r := C.ClientStep(y.client, op);
      y.(client := r.state, up := y.up + T.Bytes(r.sent), events := y.events + r.events)
    case ServerActs(op) =>
      var o := ServerStep(y.server, op);
      y.(server := o.state, down := y.down + BytesTo(d.addr, o.sent))
  }

  /** The client may do anything but issue the token again, and under the token it only hears this server. */
  ghost predicate Allowed(d: Download, y: System, a: Action) {
    match a
    case ClientActs(op) =>
      if op.OpPoll? then op.incoming.Just? ==> op.incoming.value.bytes in y.down || ForeignTo(d, op.incoming.value.bytes)
      else C.TokenOf(y.client.issued) != d.Token()
    case ServerActs(op) => ServerMay(d, y.server, y.up, op)
  }

  function After(d: Download, y: System, acts: seq<Action>): (z: System)
    requires C.Sized(y.client)
    ensures C.Sized(z.client)
  {
    if acts == [] then y else Next(d, After(d, y, acts[..|acts| - 1]), acts[|acts| - 1])
  }

  ghost predicate AllAllowed(d: Download, y: System, acts: seq<Action>)
    requires C.Sized(y.client)
  {
    acts == []
        || (AllAllowed(d, y, acts[..|acts| - 1]) && Allowed(d, After(d, y, acts[..|acts| - 1]), acts[|acts| - 1]))
  }

  /** The request's outcomes so far: at most one, and none while it is still pending. */
  ghost predicate OnceOk(d: Download, y: System) {
    CP.CountFor(y.events, d.serial) <= 1 && (CP.CountFor(y.events, d.serial) == 1 ==> !CP.Live(y.client, d.serial))
  }

  ghost predicate Safe(d: Download, y: System, bound: nat) {
    && ClientOk(d, y.client, bound)
    && (forall w :: w in y.up ==> RequestOk(d, bound, w))
    && (forall w :: w in y.down ==> AnswerOk(d, bound, w))
    && ServerOk(d, y.server)
    && EventsOk(d, y.events)
    && OnceOk(d, y)
  }

  lemma OneShotOf(d: Download, c: C.ClientState, bound: nat)
    requires ClientOk(d, c, bound)
    ensures CP.OneShot(c, d.serial)
  {
    hide RecvOk, CP.SerialsOk, T.PoolGood;
    forall i: nat | i < |c.pending| && c.pending[i].Just? && c.pending[i].value.serial == d.serial
      ensures !c.pending[i].value.observing {
      assert Owns(c, i, d.serial);
    }
  }

  lemma StillOnce(d: Download, y: System, op: C.ClientOp, bound: nat)
    requires ClientOk(d, y.client, bound) && OnceOk(d, y)
    ensures OnceOk(d, Next(d, y, ClientActs(op)))
  {
    hide CP.CountFor, C.Poll, CP.SerialsOk, T.PoolGood, RecvOk, OnlyRequest, SlotOk;
    var s, r := y.client, C.ClientStep(y.client, op);
    CP.CountConcat(y.events, r.events, d.serial);
    OneShotOf(d, s, bound);
    if op.OpPoll? {
      CP.PollCloses(s, op.now, op.incoming, op.link);
      if CP.Live(r.state, d.serial) { LiveBefore(s, r.state, d.serial); }
    } else {
      CP.OtherIssues(s, op);
      assert y.events + [] == y.events;
      if CP.Live(r.state, d.serial) { LiveUnlessNew(s, r.state, d.serial); }
    }
  }

  lemma LiveBefore(s: C.ClientState, t: C.ClientState, n: nat)
    requires |t.pending| == |s.pending| && CP.Live(t, n) && forall i :: 0 <= i < |s.pending| ==> t.pending[i] == s.pending[i] || t.pending[i].Nothing?
    ensures CP.Live(s, n)
  {
    var i :| 0 <= i < |t.pending| && t.pending[i].Just? && t.pending[i].value.serial == n;
    assert s.pending[i] == t.pending[i];
  }

  lemma LiveUnlessNew(s: C.ClientState, t: C.ClientState, n: nat)
    requires (CP.Issues(s, t, false) || CP.Issues(s, t, true)) && n < s.issued && CP.Live(t, n)
    ensures CP.Live(s, n)
  {
    var i :| 0 <= i < |t.pending| && t.pending[i].Just? && t.pending[i].value.serial == n;
    assert s.pending[i] == t.pending[i];
  }

  lemma ClientSafe(d: Download, y: System, op: C.ClientOp, bound: nat) returns (high: nat)
    requires Safe(d, y, bound) && Allowed(d, y, ClientActs(op))
    ensures Safe(d, Next(d, y, ClientActs(op)), high)
  {
    hide ClientOk, RequestOk, AnswerOk, ServerOk, C.ClientStep, CallbackOk, OnceOk, C.TokenOf, ForeignTo;
    if op.OpPoll? && op.incoming.Just? && ForeignTo(d, op.incoming.value.bytes) {
      ForeignAnswer(d, bound, op.incoming.value.bytes);
    }
    SizedClient(d, y.client, bound);
    high := ClientKeepsDownload(d, bound, y.client, op);
    StillOnce(d, y, op, bound);
    forall w | w in y.up ensures RequestOk(d, high, w) { HigherBound(d, bound, high, w); }
    forall w | w in y.down ensures AnswerOk(d, high, w) { HigherBound(d, bound, high, w); }
  }

  lemma SizedClient(d: Download, c: C.ClientState, bound: nat)
    requires ClientOk(d, c, bound)
    ensures C.Sized(c)
  {
  }

  lemma ServerSafe(d: Download, y: System, op: ServerOp, bound: nat)
    requires C.Sized(y.client) && Safe(d, y, bound) && Allowed(d, y, ServerActs(op))
    ensures Safe(d, Next(d, y, ServerActs(op)), bound)
  {
    hide ClientOk, RequestOk, AnswerOk, ServerOk, ServerStep, CallbackOk, ServerMay, CP.CountFor;
    ServerKeepsDownload(d, bound, y.server, y.up, op);
  }

  /** Block2 safety. Over every run from a safe start, with loss, duplication, reordering, other clients and other
      requests of the same client, the one-shot GET gets at most one outcome, and its response callback carries
      exactly the first min(length, BLOCK2_MAX_BODY) bytes of the resource (or the unfragmented resource). A refused
      GET can only end in that refusal. */
  lemma {:induction false} DownloadIsSafe(d: Download, y: System, acts: seq<Action>, bound: nat) returns (high: nat)
    requires C.Sized(y.client) && Safe(d, y, bound) && AllAllowed(d, y, acts)
    ensures Safe(d, After(d, y, acts), high)
    ensures CP.CountFor(After(d, y, acts).events, d.serial) <= 1 && EventsOk(d, After(d, y, acts).events)
  {
    hide Safe, Next, Allowed;
    if acts == [] {
      high := bound;
    } else {
      var n := |acts| - 1;
      var before := After(d, y, acts[..n]);
      high := DownloadIsSafe(d, y, acts[..n], bound);
      if acts[n].ClientActs? {
        high := ClientSafe(d, before, acts[n].cop, high);
      } else {
        ServerSafe(d, before, acts[n].sop, high);
      }
    }
    SafeMeans(d, After(d, y, acts), high);
  }

  lemma SafeMeans(d: Download, y: System, bound: nat)
    requires Safe(d, y, bound)
    ensures CP.CountFor(y.events, d.serial) <= 1 && EventsOk(d, y.events)
  {
  }

  // ------------------------------------------------------------------ the start

  /** Nothing at the client or on the wire carries the next token, and nothing at the server is bound to it. */
  predicate TokenUnused(d: Download, y: System)
    requires C.Sized(y.client)
  {
    && (forall i :: 0 <= i < |y.client.pending| && y.client.pending[i].Just? ==>
        y.client.pending[i].value.token != d.Token())
    && (forall i :: 0 <= i < |y.client.pool| && y.client.pool[i].Just? ==> ForeignTo(d, y.client.pool[i].value.bytes))
    && (forall w :: w in y.up ==> ForeignTo(d, w))
    && (forall w :: w in y.down ==> ForeignTo(d, w))
  }

  lemma ForeignRequest(d: Download, bytes: seq<byte>)
    requires ForeignTo(d, bytes)
    ensures RequestOk(d, 0, bytes)
  {
    hide DecodeMsg, C.Received, IsRequest;
  }

  /** A one-shot GET issued under an unused token, for a path the server routes to the resource, is a safe start. */
  lemma DownloadStartsSafe(d: Download, y: System, server: Endpoint, confirmable: bool, link: bool)
    requires CP.SerialsOk(y.client) && C.Sized(y.client) && d.serial == y.client.issued && TokenUnused(d, y)
    requires ServerOk(d, y.server) && y.events == [] && Downloadable(d)
    requires C.SendRequest(y.client, server, d.path, GET, [], 0, confirmable, Nothing, false, link).ok
    ensures var r := C.SendRequest(y.client, server, d.path, GET, [], 0, confirmable, Nothing, false, link);
            Safe(d, y.(client := r.state, up := y.up + T.Bytes(r.sent)), 0)
  {
    hide CP.SerialsOk, ServerOk, RequestOk, AnswerOk, C.TokenOf, ForeignTo, C.Track, EncodeMsg, IsRequest,
         C.RequestOptions, Downloadable;
    var s, n := y.client, d.serial;
    var r := C.SendRequest(s, server, d.path, GET, [], 0, confirmable, Nothing, false, link);
    SentOptions(d);
    CP.SendRequestOk(s, server, d.path, GET, [], 0, confirmable, Nothing, false, link);
    FirstOptions(d);
    var m := Msg(if confirmable then CON else NON, GET, s.nextMid, C.TokenOf(n),
                 C.RequestOptions(d.path, [], 0, Nothing).value, []);
    FirstRequest(d, m);
    var good := RequestsOk(d, 0);
    forall i | 0 <= i < |s.pool| && s.pool[i].Just? ensures good(s.pool[i].value.bytes) {
      ForeignRequest(d, s.pool[i].value.bytes);
    }
    TrackOther(d, 0, C.BumpMid(s).(issued := n + 1), n, server, s.nextMid, m);
    StartedClient(d, s, r.state, 0, First(s.pending, IsFree<C.Pending>()));
    forall w | w in y.up ensures RequestOk(d, 0, w) { ForeignRequest(d, w); }
    forall w | w in y.down ensures AnswerOk(d, 0, w) { ForeignAnswer(d, 0, w); }
  }

  lemma FirstOptions(d: Download)
    requires |Segments(d.path)| <= MAX_OPTIONS
    ensures C.RequestOptions(d.path, [], 0, Nothing) == Just(UriOptions(Segments(d.path)))
  {
    hide Segments;
    assert [] + UriOptions(Segments(d.path)) == UriOptions(Segments(d.path));
  }

  lemma SentOptions(d: Download)
    ensures C.RequestOptions(d.path, [], 0, Nothing).Just? ==> |Segments(d.path)| <= MAX_OPTIONS
  {
    hide Segments;
  }

  lemma FirstRequest(d: Download, m: Msg)
    requires m.code == GET && m.token == d.Token() && (m.typ.CON? || m.typ.NON?)
    requires m.options == UriOptions(Segments(d.path))
    ensures IsRequest(d, m, 0, Nothing)
  {
    hide Segments;
    assert m.options == UriOptions(Segments(d.path)) + [];
  }

  lemma StartedClient(d: Download, s: C.ClientState, t: C.ClientState, bound: nat, i: nat)
    requires CP.SerialsOk(s) && C.Sized(s) && d.serial == s.issued && CP.SerialsOk(t) && C.Sized(t)
    requires t.issued == s.issued + 1
    requires forall j :: 0 <= j < |s.pending| && s.pending[j].Just? ==> s.pending[j].value.token != d.Token()
    requires T.PoolGood(RequestsOk(d, bound), t.pool) && bound == 0 && Downloadable(d)
    requires i < |s.pending| && t.uploads[i].Nothing? && !t.recvs[i].active && t.recvs[i].path == C.StoredPath(d.path)
    requires t.pending[i].Just? && t.pending[i].value.serial == d.serial && !t.pending[i].value.observing
    requires forall j :: 0 <= j < |s.pending| && j != i ==> t.pending[j] == s.pending[j]
    ensures ClientOk(d, t, bound)
  {
    hide T.PoolGood, C.TokenOf, Segments, C.StoredPath, Storable, BlockSize;
    StoredSegments(d.path);
    CP.NewSerialUnused(s);
  }

  // ------------------------------------------------------------------ when the follow-ups are faithful

  /** A follow-up request carries the path of the first request exactly when that path can be stored, since one too
      long is replaced by the empty path; and it carries a Block2 label exactly when a full option table does not drop
      it. */
  lemma FollowUpsFaithful(path: seq<byte>, k: nat)
    requires |Segments(path)| <= MAX_OPTIONS
    ensures C.Block2Options(C.StoredPath(path), k, BLOCK_SZX).Just?
    ensures var os := C.Block2Options(C.StoredPath(path), k, BLOCK_SZX).value;
            && (UriOptions(Segments(path)) <= os <==> Storable(path))
            && (FindOption(os, BLOCK2) == Just(BlockBytes(k, false, BLOCK_SZX)) <==> |Segments(C.StoredPath(path))| < MAX_OPTIONS)
  {
    hide Segments, UintBytes, BlockValue, Storable;
    var stored := C.StoredPath(path);
    StoredSegments(path);
    StoredNoLonger(path);
    var tag := BlockOpt(BLOCK2, k, false, BLOCK_SZX);
    FollowUpOptions(stored, k);
    B.FindOwnOption(stored, [tag], BLOCK2, 0);
    B.FindNoOption(stored, [], BLOCK2);
    if stored != path {
      NoSegmentsOfEmpty();
      var uri, os := UriOptions(Segments(path)), C.Block2Options(stored, k, BLOCK_SZX).value;
      assert os == [tag];
      if uri != [] { assert uri[0].number == URI_PATH && os[0].number == BLOCK2; }
    }
  }

  lemma StoredNoLonger(path: seq<byte>)
    ensures |Segments(C.StoredPath(path))| <= |Segments(path)|
  {
    NoSegmentsOfEmpty();
  }

  lemma NoSegmentsOfEmpty()
    ensures Segments([]) == []
  {
  }
}
