/** The server object: tables updated in place by slot-scan loops, proved against the functions of `ServerSpec`. */
module ServerObject {
  import opened Types
  import opened Config
  import opened Codec
  import opened OptionValues
  import opened MessageObject
  import opened Reliability
  import opened Paths
  import opened ServerSpec
  import S = ServerSpec

  class Server {
    var resources: seq<Resource>
    var observers: seq<Maybe<Observer>>
    var deferred: seq<Maybe<Deferred>>
    var sessions: seq<Maybe<Session>>
    const txPool: TransactionPool
    var lastNowMs: u32
    var nextMessageId: u16
    /** Datagrams handed to the transport and handler calls made, oldest first. */
    ghost var sent: seq<Datagram>
    ghost var calls: seq<Call>

    ghost predicate Valid()
      reads this, txPool
    {
      txPool.Valid() && ParamsBounded(resources)
    }

    ghost function State(): ServerState
      reads this, txPool
    {
      ServerState(resources, observers, deferred, sessions, txPool.slots, lastNowMs, nextMessageId)
    }

    constructor ()
      ensures Valid() && fresh(txPool) && State() == InitialServer() && sent == [] && calls == []
    {
      resources, lastNowMs, nextMessageId := [], 0, 1;
      observers, deferred, sessions :=
        FreeSlots<Observer>(MAX_OBSERVERS), FreeSlots<Deferred>(MAX_DEFERRED), FreeSlots<Session>(MAX_BLOCK1_SESSIONS);
      txPool := new TransactionPool();
      sent, calls := [], [];
    }

    /** A template may not have more parameters than the capture table holds. */
    method AddResource(path: seq<byte>, methods: set<byte>, observable: bool) returns (ok: bool)
      requires Valid() && CountParams(Split(path)) <= MAX_PATH_PARAMS
      modifies `resources
      ensures Valid() && State() == S.AddResource(old(State()), path, methods, observable)
      ensures ok <==> |old(resources)| < MAX_RESOURCES
    {
      hide Split, CountParams;
      if |resources| >= MAX_RESOURCES { return false; }
      resources := resources + [Resource(path, methods, observable, 0)];
      return true;
    }

    // ---------------------------------------------------------------- observers

    method RegisterObserver(idx: nat, from: Endpoint, token: Token)
      modifies `observers
      ensures observers == Register(old(observers), idx, from, token)
    {
      var wanted := HasObserverKey(Key(from.Addr(), token));
      for i := 0 to |observers|
        invariant observers == old(observers) && First(observers, wanted) == First(observers, wanted, i)
      {
        if observers[i].Just? && observers[i].value.Id() == Key(from.Addr(), token) {
          observers := observers[i := Just(observers[i].value.(resource := idx))];
          return;
        }
      }
      for i := 0 to |observers|
        invariant observers == old(observers)
        invariant First(observers, IsFree<Observer>()) == First(observers, IsFree<Observer>(), i)
      {
        if observers[i].Nothing? {
          observers := observers[i := Just(Observer(idx, from, token, 0))];
          return;
        }
      }
    }

    method StampObserver(key: Key, mid: u16)
      modifies `observers
      ensures observers == Stamp(old(observers), key, mid)
    {
      for i := 0 to |observers|
        invariant observers == old(observers)
        invariant First(observers, HasObserverKey(key)) == First(observers, HasObserverKey(key), i)
      {
        if observers[i].Just? && observers[i].value.Id() == key {
          observers := observers[i := Just(observers[i].value.(lastMid := mid))];
          break;
        }
      }
    }

    /** Frees every slot with this key. */
    method RemoveObserver(key: Key)
      modifies `observers
      ensures observers == RemoveKey(old(observers), key)
    {
      for i := 0 to |observers|
        invariant |observers| == |old(observers)|
        invariant forall j :: 0 <= j < i ==> observers[j] == if HasObserverKey(key)(old(observers)[j]) then Nothing
                  else old(observers)[j]
        invariant forall j :: i <= j < |observers| ==> observers[j] == old(observers)[j]
      {
        if observers[i].Just? && observers[i].value.Id() == key { observers := observers[i := Nothing]; }
      }
    }

    method RemoveByReset(addr: Address, mid: u16)
      modifies `observers
      ensures var i := First(old(observers), HasLastMid(addr, mid));
              observers == if i < 0 then old(observers) else old(observers)[i := Nothing]
    {
      for i := 0 to |observers|
        invariant observers == old(observers)
        invariant First(observers, HasLastMid(addr, mid)) == First(observers, HasLastMid(addr, mid), i)
      {
        if observers[i].Just? && observers[i].value.remote.Addr() == addr && observers[i].value.lastMid == mid {
          observers := observers[i := Nothing];
          break;
        }
      }
    }

    // ---------------------------------------------------------------- sending

    /** Encodes and sends; a message that does not fit is dropped. */
    method Send(to: Endpoint, msg: Message) returns (bytes: Maybe<seq<byte>>)
      requires msg.Valid() && !msg.HasNull()
      modifies `sent
      ensures sent == old(sent) + Transmit(to, msg.Value())
      ensures bytes == if Transmit(to, msg.Value()) != [] then Just(EncodeMsg(msg.Value())) else Nothing
    {
      hide EncodeMsg;
      bytes := msg.ToBytes();
      if bytes.Just? { sent := sent + [Datagram(to, bytes.value)]; }
    }

    /** The reply to a request: an ACK with its message ID for CON, a NON with an ID of its own for NON. */
    method NewReply(req: Msg, code: byte) returns (msg: Message)
      modifies `nextMessageId
      ensures fresh(msg) && msg.Valid() && !msg.HasNull() && msg.options == []
      ensures msg.Value() == ReplyMsg(old(State()), req, code, [], [])
      ensures nextMessageId == if req.typ.CON? then old(nextMessageId) else (old(nextMessageId) + 1) % 0x1_0000
    {
      if req.typ.CON? {
        msg := NewMessage(ACK, code, req.mid, req.token);
      } else {
        msg := NewMessage(NON, code, nextMessageId, req.token);
        nextMessageId := (nextMessageId + 1) % 0x1_0000;
      }
    }

    method SendPiggybacked(req: Msg, to: Endpoint, code: byte, payload: seq<byte>, format: u16, observe: Maybe<u32>)
      modifies `sent, `nextMessageId
      ensures var o := Piggyback(old(State()), req, to, code, payload, format, observe);
              State() == o.state && sent == old(sent) + o.sent
    {
      hide Transmit, PiggybackOptions, Message.Valid, Message.Value, Message.HasNull;
      var msg := NewReply(req, code);
      AddPiggybackOptions(msg, payload, format, observe);
      if payload != [] { msg.StorePayload(payload); }
      var _ := Send(to, msg);
    }

    static method AddPiggybackOptions(msg: Message, payload: seq<byte>, format: u16, observe: Maybe<u32>)
      requires msg.Valid() && !msg.HasNull() && msg.options == []
      modifies msg`options, msg`lastNumber, msg`scratch
      ensures msg.Valid() && !msg.HasNull()
      ensures msg.Value() == old(msg.Value()).(options := PiggybackOptions(payload, format, observe))
    {
      hide UintBytes;
      if observe.Just? { var _ := msg.AddOptionUint(OBSERVE, observe.value); }
      if payload != [] { var _ := msg.AddOptionUint(CONTENT_FORMAT, format); }
    }

    /** 2.31 Continue, echoing a block number. */
    method SendContinue(req: Msg, to: Endpoint, num: nat, more: bool, szx: nat)
      modifies `sent, `nextMessageId
      ensures var o := Reply(old(State()), req, to, CONTINUE, [BlockOpt(BLOCK1, num, more, szx)], []);
              State() == o.state && sent == old(sent) + o.sent
    {
      hide Transmit, UintBytes, BlockValue;
      var msg := NewReply(req, CONTINUE);
      var _ := msg.AddOptionUint(BLOCK1, BlockValue(num, more, szx));
      assert msg.Options() == [BlockOpt(BLOCK1, num, more, szx)];
      var _ := Send(to, msg);
    }

    method SendBlock2(req: Msg, to: Endpoint, res: Response, observe: Maybe<u32>, num: nat, szx: nat)
      requires num * BlockSize(szx) < |res.payload|
      modifies `sent, `nextMessageId
      ensures var o := Block2Reply(old(State()), req, to, res, observe, num, szx);
              State() == o.state && sent == old(sent) + o.sent
    {
      hide Reply, S.Block2Options, BlockSize;
      var offset, size := num * BlockSize(szx), BlockSize(szx);
      var remaining := |res.payload| - offset;
      var blockLen := if remaining > size then size else remaining;
      assert res.payload[offset..offset + blockLen] == Slice(res.payload, offset, size);
      SendFragment(req, to, res.code, res.format, observe, num, remaining > size, szx,
                   res.payload[offset..offset + blockLen]);
    }

    method SendFragment(req: Msg, to: Endpoint, code: byte, format: u16, observe: Maybe<u32>, num: nat, more: bool,
                        szx: nat, payload: seq<byte>)
      modifies `sent, `nextMessageId
      ensures var o := Reply(old(State()), req, to, code, S.Block2Options(format, observe, num, more, szx), payload);
              State() == o.state && sent == old(sent) + o.sent
    {
      hide Transmit, S.Block2Options, Message.Valid, Message.Value, Message.HasNull;
      var msg := NewReply(req, code);
      AddBlock2Options(msg, format, observe, num, more, szx);
      msg.StorePayload(payload);
      var _ := Send(to, msg);
    }

    static method AddBlock2Options(msg: Message, format: u16, observe: Maybe<u32>, num: nat, more: bool, szx: nat)
      requires msg.Valid() && !msg.HasNull() && msg.options == []
      modifies msg`options, msg`lastNumber, msg`scratch
      ensures msg.Valid() && !msg.HasNull()
      ensures msg.Value() == old(msg.Value()).(options := Block2Options(format, observe, num, more, szx))
    {
      hide UintBytes, BlockValue;
      if observe.Just? { var _ := msg.AddOptionUint(OBSERVE, observe.value); }
      var _ := msg.AddOptionUint(CONTENT_FORMAT, format);
      var _ := msg.AddOptionUint(BLOCK2, BlockValue(num, more, szx));
    }

    method AcknowledgeDeferral(m: Msg, from: Endpoint)
      modifies `sent
      ensures sent == old(sent) + AckDeferral(m, from)
    {
      hide Transmit;
      if m.typ.CON? {
        var ack := NewMessage(ACK, EMPTY, m.mid, []);
        var _ := Send(from, ack);
      }
    }

    // ---------------------------------------------------------------- sessions

    method FindSession(key: Key) returns (i: int)
      ensures i == SessionSlot(sessions, key)
    {
      for j := 0 to |sessions|
        invariant First(sessions, HasSessionKey(key)) == First(sessions, HasSessionKey(key), j)
      {
        if sessions[j].Nothing? { continue; }
        if sessions[j].value.Id() == key { return j; }
      }
      return -1;
    }

    // ---------------------------------------------------------------- handlers

    /** Calls the handler with the lowest deferred slot reserved, and gives the slot back unless the handler defers. */
    method CallHandler(idx: nat, m: Msg, from: Endpoint, params: seq<PathParam>, body: Maybe<seq<byte>>, h: Handler)
      returns (res: Response, kept: bool)
      modifies `deferred, `calls
      ensures var run := RunHandler(old(State()), idx, m, from, params, body, h);
              State() == run.state && res == run.response && kept == run.kept && calls == old(calls) + [run.call]
    {
      var d := AllocateSlot(deferred);
      if d >= 0 { deferred := deferred[d := Just(Deferred(from, m.token, m.typ.CON?))]; }
      var req := Request(m.code, m, from, if d >= 0 then Just(d) else Nothing, body, params);
      res := h(idx, req);
      calls := calls + [Call(idx, req)];
      kept := res.deferred && d >= 0;
      if !kept && d >= 0 {
        deferred := deferred[d := Nothing];
        assert deferred == old(deferred);
      }
    }

    method HandleUpload(idx: nat, m: Msg, from: Endpoint, params: seq<PathParam>, observe: Maybe<u32>, value: seq<byte>,
                        h: Handler)
      modifies `sent, `calls, `nextMessageId, `deferred, `sessions
      ensures var o := HandleBlock1(old(State()), idx, m, from, params, observe, value, h);
              State() == o.state && sent == old(sent) + o.sent && calls == old(calls) + o.calls
    {
      hide Plain, AcceptBlock, ReadBlock;
      var b := ReadBlock(value);
      if b.Nothing? { Refuse(m, from, BAD_OPTION); return; }
      var i := FindSession(KeyOf(from, m));
      if i < 0 {
        if b.value.num != 0 { Refuse(m, from, REQUEST_ENTITY_INCOMPLETE); return; }
        i := AllocateSlot(sessions);
        if i < 0 { Refuse(m, from, SERVICE_UNAVAILABLE); return; }
        sessions := sessions[i := Just(Session(from, m.token, 0, []))];
      }
      TakeBlock(i, idx, m, from, params, observe, b.value, h);
    }

    method Refuse(m: Msg, from: Endpoint, code: byte)
      modifies `sent, `nextMessageId
      ensures var o := Plain(old(State()), m, from, code); State() == o.state && sent == old(sent) + o.sent
    {
      hide Piggyback;
      SendPiggybacked(m, from, code, [], 0, Nothing);
    }

    method TakeBlock(i: nat, idx: nat, m: Msg, from: Endpoint, params: seq<PathParam>, observe: Maybe<u32>, b: Block,
                     h: Handler)
      requires i < |sessions| && sessions[i].Just?
      modifies `sent, `calls, `nextMessageId, `deferred, `sessions
      ensures var o := AcceptBlock(old(State()), i, idx, m, from, params, observe, b, h);
              State() == o.state && sent == old(sent) + o.sent && calls == old(calls) + o.calls
    {
      hide Reply, Plain, FinishUpload, BlockOpt;
      var sess := sessions[i].value;
      if b.num != sess.next {
        SendContinue(m, from, (sess.next - 1) % WRAP, true, b.szx);
        return;
      }
      if |sess.body| + |m.payload| > BLOCK1_MAX_BODY {
        sessions := sessions[i := Nothing];
        Refuse(m, from, REQUEST_ENTITY_TOO_LARGE);
        return;
      }
      sessions := sessions[i := Just(sess.(next := sess.next + 1, body := sess.body + m.payload))];
      if b.more {
        SendContinue(m, from, b.num, false, b.szx);
        return;
      }
      CompleteUpload(i, idx, m, from, params, observe, sess.body + m.payload, h);
    }

    method CompleteUpload(i: nat, idx: nat, m: Msg, from: Endpoint, params: seq<PathParam>, observe: Maybe<u32>,
                          body: seq<byte>, h: Handler)
      requires i < |sessions|
      modifies `sent, `calls, `nextMessageId, `deferred, `sessions
      ensures var o := FinishUpload(old(State()), i, idx, m, from, params, observe, body, h);
              State() == o.state && sent == old(sent) + o.sent && calls == old(calls) + o.calls
    {
      hide Piggyback, AckDeferral;
      var res, kept := CallHandler(idx, m, from, params, Just(body), h);
      sessions := sessions[i := Nothing];
      if kept { AcknowledgeDeferral(m, from); return; }
      SendPiggybacked(m, from, res.code, res.payload, res.format, observe);
    }

    method HandleInline(idx: nat, m: Msg, from: Endpoint, params: seq<PathParam>, observe: Maybe<u32>, h: Handler)
      modifies `sent, `calls, `nextMessageId, `deferred
      ensures var o := HandlePlain(old(State()), idx, m, from, params, observe, h);
              State() == o.state && sent == old(sent) + o.sent && calls == old(calls) + o.calls
    {
      hide AckDeferral, Piggyback, Plain, Block2Reply, RequestedBlock2, BlockSize;
      var res, kept := CallHandler(idx, m, from, params, Nothing, h);
      if kept { AcknowledgeDeferral(m, from); return; }
      if |res.payload| > 0 {
        var b := RequestedBlock2(m);
        var szx := if b.Just? then b.value.szx else BLOCK_SZX;
        var num := if b.Just? then b.value.num else 0;
        var offset := num * BlockSize(szx);
        if |res.payload| > BlockSize(szx) || b.Just? {
          if offset >= |res.payload| { Refuse(m, from, BAD_REQUEST); return; }
          SendBlock2(m, from, res, observe, num, szx);
          return;
        }
      }
      SendPiggybacked(m, from, res.code, res.payload, res.format, observe);
    }

    // ---------------------------------------------------------------- dispatch

    method HandleRequest(m: Msg, from: Endpoint, h: Handler)
      requires Valid()
      modifies `sent, `calls, `nextMessageId, `deferred, `sessions, `observers
      ensures Valid()
      ensures var o := S.HandleRequest(old(State()), m, from, h);
              State() == o.state && sent == old(sent) + o.sent && calls == old(calls) + o.calls
    {
      hide Plain, S.Dispatch, JoinPath, CString, FindResource, ParamsBounded;
      if |JoinPath(m.options)| >= MAX_URI_PATH_LEN { Refuse(m, from, BAD_OPTION); return; }
      var idx, params := LookUp(resources, CString(JoinPath(m.options)));
      if idx < 0 { Refuse(m, from, NOT_FOUND); return; }
      if m.code !in {GET, POST, PUT, DELETE} { Refuse(m, from, NOT_IMPLEMENTED); return; }
      if m.code !in resources[idx].methods { Refuse(m, from, METHOD_NOT_ALLOWED); return; }
      Dispatch(idx, params, m, from, h);
    }

    /** Observe bookkeeping; gives the Observe value of the response. */
    method HandleObserve(idx: nat, m: Msg, from: Endpoint) returns (observe: Maybe<u32>)
      requires idx < |resources|
      modifies `observers
      ensures State() == ObserveStep(old(State()), idx, m, from) && observe == ObserveValue(old(State()), idx, m)
    {
      hide Register, Stamp, RemoveKey, ReadUint, FindOption;
      observe := Nothing;
      var resource := resources[idx];
      var option := FindOption(m.options, OBSERVE);
      if resource.observable && m.code == GET && option.Just? {
        if ReadUint(option.value) == 0 {
          RegisterObserver(idx, from, m.token);
          if resource.sequence < 0x8000_0000 { observe := Just(resource.sequence); }
          StampObserver(KeyOf(from, m), m.mid);
        } else {
          RemoveObserver(KeyOf(from, m));
        }
      }
    }

    method Dispatch(idx: nat, params: seq<PathParam>, m: Msg, from: Endpoint, h: Handler)
      requires Valid() && idx < |resources| && params == ParamsFor(resources[idx], RequestPath(m))
      modifies `sent, `calls, `nextMessageId, `deferred, `sessions, `observers
      ensures Valid()
      ensures var o := S.Dispatch(old(State()), idx, m, from, h);
              State() == o.state && sent == old(sent) + o.sent && calls == old(calls) + o.calls
    {
      hide HandleBlock1, HandlePlain, ObserveStep, ObserveValue, RequestPath, ParamsFor, FindOption, ParamsBounded;
      var observe := HandleObserve(idx, m, from);
      var block1Opt := FindOption(m.options, BLOCK1);
      if block1Opt.Just? && (m.code == PUT || m.code == POST) {
        HandleUpload(idx, m, from, params, observe, block1Opt.value, h);
      } else {
        HandleInline(idx, m, from, params, observe, h);
      }
    }

    // ---------------------------------------------------------------- poll

    /** Retransmissions and timeouts, then at most one datagram. */
    method Poll(now: u32, incoming: Maybe<Datagram>, h: Handler)
      requires Valid()
      modifies this, txPool
      ensures Valid()
      ensures var t := TickTo(old(State()), now);
              var o := if incoming.Just? then S.Receive(t.state, incoming.value.remote, incoming.value.bytes, h)
                  else Outcome(t.state, [], []);
              State() == o.state && sent == old(sent) + t.sent + o.sent && calls == old(calls) + o.calls
    {
      hide TickTo, S.Receive;
      Tick(now);
      if incoming.Just? { Receive(incoming.value.remote, incoming.value.bytes, h); }
    }

    method Tick(now: u32)
      requires Valid()
      modifies this, txPool
      ensures Valid()
      ensures var t := TickTo(old(State()), now);
              State() == t.state && sent == old(sent) + t.sent && calls == old(calls)
    {
      hide RemoveKey, AfterTick, Firings, CountParams, Split;
      lastNowMs := now;
      var fired := txPool.Tick(now);
      for i := 0 to |fired|
        invariant txPool.Valid() && txPool.slots == AfterTick(Wrapping, old(txPool.slots), now) && lastNowMs == now
        invariant unchanged(`resources) && unchanged(`deferred) && unchanged(`sessions) && unchanged(`nextMessageId)
        invariant unchanged(`calls)
        invariant observers == RemoveExpired(old(observers), fired[..i])
        invariant sent == old(sent) + Resends(fired[..i])
      {
        assert fired[..i + 1][..i] == fired[..i];
        match fired[i] {
          case Resend(remote, bytes) => sent := sent + [Datagram(remote, bytes)];
          case Expire(remote, token) => RemoveObserver(Key(remote.Addr(), token));
        }
      }
      assert fired[..|fired|] == fired;
    }

    method Receive(from: Endpoint, bytes: seq<byte>, h: Handler)
      requires Valid()
      modifies this, txPool
      ensures Valid()
      ensures var o := S.Receive(old(State()), from, bytes, h);
              State() == o.state && sent == old(sent) + o.sent && calls == old(calls) + o.calls
    {
      hide S.HandleRequest, DecodeMsg, AfterComplete, S.Received, CountParams, Split;
      var d := Parse(S.Received(bytes));
      if d.Rejected? { return; }
      var m := d.msg;
      if m.typ.RST? { RemoveByReset(from.Addr(), m.mid); return; }
      if m.typ.ACK? { var _ := txPool.Complete(from, m.mid); return; }
      if IsMethodCode(m.code) { HandleRequest(m, from, h); }
    }

    // ---------------------------------------------------------------- notify and respond

    method Notify(path: seq<byte>, payload: seq<byte>, format: u16, confirmable: bool) returns (ok: bool)
      requires Valid()
      modifies this, txPool
      ensures Valid()
      ensures ok <==> CanNotify(old(State()), path)
      ensures var o := S.Notify(old(State()), path, payload, format, confirmable);
              State() == o.state && sent == old(sent) + o.sent && calls == old(calls)
    {
      hide NotifyUpTo, FindResource, CountParams, Split;
      var idx, _ := LookUp(resources, path);
      if idx < 0 || !resources[idx].observable { return false; }
      var r := resources[idx];
      resources := resources[idx := r.(sequence := (r.sequence + 1) % WRAP)];
      assert State() == BumpSequence(old(State()), idx);
      NotifyAll(idx, payload, format, confirmable);
      return true;
    }

    method NotifyAll(idx: nat, payload: seq<byte>, format: u16, confirmable: bool)
      requires Valid() && idx < |resources|
      modifies this, txPool
      ensures Valid() && calls == old(calls)
      ensures NotifiedUpTo(old(State()), |old(observers)|, idx, payload, format, confirmable, old(sent))
    {
      hide NotifyOne, NotifyUpTo, ParamsBounded;
      ghost var s := State();
      NotifyNone(s, idx, payload, format, confirmable);
      for i := 0 to |observers|
        invariant Valid() && calls == old(calls) && |observers| == |s.observers| && |resources| == |s.resources|
        invariant NotifiedUpTo(s, i, idx, payload, format, confirmable, old(sent))
      {
        NotifyOneMore(s, i, idx, payload, format, confirmable);
        NotifySlot(i, idx, payload, format, confirmable);
      }
    }

    /** The first `k` observers have been notified, starting from `s`. */
    ghost predicate NotifiedUpTo(s: ServerState, k: nat, idx: nat, payload: seq<byte>, format: u16, confirmable: bool,
                                 start: seq<Datagram>)
      requires k <= |s.observers| && idx < |s.resources|
      reads this, txPool
    {
      var o := NotifyUpTo(s, k, idx, payload, format, confirmable);
      State() == o.state && sent == start + o.sent
    }

    method NotifySlot(i: nat, idx: nat, payload: seq<byte>, format: u16, confirmable: bool)
      requires Valid() && i < |observers| && idx < |resources|
      modifies this, txPool
      ensures Valid() && calls == old(calls) && |observers| == |old(observers)| && resources == old(resources)
      ensures var o := NotifyOne(old(State()), i, idx, payload, format, confirmable);
              State() == o.state && sent == old(sent) + o.sent
    {
      hide EncodeMsg, Transmit, AfterStart, UintBytes, ParamsBounded;
      if observers[i].Nothing? || observers[i].value.resource != idx { return; }
      var o, mid := observers[i].value, nextMessageId;
      var msg := BuildNotification(o, mid, resources[idx].sequence, payload, format, confirmable);
      nextMessageId := (nextMessageId + 1) % 0x1_0000;
      observers := observers[i := Just(o.(lastMid := mid))];
      var bytes := Send(o.remote, msg);
      if bytes.Just? && confirmable { var _ := txPool.Start(o.remote, mid, o.token, bytes.value, lastNowMs); }
    }

    static method BuildNotification(o: Observer, mid: u16, sequence: u32, payload: seq<byte>, format: u16,
                                    confirmable: bool) returns (msg: Message)
      ensures fresh(msg) && msg.Valid() && !msg.HasNull()
      ensures msg.Value() == Notification(o, mid, sequence, payload, format, confirmable)
    {
      hide UintBytes;
      msg := NewMessage(if confirmable then CON else NON, CONTENT, mid, o.token);
      var _ := msg.AddOptionUint(OBSERVE, sequence);
      var _ := msg.AddOptionUint(CONTENT_FORMAT, format);
      msg.StorePayload(payload);
      assert msg.Options() == [UintOpt(OBSERVE, sequence), UintOpt(CONTENT_FORMAT, format)];
    }

    /** Answers a deferred request with a message of its own and frees its slot, even if the answer does not fit. */
    method Respond(handle: nat, code: byte, payload: seq<byte>, format: u16) returns (ok: bool)
      requires Valid()
      modifies this, txPool
      ensures Valid() && calls == old(calls)
      ensures var o := S.Respond(old(State()), handle, code, payload, format);
              State() == o.state && sent == old(sent) + o.sent && (ok <==> o.sent != [])
    {
      hide EncodeMsg, Transmit, AfterStart, UintBytes, ParamsBounded;
      if handle >= |deferred| || deferred[handle].Nothing? { return false; }
      var d, mid := deferred[handle].value, nextMessageId;
      var msg := BuildSeparate(d, mid, code, payload, format);
      nextMessageId := (nextMessageId + 1) % 0x1_0000;
      var bytes := Send(d.remote, msg);
      if bytes.Just? && d.wasConfirmable { var _ := txPool.Start(d.remote, mid, d.token, bytes.value, lastNowMs); }
      deferred := deferred[handle := Nothing];
      return bytes.Just?;
    }

    static method BuildSeparate(d: Deferred, mid: u16, code: byte, payload: seq<byte>, format: u16)
      returns (msg: Message)
      ensures fresh(msg) && msg.Valid() && !msg.HasNull()
      ensures msg.Value() == SeparateResponse(d, mid, code, payload, format)
    {
      hide UintBytes;
      msg := NewMessage(if d.wasConfirmable then CON else NON, code, mid, d.token);
      if payload != [] {
        var _ := msg.AddOptionUint(CONTENT_FORMAT, format);
        msg.StorePayload(payload);
      }
      assert msg.Options() == if payload != [] then [UintOpt(CONTENT_FORMAT, format)] else [];
    }
  }

  lemma NotifyNone(s: ServerState, idx: nat, payload: seq<byte>, format: u16, confirmable: bool)
    requires idx < |s.resources|
    ensures NotifyUpTo(s, 0, idx, payload, format, confirmable) == Outcome(s, [], [])
  {
  }

  lemma NotifyOneMore(s: ServerState, i: nat, idx: nat, payload: seq<byte>, format: u16, confirmable: bool)
    requires i < |s.observers| && idx < |s.resources|
    ensures var before := NotifyUpTo(s, i, idx, payload, format, confirmable);
            var last := NotifyOne(before.state, i, idx, payload, format, confirmable);
            var after := NotifyUpTo(s, i + 1, idx, payload, format, confirmable);
            after.state == last.state && after.sent == before.sent + last.sent
  {
    hide NotifyOne;
  }
}
