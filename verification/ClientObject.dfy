/** The client object: slots updated in place by scan loops, messages built option by option, proved against the
    functions of `ClientSpec`. */
module ClientObject {
  import opened Types
  import opened Config
  import opened Codec
  import opened OptionValues
  import opened MessageObject
  import opened Reliability
  import opened Paths
  import opened ClientSpec
  import S = ClientSpec

  // ------------------------------------------------------------------ building requests

  /** A single request; Nothing when the path does not fit the option table or the message does not fit the buffer. */
  method BuildRequest(typ: MsgType, code: byte, mid: u16, token: Token, observe: Maybe<u32>, path: seq<byte>,
                      payload: seq<byte>, format: u16) returns (bytes: Maybe<seq<byte>>)
    ensures bytes == RequestBytes(typ, code, mid, token, observe, path, payload, format)
  {
    hide Segments, UriOptions, EncodeMsg, UintBytes;
    var msg := NewMessage(typ, code, mid, token);
    if observe.Just? { var _ := msg.AddOptionUint(OBSERVE, observe.value); }
    assert msg.Options() == if observe.Just? then [UintOpt(OBSERVE, observe.value)] else [];
    var ok := AddUriPathOptions(msg, path);
    if !ok { return Nothing; }
    if payload != [] {
      var _ := msg.AddOptionUint(CONTENT_FORMAT, format);
      msg.StorePayload(payload);
    }
    bytes := msg.ToBytes();
  }

  /** The bytes of a message that fits the buffer. */
  function Wire(m: Msg): Maybe<seq<byte>>
    requires ValidMsg(m)
  {
    if Fits(m) then Just(EncodeMsg(m)) else Nothing
  }

  function RequestBytes(typ: MsgType, code: byte, mid: u16, token: Token, observe: Maybe<u32>, path: seq<byte>,
                        payload: seq<byte>, format: u16): Maybe<seq<byte>>
  {
    var os := RequestOptions(path, payload, format, observe);
    if os.Nothing? then Nothing else Wire(Msg(typ, code, mid, token, os.value, payload))
  }

  /** The request for block `nextNum` of an upload. */
  method BuildBlock1(up: Upload, mid: u16) returns (bytes: Maybe<seq<byte>>)
    requires BlockOffset(up) < |up.payload|
    ensures var m := BlockRequest(up, mid); bytes == if m.Nothing? then Nothing else Wire(m.value)
  {
    hide Segments, UriOptions, EncodeMsg, UintBytes, BlockSize;
    var size, offset := BlockSize(up.szx), BlockOffset(up);
    var remaining := |up.payload| - offset;
    var blockLen := if remaining > size then size else remaining;
    var more := remaining > size;
    var msg := NewMessage(CON, up.verb, mid, [up.token]);
    var ok := AddUriPathOptions(msg, up.path);
    if !ok { return Nothing; }
    assert msg.Options() == UriOptions(Segments(up.path));
    ok := msg.AddOptionUint(CONTENT_FORMAT, up.format);
    ok := msg.AddOptionUint(BLOCK1, BlockValue(up.nextNum, more, up.szx));
    msg.StorePayload(up.payload[offset..offset + blockLen]);
    assert up.payload[offset..offset + blockLen] == BlockPayload(up);
    bytes := msg.ToBytes();
  }

  method BuildBlock2(path: seq<byte>, num: nat, szx: nat, mid: u16, token: Token) returns (bytes: Maybe<seq<byte>>)
    ensures var os := Block2Options(path, num, szx); bytes == if os.Nothing? then Nothing
            else Wire(Msg(CON, GET, mid, token, os.value, []))
  {
    hide Segments, UriOptions, EncodeMsg, UintBytes;
    var msg := NewMessage(CON, GET, mid, token);
    var ok := AddUriPathOptions(msg, path);
    if !ok { return Nothing; }
    assert msg.Options() == [] + UriOptions(Segments(path));
    ok := msg.AddOptionUint(BLOCK2, BlockValue(num, false, szx));
    bytes := msg.ToBytes();
  }

  // ------------------------------------------------------------------ the object

  /** What `allocatePending` puts in the slot it reserves. */
  function Blank(): Pending {
    Pending(0, Endpoint([], [], false, 0), [], false, [])
  }

  lemma NextTokenByte(n: nat)
    ensures TokenByte(n + 1) == (TokenByte(n) + 1) % 0x100
  {
  }

  /** Starting a transaction does not look at the pending slots. */
  lemma TrackElsewhere(s: ClientState, pending: seq<Maybe<Pending>>, serial: nat, remote: Endpoint, mid: u16,
                       token: Token, bytes: seq<byte>)
    requires |s.txSerial| == |s.pool|
    ensures Track(s.(pending := pending), serial, remote, mid, token, bytes) ==
            Track(s, serial, remote, mid, token, bytes).(pending := pending)
  {
  }

  /** `sendRequest` with a slot reserved, told by the bytes that go out. */
  function SendingRequest(s: ClientState, server: Endpoint, path: seq<byte>, confirmable: bool, observing: bool,
                          link: bool,
                          slot: nat, bytes: Maybe<seq<byte>>): (r: Result)
    requires Sized(s) && slot < |s.pending|
  {
    var s1 := BumpMid(s).(issued := s.issued + 1);
    if bytes.Nothing? || !link then Result(s1, [], [], false)
    else
      var s2 := if confirmable then Track(s1, s.issued, server, s.nextMid, TokenOf(s.issued), bytes.value) else s1;
      Result(Occupied(s2, slot, Pending(s.issued, server, TokenOf(s.issued), observing, StoredPath(path))),
             [Datagram(server, bytes.value)], [], true)
  }

  lemma SendRequestOutcome(s: ClientState, server: Endpoint, path: seq<byte>, verb: byte, payload: seq<byte>,
                           format: u16,
                           confirmable: bool, observe: Maybe<u32>, observing: bool, link: bool, slot: nat)
    requires Sized(s) && slot == First(s.pending, IsFree<Pending>())
    ensures var bytes := RequestBytes(if confirmable then CON else NON, verb, s.nextMid, TokenOf(s.issued), observe,
                                      path, payload, format);
            S.SendRequest(s, server, path, verb, payload, format, confirmable, observe, observing, link)
              == SendingRequest(s, server, path, confirmable, observing, link, slot, bytes)
  {
    hide First, RequestOptions, EncodeMsg, Track, TokenOf, StoredPath;
  }

  lemma NoFreeSlot(s: ClientState, server: Endpoint, path: seq<byte>, verb: byte, payload: seq<byte>, format: u16,
                   confirmable: bool, observe: Maybe<u32>, markObserving: bool, link: bool)
    requires Sized(s) && First(s.pending, IsFree<Pending>()) < 0
    ensures S.SendRequest(s, server, path, verb, payload, format, confirmable, observe, markObserving, link) ==
            Result(s, [], [], false)
  {
  }

  class Client {
    var pending: seq<Maybe<Pending>>
    var discovers: seq<Maybe<Discovery>>
    var uploads: seq<Maybe<Upload>>
    var recvs: seq<Recv>
    const transactions: TransactionPool
    ghost var txSerial: seq<nat>
    var lastNowMs: u32
    var nextMessageId: u16
    var nextTokenByte: byte
    /** Tokens given out so far; names a request in place of its callback and context pointers. */
    var issued: nat
    /** Datagrams handed to the transport and callbacks made, oldest first. */
    ghost var sent: seq<Datagram>
    ghost var events: seq<Event>

    ghost predicate Valid()
      reads this, transactions
    {
      && transactions.Valid()
      && |pending| == |uploads| == |recvs| == MAX_TRANSACTIONS && |txSerial| == MAX_TRANSACTIONS
      && nextTokenByte == TokenByte(issued)
    }

    ghost function State(): (s: ClientState)
      reads this, transactions
      ensures Valid() ==> Sized(s)
    {
      ClientState(pending, discovers, uploads, recvs, transactions.slots, txSerial, lastNowMs, nextMessageId, issued)
    }

    /** The object is in the state `r` tells of, and did what it tells of after `sent0` and `events0`. */
    ghost predicate Did(r: Result, sent0: seq<Datagram>, events0: seq<Event>)
      reads this, transactions
    {
      Valid() && State() == r.state && sent == sent0 + r.sent && events == events0 + r.events
    }

    constructor ()
      ensures Valid() && fresh(transactions) && State() == InitialClient() && sent == [] && events == []
    {
      pending, discovers, uploads :=
        FreeSlots<Pending>(MAX_TRANSACTIONS), FreeSlots<Discovery>(MAX_DISCOVERS), FreeSlots<Upload>(MAX_TRANSACTIONS);
      recvs := seq(MAX_TRANSACTIONS, (i: nat) => NewRecv());
      transactions := new TransactionPool();
      txSerial := seq(MAX_TRANSACTIONS, (i: nat) => 0);
      lastNowMs, nextMessageId, nextTokenByte, issued := 0, 1, 1, 0;
      sent, events := [], [];
    }

    /** Reserves the lowest free slot. */
    method AllocatePending() returns (i: int)
      modifies `pending
      ensures i == First(old(pending), IsFree<Pending>())
      ensures pending == if i < 0 then old(pending) else old(pending)[i := Just(Blank())]
    {
      for k := 0 to |pending|
        invariant pending == old(pending) && First(pending, IsFree<Pending>()) == First(pending, IsFree<Pending>(), k)
      {
        if pending[k].Nothing? {
          pending := pending[k := Just(Blank())];
          return k;
        }
      }
      return -1;
    }

    method FindPendingByToken(token: seq<byte>) returns (i: int)
      ensures i == First(pending, HasToken(token))
    {
      for k := 0 to |pending|
        invariant First(pending, HasToken(token)) == First(pending, HasToken(token), k)
      {
        if pending[k].Just? && pending[k].value.token == token { return k; }
      }
      return -1;
    }

    method NextToken() returns (token: byte)
      requires nextTokenByte == TokenByte(issued)
      modifies `nextTokenByte, `issued
      ensures token == TokenByte(old(issued)) && issued == old(issued) + 1 && nextTokenByte == TokenByte(issued)
    {
      hide TokenByte;
      NextTokenByte(issued);
      token := nextTokenByte;
      nextTokenByte := (nextTokenByte + 1) % 0x100;
      issued := issued + 1;
    }

    method NextMessageId() returns (mid: u16)
      modifies `nextMessageId
      ensures mid == old(nextMessageId) && nextMessageId == (mid + 1) % 0x1_0000
    {
      mid := nextMessageId;
      nextMessageId := (nextMessageId + 1) % 0x1_0000;
    }

    method StartTransaction(ghost serial: nat, remote: Endpoint, mid: u16, token: Token, bytes: seq<byte>)
      requires Valid()
      modifies transactions, `txSerial
      ensures Valid() && State() == Track(old(State()), serial, remote, mid, token, bytes)
    {
      hide AfterStart, StartSlot;
      var i := transactions.Start(remote, mid, token, bytes, lastNowMs);
      if i >= 0 { txSerial := txSerial[i := serial]; }
    }

    /** Fills the reserved slot once its request is on the way. */
    method Occupy(slot: nat, p: Pending)
      requires Valid() && slot < MAX_TRANSACTIONS
      modifies `pending, `uploads, `recvs
      ensures Valid() && State() == Occupied(old(State()), slot, p)
    {
      hide TokenByte;
      pending := pending[slot := Just(p)];
      uploads := uploads[slot := Nothing];
      recvs := recvs[slot := recvs[slot].(active := false, path := p.path)];
    }

    method Release(slot: nat)
      requires Valid() && slot < MAX_TRANSACTIONS
      modifies `pending
      ensures Valid() && State() == old(State()).(pending := old(pending)[slot := Nothing])
    {
      hide TokenByte;
      pending := pending[slot := Nothing];
    }

    method SendRequest(server: Endpoint, path: seq<byte>, verb: byte, payload: seq<byte>, format: u16,
                       confirmable: bool, observe: Maybe<u32>, observing: bool, link: bool) returns (ok: bool)
      requires Valid()
      modifies this, transactions
      ensures var r := S.SendRequest(old(State()), server, path, verb, payload, format, confirmable, observe, observing,
                                     link);
              Did(r, old(sent), old(events)) && ok == r.ok
    {
      hide S.SendRequest, SendingRequest, First, RequestBytes, TokenByte;
      ghost var s := State();
      var slot := AllocatePending();
      if slot < 0 {
        NoFreeSlot(s, server, path, verb, payload, format, confirmable, observe, observing, link);
        return false;
      }
      SendRequestOutcome(s, server, path, verb, payload, format, confirmable, observe, observing, link, slot);
      var serial := issued;
      var token := NextToken();
      var mid := NextMessageId();
      var bytes := BuildRequest(if confirmable then CON else NON, verb, mid, [token], observe, path, payload, format);
      ok := Launch(s, slot, serial, token, server, path, observing, confirmable, link, mid, bytes);
    }

    /** Sends the request a slot was reserved for, or gives the slot back. */
    method Launch(ghost s: ClientState, slot: nat, serial: nat, token: byte, server: Endpoint, path: seq<byte>,
                  observing: bool,
                  confirmable: bool, link: bool, mid: u16, bytes: Maybe<seq<byte>>) returns (ok: bool)
      requires Valid() && slot < MAX_TRANSACTIONS && Sized(s) && s.pending[slot].Nothing?
      requires State() == BumpMid(s).(issued := s.issued + 1, pending := s.pending[slot := Just(Blank())])
      requires mid == s.nextMid && serial == s.issued && token == TokenByte(s.issued)
      modifies this, transactions
      ensures var r := SendingRequest(s, server, path, confirmable, observing, link, slot, bytes);
              Did(r, old(sent), old(events)) && ok == r.ok
    {
      hide Track, TokenByte, StoredPath;
      if bytes.Nothing? || !link {
        Release(slot);
        assert pending == s.pending;
        return false;
      }
      TrackElsewhere(BumpMid(s).(issued := s.issued + 1), pending, serial, server, mid, [token], bytes.value);
      sent := sent + [Datagram(server, bytes.value)];
      if confirmable { StartTransaction(serial, server, mid, [token], bytes.value); }
      Occupy(slot, Pending(serial, server, [token], observing, StoredPath(path)));
      return true;
    }

    // ---------------------------------------------------------------- uploads

    method SendBlock1(slot: nat, ghost serial: nat, link: bool) returns (ok: bool)
      requires Valid() && slot < MAX_TRANSACTIONS && uploads[slot].Just?
      modifies transactions, `txSerial, `nextMessageId, `sent
      ensures var r := S.SendBlock1(old(State()), slot, serial, link); Did(r, old(sent), old(events)) && ok == r.ok
    {
      hide Track, TokenByte, BlockRequest, BlockSize, EncodeMsg;
      var up := uploads[slot].value;
      if BlockOffset(up) >= |up.payload| { return false; }
      var mid := NextMessageId();
      var bytes := BuildBlock1(up, mid);
      if bytes.Nothing? || !link { return false; }
      sent := sent + [Datagram(up.server, bytes.value)];
      StartTransaction(serial, up.server, mid, [up.token], bytes.value);
      return true;
    }

    method BeginUpload(server: Endpoint, path: seq<byte>, verb: byte, payload: seq<byte>, format: u16, link: bool)
      returns (ok: bool)
      requires Valid()
      modifies this, transactions
      ensures var r := S.BeginUpload(old(State()), server, path, verb, payload, format, link);
              Did(r, old(sent), old(events)) && ok == r.ok
    {
      hide S.BeginUpload, FirstBlock, First, TokenByte;
      ghost var s := State();
      var slot := AllocatePending();
      if slot < 0 {
        NoUploadSlot(s, server, path, verb, payload, format, link);
        return false;
      }
      BeginUploadOutcome(s, server, path, verb, payload, format, link, slot);
      var serial := issued;
      var token := NextToken();
      if |path| >= MAX_URI_PATH_LEN {
        pending, uploads := pending[slot := Nothing], uploads[slot := Nothing];
        assert pending == old(pending);
        return false;
      }
      SetUpUpload(slot, Pending(serial, server, [token], false, path),
                  Upload(payload, 0, BLOCK_SZX, format, verb, server, path, token));
      assert pending == old(pending)[slot := Just(Pending(serial, server, [token], false, path))];
      ok := TryFirstBlock(slot, serial, link);
    }

    method SetUpUpload(slot: nat, p: Pending, up: Upload)
      requires Valid() && slot < MAX_TRANSACTIONS
      modifies `pending, `uploads, `recvs
      ensures Valid()
      ensures var s := old(State());
              State() == s.(pending := s.pending[slot := Just(p)], uploads := s.uploads[slot := Just(up)], recvs := s.recvs[slot := s.recvs[slot].(active := false)])
    {
      hide TokenByte;
      pending := pending[slot := Just(p)];
      uploads := uploads[slot := Just(up)];
      recvs := recvs[slot := recvs[slot].(active := false)];
    }

    method TryFirstBlock(slot: nat, ghost serial: nat, link: bool) returns (ok: bool)
      requires Valid() && slot < MAX_TRANSACTIONS && uploads[slot].Just?
      modifies this, transactions
      ensures var r := FirstBlock(old(State()), slot, serial, link); Did(r, old(sent), old(events)) && ok == r.ok
    {
      hide S.SendBlock1, TokenByte;
      ok := SendBlock1(slot, serial, link);
      if !ok { pending, uploads := pending[slot := Nothing], uploads[slot := Nothing]; }
    }

    /** `get`, `put`, `post`, `del` and `observe`. */
    method Issue(server: Endpoint, path: seq<byte>, verb: byte, payload: seq<byte>, format: u16, confirmable: bool,
                 observe: bool, link: bool)
      returns (ok: bool)
      requires Valid()
      modifies this, transactions
      ensures var r := S.Issue(old(State()), server, path, verb, payload, format, confirmable, observe, link);
              Did(r, old(sent), old(events)) && ok == r.ok
    {
      hide S.BeginUpload, S.SendRequest, BlockSize, TokenByte;
      if (verb == PUT || verb == POST) && |payload| > BlockSize(BLOCK_SZX) {
        ok := BeginUpload(server, path, verb, payload, format, link);
      } else {
        ok := SendRequest(server, path, verb, payload, format, confirmable, if observe then Just(0) else Nothing,
                          observe, link);
      }
    }

    /** Frees the first observing slot for this server and path, then deregisters with a request of its own. */
    method CancelObserve(server: Endpoint, path: seq<byte>, link: bool) returns (ok: bool)
      requires Valid()
      modifies this, transactions
      ensures var r := S.CancelObserve(old(State()), server, path, link); Did(r, old(sent), old(events)) && ok == r.ok
    {
      hide S.SendRequest, TokenByte;
      for i := 0 to |pending|
        invariant Valid() && State() == old(State()) && sent == old(sent) && events == old(events)
        invariant First(pending, ObservesPath(server.Addr(), path)) ==
                  First(pending, ObservesPath(server.Addr(), path), i)
      {
        if pending[i].Just? && pending[i].value.observing && pending[i].value.server.Addr() == server.Addr()
            && pending[i].value.path == path {
          pending := pending[i := Nothing];
          ok := SendRequest(server, path, GET, [], 0, true, Just(1), false, link);
          return;
        }
      }
      return false;
    }

    method Discover(to: Endpoint, link: bool) returns (ok: bool)
      requires Valid()
      modifies this, transactions
      ensures var r := S.Discover(old(State()), to, link); Did(r, old(sent), old(events)) && ok == r.ok
    {
      hide S.Discover, First, TokenByte, RequestBytes;
      DiscoverOutcome(State(), to, link);
      var slot := AllocateSlot(discovers);
      if slot < 0 { return false; }
      var serial := issued;
      var token := NextToken();
      var mid := NextMessageId();
      var bytes := BuildRequest(NON, GET, mid, [token], Nothing, WELL_KNOWN, [], 0);
      if bytes.Nothing? || !link { return false; }
      sent := sent + [Datagram(to, bytes.value)];
      discovers := discovers[slot := Just(Discovery(serial, [token], lastNowMs))];
      return true;
    }

    // ---------------------------------------------------------------- responses

    method SendBlock2Request(slot: nat, link: bool) returns (ok: bool)
      requires Valid() && slot < MAX_TRANSACTIONS && pending[slot].Just?
      modifies transactions, `txSerial, `nextMessageId, `sent
      ensures var r := S.SendBlock2(old(State()), slot, link); Did(r, old(sent), old(events)) && ok == r.ok
    {
      hide Track, TokenByte, S.Block2Options, EncodeMsg;
      var p, recv := pending[slot].value, recvs[slot];
      var mid := NextMessageId();
      var bytes := BuildBlock2(recv.path, recv.nextNum, recv.szx, mid, p.token);
      if bytes.Nothing? || !link { return false; }
      sent := sent + [Datagram(recv.server, bytes.value)];
      StartTransaction(p.serial, recv.server, mid, p.token, bytes.value);
      return true;
    }

    /** An ACK for a separate response, whether or not its slot is still there. */
    method Acknowledge(m: Msg, from: Endpoint)
      modifies `sent
      ensures sent == old(sent) + AckOf(m, from)
    {
      hide EncodeMsg;
      if m.typ.CON? {
        var ack := NewMessage(ACK, EMPTY, m.mid, []);
        var bytes := ack.ToBytes();
        if bytes.Just? { sent := sent + [Datagram(from, bytes.value)]; }
      }
    }

    method CloseUnlessObserving(slot: nat)
      requires Valid() && slot < MAX_TRANSACTIONS && pending[slot].Just?
      modifies `pending
      ensures Valid() && State() == Close(old(State()), slot)
    {
      hide TokenByte;
      if !pending[slot].value.observing { pending := pending[slot := Nothing]; }
    }

    method HandleContinue(slot: nat, link: bool)
      requires Valid() && slot < MAX_TRANSACTIONS && pending[slot].Just? && uploads[slot].Just?
      modifies this, transactions
      ensures Did(S.HandleContinue(old(State()), slot, link), old(sent), old(events))
    {
      hide S.SendBlock1, TokenByte;
      var up := uploads[slot].value;
      uploads := uploads[slot := Just(up.(nextNum := (up.nextNum + 1) % WRAP))];
      var ok := SendBlock1(slot, pending[slot].value.serial, link);
      if !ok {
        events := events + [TimedOut(Just(pending[slot].value.serial))];
        uploads, pending := uploads[slot := Nothing], pending[slot := Nothing];
      }
    }

    /** Takes one block into the receive state. */
    method StoreBlock(slot: nat, from: Endpoint, m: Msg, b: Block)
      requires slot < |recvs|
      modifies `recvs
      ensures recvs == old(recvs)[slot := Accumulate(old(recvs)[slot], from, m, b)]
    {
      var recv := recvs[slot];
      if !recv.active {
        recv := recv.(active := true, nextNum := 0, szx := b.szx, body := [], server := from, format := FormatOf(m));
      }
      if b.num == recv.nextNum {
        var avail := if |recv.body| < BLOCK2_MAX_BODY then BLOCK2_MAX_BODY - |recv.body| else 0;
        var copyLen := if |m.payload| < avail then |m.payload| else avail;
        recv := recv.(body := recv.body + m.payload[..copyLen], nextNum := (recv.nextNum + 1) % WRAP);
        assert m.payload[..|m.payload|] == m.payload;
      }
      recvs := recvs[slot := recv];
    }

    method HandleBlock2(slot: nat, from: Endpoint, m: Msg, b: Block, link: bool)
      requires Valid() && slot < MAX_TRANSACTIONS && pending[slot].Just?
      modifies this, transactions
      ensures Did(S.HandleBlock2(old(State()), slot, from, m, b, link), old(sent), old(events))
    {
      hide S.SendBlock2, Accumulate, Close, TokenByte;
      StoreBlock(slot, from, m, b);
      if b.more { var _ := SendBlock2Request(slot, link); return; }
      events := events + [Answered(pending[slot].value.serial, m.code, recvs[slot].body, recvs[slot].format)];
      recvs := recvs[slot := recvs[slot].(active := false)];
      assert recvs == old(recvs)[slot := Accumulate(old(recvs)[slot], from, m, b).(active := false)];
      CloseUnlessObserving(slot);
    }

    method HandleResponse(slot: nat, from: Endpoint, m: Msg, link: bool)
      requires Valid() && slot < MAX_TRANSACTIONS && pending[slot].Just?
      modifies this, transactions
      ensures Did(S.HandleResponse(old(State()), slot, from, m, link), old(sent), old(events))
    {
      hide S.HandleContinue, S.HandleBlock2, Close, FindOption, ReadBlock, FormatOf, TokenByte;
      if m.code == CONTINUE && uploads[slot].Just? { HandleContinue(slot, link); return; }
      uploads := uploads[slot := Nothing];
      var b2opt := FindOption(m.options, BLOCK2);
      if b2opt.Just? {
        var b2 := ReadBlock(b2opt.value);
        if b2.Just? { HandleBlock2(slot, from, m, b2.value, link); return; }
      }
      events := events + [Answered(pending[slot].value.serial, m.code, m.payload, FormatOf(m))];
      CloseUnlessObserving(slot);
    }

    method FindDiscoverByToken(token: seq<byte>) returns (i: int)
      ensures i == First(discovers, HasDiscoverToken(token))
    {
      for k := 0 to |discovers|
        invariant First(discovers, HasDiscoverToken(token)) == First(discovers, HasDiscoverToken(token), k)
      {
        if discovers[k].Just? && discovers[k].value.token == token { return k; }
      }
      return -1;
    }

    /** Discover slots are looked at before pending slots. */
    method Deliver(from: Endpoint, m: Msg, link: bool)
      requires Valid()
      modifies this, transactions
      ensures Did(S.Deliver(old(State()), from, m, link), old(sent), old(events))
    {
      hide S.HandleResponse, TokenByte;
      var d := FindDiscoverByToken(m.token);
      if d >= 0 {
        events := events + [Discovered(discovers[d].value.serial, from, m.payload)];
        return;
      }
      var slot := FindPendingByToken(m.token);
      if slot >= 0 { HandleResponse(slot, from, m, link); }
    }

    method HandleMsg(from: Endpoint, m: Msg, link: bool)
      requires Valid()
      modifies this, transactions
      ensures Did(S.HandleMsg(old(State()), from, m, link), old(sent), old(events))
    {
      hide S.Deliver, AckOf, AfterComplete, TokenByte;
      if m.typ.ACK? { var _ := transactions.Complete(from, m.mid); }
      if m.code == EMPTY || IsMethodCode(m.code) { return; }
      Acknowledge(m, from);
      Deliver(from, m, link);
    }

    /** The token is read before `complete` frees the slot that holds it. */
    method HandleReset(from: Endpoint, mid: u16)
      requires Valid()
      modifies this, transactions
      ensures Did(S.HandleReset(old(State()), from, mid), old(sent), old(events))
    {
      hide First, TokenByte;
      var token := transactions.GetToken(from, mid);
      var _ := transactions.Complete(from, mid);
      if token.Nothing? || token.value == [] { return; }
      var slot := FindPendingByToken(token.value);
      if slot < 0 { return; }
      events := events + [TimedOut(Just(pending[slot].value.serial))];
      pending := pending[slot := Nothing];
    }

    // ---------------------------------------------------------------- the clock

    method HandleTimeout(token: seq<byte>)
      requires Valid()
      modifies `pending, `events
      ensures Did(S.HandleTimeout(old(State()), token), old(sent), old(events))
    {
      hide TokenByte;
      var slot := FindPendingByToken(token);
      events := events + [TimedOut(if slot >= 0 then Just(pending[slot].value.serial) else Nothing)];
      if slot >= 0 { pending := pending[slot := Nothing]; }
    }

    method ExpireDiscovers(now: u32)
      requires Valid()
      modifies `discovers
      ensures Valid() && State() == S.ExpireDiscovers(old(State()), now)
    {
      hide TokenByte;
      for i := 0 to |discovers|
        invariant |discovers| == |old(discovers)| && Valid()
        invariant forall j :: 0 <= j < i ==> discovers[j] == S.ExpireDiscovers(old(State()), now).discovers[j]
        invariant forall j :: i <= j < |discovers| ==> discovers[j] == old(discovers)[j]
      {
        if discovers[i].Just? && (now - discovers[i].value.issuedAt) % WRAP >= DISCOVER_TIMEOUT_MS {
          discovers := discovers[i := Nothing];
        }
      }
      assert discovers == S.ExpireDiscovers(old(State()), now).discovers;
    }

    method Tick(now: u32)
      requires Valid()
      modifies this, transactions
      ensures Did(TickClient(old(State()), now), old(sent), old(events))
    {
      hide AfterTick, Firings, HandleFirings, S.HandleTimeout, TokenByte;
      var fired := transactions.Tick(now);
      ghost var s := State();
      NoFirings(s);
      assert fired[..0] == [];
      for i := 0 to |fired|
        invariant Sized(s) && Did(HandleFirings(s, fired[..i]), old(sent), old(events))
      {
        OneMoreFiring(s, fired, i);
        match fired[i] {
          case Resend(remote, bytes) => sent := sent + [Datagram(remote, bytes)];
          case Expire(_, token) => HandleTimeout(token);
        }
      }
      assert fired[..|fired|] == fired;
    }

    /** One received datagram, discover expiry and the tick; a Reset returns before the last two. */
    method Poll(now: u32, incoming: Maybe<Datagram>, link: bool)
      requires Valid()
      modifies this, transactions
      ensures Did(S.Poll(old(State()), now, incoming, link), old(sent), old(events))
    {
      hide S.HandleReset, S.HandleMsg, TickClient, S.ExpireDiscovers, DecodeMsg, S.Received, TokenByte;
      lastNowMs := now;
      if incoming.Just? {
        var d := Parse(S.Received(incoming.value.bytes));
        if d.Decoded? {
          if d.msg.typ.RST? { HandleReset(incoming.value.remote, d.msg.mid); return; }
          HandleMsg(incoming.value.remote, d.msg, link);
        }
      }
      ExpireDiscovers(now);
      Tick(now);
    }
  }

  /** `sendBlock1` for a slot just set up, freed again if that fails. */
  function FirstBlock(s: ClientState, slot: nat, serial: nat, link: bool): Result
    requires Sized(s) && slot < |s.uploads| && s.uploads[slot].Just?
  {
    var r := S.SendBlock1(s, slot, serial, link);
    if r.ok then r
    else r.(state := r.state.(pending := r.state.pending[slot := Nothing], uploads := r.state.uploads[slot := Nothing]))
  }

  lemma NoUploadSlot(s: ClientState, server: Endpoint, path: seq<byte>, verb: byte, payload: seq<byte>, format: u16,
                     link: bool)
    requires Sized(s) && First(s.pending, IsFree<Pending>()) < 0
    ensures S.BeginUpload(s, server, path, verb, payload, format, link) == Result(s, [], [], false)
  {
  }

  /** An upload with a slot reserved. */
  lemma BeginUploadOutcome(s: ClientState, server: Endpoint, path: seq<byte>, verb: byte, payload: seq<byte>,
                           format: u16, link: bool, slot: nat)
    requires Sized(s) && slot == First(s.pending, IsFree<Pending>())
    ensures var p := Pending(s.issued, server, TokenOf(s.issued), false, path);
            var up := Upload(payload, 0, BLOCK_SZX, format, verb, server, path, TokenByte(s.issued));
            var s1 := s.(issued := s.issued + 1, pending := s.pending[slot := Just(p)], uploads := s.uploads[slot := Just(up)],
                         recvs := s.recvs[slot := s.recvs[slot].(active := false)]);
            S.BeginUpload(s, server, path, verb, payload, format, link)
              == if |path| >= MAX_URI_PATH_LEN then Result(s.(issued := s.issued + 1, uploads := s.uploads[slot := Nothing]), [], [], false)
                 else FirstBlock(s1, slot, s.issued, link)
  {
    hide First, S.SendBlock1, TokenByte;
  }

  lemma DiscoverOutcome(s: ClientState, to: Endpoint, link: bool)
    requires Sized(s)
    ensures var i := First(s.discovers, IsFree<Discovery>());
            var s1 := BumpMid(s).(issued := s.issued + 1);
            var bytes := RequestBytes(NON, GET, s.nextMid, TokenOf(s.issued), Nothing, WELL_KNOWN, [], 0);
            S.Discover(s, to, link)
              == if i < 0 then Result(s, [], [], false)
                 else if bytes.Nothing? || !link then Result(s1, [], [], false)
                 else Result(s1.(discovers := s.discovers[i := Just(Discovery(s.issued, TokenOf(s.issued), s.now))]),
                             [Datagram(to, bytes.value)], [], true)
  {
    hide First, EncodeMsg, AddPath, TokenOf;
  }

  lemma NoFirings(s: ClientState)
    requires Sized(s)
    ensures HandleFirings(s, []) == Result(s, [], [], true)
  {
  }

  lemma OneMoreFiring(s: ClientState, fired: seq<Firing>, i: nat)
    requires Sized(s) && i < |fired|
    ensures var before := HandleFirings(s, fired[..i]);
            HandleFirings(s, fired[..i + 1])
              == match fired[i]
                 case Resend(remote, bytes) => before.(sent := before.sent + [Datagram(remote, bytes)])
                 case Expire(remote, token) =>
                   var last := S.HandleTimeout(before.state, token);
                   last.(sent := before.sent, events := before.events + last.events)
  {
    hide S.HandleTimeout;
    assert fired[..i + 1][..i] == fired[..i];
  }

  /** A slot taken for a request without an upload. */
  function Occupied(s: ClientState, slot: nat, p: Pending): ClientState
    requires Sized(s) && slot < |s.pending|
  {
    s.(pending := s.pending[slot := Just(p)], uploads := s.uploads[slot := Nothing],
       recvs := s.recvs[slot := s.recvs[slot].(active := false, path := p.path)])
  }
}
