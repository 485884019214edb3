/** The client as functions from state to outcome: requests, uploads, block-wise downloads, discovery and `poll`. */
module ClientSpec {
  import opened Types
  import opened Config
  import opened Codec
  import opened OptionValues
  import opened Reliability
  import opened Paths

  /** An active pending slot. `serial` numbers the requests in the order their tokens were issued. */
  datatype Pending = Pending(serial: nat, server: Endpoint, token: Token, observing: bool, path: seq<byte>)

  datatype Discovery = Discovery(serial: nat, token: Token, issuedAt: u32)

  /** Block1 upload state of a slot. */
  datatype Upload = Upload(payload: seq<byte>, nextNum: u32, szx: nat, format: u16, verb: byte, server: Endpoint,
                           path: seq<byte>, token: byte)

  /** Block2 receive state of a slot; `body` are the assembled bytes. */
  datatype Recv = Recv(active: bool, nextNum: u32, szx: nat, body: seq<byte>, format: u16, server: Endpoint,
                       path: seq<byte>)

  /** Application callbacks. A timeout callback whose slot is already gone carries no serial. */
  datatype Event =
    | Answered(serial: nat, code: byte, payload: seq<byte>, format: u16)
    | TimedOut(who: Maybe<nat>)
    | Discovered(serial: nat, from: Endpoint, payload: seq<byte>)

  /** `issued` counts the tokens given out, `txSerial` says which request a transaction slot was started for. */
  datatype ClientState = ClientState(
    pending: seq<Maybe<Pending>>,
    discovers: seq<Maybe<Discovery>>,
    uploads: seq<Maybe<Upload>>,
    recvs: seq<Recv>,
    pool: Slots,
    txSerial: seq<nat>,
    now: u32,
    nextMid: u16,
    issued: nat)

  datatype Result = Result(state: ClientState, sent: seq<Datagram>, events: seq<Event>, ok: bool)

  /** The table sizes fit each other; fixed from construction on. */
  predicate Sized(s: ClientState) {
    |s.pending| == |s.uploads| == |s.recvs| == MAX_TRANSACTIONS && |s.txSerial| == |s.pool|
  }

  /** `nextTokenByte_` starts at 1 and wraps in eight bits. */
  function TokenByte(serial: nat): byte {
    (1 + serial) % 0x100
  }

  function TokenOf(serial: nat): Token {
    [TokenByte(serial)]
  }

  function BumpMid(s: ClientState): ClientState {
    s.(nextMid := (s.nextMid + 1) % 0x1_0000)
  }

  function Fits(m: Msg): bool
    requires ValidMsg(m)
  {
    |EncodeMsg(m)| <= MAX_MSG_SIZE
  }

  /** `addOptionUint` whose refusal by a full table goes unnoticed. */
  function AddUint(os: seq<Opt>, number: u16, v: u32): (r: seq<Opt>)
    requires ValidOptions(os)
    ensures ValidOptions(r)
  {
    if |os| < MAX_OPTIONS then os + [UintOpt(number, v)] else os
  }

  function AddPath(os: seq<Opt>, path: seq<byte>): (r: Maybe<seq<Opt>>)
    requires ValidOptions(os)
    ensures r.Just? ==> ValidOptions(r.value)
  {
    if |os| + |Segments(path)| <= MAX_OPTIONS then Just(os + UriOptions(Segments(path))) else Nothing
  }

  function Track(s: ClientState, serial: nat, remote: Endpoint, mid: u16, token: Token,
                 bytes: seq<byte>): (r: ClientState)
    requires |s.txSerial| == |s.pool|
    ensures r == s.(pool := r.pool, txSerial := r.txSerial) && |r.pool| == |r.txSerial| == |s.pool|
  {
    var i := StartSlot(s.pool, token, bytes);
    s.(pool := AfterStart(Wrapping, s.pool, remote, mid, token, bytes, s.now),
       txSerial := if i >= 0 then s.txSerial[i := serial] else s.txSerial)
  }

  function StoredPath(path: seq<byte>): seq<byte> {
    if |path| < MAX_URI_PATH_LEN then path else []
  }

  // ------------------------------------------------------------------ single requests

  function RequestOptions(path: seq<byte>, payload: seq<byte>, format: u16, observe: Maybe<u32>): (r: Maybe<seq<Opt>>)
    ensures r.Just? ==> ValidOptions(r.value)
  {
    var withPath := AddPath(if observe.Just? then [UintOpt(OBSERVE, observe.value)] else [], path);
    if withPath.Nothing? then Nothing
    else Just(if payload != [] then AddUint(withPath.value, CONTENT_FORMAT, format) else withPath.value)
  }

  /** `sendRequest`. `link` says whether the transport accepts the datagram. */
  function SendRequest(s: ClientState, server: Endpoint, path: seq<byte>, verb: byte, payload: seq<byte>, format: u16,
                       confirmable: bool, observe: Maybe<u32>, markObserving: bool, link: bool): (r: Result)
    requires Sized(s)
    ensures Sized(r.state) && r.events == []
  {
    var i := First(s.pending, IsFree<Pending>());
    if i < 0 then Result(s, [], [], false)
    else
      var n := s.issued;
      var s1 := BumpMid(s).(issued := n + 1);
      var options := RequestOptions(path, payload, format, observe);
      if options.Nothing? then Result(s1, [], [], false)
      else
        var m := Msg(if confirmable then CON else NON, verb, s.nextMid, TokenOf(n), options.value, payload);
        if !Fits(m) || !link then Result(s1, [], [], false)
        else
          var s2 := if confirmable then Track(s1, n, server, s.nextMid, TokenOf(n), EncodeMsg(m)) else s1;
          Result(s2.(pending := s.pending[i := Just(Pending(n, server, TokenOf(n), markObserving, StoredPath(path)))],
                     uploads := s.uploads[i := Nothing],
                     recvs := s.recvs[i := s.recvs[i].(active := false, path := StoredPath(path))]),
                 [Datagram(server, EncodeMsg(m))], [], true)
  }

  // ------------------------------------------------------------------ uploads

  function BlockOptions(up: Upload, more: bool): (r: Maybe<seq<Opt>>)
    ensures r.Just? ==> ValidOptions(r.value)
  {
    var withPath := AddPath([], up.path);
    if withPath.Nothing? then Nothing
    else Just(AddUint(AddUint(withPath.value, CONTENT_FORMAT, up.format), BLOCK1, BlockValue(up.nextNum, more, up.szx)))
  }

  function BlockOffset(up: Upload): nat {
    up.nextNum * BlockSize(up.szx)
  }

  function BlockPayload(up: Upload): seq<byte>
    requires BlockOffset(up) <= |up.payload|
  {
    if |up.payload| - BlockOffset(up) > BlockSize(up.szx)
    then up.payload[BlockOffset(up)..BlockOffset(up) + BlockSize(up.szx)] else up.payload[BlockOffset(up)..]
  }

  predicate MoreBlocks(up: Upload) {
    |up.payload| - BlockOffset(up) > BlockSize(up.szx)
  }

  /** The CON request for block `nextNum`. */
  function BlockRequest(up: Upload, mid: u16): (m: Maybe<Msg>)
    requires BlockOffset(up) < |up.payload|
    ensures m.Just? ==> ValidMsg(m.value)
  {
    var options := BlockOptions(up, MoreBlocks(up));
    if options.Nothing? then Nothing else Just(Msg(CON, up.verb, mid, [up.token], options.value, BlockPayload(up)))
  }

  function SendBlock1(s: ClientState, slot: nat, serial: nat, link: bool): (r: Result)
    requires Sized(s) && slot < |s.uploads| && s.uploads[slot].Just?
    ensures Sized(r.state) && r.events == [] && (!r.ok ==> r.sent == [])
    ensures r.state == s.(pool := r.state.pool, txSerial := r.state.txSerial, nextMid := r.state.nextMid)
  {
    var up := s.uploads[slot].value;
    if BlockOffset(up) >= |up.payload| then Result(s, [], [], false)
    else
      var s1 := BumpMid(s);
      var m := BlockRequest(up, s.nextMid);
      if m.Nothing? || !Fits(m.value) || !link then Result(s1, [], [], false)
      else Result(Track(s1, serial, up.server, s.nextMid, [up.token], EncodeMsg(m.value)),
                  [Datagram(up.server, EncodeMsg(m.value))], [], true)
  }

  /** `put` or `post` of a payload larger than one block. */
  function BeginUpload(s: ClientState, server: Endpoint, path: seq<byte>, verb: byte, payload: seq<byte>, format: u16,
                       link: bool): (r: Result)
    requires Sized(s)
    ensures Sized(r.state) && r.events == []
  {
    var i := First(s.pending, IsFree<Pending>());
    if i < 0 then Result(s, [], [], false)
    else
      var n := s.issued;
      var s1 := s.(issued := n + 1);
      if |path| >= MAX_URI_PATH_LEN then Result(s1.(uploads := s.uploads[i := Nothing]), [], [], false)
      else
        var up := Upload(payload, 0, BLOCK_SZX, format, verb, server, path, TokenByte(n));
        var s2 := s1.(pending := s.pending[i := Just(Pending(n, server, TokenOf(n), false, path))],
                      uploads := s.uploads[i := Just(up)],
                      recvs := s.recvs[i := s.recvs[i].(active := false)]);
        var r := SendBlock1(s2, i, n, link);
        if r.ok then r
        else r.(state := r.state.(pending := r.state.pending[i := Nothing], uploads := r.state.uploads[i := Nothing]))
  }

  /** `get`, `put`, `post`, `del` and `observe`. */
  function Issue(s: ClientState, server: Endpoint, path: seq<byte>, verb: byte, payload: seq<byte>, format: u16,
                 confirmable: bool, observe: bool, link: bool): (r: Result)
    requires Sized(s)
    ensures Sized(r.state) && r.events == []
  {
    if (verb == PUT || verb == POST) && |payload| > BlockSize(BLOCK_SZX) then
      BeginUpload(s, server, path, verb, payload, format, link)
    else
      SendRequest(s, server, path, verb, payload, format, confirmable, if observe then Just(0) else Nothing, observe, link)
  }

  // ------------------------------------------------------------------ block-wise downloads

  function Block2Options(path: seq<byte>, num: nat, szx: nat): (r: Maybe<seq<Opt>>)
    ensures r.Just? ==> ValidOptions(r.value)
  {
    var withPath := AddPath([], path);
    if withPath.Nothing? then Nothing else Just(AddUint(withPath.value, BLOCK2, BlockValue(num, false, szx)))
  }

  /** The follow-up GET for block `nextNum`; its failure goes unnoticed. */
  function SendBlock2(s: ClientState, slot: nat, link: bool): (r: Result)
    requires Sized(s) && slot < |s.pending| && s.pending[slot].Just?
    ensures Sized(r.state) && r.events == []
    ensures r.state == s.(pool := r.state.pool, txSerial := r.state.txSerial, nextMid := r.state.nextMid)
  {
    var p, recv := s.pending[slot].value, s.recvs[slot];
    var options := Block2Options(recv.path, recv.nextNum, recv.szx);
    if options.Nothing? then Result(BumpMid(s), [], [], false)
    else
      var m := Msg(CON, GET, s.nextMid, p.token, options.value, []);
      if !Fits(m) || !link then Result(BumpMid(s), [], [], false)
      else Result(Track(BumpMid(s), p.serial, recv.server, s.nextMid, p.token, EncodeMsg(m)),
                  [Datagram(recv.server, EncodeMsg(m))], [], true)
  }

  function FormatOf(m: Msg): u16 {
    var cf := FindOption(m.options, CONTENT_FORMAT);
    if cf.Just? then ReadUint(cf.value) % 0x1_0000 else 0
  }

  /** The receive state after one block: initialised by the first, grown only by the block it expects, cut at the
      buffer size. */
  function Accumulate(recv: Recv, from: Endpoint, m: Msg, b: Block): Recv {
    var r0 := if recv.active then recv else Recv(true, 0, b.szx, [], FormatOf(m), from, recv.path);
    if b.num != r0.nextNum then r0
    else
      var avail := if |r0.body| < BLOCK2_MAX_BODY then BLOCK2_MAX_BODY - |r0.body| else 0;
      r0.(body := r0.body + (if |m.payload| < avail then m.payload else m.payload[..avail]), nextNum := (r0.nextNum + 1) % WRAP)
  }

  function Close(s: ClientState, slot: nat): ClientState
    requires slot < |s.pending| && s.pending[slot].Just?
  {
    if s.pending[slot].value.observing then s else s.(pending := s.pending[slot := Nothing])
  }

  function HandleBlock2(s: ClientState, slot: nat, from: Endpoint, m: Msg, b: Block, link: bool): (r: Result)
    requires Sized(s) && slot < |s.pending| && s.pending[slot].Just?
    ensures Sized(r.state)
  {
    var recv := Accumulate(s.recvs[slot], from, m, b);
    var s1 := s.(recvs := s.recvs[slot := recv]);
    if b.more then SendBlock2(s1, slot, link)
    else Result(Close(s1.(recvs := s.recvs[slot := recv.(active := false)]), slot), [],
                [Answered(s.pending[slot].value.serial, m.code, recv.body, recv.format)], true)
  }

  // ------------------------------------------------------------------ incoming messages

  function HasToken(token: seq<byte>): Maybe<Pending> -> bool {
    (x: Maybe<Pending>) => x.Just? && x.value.token == token
  }

  function HasDiscoverToken(token: seq<byte>): Maybe<Discovery> -> bool {
    (x: Maybe<Discovery>) => x.Just? && x.value.token == token
  }

  function Block2Of(m: Msg): Maybe<Block> {
    var o := FindOption(m.options, BLOCK2);
    if o.Nothing? then Nothing else ReadBlock(o.value)
  }

  /** 2.31 Continue during an upload: the block number in it is not looked at, the next block goes out. */
  function HandleContinue(s: ClientState, slot: nat, link: bool): (r: Result)
    requires Sized(s) && slot < |s.pending| && s.pending[slot].Just? && s.uploads[slot].Just?
    ensures Sized(r.state)
  {
    var up, n := s.uploads[slot].value, s.pending[slot].value.serial;
    var r := SendBlock1(s.(uploads := s.uploads[slot := Just(up.(nextNum := (up.nextNum + 1) % WRAP))]), slot, n, link);
    if r.ok then r
    else Result(r.state.(uploads := r.state.uploads[slot := Nothing], pending := r.state.pending[slot := Nothing]), [],
                [TimedOut(Just(n))], false)
  }

  /** A response for the pending slot its token names. */
  function HandleResponse(s: ClientState, slot: nat, from: Endpoint, m: Msg, link: bool): (r: Result)
    requires Sized(s) && slot < |s.pending| && s.pending[slot].Just?
    ensures Sized(r.state)
  {
    if m.code == CONTINUE && s.uploads[slot].Just? then HandleContinue(s, slot, link)
    else
      var s1 := s.(uploads := s.uploads[slot := Nothing]);
      var b := Block2Of(m);
      if b.Just? then HandleBlock2(s1, slot, from, m, b.value, link)
      else Result(Close(s1, slot), [], [Answered(s.pending[slot].value.serial, m.code, m.payload, FormatOf(m))], true)
  }

  function AckOf(m: Msg, from: Endpoint): seq<Datagram> {
    var ack := Msg(ACK, EMPTY, m.mid, [], [], []);
    if m.typ.CON? && Fits(ack) then [Datagram(from, EncodeMsg(ack))] else []
  }

  /** Discover slots are looked up before pending slots. */
  function Deliver(s: ClientState, from: Endpoint, m: Msg, link: bool): (r: Result)
    requires Sized(s)
    ensures Sized(r.state)
  {
    var d := First(s.discovers, HasDiscoverToken(m.token));
    if d >= 0 then Result(s, [], [Discovered(s.discovers[d].value.serial, from, m.payload)], true)
    else
      var slot := First(s.pending, HasToken(m.token));
      if slot < 0 then Result(s, [], [], true) else HandleResponse(s, slot, from, m, link)
  }

  function HandleMsg(s: ClientState, from: Endpoint, m: Msg, link: bool): (r: Result)
    requires Sized(s)
    ensures Sized(r.state)
  {
    var s1 := if m.typ.ACK? then s.(pool := AfterComplete(s.pool, from.Addr(), m.mid)) else s;
    if m.code == EMPTY || IsMethodCode(m.code) then Result(s1, [], [], true)
    else
      var r := Deliver(s1, from, m, link);
      r.(sent := AckOf(m, from) + r.sent)
  }

  /** A Reset ends the transaction and reports a timeout for the slot its token names. */
  function HandleReset(s: ClientState, from: Endpoint, mid: u16): (r: Result)
    requires Sized(s)
    ensures Sized(r.state)
  {
    var i := First(s.pool, HasMid(from.Addr(), mid));
    if i < 0 then Result(s, [], [], true)
    else
      var token := s.pool[i].value.token;
      var s1 := s.(pool := AfterComplete(s.pool, from.Addr(), mid));
      var slot := if token == [] then -1 else First(s.pending, HasToken(token));
      if slot < 0 then Result(s1, [], [], true)
      else Result(s1.(pending := s.pending[slot := Nothing]), [], [TimedOut(Just(s.pending[slot].value.serial))], true)
  }

  // ------------------------------------------------------------------ the clock

  function ExpireDiscovers(s: ClientState, now: u32): (r: ClientState)
    ensures r == s.(discovers := r.discovers) && |r.discovers| == |s.discovers|
    ensures forall i :: 0 <= i < |s.discovers| ==> r.discovers[i] == s.discovers[i] || r.discovers[i].Nothing?
  {
    s.(discovers := seq(|s.discovers|, i requires 0 <= i < |s.discovers| =>
      if s.discovers[i].Just? && (now - s.discovers[i].value.issuedAt) % WRAP >= DISCOVER_TIMEOUT_MS then Nothing
          else s.discovers[i]))
  }

  /** `timeoutTrampoline`. */
  function HandleTimeout(s: ClientState, token: seq<byte>): (r: Result)
    requires Sized(s)
    ensures Sized(r.state) && r.state == s.(pending := r.state.pending)
  {
    var slot := First(s.pending, HasToken(token));
    if slot < 0 then Result(s, [], [TimedOut(Nothing)], true)
    else Result(s.(pending := s.pending[slot := Nothing]), [], [TimedOut(Just(s.pending[slot].value.serial))], true)
  }

  /** The callbacks of one tick, in order. */
  function HandleFirings(s: ClientState, fired: seq<Firing>): (r: Result)
    requires Sized(s)
    ensures Sized(r.state) && r.state == s.(pending := r.state.pending)
  {
    if fired == [] then Result(s, [], [], true)
    else
      var before := HandleFirings(s, fired[..|fired| - 1]);
      match fired[|fired| - 1]
      case Resend(remote, bytes) => before.(sent := before.sent + [Datagram(remote, bytes)])
      case Expire(remote, token) =>
        var last := HandleTimeout(before.state, token);
        last.(sent := before.sent, events := before.events + last.events)
  }

  function TickClient(s: ClientState, now: u32): (r: Result)
    requires Sized(s)
    ensures Sized(r.state)
  {
    HandleFirings(s.(pool := AfterTick(Wrapping, s.pool, now)), Firings(Wrapping, s.pool, now))
  }

  /** `poll`: a Reset returns early, skipping expiry and tick. */
  function Poll(s: ClientState, now: u32, incoming: Maybe<Datagram>, link: bool): (r: Result)
    requires Sized(s)
    ensures Sized(r.state)
  {
    var s0 := s.(now := now);
    var d := if incoming.Just? then DecodeMsg(Received(incoming.value.bytes)) else Rejected(TooShort);
    if d.Decoded? && d.msg.typ.RST? then HandleReset(s0, incoming.value.remote, d.msg.mid)
    else
      var r := if d.Decoded? then HandleMsg(s0, incoming.value.remote, d.msg, link) else Result(s0, [], [], true);
      var t := TickClient(ExpireDiscovers(r.state, now), now);
      t.(sent := r.sent + t.sent, events := r.events + t.events)
  }

  /** `receive` copies at most a buffer's worth of the datagram. */
  function Received(bytes: seq<byte>): seq<byte> {
    if |bytes| > MAX_MSG_SIZE then bytes[..MAX_MSG_SIZE] else bytes
  }

  // ------------------------------------------------------------------ observe and discover

  function ObservesPath(addr: Address, path: seq<byte>): Maybe<Pending> -> bool {
    (x: Maybe<Pending>) => x.Just? && x.value.observing && x.value.server.Addr() == addr && x.value.path == path
  }

  /** Frees the observing slot; the deregistering GET gets its own slot and token. */
  function CancelObserve(s: ClientState, server: Endpoint, path: seq<byte>, link: bool): (r: Result)
    requires Sized(s)
    ensures Sized(r.state) && r.events == []
  {
    var i := First(s.pending, ObservesPath(server.Addr(), path));
    if i < 0 then Result(s, [], [], false)
    else SendRequest(s.(pending := s.pending[i := Nothing]), server, path, GET, [], 0, true, Just(1), false, link)
  }

  const WELL_KNOWN: seq<byte> := [47, 46, 119, 101, 108, 108, 45, 107, 110, 111, 119, 110, 47, 99, 111, 114, 101]

  function Discover(s: ClientState, to: Endpoint, link: bool): (r: Result)
    requires Sized(s)
    ensures Sized(r.state) && r.events == []
  {
    var i := First(s.discovers, IsFree<Discovery>());
    if i < 0 then Result(s, [], [], false)
    else
      var n := s.issued;
      var s1 := BumpMid(s).(issued := n + 1);
      var options := AddPath([], WELL_KNOWN);
      if options.Nothing? then Result(s1, [], [], false)
      else
        var m := Msg(NON, GET, s.nextMid, TokenOf(n), options.value, []);
        if !Fits(m) || !link then Result(s1, [], [], false)
        else Result(s1.(discovers := s.discovers[i := Just(Discovery(n, TokenOf(n), s.now))]),
                    [Datagram(to, EncodeMsg(m))], [], true)
  }

  // ------------------------------------------------------------------ runs

  datatype ClientOp =
    | OpIssue(server: Endpoint, path: seq<byte>, verb: byte, payload: seq<byte>, format: u16, confirmable: bool,
              observe: bool, link: bool)
    | OpCancel(server: Endpoint, path: seq<byte>, link: bool)
    | OpDiscover(to: Endpoint, link: bool)
    | OpPoll(now: u32, incoming: Maybe<Datagram>, link: bool)

  function ClientStep(s: ClientState, op: ClientOp): (r: Result)
    requires Sized(s)
    ensures Sized(r.state)
  {
    match op
    case OpIssue(server, path, verb, payload, format, confirmable, observe, link) =>
      Issue(s, server, path, verb, payload, format, confirmable, observe, link)
    case OpCancel(server, path, link) => CancelObserve(s, server, path, link)
    case OpDiscover(to, link) => Discover(s, to, link)
    case OpPoll(now, incoming, link) => Poll(s, now, incoming, link)
  }

  function NewRecv(): Recv {
    Recv(false, 0, BLOCK_SZX, [], 0, Endpoint([0, 0, 0, 0], seq(16, (i: nat) => 0), false, 0), [])
  }

  function InitialClient(): (s: ClientState)
    ensures Sized(s)
  {
    ClientState(FreeSlots<Pending>(MAX_TRANSACTIONS), FreeSlots<Discovery>(MAX_DISCOVERS),
                FreeSlots<Upload>(MAX_TRANSACTIONS),
                seq(MAX_TRANSACTIONS, (i: nat) => NewRecv()), FreeSlots<Txn>(MAX_TRANSACTIONS),
                seq(MAX_TRANSACTIONS, (i: nat) => 0), 0, 1, 0)
  }

  /** State and all callbacks after a run. */
  function RunClient(ops: seq<ClientOp>): (r: Result)
    ensures Sized(r.state)
  {
    if ops == [] then Result(InitialClient(), [], [], true)
    else
      var before := RunClient(ops[..|ops| - 1]);
      var last := ClientStep(before.state, ops[|ops| - 1]);
      last.(sent := before.sent + last.sent, events := before.events + last.events)
  }
}
