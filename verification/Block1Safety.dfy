/** Block1 uploads end to end (sections 2.3 to 2.5 of RFC 7959): client, server and a network that loses, duplicates
    and reorders datagrams. */
module Block1Safety {
  import opened Types
  import opened Config
  import opened Codec
  import opened OptionValues
  import opened Reliability
  import opened Paths
  import S = ServerSpec
  import opened ClientSpec
  import opened ClientProps
  import opened Traffic

  // ------------------------------------------------------------------ the blocks of an upload

  /** Block k of upload `x`. */
  function BlockAt(x: Upload, k: u32): Upload {
    x.(nextNum := k)
  }

  ghost predicate IsBlock(x: Upload, m: Msg) {
    exists k: u32, mid: u16 :: BlockOffset(BlockAt(x, k)) < |x.payload| && BlockRequest(BlockAt(x, k), mid) == Just(m)
  }

  /** The request has room for its Content-Format and Block1 options. */
  predicate PathLeavesRoom(path: seq<byte>) {
    |Segments(path)| + 2 <= MAX_OPTIONS
  }

  /** What the upload is: within its limits the block number fits its 28-bit label. */
  predicate Uploadable(x: Upload) {
    && x.szx == BLOCK_SZX && (x.verb == PUT || x.verb == POST)
    && 0 < |x.payload| <= 0x1000_0000 * BlockSize(x.szx)
    && PathLeavesRoom(x.path)
  }

  lemma FindOwnOption(path: seq<byte>, extra: seq<Opt>, number: u16, i: nat)
    requires number != URI_PATH && i < |extra| && extra[i].number == number && forall j :: 0 <= j < i ==> extra[j].number != number
    ensures FindOption(UriOptions(Segments(path)) + extra, number) == Just(extra[i].value)
  {
    hide Segments;
    var os := UriOptions(Segments(path));
    var all := os + extra;
    assert all[|os| + i] == extra[i];
    forall j | 0 <= j < |os| + i ensures !HasNumber(number)(all[j]) {
      if j >= |os| { assert all[j] == extra[j - |os|]; }
    }
    FirstIs(all, HasNumber(number), |os| + i);
  }

  lemma FindNoOption(path: seq<byte>, extra: seq<Opt>, number: u16)
    requires number != URI_PATH && forall j :: 0 <= j < |extra| ==> extra[j].number != number
    ensures FindOption(UriOptions(Segments(path)) + extra, number) == Nothing
  {
    hide Segments;
    var os := UriOptions(Segments(path));
    var all := os + extra;
    forall j | 0 <= j < |all| ensures !HasNumber(number)(all[j]) {
      if j >= |os| { assert all[j] == extra[j - |os|]; }
    }
  }

  /** A block request carries its Block1 option exactly when the path leaves room for it: the option is added last and
      its refusal by a full option table goes unnoticed. */
  lemma BlockOptionPresent(up: Upload, mid: u16)
    requires BlockOffset(up) < |up.payload| && BlockRequest(up, mid).Just?
    ensures var m := BlockRequest(up, mid).value;
            FindOption(m.options, BLOCK1) ==
              if PathLeavesRoom(up.path) then Just(BlockBytes(up.nextNum, MoreBlocks(up), up.szx)) else Nothing
  {
    hide Segments, UintBytes, BlockSize, BlockValue, UriOptions;
    var os := UriOptions(Segments(up.path));
    assert [] + os == os;
    var cf, b := UintOpt(CONTENT_FORMAT, up.format), UintOpt(BLOCK1, BlockValue(up.nextNum, MoreBlocks(up), up.szx));
    assert os + [cf] + [b] == os + [cf, b];
    assert os + [] == os;
    FindOwnOption(up.path, [cf, b], BLOCK1, 1);
    FindNoOption(up.path, [cf], BLOCK1);
    FindNoOption(up.path, [], BLOCK1);
  }

  // ------------------------------------------------------------------ what travels

  predicate Uploads(m: Msg) {
    m.code == PUT || m.code == POST
  }

  /** If the datagram reads as a PUT or POST under the upload's token, it is one of the upload's blocks. */
  ghost predicate Good(x: Upload, bytes: seq<byte>) {
    var d := DecodeMsg(Received(bytes));
    d.Decoded? && d.msg.token == [x.token] && Uploads(d.msg) ==> IsBlock(x, d.msg)
  }

  ghost function GoodFor(x: Upload): Property {
    (bytes: seq<byte>) => Good(x, bytes)
  }

  /** The datagram does not carry the upload's token. */
  predicate Foreign(token: byte, bytes: seq<byte>) {
    var d := DecodeMsg(Received(bytes));
    d.Decoded? ==> d.msg.token != [token]
  }

  lemma GoodMsg(x: Upload, m: Msg)
    requires ValidMsg(m) && Fits(m) && (m.token == [x.token] && Uploads(m) ==> IsBlock(x, m))
    ensures Good(x, EncodeMsg(m))
  {
    hide DecodeMsg, EncodeMsg, IsBlock;
    DecodeEncode(m);
  }

  /** The only active upload under this token is `x` at some block. */
  predicate OnlyUpload(x: Upload, c: ClientState)
    requires Sized(c)
  {
    forall i :: 0 <= i < |c.pending| && c.pending[i].Just? && c.uploads[i].Just? && c.uploads[i].value.token == x.token
      ==> c.uploads[i].value == BlockAt(x, c.uploads[i].value.nextNum)
  }

  ghost predicate Clean(x: Upload, c: ClientState) {
    SerialsOk(c) && OnlyUpload(x, c) && PoolGood(GoodFor(x), c.pool)
  }

  // ------------------------------------------------------------------ the client only sends blocks of its payload

  lemma SendBlock1Good(x: Upload, s: ClientState, slot: nat, serial: nat, link: bool)
    requires Sized(s) && slot < |s.uploads| && s.uploads[slot].Just? && PoolGood(GoodFor(x), s.pool)
    requires var up := s.uploads[slot].value; up.token == x.token ==> up == BlockAt(x, up.nextNum)
    ensures var r := SendBlock1(s, slot, serial, link);
            AllGood(GoodFor(x), r.sent) && PoolGood(GoodFor(x), r.state.pool)
  {
    hide PoolGood, Good, Track, BlockRequest, EncodeMsg;
    var up := s.uploads[slot].value;
    var r := SendBlock1(s, slot, serial, link);
    if r.ok {
      var m := BlockRequest(up, s.nextMid).value;
      BlockToken(up, s.nextMid);
      if up.token == x.token { assert BlockRequest(BlockAt(x, up.nextNum), s.nextMid) == Just(m); }
      GoodMsg(x, m);
      TrackGood(GoodFor(x), BumpMid(s), serial, up.server, s.nextMid, [up.token], EncodeMsg(m));
    }
  }

  lemma BlockToken(up: Upload, mid: u16)
    requires BlockOffset(up) < |up.payload| && BlockRequest(up, mid).Just?
    ensures BlockRequest(up, mid).value.token == [up.token]
  {
    hide BlockOptions, BlockPayload;
  }

  lemma SendBlock2Good(x: Upload, s: ClientState, slot: nat, link: bool)
    requires Sized(s) && slot < |s.pending| && s.pending[slot].Just? && PoolGood(GoodFor(x), s.pool)
    ensures var r := SendBlock2(s, slot, link); AllGood(GoodFor(x), r.sent) && PoolGood(GoodFor(x), r.state.pool)
  {
    hide PoolGood, Good, Track, Block2Options, EncodeMsg;
    var r := SendBlock2(s, slot, link);
    if r.ok {
      var p, recv := s.pending[slot].value, s.recvs[slot];
      var m := Msg(CON, GET, s.nextMid, p.token, Block2Options(recv.path, recv.nextNum, recv.szx).value, []);
      GoodMsg(x, m);
      TrackGood(GoodFor(x), BumpMid(s), p.serial, recv.server, s.nextMid, p.token, EncodeMsg(m));
    }
  }

  lemma SendRequestGood(x: Upload, s: ClientState, server: Endpoint, path: seq<byte>, verb: byte, payload: seq<byte>,
                        format: u16,
                        confirmable: bool, observe: Maybe<u32>, markObserving: bool, link: bool)
    requires Clean(x, s) && TokenByte(s.issued) != x.token
    ensures var r := SendRequest(s, server, path, verb, payload, format, confirmable, observe, markObserving, link);
            AllGood(GoodFor(x), r.sent) && Clean(x, r.state)
  {
    hide PoolGood, Good, Track, RequestOptions, EncodeMsg, SerialsOk, TokenByte;
    SizedOf(s);
    SendRequestOk(s, server, path, verb, payload, format, confirmable, observe, markObserving, link);
    var r := SendRequest(s, server, path, verb, payload, format, confirmable, observe, markObserving, link);
    if r.ok {
      var n := s.issued;
      var m := Msg(if confirmable then CON else NON, verb, s.nextMid, TokenOf(n),
                   RequestOptions(path, payload, format, observe).value, payload);
      assert m.token[0] != x.token;
      GoodMsg(x, m);
      TrackGood(GoodFor(x), BumpMid(s).(issued := n + 1), n, server, s.nextMid, TokenOf(n), EncodeMsg(m));
    }
  }

  lemma BeginUploadGood(x: Upload, s: ClientState, server: Endpoint, path: seq<byte>, verb: byte, payload: seq<byte>,
                        format: u16, link: bool)
    requires Clean(x, s)
    requires TokenByte(s.issued) == x.token ==> x == Upload(payload, 0, BLOCK_SZX, format, verb, server, path, x.token)
    ensures var r := BeginUpload(s, server, path, verb, payload, format, link);
            AllGood(GoodFor(x), r.sent) && Clean(x, r.state)
  {
    hide PoolGood, Good, SendBlock1, SerialsOk, TokenByte;
    SizedOf(s);
    BeginUploadOk(s, server, path, verb, payload, format, link);
    var i := First(s.pending, IsFree<Pending>());
    if i >= 0 {
      var n := s.issued;
      var up := Upload(payload, 0, BLOCK_SZX, format, verb, server, path, TokenByte(n));
      var s2 := s.(issued := n + 1, pending := s.pending[i := Just(Pending(n, server, TokenOf(n), false, path))],
                   uploads := s.uploads[i := Just(up)], recvs := s.recvs[i := s.recvs[i].(active := false)]);
      SendBlock1Good(x, s2, i, n, link);
    }
  }

  lemma HandleContinueGood(x: Upload, s: ClientState, slot: nat, link: bool)
    requires Clean(x, s) && slot < |s.pending| && Sized(s) && s.pending[slot].Just? && s.uploads[slot].Just?
    ensures var r := HandleContinue(s, slot, link); AllGood(GoodFor(x), r.sent) && Clean(x, r.state)
  {
    hide PoolGood, Good, SendBlock1, SerialsOk;
    HandleContinueOk(s, slot, link);
    var up := s.uploads[slot].value;
    SendBlock1Good(x, s.(uploads := s.uploads[slot := Just(up.(nextNum := (up.nextNum + 1) % WRAP))]), slot,
                   s.pending[slot].value.serial, link);
  }

  lemma HandleResponseGood(x: Upload, s: ClientState, slot: nat, from: Endpoint, m: Msg, link: bool)
    requires Clean(x, s) && slot < |s.pending| && Sized(s) && s.pending[slot].Just?
    ensures var r := HandleResponse(s, slot, from, m, link); AllGood(GoodFor(x), r.sent) && Clean(x, r.state)
  {
    hide PoolGood, Good, SendBlock2, SerialsOk, HandleContinue, Accumulate, Block2Of, FormatOf;
    HandleResponseOk(s, slot, from, m, link);
    if m.code == CONTINUE && s.uploads[slot].Just? {
      HandleContinueGood(x, s, slot, link);
    } else {
      var b := Block2Of(m);
      if b.Just? {
        var recv := Accumulate(s.recvs[slot], from, m, b.value);
        SendBlock2Good(x, s.(uploads := s.uploads[slot := Nothing], recvs := s.recvs[slot := recv]), slot, link);
      }
    }
  }

  lemma AckGood(x: Upload, m: Msg, from: Endpoint)
    ensures AllGood(GoodFor(x), AckOf(m, from))
  {
    hide Good, EncodeMsg;
    var ack := Msg(ACK, EMPTY, m.mid, [], [], []);
    if Fits(ack) { GoodMsg(x, ack); }
  }

  lemma CompletionGood(x: Upload, s: ClientState, i: int)
    requires Clean(x, s) && -1 <= i < |s.pool|
    ensures Clean(x, s.(pool := Release(s.pool, i)))
  {
    hide Good, SerialsOk;
    SizedOf(s);
    CompleteShrinks(s, i);
    ReleaseGood(GoodFor(x), s.pool, i);
  }

  lemma HandleMsgGood(x: Upload, s: ClientState, from: Endpoint, m: Msg, link: bool)
    requires Clean(x, s) && Sized(s)
    ensures var r := HandleMsg(s, from, m, link); AllGood(GoodFor(x), r.sent) && Clean(x, r.state)
  {
    hide Clean, Good, HandleResponse, AckOf, Release;
    AckGood(x, m, from);
    CompletionGood(x, s, First(s.pool, HasMid(from.Addr(), m.mid)));
    var s1 := if m.typ.ACK? then s.(pool := AfterComplete(s.pool, from.Addr(), m.mid)) else s;
    var slot := First(s1.pending, HasToken(m.token));
    if slot >= 0 { HandleResponseGood(x, s1, slot, from, m, link); }
  }

  /** Closing slots keeps the client clean. */
  lemma ClosingGood(x: Upload, s: ClientState, t: ClientState)
    requires Clean(x, s) && SerialsOk(t) && Sized(s) && Sized(t) && PoolGood(GoodFor(x), t.pool)
    requires t.uploads == s.uploads
    requires forall i :: 0 <= i < |s.pending| ==> t.pending[i] == s.pending[i] || t.pending[i].Nothing?
    ensures Clean(x, t)
  {
    hide SerialsOk, PoolGood;
  }

  lemma HandleResetGood(x: Upload, s: ClientState, from: Endpoint, mid: u16)
    requires Clean(x, s) && Sized(s)
    ensures var r := HandleReset(s, from, mid); AllGood(GoodFor(x), r.sent) && Clean(x, r.state)
  {
    hide SerialsOk, Good, Release;
    HandleResetOk(s, from, mid);
    CompletionGood(x, s, First(s.pool, HasMid(from.Addr(), mid)));
  }

  lemma TickGood(x: Upload, s: ClientState, now: u32)
    requires Clean(x, s) && Sized(s)
    ensures var r := TickClient(s, now); AllGood(GoodFor(x), r.sent) && Clean(x, r.state)
  {
    hide SerialsOk, Good, TickClient, PoolGood;
    TickOk(s, now);
    TickSends(GoodFor(x), s, now);
    ClosingGood(x, s, TickClient(s, now).state);
  }

  lemma PollGood(x: Upload, s: ClientState, now: u32, incoming: Maybe<Datagram>, link: bool)
    requires Clean(x, s) && Sized(s)
    ensures var r := Poll(s, now, incoming, link); AllGood(GoodFor(x), r.sent) && Clean(x, r.state)
  {
    hide SerialsOk, Good, PoolGood, HandleMsg, HandleReset, TickClient, ExpireDiscovers, DecodeMsg;
    var s0 := s.(now := now);
    CountersOk(s, s0);
    var d := if incoming.Just? then DecodeMsg(Received(incoming.value.bytes)) else Rejected(TooShort);
    if d.Decoded? && d.msg.typ.RST? {
      HandleResetGood(x, s0, incoming.value.remote, d.msg.mid);
    } else {
      var r := if d.Decoded? then HandleMsg(s0, incoming.value.remote, d.msg, link) else Result(s0, [], [], true);
      if d.Decoded? { HandleMsgGood(x, s0, incoming.value.remote, d.msg, link); }
      ShrinksOk(r.state, ExpireDiscovers(r.state, now));
      ClosingGood(x, r.state, ExpireDiscovers(r.state, now));
      TickGood(x, ExpireDiscovers(r.state, now), now);
    }
  }

  lemma DiscoverGood(x: Upload, s: ClientState, to: Endpoint, link: bool)
    requires Clean(x, s) && Sized(s)
    ensures var r := Discover(s, to, link); AllGood(GoodFor(x), r.sent) && Clean(x, r.state)
  {
    hide SerialsOk, Good, EncodeMsg, AddPath, PoolGood, TokenByte;
    DiscoverRequestOk(s, to, link);
    var r := Discover(s, to, link);
    if r.ok { GoodMsg(x, Msg(NON, GET, s.nextMid, TokenOf(s.issued), AddPath([], WELL_KNOWN).value, [])); }
  }

  /** Whatever the client is asked to do and whatever it receives, as long as it does not issue the upload's token
      again, everything it sends under that token is a block of the payload. */
  lemma ClientSendsBlocks(x: Upload, s: ClientState, op: ClientOp)
    requires Clean(x, s) && Sized(s) && (!op.OpPoll? ==> TokenByte(s.issued) != x.token)
    ensures var r := ClientStep(s, op); AllGood(GoodFor(x), r.sent) && Clean(x, r.state)
  {
    hide Clean, AllGood, BeginUpload, SendRequest, Discover, Poll, TokenByte;
    match op
    case OpIssue(server, path, verb, payload, format, confirmable, observe, link) =>
      BeginUploadGood(x, s, server, path, verb, payload, format, link);
      SendRequestGood(x, s, server, path, verb, payload, format, confirmable, if observe then Just(0) else Nothing,
                      observe, link);
    case OpCancel(server, path, link) => CancelGood(x, s, server, path, link);
    case OpDiscover(to, link) => DiscoverGood(x, s, to, link);
    case OpPoll(now, incoming, link) => PollGood(x, s, now, incoming, link);
  }

  lemma CancelGood(x: Upload, s: ClientState, server: Endpoint, path: seq<byte>, link: bool)
    requires Clean(x, s) && Sized(s) && TokenByte(s.issued) != x.token
    ensures var r := CancelObserve(s, server, path, link); AllGood(GoodFor(x), r.sent) && Clean(x, r.state)
  {
    hide SerialsOk, PoolGood, Good, SendRequest, TokenByte;
    var i := First(s.pending, ObservesPath(server.Addr(), path));
    if i >= 0 {
      var s1 := s.(pending := s.pending[i := Nothing]);
      ShrinksOk(s, s1);
      ClosingGood(x, s, s1);
      SendRequestGood(x, s1, server, path, GET, [], 0, true, Just(1), false, link);
    }
  }

  // ------------------------------------------------------------------ the server's sessions

  function KeyOfUpload(addr: Address, x: Upload): Key {
    Key(addr, [x.token])
  }

  /** The session holds the first `next` blocks of the payload, and more are to come. */
  predicate Holds(x: Upload, sess: S.Session) {
    sess.next * BlockSize(x.szx) < |x.payload| && sess.body == x.payload[..sess.next * BlockSize(x.szx)]
  }

  predicate SessionsOk(x: Upload, addr: Address, ss: seq<Maybe<S.Session>>) {
    forall i :: 0 <= i < |ss| && ss[i].Just? && ss[i].value.Id() == KeyOfUpload(addr, x) ==>
        ss[i].value.next >= 1 && Holds(x, ss[i].value)
  }

  /** Every handler call for a PUT or POST under the upload's key sees exactly the payload. */
  predicate CallsOk(x: Upload, addr: Address, calls: seq<S.Call>) {
    forall i :: 0 <= i < |calls| ==>
      var req := calls[i].request;
      S.KeyOf(req.remote, req.msg) == KeyOfUpload(addr, x) && Uploads(req.msg) ==> req.body == Just(x.payload)
  }

  /** Sessions with this key are among those there were. */
  predicate KeepsSessions(ss: seq<Maybe<S.Session>>, tt: seq<Maybe<S.Session>>, key: Key) {
    |tt| == |ss| && forall i :: 0 <= i < |tt| && tt[i].Just? && tt[i].value.Id() == key ==> tt[i] == ss[i]
  }

  lemma KeptSessions(x: Upload, addr: Address, ss: seq<Maybe<S.Session>>, tt: seq<Maybe<S.Session>>)
    requires SessionsOk(x, addr, ss) && KeepsSessions(ss, tt, KeyOfUpload(addr, x))
    ensures SessionsOk(x, addr, tt)
  {
    hide Holds;
  }

  /** A call is made for the request at hand. */
  predicate CallsFor(m: Msg, from: Endpoint, calls: seq<S.Call>) {
    forall i :: 0 <= i < |calls| ==> calls[i].request.msg == m && calls[i].request.remote == from
  }

  lemma AcceptForeign(s: S.ServerState, i: nat, idx: nat, m: Msg, from: Endpoint, params: seq<PathParam>,
                      observe: Maybe<u32>,
                      b: Block, h: S.Handler, key: Key)
    requires i < |s.sessions| && s.sessions[i].Just? && s.sessions[i].value.Id() != key
    ensures var o := S.AcceptBlock(s, i, idx, m, from, params, observe, b, h);
            KeepsSessions(s.sessions, o.state.sessions, key) && CallsFor(m, from, o.calls)
  {
    hide S.Reply, S.Plain, S.Piggyback, S.AckDeferral, BlockOpt;
  }

  lemma Block1Foreign(s: S.ServerState, idx: nat, m: Msg, from: Endpoint, params: seq<PathParam>, observe: Maybe<u32>,
                      value: seq<byte>, h: S.Handler, key: Key)
    requires S.KeyOf(from, m) != key
    ensures var o := S.HandleBlock1(s, idx, m, from, params, observe, value, h);
            KeepsSessions(s.sessions, o.state.sessions, key) && CallsFor(m, from, o.calls)
  {
    hide S.Plain, S.AcceptBlock, ReadBlock;
    var b := ReadBlock(value);
    if b.Just? {
      var i, j := S.SessionSlot(s.sessions, S.KeyOf(from, m)), First(s.sessions, IsFree<S.Session>());
      if i >= 0 {
        AcceptForeign(s, i, idx, m, from, params, observe, b.value, h, key);
      } else if j >= 0 {
        var s1 := s.(sessions := s.sessions[j := Just(S.Session(from, m.token, 0, []))]);
        AcceptForeign(s1, j, idx, m, from, params, observe, b.value, h, key);
      }
    }
  }

  lemma PlainCalls(s: S.ServerState, idx: nat, m: Msg, from: Endpoint, params: seq<PathParam>, observe: Maybe<u32>,
                   h: S.Handler)
    ensures var o := S.HandlePlain(s, idx, m, from, params, observe, h);
            o.state.sessions == s.sessions && CallsFor(m, from, o.calls)
  {
    hide S.Respond2, S.AckDeferral;
  }

  /** A request with another key, or that is no upload block, leaves the sessions of this key alone. */
  lemma RequestForeign(s: S.ServerState, m: Msg, from: Endpoint, h: S.Handler, key: Key)
    requires S.KeyOf(from, m) != key || !S.IsUploadBlock(m)
    ensures var o := S.HandleRequest(s, m, from, h);
            KeepsSessions(s.sessions, o.state.sessions, key) && CallsFor(m, from, o.calls)
  {
    hide S.Plain, S.HandleBlock1, S.HandlePlain, S.ObserveStep, S.ObserveValue, ParamsFor, FindOption, S.RouteOf;
    match S.RouteOf(s, m)
    case Refused(code) =>
    case To(idx) =>
      var params := ParamsFor(s.resources[idx], S.RequestPath(m));
      var s1, observe := S.ObserveStep(s, idx, m, from), S.ObserveValue(s, idx, m);
      if S.IsUploadBlock(m) {
        Block1Foreign(s1, idx, m, from, params, observe, FindOption(m.options, BLOCK1).value, h, key);
      } else {
        PlainCalls(s1, idx, m, from, params, observe, h);
      }
  }

  // ------------------------------------------------------------------ a block arrives

  lemma NextOffset(k: nat, size: nat)
    ensures (k + 1) * size == k * size + size
  {
  }

  lemma NumBelow(k: nat, bound: nat, size: nat)
    requires size > 0 && k * size < bound * size
    ensures k < bound
  {
  }

  /** Adding block `next` to a session that holds the blocks before it. */
  lemma GrowSession(x: Upload, sess: S.Session, k: u32)
    requires Uploadable(x) && Holds(x, sess) && k == sess.next
    ensures var up := BlockAt(x, k);
            && BlockOffset(up) <= |x.payload|
            && var body := sess.body + BlockPayload(up);
               if MoreBlocks(up) then Holds(x, sess.(next := sess.next + 1, body := body)) else body == x.payload
  {
    hide BlockSize, PathLeavesRoom;
    NextOffset(k, BlockSize(x.szx));
    GrowPrefix(x.payload, k * BlockSize(x.szx), BlockSize(x.szx));
  }

  lemma GrowPrefix(s: seq<byte>, off: nat, size: nat)
    requires off <= |s|
    ensures if |s| - off > size then s[..off] + s[off..off + size] == s[..off + size] else s[..off] + s[off..] == s
  {
  }

  lemma AcceptUpload(x: Upload, addr: Address, s: S.ServerState, i: nat, idx: nat, m: Msg, from: Endpoint,
                     params: seq<PathParam>,
                     observe: Maybe<u32>, b: Block, h: S.Handler, k: u32)
    requires Uploadable(x) && i < |s.sessions| && s.sessions[i].Just? && Holds(x, s.sessions[i].value)
    requires s.sessions[i].value.Id() == KeyOfUpload(addr, x) == S.KeyOf(from, m)
    requires s.sessions[i].value.next == 0 ==> b.num == 0
    requires forall j :: 0 <= j < |s.sessions| && j != i && s.sessions[j].Just? && s.sessions[j].value.Id() ==
               KeyOfUpload(addr, x)
               ==> s.sessions[j].value.next >= 1 && Holds(x, s.sessions[j].value)
    requires BlockOffset(BlockAt(x, k)) < |x.payload| && b == Block(k, MoreBlocks(BlockAt(x, k)), x.szx)
    requires m.payload == BlockPayload(BlockAt(x, k))
    ensures var o := S.AcceptBlock(s, i, idx, m, from, params, observe, b, h);
            SessionsOk(x, addr, o.state.sessions) && CallsOk(x, addr, o.calls)
  {
    hide S.Reply, S.Plain, S.Piggyback, S.AckDeferral, BlockOpt, Holds, BlockPayload, MoreBlocks, BlockOffset,
         Uploadable;
    if b.num == s.sessions[i].value.next { GrowSession(x, s.sessions[i].value, k); }
  }

  lemma Block1Upload(x: Upload, addr: Address, s: S.ServerState, idx: nat, m: Msg, from: Endpoint,
                     params: seq<PathParam>,
                     observe: Maybe<u32>, h: S.Handler, k: u32)
    requires Uploadable(x) && SessionsOk(x, addr, s.sessions) && S.KeyOf(from, m) == KeyOfUpload(addr, x)
    requires BlockOffset(BlockAt(x, k)) < |x.payload| && m.payload == BlockPayload(BlockAt(x, k))
    ensures var o := S.HandleBlock1(s, idx, m, from, params, observe, BlockBytes(k, MoreBlocks(BlockAt(x, k)), x.szx),
                                    h);
            SessionsOk(x, addr, o.state.sessions) && CallsOk(x, addr, o.calls)
  {
    hide S.Plain, S.AcceptBlock, ReadBlock, BlockBytes, BlockSize, Holds, PathLeavesRoom, BlockPayload, MoreBlocks;
    var more := MoreBlocks(BlockAt(x, k));
    NumBelow(k, 0x1000_0000, BlockSize(x.szx));
    BlockRoundTrip(k, more, x.szx);
    if k < 0x10_0000 {
      var b := Block(k, more, x.szx);
      var i, j := S.SessionSlot(s.sessions, S.KeyOf(from, m)), First(s.sessions, IsFree<S.Session>());
      if i >= 0 {
        AcceptUpload(x, addr, s, i, idx, m, from, params, observe, b, h, k);
      } else if k == 0 && j >= 0 {
        FreshHolds(x, from, m.token);
        var s1 := s.(sessions := s.sessions[j := Just(S.Session(from, m.token, 0, []))]);
        AcceptUpload(x, addr, s1, j, idx, m, from, params, observe, b, h, k);
      }
    }
  }

  lemma FreshHolds(x: Upload, from: Endpoint, token: Token)
    requires |x.payload| > 0
    ensures Holds(x, S.Session(from, token, 0, []))
  {
  }

  lemma RequestUpload(x: Upload, addr: Address, s: S.ServerState, m: Msg, from: Endpoint, h: S.Handler)
    requires Uploadable(x) && SessionsOk(x, addr, s.sessions) && from.Addr() == addr && IsBlock(x, m)
    ensures var o := S.HandleRequest(s, m, from, h); SessionsOk(x, addr, o.state.sessions) && CallsOk(x, addr, o.calls)
  {
    hide S.Plain, S.HandleBlock1, S.HandlePlain, S.ObserveStep, S.ObserveValue, ParamsFor, FindOption, S.RouteOf,
         SessionsOk, CallsOk, BlockOptions, BlockPayload, PathLeavesRoom, BlockBytes, BlockSize, MoreBlocks;
    var k: u32, mid: u16 :| BlockOffset(BlockAt(x, k)) < |x.payload| && BlockRequest(BlockAt(x, k), mid) == Just(m);
    BlockOptionPresent(BlockAt(x, k), mid);
    match S.RouteOf(s, m)
    case Refused(code) => NoCalls(x, addr);
    case To(idx) =>
      var params := ParamsFor(s.resources[idx], S.RequestPath(m));
      var s1, observe := S.ObserveStep(s, idx, m, from), S.ObserveValue(s, idx, m);
      Block1Upload(x, addr, s1, idx, m, from, params, observe, h, k);
  }

  lemma NoCalls(x: Upload, addr: Address)
    ensures CallsOk(x, addr, [])
  {
  }

  // ------------------------------------------------------------------ every server step

  lemma {:induction false} NotifyKeepsSessions(s: S.ServerState, k: nat, idx: nat, payload: seq<byte>, format: u16,
                                               confirmable: bool)
    requires k <= |s.observers| && idx < |s.resources|
    ensures var o := S.NotifyUpTo(s, k, idx, payload, format, confirmable);
            o.state.sessions == s.sessions && o.calls == []
  {
    hide AfterStart, EncodeMsg, S.Notification, S.Transmit;
    if k > 0 { NotifyKeepsSessions(s, k - 1, idx, payload, format, confirmable); }
  }

  /** Steps that handle no request touch no session and make no call. */
  lemma QuietStep(s: S.ServerState, op: S.ServerOp)
    requires !op.OpReceive?
    ensures var o := S.ServerStep(s, op); o.state.sessions == s.sessions && o.calls == []
  {
    hide S.NotifyUpTo, FindResource, AfterTick, S.RemoveExpired, Firings, AfterStart, EncodeMsg, S.Resends;
    if op.OpNotify? && S.CanNotify(s, op.path) {
      var idx := FindResource(s.resources, op.path);
      NotifyKeepsSessions(S.BumpSequence(s, idx), |s.observers|, idx, op.payload, op.format, op.confirmable);
    }
  }

  predicate ServerAllowed(token: byte, addr: Address, wire: set<seq<byte>>, op: S.ServerOp) {
    op.OpReceive? && op.from.Addr() == addr ==> op.bytes in wire || Foreign(token, op.bytes)
  }

  lemma ReceiveUpload(x: Upload, addr: Address, s: S.ServerState, from: Endpoint, m: Msg, h: S.Handler)
    requires Uploadable(x) && SessionsOk(x, addr, s.sessions)
    requires S.KeyOf(from, m) == KeyOfUpload(addr, x) && Uploads(m) ==> IsBlock(x, m)
    ensures var o := S.ReceiveMsg(s, from, m, h); SessionsOk(x, addr, o.state.sessions) && CallsOk(x, addr, o.calls)
  {
    hide S.HandleRequest, AfterComplete, SessionsOk, IsBlock, Uploadable;
    if IsMethodCode(m.code) {
      if S.KeyOf(from, m) == KeyOfUpload(addr, x) && Uploads(m) {
        RequestUpload(x, addr, s, m, from, h);
      } else {
        RequestForeign(s, m, from, h, KeyOfUpload(addr, x));
        KeptSessions(x, addr, s.sessions, S.HandleRequest(s, m, from, h).state.sessions);
      }
    }
  }

  lemma ServerKeepsUpload(x: Upload, addr: Address, s: S.ServerState, wire: set<seq<byte>>, op: S.ServerOp)
    requires Uploadable(x) && SessionsOk(x, addr, s.sessions) && ServerAllowed(x.token, addr, wire, op)
    requires forall w :: w in wire ==> Good(x, w)
    ensures var o := S.ServerStep(s, op); SessionsOk(x, addr, o.state.sessions) && CallsOk(x, addr, o.calls)
  {
    hide S.ReceiveMsg, SessionsOk, IsBlock, Uploadable, DecodeMsg, Received, S.Received;
    if op.OpReceive? {
      var d := DecodeMsg(S.Received(op.bytes));
      SameReceived(op.bytes);
      if d.Decoded? {
        assert op.bytes in wire ==> Good(x, op.bytes);
        ReceiveUpload(x, addr, s, op.from, d.msg, op.handler);
      }
    } else {
      QuietStep(s, op);
    }
  }

  lemma SameReceived(bytes: seq<byte>)
    ensures S.Received(bytes) == Received(bytes)
  {
  }

  // ------------------------------------------------------------------ the whole system

  /** `wire` are the datagrams the client has sent so far: each may be delivered any number of times, in any order, or
      never. */
  datatype System = System(client: ClientState, server: S.ServerState, wire: set<seq<byte>>, calls: seq<S.Call>)

  datatype Action = ClientActs(cop: ClientOp) | ServerActs(sop: S.ServerOp)

  function Next(y: System, a: Action): (z: System)
    requires Sized(y.client)
    ensures Sized(z.client)
  {
    match a
    case ClientActs(op) =>
      var r := ClientStep(y.client, op);
      y.(client := r.state, wire := y.wire + Bytes(r.sent))
    case ServerActs(op) =>
      var o := S.ServerStep(y.server, op);
      y.(server := o.state, calls := y.calls + o.calls)
  }

  /** The client may do anything but issue the upload's token again, and may receive anything at all. The server may
      do anything and receive anything, except that what it receives from the client's address under the upload's
      token was sent by the client. */
  predicate Allowed(x: Upload, addr: Address, y: System, a: Action) {
    match a
    case ClientActs(op) => !op.OpPoll? ==> TokenByte(y.client.issued) != x.token
    case ServerActs(op) => ServerAllowed(x.token, addr, y.wire, op)
  }

  predicate AllAllowed(x: Upload, addr: Address, y: System, acts: seq<Action>)
    requires Sized(y.client)
  {
    acts == []
        || (AllAllowed(x, addr, y, acts[..|acts| - 1])
            && Allowed(x, addr, After(y, acts[..|acts| - 1]), acts[|acts| - 1]))
  }

  function After(y: System, acts: seq<Action>): (z: System)
    requires Sized(y.client)
    ensures Sized(z.client)
  {
    if acts == [] then y else Next(After(y, acts[..|acts| - 1]), acts[|acts| - 1])
  }

  ghost predicate Safe(x: Upload, addr: Address, y: System) {
    && Clean(x, y.client)
    && (forall w :: w in y.wire ==> Good(x, w))
    && SessionsOk(x, addr, y.server.sessions)
    && CallsOk(x, addr, y.calls)
  }

  lemma NextSafe(x: Upload, addr: Address, y: System, a: Action)
    requires Uploadable(x) && Safe(x, addr, y) && Sized(y.client) && Allowed(x, addr, y, a)
    ensures Safe(x, addr, Next(y, a))
  {
    hide Clean, SessionsOk, Good, ClientStep, S.ServerStep, Uploadable, ServerAllowed, TokenByte;
    match a
    case ClientActs(op) => ClientSendsBlocks(x, y.client, op);
    case ServerActs(op) => ServerKeepsUpload(x, addr, y.server, y.wire, op);
  }

  /** Block1 safety. Over every run from a safe start, with loss, duplication, reordering, other clients and other
      requests of the same client, every PUT or POST handler call made under the upload's (remote, token) sees exactly
      the client's payload. */
  lemma {:induction false} UploadIsSafe(x: Upload, addr: Address, y: System, acts: seq<Action>)
    requires Uploadable(x) && Sized(y.client) && Safe(x, addr, y) && AllAllowed(x, addr, y, acts)
    ensures Safe(x, addr, After(y, acts))
    ensures CallsOk(x, addr, After(y, acts).calls)
  {
    hide Safe, Next, Uploadable, Allowed;
    if acts == [] {
    } else {
      UploadIsSafe(x, addr, y, acts[..|acts| - 1]);
      NextSafe(x, addr, After(y, acts[..|acts| - 1]), acts[|acts| - 1]);
    }
    SafeCalls(x, addr, After(y, acts));
  }

  lemma SafeCalls(x: Upload, addr: Address, y: System)
    requires Safe(x, addr, y)
    ensures CallsOk(x, addr, y.calls)
  {
  }

  /** Nothing in the client, on the wire or in the server carries the token yet. */
  predicate TokenUnused(token: byte, addr: Address, y: System)
    requires Sized(y.client)
  {
    && (forall i :: 0 <= i < |y.client.pending| && y.client.pending[i].Just? ==>
        y.client.pending[i].value.token != [token])
    && (forall i :: 0 <= i < |y.client.pool| && y.client.pool[i].Just? ==> Foreign(token, y.client.pool[i].value.bytes))
    && (forall w :: w in y.wire ==> Foreign(token, w))
    && (forall i :: 0 <= i < |y.server.sessions| && y.server.sessions[i].Just? ==>
        y.server.sessions[i].value.Id() != Key(addr, [token]))
  }

  /** Starting an upload under an unused token is a safe start. */
  lemma UploadStartsSafe(y: System, addr: Address, server: Endpoint, path: seq<byte>, verb: byte, payload: seq<byte>,
                         format: u16, link: bool)
    requires SerialsOk(y.client) && Sized(y.client) && TokenUnused(TokenByte(y.client.issued), addr, y) && y.calls == []
    ensures var x := Upload(payload, 0, BLOCK_SZX, format, verb, server, path, TokenByte(y.client.issued));
            var r := BeginUpload(y.client, server, path, verb, payload, format, link);
            Safe(x, addr, y.(client := r.state, wire := y.wire + Bytes(r.sent)))
  {
    hide SerialsOk, BeginUpload, TokenByte, DecodeMsg, Received;
    var x := Upload(payload, 0, BLOCK_SZX, format, verb, server, path, TokenByte(y.client.issued));
    UnusedIsClean(x, y.client);
    BeginUploadGood(x, y.client, server, path, verb, payload, format, link);
  }

  lemma UnusedIsClean(x: Upload, c: ClientState)
    requires SerialsOk(c) && Sized(c)
    requires forall i :: 0 <= i < |c.pending| && c.pending[i].Just? ==> c.pending[i].value.token != [x.token]
    requires forall i :: 0 <= i < |c.pool| && c.pool[i].Just? ==> Foreign(x.token, c.pool[i].value.bytes)
    ensures Clean(x, c)
  {
    hide TokenByte, DecodeMsg, Received;
    forall i | 0 <= i < |c.pending| && c.pending[i].Just? && c.uploads[i].Just?
      ensures c.uploads[i].value.token != x.token {
      assert PendingOk(c, i) && UploadOk(c, i);
    }
  }

  // ------------------------------------------------------------------ sessions at rest

  /** Between steps every active session has accepted at least one block, so the echoed number never underflows. */
  predicate AtRest(ss: seq<Maybe<S.Session>>) {
    forall i :: 0 <= i < |ss| && ss[i].Just? ==> ss[i].value.next >= 1 && |ss[i].value.body| <= BLOCK1_MAX_BODY
  }

  lemma AcceptAtRest(s: S.ServerState, i: nat, idx: nat, m: Msg, from: Endpoint, params: seq<PathParam>,
                     observe: Maybe<u32>,
                     b: Block, h: S.Handler)
    requires i < |s.sessions| && s.sessions[i].Just? && (s.sessions[i].value.next == 0 ==> b.num == 0)
    requires |s.sessions[i].value.body| <= BLOCK1_MAX_BODY
    requires forall j :: 0 <= j < |s.sessions| && j != i && s.sessions[j].Just? ==>
               s.sessions[j].value.next >= 1 && |s.sessions[j].value.body| <= BLOCK1_MAX_BODY
    ensures AtRest(S.AcceptBlock(s, i, idx, m, from, params, observe, b, h).state.sessions)
  {
    hide S.Reply, S.Plain, S.Piggyback, S.AckDeferral, BlockOpt;
  }

  lemma RequestAtRest(s: S.ServerState, m: Msg, from: Endpoint, h: S.Handler)
    requires AtRest(s.sessions)
    ensures AtRest(S.HandleRequest(s, m, from, h).state.sessions)
  {
    hide S.Plain, S.AcceptBlock, S.HandlePlain, S.ObserveStep, S.ObserveValue, ParamsFor, FindOption, S.RouteOf,
         ReadBlock;
    match S.RouteOf(s, m)
    case Refused(code) =>
    case To(idx) =>
      var params := ParamsFor(s.resources[idx], S.RequestPath(m));
      var s1, observe := S.ObserveStep(s, idx, m, from), S.ObserveValue(s, idx, m);
      PlainCalls(s1, idx, m, from, params, observe, h);
      if S.IsUploadBlock(m) {
        var b := ReadBlock(FindOption(m.options, BLOCK1).value);
        if b.Just? {
          var i, j := S.SessionSlot(s1.sessions, S.KeyOf(from, m)), First(s1.sessions, IsFree<S.Session>());
          if i >= 0 {
            AcceptAtRest(s1, i, idx, m, from, params, observe, b.value, h);
          } else if b.value.num == 0 && j >= 0 {
            AcceptAtRest(s1.(sessions := s1.sessions[j := Just(S.Session(from, m.token, 0, []))]), j, idx, m, from,
                         params, observe, b.value, h);
          }
        }
      }
  }

  /** In every reachable server state. */
  lemma {:induction false} SessionsAtRest(ops: seq<S.ServerOp>)
    ensures AtRest(S.RunServer(ops).sessions)
  {
    hide S.ServerStep, AtRest;
    if ops == [] {
      InitiallyAtRest();
    } else {
      SessionsAtRest(ops[..|ops| - 1]);
      StepAtRest(S.RunServer(ops[..|ops| - 1]), ops[|ops| - 1]);
    }
  }

  lemma StepAtRest(s: S.ServerState, op: S.ServerOp)
    requires AtRest(s.sessions)
    ensures AtRest(S.ServerStep(s, op).state.sessions)
  {
    hide S.HandleRequest, AtRest, DecodeMsg, AfterComplete, S.Received;
    if op.OpReceive? {
      var d := DecodeMsg(S.Received(op.bytes));
      if d.Decoded? { RequestAtRest(s, d.msg, op.from, op.handler); }
    } else {
      QuietStep(s, op);
    }
  }

  lemma InitiallyAtRest()
    ensures AtRest(S.InitialServer().sessions)
  {
  }
}
