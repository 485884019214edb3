/** Block-wise transfers over a link that loses nothing: they finish after exactly one exchange per block. */
module Completion {
  import opened Types
  import opened Config
  import opened Codec
  import opened OptionValues
  import opened Reliability
  import opened Paths
  import opened Sizes
  import opened S = ServerSpec
  import opened C = ClientSpec
  import B = Block1Safety
  import D = Block2Safety
  import Y = Block2System

  // ------------------------------------------------------------------ the link

  /** Both ends, the client's datagram in flight, and what was reported so far. */
  datatype Link = Link(client: ClientState, server: ServerState, inFlight: seq<Datagram>, events: seq<Event>,
                       calls: seq<Call>)

  /** The server polls and takes the datagram, then the client polls and takes the reply. */
  function Exchange(from: Endpoint, y: Link, now: u32, h: Handler): (z: Link)
    requires Sized(y.client)
    ensures Sized(z.client)
  {
    if y.inFlight == [] then y
    else
      var o := Receive(TickTo(y.server, now).state, from, y.inFlight[0].bytes, h);
      var reply := if o.sent == [] then Nothing else Just(Datagram(y.inFlight[0].remote, o.sent[0].bytes));
      var r := Poll(y.client, now, reply, true);
      Link(r.state, o.state, r.sent, y.events + r.events, y.calls + o.calls)
  }

  function Exchanges(from: Endpoint, y: Link, times: seq<u32>, h: Handler): (z: Link)
    requires Sized(y.client)
    ensures Sized(z.client)
  {
    if times == [] then y else Exchange(from, Exchanges(from, y, times[..|times| - 1], h), times[|times| - 1], h)
  }

  // ------------------------------------------------------------------ sizes

  /** The bytes the path takes in a request. */
  function PathSize(path: seq<byte>): nat
    requires ValidOptions(UriOptions(Segments(path)))
  {
    |EncodeOptions(UriOptions(Segments(path)), 0)|
  }

  /** Room for every block request of an upload: block size, path and at most 18 bytes of overhead. */
  predicate UploadFits(path: seq<byte>) {
    ValidOptions(UriOptions(Segments(path))) && PathSize(path) + BlockSize(BLOCK_SZX) + 18 <= MAX_MSG_SIZE
  }

  lemma BlockFits(up: Upload, mid: u16)
    requires UploadFits(up.path) && B.PathLeavesRoom(up.path) && up.szx == BLOCK_SZX && BlockOffset(up) < |up.payload|
    ensures BlockRequest(up, mid).Just? && Fits(BlockRequest(up, mid).value)
  {
    hide Segments, UintBytes, BlockValue, EncodeMsg, EncodeOptions, UriOptions, BlockSize;
    BlockOptionsAre(up, mid);
    FormatLength(up.format);
    var m := BlockRequest(up, mid).value;
    var extra := [UintOpt(CONTENT_FORMAT, up.format), BlockOpt(BLOCK1, up.nextNum, MoreBlocks(up), up.szx)];
    ShortPair(extra[0], extra[1]);
    MessageLength(m, UriOptions(Segments(up.path)), extra);
    assert |m.payload| <= BlockSize(up.szx);
  }

  lemma ContinueFits(mid: u16, token: byte, k: nat, szx: nat)
    requires MAX_MSG_SIZE >= 13
    ensures Fits(Msg(ACK, CONTINUE, mid, [token], [BlockOpt(BLOCK1, k, false, szx)], []))
  {
    hide UintBytes, BlockValue, EncodeMsg, EncodeOptions;
    var m := Msg(ACK, CONTINUE, mid, [token], [BlockOpt(BLOCK1, k, false, szx)], []);
    assert m.options[1..] == [] && m.options == [] + m.options;
    NoOptionsLength();
    assert ShortSize(m.options) <= 7;
    MessageLength(m, [], m.options);
  }

  /** A full block fits exactly when the buffer holds the block, six bytes for header, token and marker, and the
      request's options. */
  lemma FullBlockFits(up: Upload, mid: u16)
    requires BlockOffset(up) < |up.payload| && BlockRequest(up, mid).Just? && |BlockPayload(up)| == BlockSize(up.szx)
    ensures var m := BlockRequest(up, mid).value;
            Fits(m) <==> MAX_MSG_SIZE >= BlockSize(up.szx) + 6 + |EncodeOptions(m.options, 0)|
  {
    hide EncodeMsg, EncodeOptions, BlockOptions, BlockOffset, BlockSize, BlockPayload;
    MessageSize(BlockRequest(up, mid).value);
    assert BlockSize(up.szx) >= 16;
  }

  // ------------------------------------------------------------------ quiet pools

  predicate Idle(p: Slots) {
    forall i :: 0 <= i < |p| ==> p[i].Nothing?
  }

  predicate NothingDue(p: Slots, now: u32) {
    forall i :: 0 <= i < |p| && p[i].Just? ==> !Due(Wrapping, p[i].value.nextAt, now)
  }

  lemma {:induction false} NoFirings(p: Slots, now: u32)
    requires NothingDue(p, now)
    ensures Firings(Wrapping, p, now) == [] && AfterTick(Wrapping, p, now) == p
  {
    hide Due;
    if p != [] { NoFirings(p[..|p| - 1], now); }
  }

  lemma QuietServerTick(s: ServerState, now: u32)
    requires Idle(s.pool)
    ensures TickTo(s, now) == Outcome(s.(now := now), [], [])
  {
    NoFirings(s.pool, now);
    assert RemoveExpired(s.observers, []) == s.observers;
  }

  lemma QuietClientTick(c: ClientState, now: u32)
    requires Sized(c) && NothingDue(c.pool, now)
    ensures TickClient(c, now) == Result(c, [], [], true)
  {
    NoFirings(c.pool, now);
  }

  /** The acknowledgement of message `mid` leaves the pool idle. */
  predicate ClearedBy(p: Slots, addr: Address, mid: u16) {
    Idle(AfterComplete(p, addr, mid))
  }

  lemma TrackFromIdle(c: ClientState, serial: nat, remote: Endpoint, mid: u16, token: Token, bytes: seq<byte>)
    requires Sized(c) && Idle(c.pool) && |bytes| <= MAX_MSG_SIZE
    ensures var t := Track(c, serial, remote, mid, token, bytes);
            NothingDue(t.pool, c.now) && ClearedBy(t.pool, remote.Addr(), mid)
  {
    hide InitialTimeout;
    var i := StartSlot(c.pool, token, bytes);
    var t := Track(c, serial, remote, mid, token, bytes);
    if i >= 0 {
      assert 2000 <= InitialTimeout(mid) < 3000;
      assert HasMid(remote.Addr(), mid)(t.pool[i]);
      FirstIs(t.pool, HasMid(remote.Addr(), mid), i);
    }
  }

  // ------------------------------------------------------------------ the client's end

  /** Slot `slot` holds one-shot request `n`, alone under its token; `mid` is the message it waits to have
      acknowledged. */
  predicate Waiting(c: ClientState, slot: nat, n: nat, server: Endpoint, mid: u16) {
    && Sized(c) && slot < |c.pending| && c.pending[slot].Just?
    && c.pending[slot].value.serial == n && c.pending[slot].value.token == TokenOf(n)
    && !c.pending[slot].value.observing
    && (forall j :: 0 <= j < |c.pending| && j != slot && c.pending[j].Just? ==> c.pending[j].value.token != TokenOf(n))
    && (forall j :: 0 <= j < |c.discovers| && c.discovers[j].Just? ==> c.discovers[j].value.token != TokenOf(n))
    && ClearedBy(c.pool, server.Addr(), mid)
  }

  /** The client after the bookkeeping of an acknowledged response. */
  function Acked(c: ClientState, now: u32, server: Endpoint, mid: u16): ClientState {
    c.(now := now, pool := AfterComplete(c.pool, server.Addr(), mid))
  }

  /** A poll that takes the piggybacked response to the pending request. */
  lemma PollTakesResponse(c: ClientState, slot: nat, n: nat, server: Endpoint, mid: u16, now: u32, m: Msg)
    requires Waiting(c, slot, n, server, mid) && ValidMsg(m) && Fits(m)
    requires m.typ == ACK && m.mid == mid && m.token == TokenOf(n) && m.code != EMPTY && !IsMethodCode(m.code)
    requires var r := HandleResponse(Acked(c, now, server, mid), slot, server, m, true); NothingDue(r.state.pool, now)
    ensures var r := HandleResponse(Acked(c, now, server, mid), slot, server, m, true);
            Poll(c, now, Just(Datagram(server, EncodeMsg(m))), true)
            == Result(ExpireDiscovers(r.state, now), r.sent, r.events, true)
  {
    hide HandleResponse, EncodeMsg, DecodeMsg, TickClient, ExpireDiscovers, AfterComplete, TokenOf;
    DecodeEncode(m);
    var a := Acked(c, now, server, mid);
    FirstIs(a.pending, HasToken(TokenOf(n)), slot);
    assert First(a.discovers, HasDiscoverToken(TokenOf(n))) == -1;
    var r := HandleResponse(a, slot, server, m, true);
    QuietClientTick(ExpireDiscovers(r.state, now), now);
    assert r.sent + [] == r.sent && [] + r.sent == r.sent && r.events + [] == r.events;
  }

  lemma StillWaiting(c: ClientState, t: ClientState, now: u32, slot: nat, n: nat, server: Endpoint, mid: u16)
    requires Sized(t) && slot < |c.pending| && Sized(c) && t.pending == c.pending && t.discovers == c.discovers
    requires exists prev: u16 :: Waiting(c, slot, n, server, prev)
    requires ClearedBy(t.pool, server.Addr(), mid)
    ensures Waiting(ExpireDiscovers(t, now), slot, n, server, mid)
  {
    hide ClearedBy, TokenOf;
  }

  // ------------------------------------------------------------------ uploads: the server's end

  function Served(path: seq<byte>): seq<byte> {
    JoinPath(UriOptions(Segments(path)))
  }

  /** The path is served by resource `idx`, which allows `verb`. */
  predicate Routed(s: ServerState, path: seq<byte>, verb: byte, idx: nat) {
    && |Served(path)| < MAX_URI_PATH_LEN && verb in {GET, POST, PUT, DELETE}
    && FindResource(s.resources, CString(Served(path))) == idx && verb in s.resources[idx].methods
  }

  lemma RouteOfOptions(s: ServerState, m: Msg, path: seq<byte>, after: seq<Opt>, idx: nat)
    requires Routed(s, path, m.code, idx) && m.options == UriOptions(Segments(path)) + after
    requires forall i :: 0 <= i < |after| ==> after[i].number != URI_PATH
    ensures RouteOf(s, m) == To(idx)
  {
    hide Segments, JoinOptions, CString, FindResource;
    assert [] + UriOptions(Segments(path)) == UriOptions(Segments(path));
    JoinedOptions([], Segments(path), after);
  }

  /** The server has taken the blocks before k: its session holds them, or for k = 0 there is none and room for one. */
  predicate Holding(s: ServerState, x: Upload, from: Endpoint, k: nat) {
    var i := SessionSlot(s.sessions, B.KeyOfUpload(from.Addr(), x));
    if k == 0 then i < 0 && First(s.sessions, IsFree<Session>()) >= 0
    else i >= 0 && s.sessions[i].value.next == k && B.Holds(x, s.sessions[i].value)
  }

  function UploadRequest(x: Upload, from: Endpoint, m: Msg, s: ServerState, idx: nat): Request
    requires idx < |s.resources|
  {
    var free := First(s.deferred, IsFree<Deferred>());
    Request(m.code, m, from, if free >= 0 then Just(free) else Nothing, Just(x.payload),
            ParamsFor(s.resources[idx], RequestPath(m)))
  }

  /** Accepting block k into a session that holds the blocks before it. */
  lemma AcceptNext(s: ServerState, i: nat, idx: nat, m: Msg, from: Endpoint, x: Upload, k: u32, h: Handler)
    requires B.Uploadable(x) && |x.payload| <= BLOCK1_MAX_BODY && i < |s.sessions| && s.sessions[i].Just?
    requires s.sessions[i].value.next == k && B.Holds(x, s.sessions[i].value)
    requires s.sessions[i].value.Id() == B.KeyOfUpload(from.Addr(), x)
    requires forall j :: 0 <= j < i && s.sessions[j].Just? ==> s.sessions[j].value.Id() != B.KeyOfUpload(from.Addr(), x)
    requires m.typ.CON? && BlockOffset(B.BlockAt(x, k)) < |x.payload| && m.payload == BlockPayload(B.BlockAt(x, k))
    requires idx < |s.resources| && !h(idx, UploadRequest(x, from, m, s, idx)).deferred
    ensures var b := Block(k, MoreBlocks(B.BlockAt(x, k)), x.szx);
            var o := AcceptBlock(s, i, idx, m, from, ParamsFor(s.resources[idx], RequestPath(m)), Nothing, b, h);
            var res := h(idx, UploadRequest(x, from, m, s, idx));
            if b.more then
              && o.sent == Transmit(from, Msg(ACK, CONTINUE, m.mid, m.token, [BlockOpt(BLOCK1, k, false, x.szx)], []))
              && o.calls == [] && Holding(o.state, x, from, k + 1) && o.state.deferred == s.deferred
            else
              && o.sent == Transmit(from, Msg(ACK, res.code, m.mid, m.token, PiggybackOptions(res.payload, res.format, Nothing), res.payload))
              && o.calls == [Call(idx, UploadRequest(x, from, m, s, idx))]
  {
    hide Transmit, BlockOpt, PiggybackOptions, B.Uploadable, B.Holds, BlockPayload, BlockOffset, ParamsFor, RequestPath;
    var sess := s.sessions[i].value;
    B.GrowSession(x, sess, k);
    BodyFits(x, sess, k);
    var grown := sess.(next := sess.next + 1, body := sess.body + m.payload);
    if MoreBlocks(B.BlockAt(x, k)) {
      var ss := s.sessions[i := Just(grown)];
      assert HasSessionKey(B.KeyOfUpload(from.Addr(), x))(ss[i]);
      FirstIs(ss, HasSessionKey(B.KeyOfUpload(from.Addr(), x)), i);
    }
  }

  lemma BodyFits(x: Upload, sess: Session, k: u32)
    requires B.Holds(x, sess) && sess.next == k && BlockOffset(B.BlockAt(x, k)) <= |x.payload|
    ensures |sess.body| + |BlockPayload(B.BlockAt(x, k))| <= |x.payload|
  {
    hide BlockSize;
  }

  /** The wire options of a block request, when the path leaves room. */
  lemma BlockOptionsAre(up: Upload, mid: u16)
    requires B.PathLeavesRoom(up.path) && BlockOffset(up) < |up.payload|
    ensures BlockRequest(up, mid) == Just(Msg(CON, up.verb, mid, [up.token],
              UriOptions(Segments(up.path)) + [UintOpt(CONTENT_FORMAT, up.format), BlockOpt(BLOCK1, up.nextNum, MoreBlocks(up), up.szx)],
              BlockPayload(up)))
  {
    hide Segments, UintBytes, BlockValue, BlockPayload, BlockOffset, BlockSize;
    var os := UriOptions(Segments(up.path));
    assert [] + os == os;
    assert os + [UintOpt(CONTENT_FORMAT, up.format)] + [BlockOpt(BLOCK1, up.nextNum, MoreBlocks(up), up.szx)]
        == os + [UintOpt(CONTENT_FORMAT, up.format), BlockOpt(BLOCK1, up.nextNum, MoreBlocks(up), up.szx)];
  }

  lemma ServerTakesBlock(s: ServerState, idx: nat, from: Endpoint, x: Upload, k: u32, mid: u16, h: Handler)
    requires B.Uploadable(x) && |x.payload| <= BLOCK1_MAX_BODY && BlockOffset(B.BlockAt(x, k)) < |x.payload|
    requires k < 0x10_0000
    requires Routed(s, x.path, x.verb, idx) && Holding(s, x, from, k)
    requires BlockRequest(B.BlockAt(x, k), mid).Just?
    requires !h(idx, UploadRequest(x, from, BlockRequest(B.BlockAt(x, k), mid).value, s, idx)).deferred
    ensures var m := BlockRequest(B.BlockAt(x, k), mid).value;
            var o := HandleRequest(s, m, from, h);
            var res := h(idx, UploadRequest(x, from, m, s, idx));
            if MoreBlocks(B.BlockAt(x, k)) then
              && o.sent == Transmit(from, Msg(ACK, CONTINUE, mid, [x.token], [BlockOpt(BLOCK1, k, false, x.szx)], []))
              && o.calls == [] && Holding(o.state, x, from, k + 1) && o.state.deferred == s.deferred
            else
              && o.sent == Transmit(from, Msg(ACK, res.code, mid, [x.token], PiggybackOptions(res.payload, res.format, Nothing), res.payload))
              && o.calls == [Call(idx, UploadRequest(x, from, m, s, idx))]
  {
    hide Transmit, BlockOpt, PiggybackOptions, B.Holds, BlockPayload, AcceptBlock, ParamsFor, FindOption, RouteOf,
         RequestPath, ReadBlock, BlockBytes, Segments, MoreBlocks, B.PathLeavesRoom, BlockSize, FindResource, Served,
         BlockOptions, UriOptions;
    var up := B.BlockAt(x, k);
    var m := BlockRequest(up, mid).value;
    BlockOptionsAre(up, mid);
    B.BlockOptionPresent(up, mid);
    RouteOfBlock(s, up, m, idx);
    BlockRoundTrip(k, MoreBlocks(up), x.szx);
    var b := Block(k, MoreBlocks(up), x.szx);
    var key := B.KeyOfUpload(from.Addr(), x);
    var i := SessionSlot(s.sessions, key);
    if i >= 0 {
      AcceptNext(s, i, idx, m, from, x, k, h);
    } else {
      var j := First(s.sessions, IsFree<Session>());
      var s1 := s.(sessions := s.sessions[j := Just(Session(from, m.token, 0, []))]);
      B.FreshHolds(x, from, m.token);
      AcceptNext(s1, j, idx, m, from, x, k, h);
    }
  }

  lemma RouteOfBlock(s: ServerState, up: Upload, m: Msg, idx: nat)
    requires Routed(s, up.path, up.verb, idx) && BlockOffset(up) < |up.payload| && B.PathLeavesRoom(up.path)
    requires BlockRequest(up, m.mid) == Just(m)
    ensures RouteOf(s, m) == To(idx)
  {
    hide Routed, Segments, RouteOf, UintBytes, BlockPayload, BlockOptions, UriOptions;
    BlockOptionsAre(up, m.mid);
    RouteOfOptions(s, m, up.path,
                   [UintOpt(CONTENT_FORMAT, up.format), BlockOpt(BLOCK1, up.nextNum, MoreBlocks(up), up.szx)], idx);
  }

  // ------------------------------------------------------------------ uploads: one exchange

  /** ceil(length / size) */
  function BlockCount(length: nat, size: nat): nat
    requires size > 0
  {
    (length + size - 1) / size
  }

  function Blocks(x: Upload): nat {
    BlockCount(|x.payload|, BlockSize(x.szx))
  }

  /** What the application must do for the upload to complete: answer the final request inline, with a final response
      code that fits. */
  predicate Answers(x: Upload, from: Endpoint, idx: nat, s: ServerState, m: Msg, h: Handler)
    requires idx < |s.resources|
  {
    var res := h(idx, UploadRequest(x, from, m, s, idx));
    && !res.deferred && res.code != CONTINUE && res.code != EMPTY && !IsMethodCode(res.code)
    && Fits(Msg(ACK, res.code, m.mid, m.token, PiggybackOptions(res.payload, res.format, Nothing), res.payload))
  }

  /** For every request of the upload, in the server's present configuration of resources and deferred slots. */
  ghost predicate AlwaysAnswers(x: Upload, from: Endpoint, idx: nat, s: ServerState, h: Handler)
    requires idx < |s.resources|
  {
    forall k: u32, mid: u16 :: BlockOffset(B.BlockAt(x, k)) < |x.payload| && BlockRequest(B.BlockAt(x, k), mid).Just?
      ==> Answers(x, from, idx, s, BlockRequest(B.BlockAt(x, k), mid).value, h)
  }

  /** Block k is in flight, all earlier ones are at the server. */
  ghost predicate Uploading(y: Link, x: Upload, from: Endpoint, slot: nat, n: nat, idx: nat, k: nat, h: Handler) {
    && Sized(y.client) && k < 0x10_0000 && BlockOffset(B.BlockAt(x, k)) < |x.payload|
    && x.token == TokenByte(n)
    && Routed(y.server, x.path, x.verb, idx) && Holding(y.server, x, from, k) && Idle(y.server.pool)
    && AlwaysAnswers(x, from, idx, y.server, h)
    && exists mid: u16 ::
         && Waiting(y.client, slot, n, x.server, mid) && y.client.uploads[slot] == Just(B.BlockAt(x, k))
         && BlockRequest(B.BlockAt(x, k), mid).Just? && Fits(BlockRequest(B.BlockAt(x, k), mid).value)
         && y.inFlight == [Datagram(x.server, EncodeMsg(BlockRequest(B.BlockAt(x, k), mid).value))]
  }

  predicate Sendable(x: Upload) {
    B.Uploadable(x) && |x.payload| <= BLOCK1_MAX_BODY && |x.payload| <= 0x10_0000 * BlockSize(x.szx)
  }

  /** Block k, if there is one, fits a message; its message ID does not matter. */
  predicate BlockFitsAt(x: Upload, k: u32) {
    BlockOffset(B.BlockAt(x, k)) < |x.payload| ==>
      BlockRequest(B.BlockAt(x, k), 0).Just? && Fits(BlockRequest(B.BlockAt(x, k), 0).value)
  }

  ghost predicate EveryBlockFits(x: Upload) {
    forall k: u32 :: BlockFitsAt(x, k)
  }

  lemma AnyMid(x: Upload, k: u32, mid: u16)
    requires B.PathLeavesRoom(x.path) && BlockOffset(B.BlockAt(x, k)) < |x.payload|
    ensures BlockRequest(B.BlockAt(x, k), mid).Just? && (Fits(BlockRequest(B.BlockAt(x, k), mid).value) <==> BlockFitsAt(x, k))
  {
    hide Segments, UintBytes, BlockValue, EncodeMsg, EncodeOptions, BlockOffset, BlockPayload, UriOptions,
         B.PathLeavesRoom, BlockOptions;
    BlockOptionsAre(B.BlockAt(x, k), mid);
    BlockOptionsAre(B.BlockAt(x, k), 0);
    MessageSize(BlockRequest(B.BlockAt(x, k), mid).value);
    MessageSize(BlockRequest(B.BlockAt(x, k), 0).value);
  }

  /** A full block leaves room for the server's 2.31. */
  lemma FullBlockRoom(x: Upload, k: u32, mid: u16)
    requires BlockOffset(B.BlockAt(x, k)) < |x.payload| && MoreBlocks(B.BlockAt(x, k))
    requires BlockRequest(B.BlockAt(x, k), mid).Just? && Fits(BlockRequest(B.BlockAt(x, k), mid).value)
    ensures MAX_MSG_SIZE >= 13
  {
    hide EncodeMsg, EncodeOptions, BlockOptions, BlockOffset, BlockSize;
    MessageSize(BlockRequest(B.BlockAt(x, k), mid).value);
  }

  /** Enough room for every block: block size, path and 18 bytes. */
  lemma RoomForBlocks(x: Upload)
    requires B.Uploadable(x) && UploadFits(x.path)
    ensures EveryBlockFits(x)
  {
    hide BlockRequest, UploadFits, BlockOffset, BlockSize, B.PathLeavesRoom;
    forall k: u32 ensures BlockFitsAt(x, k) {
      if BlockOffset(B.BlockAt(x, k)) < |x.payload| { BlockFits(B.BlockAt(x, k), 0); }
    }
  }

  /** The client's poll that takes a Continue sends the next block. */
  lemma ClientTakesContinue(c: ClientState, x: Upload, slot: nat, n: nat, k: u32, mid: u16, now: u32, m: Msg)
    requires Sendable(x) && Waiting(c, slot, n, x.server, mid) && c.uploads[slot] == Just(B.BlockAt(x, k))
    requires x.token == TokenByte(n)
    requires k + 1 < 0x10_0000 && BlockOffset(B.BlockAt(x, k + 1)) < |x.payload| && BlockFitsAt(x, k + 1)
    requires ValidMsg(m) && Fits(m) && m.typ == ACK && m.mid == mid && m.token == TokenOf(n) && m.code == CONTINUE
    ensures var r := Poll(c, now, Just(Datagram(x.server, EncodeMsg(m))), true);
            && r.events == [] && r.state.uploads[slot] == Just(B.BlockAt(x, k + 1))
            && BlockRequest(B.BlockAt(x, k + 1), c.nextMid).Just?
            && Fits(BlockRequest(B.BlockAt(x, k + 1), c.nextMid).value)
            && r.sent == [Datagram(x.server, EncodeMsg(BlockRequest(B.BlockAt(x, k + 1), c.nextMid).value))]
            && Waiting(r.state, slot, n, x.server, c.nextMid)
  {
    hide EncodeMsg, BlockRequest, Poll, ExpireDiscovers, TokenOf, TokenByte, B.PathLeavesRoom, AfterComplete,
         AfterStart, B.Uploadable, BlockOffset, BlockFitsAt;
    var up := B.BlockAt(x, k + 1);
    UploadableParts(x);
    AnyMid(x, k + 1, c.nextMid);
    var a := Acked(c, now, x.server, mid);
    var a1 := BumpMid(a.(uploads := a.uploads[slot := Just(up)]));
    var msg := BlockRequest(up, c.nextMid).value;
    TrackFromIdle(a1, n, x.server, c.nextMid, [x.token], EncodeMsg(msg));
    var t := Track(a1, n, x.server, c.nextMid, [x.token], EncodeMsg(msg));
    assert HandleResponse(a, slot, x.server, m, true) == Result(t, [Datagram(x.server, EncodeMsg(msg))], [], true);
    PollTakesResponse(c, slot, n, x.server, mid, now, m);
    StillWaiting(c, t, now, slot, n, x.server, c.nextMid);
  }

  lemma UploadableParts(x: Upload)
    requires Sendable(x)
    ensures x.szx == BLOCK_SZX && B.PathLeavesRoom(x.path)
  {
    hide B.PathLeavesRoom;
  }

  /** The client's poll that takes a Continue whose next block does not fit gives up the upload and reports a timeout.
      */
  lemma ClientGivesUp(c: ClientState, x: Upload, slot: nat, n: nat, k: u32, mid: u16, now: u32, m: Msg)
    requires Sendable(x) && Waiting(c, slot, n, x.server, mid) && c.uploads[slot] == Just(B.BlockAt(x, k))
    requires x.token == TokenByte(n)
    requires k + 1 < 0x10_0000 && BlockOffset(B.BlockAt(x, k + 1)) < |x.payload| && !BlockFitsAt(x, k + 1)
    requires ValidMsg(m) && Fits(m) && m.typ == ACK && m.mid == mid && m.token == TokenOf(n) && m.code == CONTINUE
    ensures var r := Poll(c, now, Just(Datagram(x.server, EncodeMsg(m))), true);
            r.sent == [] && r.events == [TimedOut(Just(n))] && r.state.pending[slot].Nothing?
  {
    hide EncodeMsg, BlockRequest, Poll, ExpireDiscovers, TokenOf, TokenByte, Sendable, AfterComplete, BlockOffset,
         BlockFitsAt, HandleResponse, Fits, ClearedBy;
    UploadableParts(x);
    AnyMid(x, k + 1, c.nextMid);
    var a := Acked(c, now, x.server, mid);
    NextDoesNotFit(a, x, slot, n, k, x.server, m);
    IdleAfterAck(a.pool, c.pool, x.server.Addr(), mid, now);
    PollTakesResponse(c, slot, n, x.server, mid, now, m);
  }

  lemma IdleAfterAck(p: Slots, q: Slots, addr: Address, mid: u16, now: u32)
    requires ClearedBy(q, addr, mid) && p == AfterComplete(q, addr, mid)
    ensures NothingDue(p, now)
  {
    hide AfterComplete;
  }

  lemma NextDoesNotFit(a: ClientState, x: Upload, slot: nat, n: nat, k: u32, from: Endpoint, m: Msg)
    requires Sized(a) && slot < |a.pending| && a.pending[slot].Just? && a.pending[slot].value.serial == n
    requires a.uploads[slot] == Just(B.BlockAt(x, k)) && k + 1 < WRAP && m.code == CONTINUE
    requires BlockOffset(B.BlockAt(x, k + 1)) < |x.payload|
    requires BlockRequest(B.BlockAt(x, k + 1), a.nextMid).Just?
    requires !Fits(BlockRequest(B.BlockAt(x, k + 1), a.nextMid).value)
    ensures var r := HandleResponse(a, slot, from, m, true);
            r.sent == [] && r.events == [TimedOut(Just(n))] && r.state.pending[slot].Nothing? && r.state.pool == a.pool
  {
    hide EncodeMsg, BlockRequest, Track, BlockOffset, Fits, Block2Of, Accumulate;
  }

  /** The client's poll that takes the final response reports it once and is done. */
  lemma ClientTakesFinal(c: ClientState, x: Upload, slot: nat, n: nat, k: u32, mid: u16, now: u32, m: Msg)
    requires Waiting(c, slot, n, x.server, mid) && c.uploads[slot] == Just(B.BlockAt(x, k))
    requires ValidMsg(m) && Fits(m) && m.typ == ACK && m.mid == mid && m.token == TokenOf(n)
    requires m.code != CONTINUE && m.code != EMPTY && !IsMethodCode(m.code) && Block2Of(m) == Nothing
    ensures var r := Poll(c, now, Just(Datagram(x.server, EncodeMsg(m))), true);
            && r.sent == [] && r.events == [Answered(n, m.code, m.payload, FormatOf(m))]
            && r.state.pending[slot].Nothing?
  {
    hide EncodeMsg, Poll, ExpireDiscovers, TokenOf, AfterComplete, Block2Of, FormatOf;
    var a := Acked(c, now, x.server, mid);
    var r := HandleResponse(a, slot, x.server, m, true);
    PollTakesResponse(c, slot, n, x.server, mid, now, m);
  }

  lemma PiggybackHasNoBlock2(m: Msg, payload: seq<byte>, format: u16)
    requires m.options == PiggybackOptions(payload, format, Nothing)
    ensures Block2Of(m) == Nothing
  {
    hide UintBytes;
    Y.NoBlock2(m);
  }

  /** The server's two halves of a poll, for the client's block. */
  lemma ServerPolls(y: Link, x: Upload, from: Endpoint, idx: nat, k: u32, mid: u16, now: u32, h: Handler)
    requires Sendable(x) && BlockOffset(B.BlockAt(x, k)) < |x.payload| && k < 0x10_0000
    requires Routed(y.server, x.path, x.verb, idx) && Holding(y.server, x, from, k) && Idle(y.server.pool)
    requires BlockRequest(B.BlockAt(x, k), mid).Just? && Fits(BlockRequest(B.BlockAt(x, k), mid).value)
    requires y.inFlight == [Datagram(x.server, EncodeMsg(BlockRequest(B.BlockAt(x, k), mid).value))]
    ensures var m := BlockRequest(B.BlockAt(x, k), mid).value;
            Receive(TickTo(y.server, now).state, from, y.inFlight[0].bytes, h) ==
              HandleRequest(y.server.(now := now), m, from, h)
  {
    hide HandleRequest, EncodeMsg, DecodeMsg, BlockOptions, TickTo, Holding, Routed, BlockOffset, BlockPayload,
         Sendable;
    QuietServerTick(y.server, now);
    var m := BlockRequest(B.BlockAt(x, k), mid).value;
    DecodeEncode(m);
    UploadVerb(x);
  }

  lemma UploadVerb(x: Upload)
    requires Sendable(x)
    ensures IsMethodCode(x.verb)
  {
    hide B.PathLeavesRoom;
  }

  lemma SameAnswers(x: Upload, from: Endpoint, idx: nat, s: ServerState, t: ServerState, h: Handler)
    requires idx < |s.resources| && t.resources == s.resources && t.deferred == s.deferred
    requires AlwaysAnswers(x, from, idx, s, h)
    ensures AlwaysAnswers(x, from, idx, t, h)
  {
    hide ParamsFor, RequestPath, Fits, PiggybackOptions, BlockRequest, BlockOffset;
    forall k: u32, mid: u16 | BlockOffset(B.BlockAt(x, k)) < |x.payload| && BlockRequest(B.BlockAt(x, k), mid).Just?
      ensures Answers(x, from, idx, t, BlockRequest(B.BlockAt(x, k), mid).value, h)
    {
      var m := BlockRequest(B.BlockAt(x, k), mid).value;
      assert Answers(x, from, idx, s, m, h);
      assert UploadRequest(x, from, m, t, idx) == UploadRequest(x, from, m, s, idx);
    }
  }

  lemma HoldingLater(s: ServerState, x: Upload, from: Endpoint, k: nat, now: u32)
    requires Holding(s, x, from, k)
    ensures Holding(s.(now := now), x, from, k)
  {
  }

  /** What the application is told of a handler's inline answer. */
  function Told(n: nat, res: Response): Event {
    Answered(n, res.code, res.payload, if res.payload == [] then 0 else res.format)
  }

  /** The upload is over: one handler call, on exactly the payload, and one response callback, with the handler's
      answer. */
  predicate Uploaded(z: Link, x: Upload, n: nat, idx: nat, h: Handler) {
    && z.inFlight == []
    && |z.calls| == 1 && z.calls[0].resource == idx && z.calls[0].request.body == Just(x.payload)
    && z.events == [Told(n, h(idx, z.calls[0].request))]
  }

  /** The upload was given up: the application was told once, and no handler was called. */
  predicate Stalled(z: Link, n: nat) {
    z.inFlight == [] && z.calls == [] && z.events == [TimedOut(Just(n))]
  }

  /** The server's half of an exchange: it takes block k and sends the reply `r`. */
  lemma ServerTurn(y: Link, x: Upload, from: Endpoint, slot: nat, n: nat, idx: nat, k: u32, now: u32, h: Handler)
    returns (mid: u16, r: Msg)
    requires Sendable(x) && Uploading(y, x, from, slot, n, idx, k, h)
    ensures Waiting(y.client, slot, n, x.server, mid) && y.client.uploads[slot] == Just(B.BlockAt(x, k))
    ensures |y.inFlight| == 1
    ensures y.inFlight[0].remote == x.server
    ensures ValidMsg(r) && Fits(r) && r.typ == ACK && r.mid == mid && r.token == TokenOf(n)
    ensures var o := Receive(TickTo(y.server, now).state, from, y.inFlight[0].bytes, h);
            && o.sent == [Datagram(from, EncodeMsg(r))]
            && if MoreBlocks(B.BlockAt(x, k)) then
                 && r.code == CONTINUE && o.calls == [] && Holding(o.state, x, from, k + 1)
                 && Routed(o.state, x.path, x.verb, idx) && AlwaysAnswers(x, from, idx, o.state, h)
                 && Idle(o.state.pool)
               else
                 && r.code != CONTINUE && r.code != EMPTY && !IsMethodCode(r.code) && Block2Of(r) == Nothing
                 && |o.calls| == 1 && o.calls[0].resource == idx && o.calls[0].request.body == Just(x.payload)
                 && Answered(n, r.code, r.payload, FormatOf(r)) == Told(n, h(idx, o.calls[0].request))
  {
    hide Routed, Holding, HandleRequest, Receive, TickTo, EncodeMsg, BlockRequest, TokenOf, TokenByte, Sendable,
         B.Holds, ClearedBy, PiggybackOptions, BlockOpt, BlockPayload, ParamsFor, RequestPath, Block2Of, BlockOffset,
         MoreBlocks, FormatOf;
    mid :|
      && Waiting(y.client, slot, n, x.server, mid) && y.client.uploads[slot] == Just(B.BlockAt(x, k))
      && BlockRequest(B.BlockAt(x, k), mid).Just? && Fits(BlockRequest(B.BlockAt(x, k), mid).value)
      && y.inFlight == [Datagram(x.server, EncodeMsg(BlockRequest(B.BlockAt(x, k), mid).value))];
    var s := y.server.(now := now);
    var m := BlockRequest(B.BlockAt(x, k), mid).value;
    RoutedParts(y.server, x.path, x.verb, idx);
    SameAnswers(x, from, idx, y.server, s, h);
    HoldingLater(y.server, x, from, k, now);
    RoutedLater(y.server, s, x.path, x.verb, idx);
    BlockHeader(x, k, mid);
    assert Answers(x, from, idx, s, m, h);
    ServerPolls(y, x, from, idx, k, mid, now, h);
    SendableParts(x);
    ServerTakesBlock(s, idx, from, x, k, mid, h);
    var o := HandleRequest(s, m, from, h);
    TokenIs(x, n);
    if MoreBlocks(B.BlockAt(x, k)) {
      r := Msg(ACK, CONTINUE, mid, [x.token], [BlockOpt(BLOCK1, k, false, x.szx)], []);
      FullBlockRoom(x, k, mid);
      ContinueFits(mid, x.token, k, x.szx);
      RoutedLater(y.server, o.state, x.path, x.verb, idx);
      SameAnswers(x, from, idx, y.server, o.state, h);
    } else {
      var res := h(idx, UploadRequest(x, from, m, s, idx));
      r := Msg(ACK, res.code, mid, [x.token], PiggybackOptions(res.payload, res.format, Nothing), res.payload);
      PiggybackHasNoBlock2(r, res.payload, res.format);
      PiggybackFormat(r, res.payload, res.format);
    }
  }

  lemma PiggybackFormat(m: Msg, payload: seq<byte>, format: u16)
    requires m.options == PiggybackOptions(payload, format, Nothing)
    ensures FormatOf(m) == if payload == [] then 0 else format
  {
    hide UintBytes;
    UintRoundTrip(format);
    if payload != [] {
      assert m.options == [UintOpt(CONTENT_FORMAT, format)];
      FirstIs(m.options, HasNumber(CONTENT_FORMAT), 0);
    }
  }

  /** One exchange: block k arrives. If it is the last, the upload is over with one handler call on the whole payload
      and one response callback. If the next one fits, it is in flight and nothing was reported. Otherwise the client
      gives up. */
  lemma OneUploadExchange(y: Link, x: Upload, from: Endpoint, slot: nat, n: nat, idx: nat, k: u32, now: u32, h: Handler)
    requires Sendable(x) && Uploading(y, x, from, slot, n, idx, k, h) && y.events == [] && y.calls == []
    ensures var z := Exchange(from, y, now, h);
            if !MoreBlocks(B.BlockAt(x, k)) then Uploaded(z, x, n, idx, h)
            else if BlockFitsAt(x, k + 1) then Uploading(z, x, from, slot, n, idx, k + 1, h) && z.events == [] && z.calls == []
            else Stalled(z, n)
  {
    hide Routed, Holding, Receive, TickTo, Poll, EncodeMsg, BlockRequest, TokenOf, TokenByte, Sendable, AlwaysAnswers,
         Waiting, Block2Of, FormatOf, BlockOffset, MoreBlocks, BlockFitsAt, Fits, Idle;
    var mid, r := ServerTurn(y, x, from, slot, n, idx, k, now, h);
    NumberedBlock(y, x, from, slot, n, idx, k, h);
    if !MoreBlocks(B.BlockAt(x, k)) {
      ClientTakesFinal(y.client, x, slot, n, k, mid, now, r);
    } else {
      NextIsBlock(x, k);
      if BlockFitsAt(x, k + 1) {
        ClientTakesContinue(y.client, x, slot, n, k, mid, now, r);
        assert Uploading(Exchange(from, y, now, h), x, from, slot, n, idx, k + 1, h);
      } else {
        ClientGivesUp(y.client, x, slot, n, k, mid, now, r);
      }
    }
  }

  lemma RoutedParts(s: ServerState, path: seq<byte>, verb: byte, idx: nat)
    requires Routed(s, path, verb, idx)
    ensures idx < |s.resources|
  {
    hide Served, FindResource, CString;
  }

  lemma RoutedLater(s: ServerState, t: ServerState, path: seq<byte>, verb: byte, idx: nat)
    requires Routed(s, path, verb, idx) && t.resources == s.resources
    ensures Routed(t, path, verb, idx)
  {
    hide Served, FindResource, CString;
  }

  lemma BlockHeader(x: Upload, k: u32, mid: u16)
    requires BlockOffset(B.BlockAt(x, k)) < |x.payload| && BlockRequest(B.BlockAt(x, k), mid).Just?
    ensures var m := BlockRequest(B.BlockAt(x, k), mid).value; ValidMsg(m) && m.mid == mid && m.token == [x.token]
  {
    hide BlockOptions, BlockPayload;
  }

  lemma SendableParts(x: Upload)
    requires Sendable(x)
    ensures B.Uploadable(x) && |x.payload| <= BLOCK1_MAX_BODY && x.szx == BLOCK_SZX
  {
    hide B.PathLeavesRoom;
  }

  lemma TokenIs(x: Upload, n: nat)
    requires x.token == TokenByte(n)
    ensures TokenOf(n) == [x.token]
  {
  }

  lemma NextIsBlock(x: Upload, k: u32)
    requires Sendable(x) && BlockOffset(B.BlockAt(x, k)) < |x.payload| && MoreBlocks(B.BlockAt(x, k)) && k < 0x10_0000
    ensures k + 1 < 0x10_0000 && BlockOffset(B.BlockAt(x, k + 1)) < |x.payload|
  {
    hide BlockSize, B.PathLeavesRoom;
    B.NextOffset(k, BlockSize(x.szx));
    B.NumBelow(k + 1, 0x10_0000, BlockSize(x.szx));
  }

  // ------------------------------------------------------------------ uploads: all exchanges

  lemma LastOf(len: nat, sz: nat, k: nat)
    requires sz > 0 && k * sz < len
    ensures len - k * sz > sz <==> k + 1 < BlockCount(len, sz)
    ensures k < BlockCount(len, sz)
  {
    B.NextOffset(k, sz);
    var q := BlockCount(len, sz);
    DivideBounds(len + sz - 1, sz);
    if k + 1 < q { D.MulMonotonic(k + 2, q, sz); B.NextOffset(k + 1, sz); }
    if k + 1 >= q { D.MulMonotonic(q, k + 1, sz); }
    if k >= q { D.MulMonotonic(q, k, sz); }
  }

  lemma LastBlock(x: Upload, k: u32)
    requires BlockOffset(B.BlockAt(x, k)) < |x.payload|
    ensures MoreBlocks(B.BlockAt(x, k)) <==> k + 1 < Blocks(x)
    ensures k < Blocks(x)
  {
    hide BlockSize, BlockCount;
    LastOf(|x.payload|, BlockSize(x.szx), k);
  }

  lemma DivideBounds(a: nat, b: nat)
    requires b > 0
    ensures a / b * b <= a < a / b * b + b
  {
    assert a == a / b * b + a % b;
  }

  ghost predicate FitsUpTo(x: Upload, j: nat) {
    forall k: u32 :: k <= j ==> BlockFitsAt(x, k)
  }

  /** The first j exchanges: block by block, up to one that does not fit. */
  lemma {:induction false} UploadProceeds(y: Link, x: Upload, from: Endpoint, slot: nat, n: nat, idx: nat,
                                          times: seq<u32>, h: Handler)
    requires Sendable(x) && Uploading(y, x, from, slot, n, idx, 0, h) && y.events == [] && y.calls == []
    requires BlockFitsAt(x, 0)
    requires |times| <= Blocks(x)
    ensures var z := Exchanges(from, y, times, h);
            if !FitsUpTo(x, |times|) then Stalled(z, n)
            else if |times| < Blocks(x) then Uploading(z, x, from, slot, n, idx, |times|, h) && z.events == [] && z.calls == []
            else Uploaded(z, x, n, idx, h)
  {
    hide Sendable, Exchange, MoreBlocks, Blocks, BlockFitsAt, Uploading;
    NumberedBlock(y, x, from, slot, n, idx, 0, h);
    if times == [] {
      SomeBlocks(x);
    } else {
      var j := |times| - 1;
      UploadProceeds(y, x, from, slot, n, idx, times[..j], h);
      var z := Exchanges(from, y, times[..j], h);
      BlocksBounded(x);
      if FitsUpTo(x, j) {
        NumberedBlock(z, x, from, slot, n, idx, j, h);
        OneUploadExchange(z, x, from, slot, n, idx, j, times[j], h);
        LastBlock(x, j);
        NoBlockBeyond(x, j + 1);
      } else {
        NothingInFlight(z, from, times[j], h);
        assert !FitsUpTo(x, j + 1);
      }
    }
  }

  lemma NothingInFlight(z: Link, from: Endpoint, now: u32, h: Handler)
    requires Sized(z.client) && z.inFlight == []
    ensures Exchange(from, z, now, h) == z
  {
  }

  lemma BlocksBounded(x: Upload)
    requires Sendable(x)
    ensures 0 < Blocks(x) <= 0x10_0000
  {
    hide BlockSize, B.PathLeavesRoom;
    SomeBlocks(x);
    DivideBounds(|x.payload| + BlockSize(x.szx) - 1, BlockSize(x.szx));
    if Blocks(x) > 0x10_0000 { D.MulMonotonic(0x10_0001, Blocks(x), BlockSize(x.szx)); }
  }

  lemma NoBlockBeyond(x: Upload, k: u32)
    ensures k >= Blocks(x) ==> BlockFitsAt(x, k)
  {
    hide BlockSize, BlockCount, BlockRequest;
    if BlockOffset(B.BlockAt(x, k)) < |x.payload| { LastBlock(x, k); }
  }

  /** Lossless upload. From its first block in flight, each exchange puts the next block in flight and reports
      nothing; after exactly ceil(length / blockSize) of them the upload is over if and only if every block fits a
      message. Otherwise the application is told of a timeout once, and no handler was called. */
  lemma UploadCompletes(y: Link, x: Upload, from: Endpoint, slot: nat, n: nat, idx: nat, times: seq<u32>, h: Handler)
    requires Sendable(x) && Uploading(y, x, from, slot, n, idx, 0, h) && y.events == [] && y.calls == []
    requires |times| <= Blocks(x)
    ensures var z := Exchanges(from, y, times, h);
            if |times| == Blocks(x) then (if EveryBlockFits(x) then Uploaded(z, x, n, idx, h) else Stalled(z, n))
            else EveryBlockFits(x) ==>
              Uploading(z, x, from, slot, n, idx, |times|, h) && z.events == [] && z.calls == []
  {
    hide Sendable, Exchanges, Blocks, BlockFitsAt, Uploading, Uploaded, Stalled;
    FirstFits(y, x, from, slot, n, idx, h);
    UploadProceeds(y, x, from, slot, n, idx, times, h);
    BlocksBounded(x);
    if FitsUpTo(x, Blocks(x)) {
      forall k: u32 ensures BlockFitsAt(x, k) { NoBlockBeyond(x, k); }
    }
  }

  lemma FirstFits(y: Link, x: Upload, from: Endpoint, slot: nat, n: nat, idx: nat, h: Handler)
    requires Sendable(x) && Uploading(y, x, from, slot, n, idx, 0, h)
    ensures BlockFitsAt(x, 0)
  {
    hide Routed, Holding, Waiting, AlwaysAnswers, BlockRequest, EncodeMsg, B.PathLeavesRoom, BlockFitsAt, B.Uploadable,
         BlockOffset;
    UploadableParts(x);
    var mid: u16 :| BlockRequest(B.BlockAt(x, 0), mid).Just? && Fits(BlockRequest(B.BlockAt(x, 0), mid).value);
    AnyMid(x, 0, mid);
  }

  lemma SomeBlocks(x: Upload)
    requires Sendable(x)
    ensures Blocks(x) > 0
  {
    hide BlockSize, B.PathLeavesRoom;
    DivideBounds(|x.payload| + BlockSize(x.szx) - 1, BlockSize(x.szx));
  }

  lemma NumberedBlock(y: Link, x: Upload, from: Endpoint, slot: nat, n: nat, idx: nat, k: nat, h: Handler)
    requires Uploading(y, x, from, slot, n, idx, k, h)
    ensures Sized(y.client) && k < 0x10_0000 && BlockOffset(B.BlockAt(x, k)) < |x.payload|
  {
    hide Routed, Holding, Waiting, AlwaysAnswers;
  }

  /** Nothing of the client's uses the next token, and it has nothing else in flight. */
  predicate ReadyToSend(c: ClientState) {
    && Sized(c) && Idle(c.pool) && First(c.pending, IsFree<Pending>()) >= 0
    && (forall j :: 0 <= j < |c.pending| && c.pending[j].Just? ==> c.pending[j].value.token != TokenOf(c.issued))
    && (forall j :: 0 <= j < |c.discovers| && c.discovers[j].Just? ==> c.discovers[j].value.token != TokenOf(c.issued))
  }

  /** `put` or `post` of a large payload puts block 0 in flight exactly when it fits. */
  lemma UploadStarts(c: ClientState, s: ServerState, server: Endpoint, path: seq<byte>, verb: byte, payload: seq<byte>,
                     format: u16,
                     from: Endpoint, idx: nat, h: Handler)
    requires ReadyToSend(c) && |path| < MAX_URI_PATH_LEN
    requires var x := Upload(payload, 0, BLOCK_SZX, format, verb, server, path, TokenByte(c.issued));
             Sendable(x) && Routed(s, path, verb, idx) && Holding(s, x, from, 0) && Idle(s.pool)
                 && AlwaysAnswers(x, from, idx, s, h)
    ensures var x := Upload(payload, 0, BLOCK_SZX, format, verb, server, path, TokenByte(c.issued));
            var r := BeginUpload(c, server, path, verb, payload, format, true);
            && (r.ok <==> BlockFitsAt(x, 0))
            && (r.ok ==>
                Uploading(Link(r.state, s, r.sent, [], []), x, from, First(c.pending, IsFree<Pending>()), c.issued, idx,
                          0, h))
  {
    hide EncodeMsg, BlockRequest, TokenByte, B.PathLeavesRoom, AfterStart, B.Uploadable, Routed, Holding, AlwaysAnswers,
         BlockSize, BlockFitsAt;
    var n := c.issued;
    var x := Upload(payload, 0, BLOCK_SZX, format, verb, server, path, TokenByte(n));
    var i := First(c.pending, IsFree<Pending>());
    FirstOffset(x);
    UploadableParts(x);
    assert B.BlockAt(x, 0) == x;
    AnyMid(x, 0, c.nextMid);
    var s2 := c.(issued := n + 1, pending := c.pending[i := Just(Pending(n, server, TokenOf(n), false, path))],
                 uploads := c.uploads[i := Just(x)], recvs := c.recvs[i := c.recvs[i].(active := false)]);
    if BlockFitsAt(x, 0) {
      TrackFromIdle(BumpMid(s2), n, server, c.nextMid, [x.token], EncodeMsg(BlockRequest(x, c.nextMid).value));
    }
    var r := BeginUpload(c, server, path, verb, payload, format, true);
    if r.ok {
      assert r.state ==
             Track(BumpMid(s2), n, server, c.nextMid, [x.token], EncodeMsg(BlockRequest(x, c.nextMid).value));
      assert Waiting(r.state, i, n, server, c.nextMid);
    }
  }

  lemma FirstOffset(x: Upload)
    requires Sendable(x)
    ensures BlockOffset(B.BlockAt(x, 0)) == 0 < |x.payload|
  {
    hide B.PathLeavesRoom;
  }

  /** So it is for `put` and `post` themselves, whatever their other arguments. */
  lemma PutStarts(c: ClientState, s: ServerState, server: Endpoint, path: seq<byte>, verb: byte, payload: seq<byte>,
                  format: u16, confirmable: bool, observe: bool, from: Endpoint, idx: nat, h: Handler)
    requires ReadyToSend(c) && |path| < MAX_URI_PATH_LEN && |payload| > BlockSize(BLOCK_SZX)
    requires var x := Upload(payload, 0, BLOCK_SZX, format, verb, server, path, TokenByte(c.issued));
             Sendable(x) && Routed(s, path, verb, idx) && Holding(s, x, from, 0) && Idle(s.pool)
                 && AlwaysAnswers(x, from, idx, s, h)
    ensures var x := Upload(payload, 0, BLOCK_SZX, format, verb, server, path, TokenByte(c.issued));
            var r := Issue(c, server, path, verb, payload, format, confirmable, observe, true);
            && (r.ok <==> BlockFitsAt(x, 0))
            && (r.ok ==> Uploading(Link(r.state, s, r.sent, [], []), x, from, First(c.pending, IsFree<Pending>()),
                                   c.issued, idx, 0, h))
  {
    hide BeginUpload, SendRequest, Uploading, BlockFitsAt, Routed, Holding, AlwaysAnswers, BlockSize, B.PathLeavesRoom,
         TokenByte, Idle;
    UploadStarts(c, s, server, path, verb, payload, format, from, idx, h);
  }
}
