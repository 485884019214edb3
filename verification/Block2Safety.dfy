/** Block2 downloads end to end (sections 2.2 to 2.5 of RFC 7959): a one-shot GET of a resource whose handler always
    answers with the same payload, over a network that loses, duplicates and reorders datagrams. */
module Block2Safety {
  import opened Types
  import opened Config
  import opened Codec
  import opened OptionValues
  import opened Reliability
  import opened Paths
  import S = ServerSpec
  import P = ServerProps
  import opened ClientSpec
  import opened ClientProps
  import opened Traffic
  import B = Block1Safety

  /** Request number `serial` of the client at `addr` for `path`, which the server either refuses or routes to a
      resource with constant payload `body`. */
  datatype Download = Download(addr: Address, serial: nat, path: seq<byte>, route: S.Route, body: seq<byte>) {
    function Resource(): nat { if route.To? then route.idx else 0 }
    function Token(): Token { TokenOf(serial) }
    function Key(): Key { Types.Key(addr, Token()) }
  }

  const SIZE: nat := BlockSize(BLOCK_SZX)

  /** The path can be stored for follow-up requests, or is as good as empty. */
  predicate Storable(path: seq<byte>) {
    |path| < MAX_URI_PATH_LEN || Segments(path) == []
  }

  /** Follow-up requests, if there are any, go to the path of the first one. */
  predicate Downloadable(d: Download) {
    d.route.Refused? || |d.body| <= SIZE || Storable(d.path)
  }

  lemma StoredSegments(path: seq<byte>)
    ensures Segments(StoredPath(path)) == Segments(path) <==> Storable(path)
  {
    if |path| >= MAX_URI_PATH_LEN { SegmentsAtEnd([]); }
  }

  /** What the receive buffer can hold of the resource. */
  function Delivered(d: Download): seq<byte> {
    if |d.body| <= BLOCK2_MAX_BODY then d.body else d.body[..BLOCK2_MAX_BODY]
  }

  // ------------------------------------------------------------------ what travels

  /** A GET for the path without Observe, asking for no block or for one that exists and is numbered at most `bound`. */
  predicate IsRequest(d: Download, m: Msg, bound: nat, k: Maybe<nat>) {
    && m.code == GET && m.token == d.Token() && (m.typ.CON? || m.typ.NON?)
    && m.options == UriOptions(Segments(d.path)) + (if k.Just? then [BlockOpt(BLOCK2, k.value, false, BLOCK_SZX)] else [])
    && (k.Just? ==> k.value <= bound && k.value <= 0x10_0000 && k.value * SIZE < |d.body|)
  }

  ghost predicate RequestOk(d: Download, bound: nat, bytes: seq<byte>) {
    var r := DecodeMsg(Received(bytes));
    r.Decoded? && r.msg.token == d.Token() ==> exists k :: IsRequest(d, r.msg, bound, k)
  }

  ghost function RequestsOk(d: Download, bound: nat): Property {
    (bytes: seq<byte>) => RequestOk(d, bound, bytes)
  }

  /** The refusal; or a slice of the body labelled with its number, or the whole body if one block holds it. */
  predicate IsAnswer(d: Download, m: Msg, bound: nat) {
    var b := Block2Of(m);
    if d.route.Refused? then b.Nothing? && m.payload == [] && m.code == d.route.code
    else if b.Just? then
      && b.value.szx == BLOCK_SZX && b.value.num <= bound && b.value.num < 0x10_0000 && b.value.num * SIZE < |d.body|
      && m.payload == S.Slice(d.body, b.value.num * SIZE, SIZE)
      && b.value.more == (|d.body| - b.value.num * SIZE > SIZE)
    else m.payload == d.body && |d.body| <= SIZE
  }

  predicate AnswerOk(d: Download, bound: nat, bytes: seq<byte>) {
    var r := DecodeMsg(Received(bytes));
    r.Decoded? && r.msg.token == d.Token() ==> IsAnswer(d, r.msg, bound)
  }

  lemma RequestMsg(d: Download, bound: nat, m: Msg)
    requires ValidMsg(m) && Fits(m) && (m.token == d.Token() ==> exists k :: IsRequest(d, m, bound, k))
    ensures RequestOk(d, bound, EncodeMsg(m))
  {
    hide DecodeMsg, EncodeMsg, IsRequest;
    DecodeEncode(m);
  }

  lemma AnswerMsg(d: Download, bound: nat, m: Msg)
    requires ValidMsg(m) && Fits(m) && (m.token == d.Token() ==> IsAnswer(d, m, bound))
    ensures AnswerOk(d, bound, EncodeMsg(m))
  {
    hide DecodeMsg, EncodeMsg, IsAnswer;
    DecodeEncode(m);
  }

  lemma HigherBound(d: Download, low: nat, high: nat, bytes: seq<byte>)
    requires low <= high
    ensures RequestOk(d, low, bytes) ==> RequestOk(d, high, bytes)
    ensures AnswerOk(d, low, bytes) ==> AnswerOk(d, high, bytes)
  {
    hide DecodeMsg, Block2Of, S.Slice, Received;
    var r := DecodeMsg(Received(bytes));
    if r.Decoded? && r.msg.token == d.Token() && RequestOk(d, low, bytes) {
      var k :| IsRequest(d, r.msg, low, k);
      assert IsRequest(d, r.msg, high, k);
    }
  }

  // ------------------------------------------------------------------ the client

  /** The receive state while the request is pending: the first `nextNum` blocks, cut at the buffer size, and more to
      come. */
  predicate RecvOk(d: Download, r: Recv) {
    && (d.route.To? && |d.body| > SIZE ==> Segments(r.path) == Segments(d.path))
    && (r.active ==>
          && d.route.To? && r.szx == BLOCK_SZX && 1 <= r.nextNum <= 0x10_0000 && r.nextNum * SIZE < |d.body|
          && r.body == d.body[..Least(r.nextNum * SIZE, BLOCK2_MAX_BODY)])
  }

  function Least(a: nat, b: nat): nat {
    if a < b then a else b
  }

  /** The highest block number the client may have asked for. */
  function BoundOf(r: Recv): nat {
    if r.active then r.nextNum else 0
  }

  predicate Owns(c: ClientState, i: nat, n: nat) {
    i < |c.pending| && c.pending[i].Just? && c.pending[i].value.serial == n
  }

  /** While the request is pending, its slot is a one-shot download in good order. */
  ghost predicate SlotOk(d: Download, c: ClientState, bound: nat)
    requires Sized(c)
  {
    forall i: nat :: Owns(c, i, d.serial) ==>
      !c.pending[i].value.observing && c.uploads[i].Nothing? && RecvOk(d, c.recvs[i]) && bound == BoundOf(c.recvs[i])
  }

  /** No other request uses the token. */
  predicate OnlyRequest(d: Download, c: ClientState) {
    forall i :: 0 <= i < |c.pending| && c.pending[i].Just? && c.pending[i].value.token == d.Token() ==>
        c.pending[i].value.serial == d.serial
  }

  ghost predicate ClientOk(d: Download, c: ClientState, bound: nat) {
    && SerialsOk(c) && Sized(c) && c.issued > d.serial
    && OnlyRequest(d, c) && SlotOk(d, c, bound) && PoolGood(RequestsOk(d, bound), c.pool)
  }

  /** The callbacks of request `d` in a poll. */
  predicate EventsOk(d: Download, events: seq<Event>) {
    forall i :: 0 <= i < |events| && events[i].Answered? && events[i].serial == d.serial ==>
        CallbackOk(d, events[i].code, events[i].payload)
  }

  /** Exactly what the buffer can hold of the resource, or the unfragmented resource. For a refused request, the
      refusal. */
  predicate CallbackOk(d: Download, code: byte, payload: seq<byte>) {
    if d.route.Refused? then payload == [] && code == d.route.code
    else payload == Delivered(d) || (payload == d.body && |d.body| <= SIZE)
  }

  lemma PoolHigher(d: Download, low: nat, high: nat, p: Slots)
    requires PoolGood(RequestsOk(d, low), p) && low <= high
    ensures PoolGood(RequestsOk(d, high), p)
  {
    hide RequestOk;
    forall i | 0 <= i < |p| && p[i].Just? ensures RequestsOk(d, high)(p[i].value.bytes) {
      assert RequestsOk(d, low)(p[i].value.bytes);
      HigherBound(d, low, high, p[i].value.bytes);
    }
  }

  /** A message of another request. */
  lemma OtherToken(d: Download, bound: nat, m: Msg)
    requires ValidMsg(m) && Fits(m) && m.token != d.Token()
    ensures RequestOk(d, bound, EncodeMsg(m))
  {
    hide EncodeMsg, IsRequest, DecodeMsg;
    RequestMsg(d, bound, m);
  }

  lemma SlotToken(d: Download, c: ClientState, i: nat)
    requires SerialsOk(c) && Sized(c) && i < |c.pending| && c.pending[i].Just?
    ensures c.pending[i].value.serial == d.serial ==> c.pending[i].value.token == d.Token()
    ensures c.uploads[i].Just? ==> [c.uploads[i].value.token] == c.pending[i].value.token
  {
    assert PendingOk(c, i) && UploadOk(c, i);
  }

  // ------------------------------------------------------------------ reassembly

  lemma NextBlock(k: nat)
    ensures (k + 1) * SIZE == k * SIZE + SIZE
  {
  }

  lemma NumsOrdered(a: nat, b: nat)
    requires a * SIZE < b * SIZE + SIZE
    ensures a <= b
  {
    if a > b {
      NextBlock(b);
      assert a * SIZE >= (b + 1) * SIZE by { MulMonotonic(b + 1, a, SIZE); }
    }
  }

  lemma MulMonotonic(a: nat, b: nat, n: nat)
    requires a <= b
    ensures a * n <= b * n
  {
  }

  /** One more slice: what the buffer takes of it. */
  lemma GrowBody(d: Download, k: nat, taken: seq<byte>, slice: seq<byte>)
    requires k * SIZE < |d.body| && slice == S.Slice(d.body, k * SIZE, SIZE)
    requires taken == d.body[..Least(k * SIZE, BLOCK2_MAX_BODY)]
    ensures var avail := if |taken| < BLOCK2_MAX_BODY then BLOCK2_MAX_BODY - |taken| else 0;
            var grown := taken + (if |slice| < avail then slice else slice[..avail]);
            if |d.body| - k * SIZE > SIZE then k * SIZE + SIZE < |d.body| && grown == d.body[..Least(k * SIZE + SIZE, BLOCK2_MAX_BODY)]
            else grown == Delivered(d)
  {
    hide BlockSize;
    var off := k * SIZE;
    var end := if |d.body| - off > SIZE then off + SIZE else |d.body|;
    assert slice == d.body[off..end];
    var avail := if |taken| < BLOCK2_MAX_BODY then BLOCK2_MAX_BODY - |taken| else 0;
    var part := if |slice| < avail then slice else slice[..avail];
    if off < BLOCK2_MAX_BODY {
      assert part == d.body[off..Least(end, BLOCK2_MAX_BODY)];
      assert d.body[..off] + d.body[off..Least(end, BLOCK2_MAX_BODY)] == d.body[..Least(end, BLOCK2_MAX_BODY)];
    } else {
      assert avail == 0 && part == [];
      assert taken + [] == taken;
    }
    assert d.body[..|d.body|] == d.body;
  }

  /** The heart of reassembly. Any answer that can be in flight is a duplicate, the next block, or the first one; when
      it is the last block it is also the next, so the body is complete. */
  lemma AccumulateOk(d: Download, r: Recv, from: Endpoint, m: Msg, b: Block)
    requires RecvOk(d, r) && IsAnswer(d, m, BoundOf(r)) && Block2Of(m) == Just(b)
    ensures d.route.To?
    ensures var t := Accumulate(r, from, m, b);
            && BoundOf(r) <= BoundOf(t) && t.active && t.path == r.path
            && (b.more ==> RecvOk(d, t))
            && (!b.more ==> t.body == Delivered(d))
  {
    hide Block2Of, S.Slice, FormatOf, BlockSize, Delivered;
    var t := Accumulate(r, from, m, b);
    var r0 := if r.active then r else Recv(true, 0, b.szx, [], FormatOf(m), from, r.path);
    assert d.body[..0] == [];
    assert r0.body == d.body[..Least(r0.nextNum * SIZE, BLOCK2_MAX_BODY)];
    if !b.more { NumsOrdered(r0.nextNum, b.num); }
    if b.num == r0.nextNum {
      GrowBody(d, b.num, r0.body, m.payload);
      NextBlock(b.num);
    }
  }

  // ------------------------------------------------------------------ client steps

  lemma TrackOther(d: Download, bound: nat, s: ClientState, serial: nat, remote: Endpoint, mid: u16, m: Msg)
    requires |s.txSerial| == |s.pool| && PoolGood(RequestsOk(d, bound), s.pool) && ValidMsg(m) && Fits(m)
    requires m.token != d.Token() || exists k :: IsRequest(d, m, bound, k)
    ensures PoolGood(RequestsOk(d, bound), Track(s, serial, remote, mid, m.token, EncodeMsg(m)).pool)
    ensures RequestsOk(d, bound)(EncodeMsg(m))
  {
    hide RequestOk, IsRequest, PoolGood, Track, EncodeMsg;
    RequestMsg(d, bound, m);
    TrackGood(RequestsOk(d, bound), s, serial, remote, mid, m.token, EncodeMsg(m));
  }

  lemma SendBlock1Other(d: Download, bound: nat, s: ClientState, slot: nat, serial: nat, link: bool)
    requires Sized(s) && slot < |s.uploads| && s.uploads[slot].Just? && [s.uploads[slot].value.token] != d.Token()
    requires PoolGood(RequestsOk(d, bound), s.pool)
    ensures var r := SendBlock1(s, slot, serial, link);
            AllGood(RequestsOk(d, bound), r.sent) && PoolGood(RequestsOk(d, bound), r.state.pool)
  {
    hide RequestOk, IsRequest, PoolGood, Track, EncodeMsg, BlockRequest, TokenByte;
    var r := SendBlock1(s, slot, serial, link);
    if r.ok {
      var up := s.uploads[slot].value;
      B.BlockToken(up, s.nextMid);
      TrackOther(d, bound, BumpMid(s), serial, up.server, s.nextMid, BlockRequest(up, s.nextMid).value);
    }
  }

  /** The follow-up of another slot carries another token; the follow-up of this one asks for the next block. */
  lemma SendBlock2Follow(d: Download, bound: nat, s: ClientState, slot: nat, link: bool)
    requires Sized(s) && slot < |s.pending| && s.pending[slot].Just? && PoolGood(RequestsOk(d, bound), s.pool)
    requires s.pending[slot].value.token == d.Token() ==>
               RecvOk(d, s.recvs[slot]) && s.recvs[slot].active && bound == BoundOf(s.recvs[slot])
    ensures var r := SendBlock2(s, slot, link);
            AllGood(RequestsOk(d, bound), r.sent) && PoolGood(RequestsOk(d, bound), r.state.pool)
  {
    hide RequestOk, PoolGood, Track, EncodeMsg, TokenByte, Block2Options, IsRequest, RecvOk;
    var r := SendBlock2(s, slot, link);
    if r.ok {
      var p, recv := s.pending[slot].value, s.recvs[slot];
      var options := Block2Options(recv.path, recv.nextNum, recv.szx).value;
      var m := Msg(CON, GET, s.nextMid, p.token, options, []);
      if p.token == d.Token() { var _ := FollowIsRequest(d, recv, m); }
      TrackOther(d, bound, BumpMid(s), p.serial, recv.server, s.nextMid, m);
    }
  }

  lemma FollowIsRequest(d: Download, r: Recv, m: Msg) returns (k: Maybe<nat>)
    requires RecvOk(d, r) && r.active && Block2Options(r.path, r.nextNum, r.szx) == Just(m.options)
    requires m.typ.CON? && m.code == GET && m.token == d.Token()
    ensures IsRequest(d, m, BoundOf(r), k)
  {
    hide Segments, BlockSize, UriOptions, BlockOpt, TokenByte;
    MulMonotonic(1, r.nextNum, SIZE);
    FollowUpOptions(r.path, r.nextNum);
    k := if |Segments(d.path)| < MAX_OPTIONS then Just(r.nextNum) else Nothing;
  }

  /** A full option table drops the label: the follow-up then asks for the first block again. */
  lemma FollowUpOptions(path: seq<byte>, k: nat)
    requires |Segments(path)| <= MAX_OPTIONS
    ensures Block2Options(path, k, BLOCK_SZX) == Just(UriOptions(Segments(path)) +
              if |Segments(path)| < MAX_OPTIONS then [BlockOpt(BLOCK2, k, false, BLOCK_SZX)] else [])
  {
    hide Segments, UintBytes;
    var uri := UriOptions(Segments(path));
    assert [] + uri == uri && uri + [] == uri;
  }

  /** Nothing about this download changed. */
  lemma Unaffected(d: Download, s: ClientState, t: ClientState, bound: nat)
    requires ClientOk(d, s, bound) && SerialsOk(t) && Sized(t) && t.issued >= s.issued
    requires PoolGood(RequestsOk(d, bound), t.pool)
    requires forall i :: 0 <= i < |t.pending| && t.pending[i].Just? ==>
               || (t.pending[i] == s.pending[i]
                   && (t.pending[i].value.serial == d.serial ==>
                       t.uploads[i] == s.uploads[i] && t.recvs[i] == s.recvs[i]))
               || (t.pending[i].value.serial != d.serial && t.pending[i].value.token != d.Token())
    ensures ClientOk(d, t, bound)
  {
    hide SerialsOk, PoolGood, RecvOk, RequestOk, TokenByte;
    forall i: nat | Owns(t, i, d.serial)
      ensures Owns(s, i, d.serial) && t.uploads[i] == s.uploads[i] && t.recvs[i] == s.recvs[i] {}
  }

  lemma SendRequestOther(d: Download, bound: nat, s: ClientState, server: Endpoint, path: seq<byte>, verb: byte,
                         payload: seq<byte>,
                         format: u16, confirmable: bool, observe: Maybe<u32>, markObserving: bool, link: bool)
    requires ClientOk(d, s, bound) && TokenOf(s.issued) != d.Token()
    ensures var r := SendRequest(s, server, path, verb, payload, format, confirmable, observe, markObserving, link);
            AllGood(RequestsOk(d, bound), r.sent) && ClientOk(d, r.state, bound)
  {
    hide SerialsOk, PoolGood, RequestOk, TokenOf, RequestOptions, EncodeMsg, Track, RecvOk, IsRequest, StoredPath;
    SendRequestOk(s, server, path, verb, payload, format, confirmable, observe, markObserving, link);
    var r := SendRequest(s, server, path, verb, payload, format, confirmable, observe, markObserving, link);
    if r.ok {
      var n := s.issued;
      var m := Msg(if confirmable then CON else NON, verb, s.nextMid, TokenOf(n),
                   RequestOptions(path, payload, format, observe).value, payload);
      TrackOther(d, bound, BumpMid(s).(issued := n + 1), n, server, s.nextMid, m);
    }
    Unaffected(d, s, r.state, bound);
  }

  lemma BeginUploadOther(d: Download, bound: nat, s: ClientState, server: Endpoint, path: seq<byte>, verb: byte,
                         payload: seq<byte>,
                         format: u16, link: bool)
    requires ClientOk(d, s, bound) && TokenOf(s.issued) != d.Token()
    ensures var r := BeginUpload(s, server, path, verb, payload, format, link);
            AllGood(RequestsOk(d, bound), r.sent) && ClientOk(d, r.state, bound)
  {
    hide SerialsOk, PoolGood, RequestOk, SendBlock1, RecvOk;
    BeginUploadOk(s, server, path, verb, payload, format, link);
    var r := BeginUpload(s, server, path, verb, payload, format, link);
    var i := First(s.pending, IsFree<Pending>());
    if i >= 0 {
      var n := s.issued;
      var up := Upload(payload, 0, BLOCK_SZX, format, verb, server, path, TokenByte(n));
      var s2 := s.(issued := n + 1, pending := s.pending[i := Just(Pending(n, server, TokenOf(n), false, path))],
                   uploads := s.uploads[i := Just(up)], recvs := s.recvs[i := s.recvs[i].(active := false)]);
      SendBlock1Other(d, bound, s2, i, n, link);
    }
    Unaffected(d, s, r.state, bound);
  }

  lemma DiscoverOther(d: Download, bound: nat, s: ClientState, to: Endpoint, link: bool)
    requires ClientOk(d, s, bound) && TokenOf(s.issued) != d.Token()
    ensures var r := Discover(s, to, link); AllGood(RequestsOk(d, bound), r.sent) && ClientOk(d, r.state, bound)
  {
    hide SerialsOk, PoolGood, RequestOk, AddPath, EncodeMsg, TokenOf, RecvOk;
    DiscoverRequestOk(s, to, link);
    var r := Discover(s, to, link);
    if r.ok { OtherToken(d, bound, Msg(NON, GET, s.nextMid, TokenOf(s.issued), AddPath([], WELL_KNOWN).value, [])); }
    Unaffected(d, s, r.state, bound);
  }

  lemma CancelOther(d: Download, bound: nat, s: ClientState, server: Endpoint, path: seq<byte>, link: bool)
    requires ClientOk(d, s, bound) && TokenOf(s.issued) != d.Token()
    ensures var r := CancelObserve(s, server, path, link);
            AllGood(RequestsOk(d, bound), r.sent) && ClientOk(d, r.state, bound)
  {
    hide SerialsOk, PoolGood, RequestOk, SendRequest, TokenOf, RecvOk;
    var i := First(s.pending, ObservesPath(server.Addr(), path));
    if i >= 0 {
      var s1 := s.(pending := s.pending[i := Nothing]);
      ShrinksOk(s, s1);
      Unaffected(d, s, s1, bound);
      SendRequestOther(d, bound, s1, server, path, GET, [], 0, true, Just(1), false, link);
    }
  }

  /** What a poll may do: the bound only grows, everything sent is within the new one, and the callbacks are right. */
  ghost predicate PollResult(d: Download, bound: nat, r: Result, high: nat) {
    bound <= high && AllGood(RequestsOk(d, high), r.sent) && ClientOk(d, r.state, high) && EventsOk(d, r.events)
  }

  lemma ContinueOther(d: Download, bound: nat, s: ClientState, slot: nat, link: bool)
    requires ClientOk(d, s, bound) && slot < |s.pending| && s.pending[slot].Just? && s.uploads[slot].Just?
    ensures PollResult(d, bound, HandleContinue(s, slot, link), bound)
  {
    hide SerialsOk, PoolGood, RequestOk, SendBlock1, RecvOk, TokenByte;
    HandleContinueOk(s, slot, link);
    SlotToken(d, s, slot);
    assert !Owns(s, slot, d.serial);
    var up := s.uploads[slot].value;
    SendBlock1Other(d, bound, s.(uploads := s.uploads[slot := Just(up.(nextNum := (up.nextNum + 1) % WRAP))]), slot,
                    s.pending[slot].value.serial, link);
    Unaffected(d, s, HandleContinue(s, slot, link).state, bound);
  }

  /** A response for another request's slot. */
  lemma ResponseOther(d: Download, bound: nat, s: ClientState, slot: nat, from: Endpoint, m: Msg, link: bool)
    requires ClientOk(d, s, bound) && slot < |s.pending| && s.pending[slot].Just?
    requires s.pending[slot].value.token != d.Token()
    ensures PollResult(d, bound, HandleResponse(s, slot, from, m, link), bound)
  {
    hide SerialsOk, PoolGood, RequestOk, SendBlock2, RecvOk, HandleContinue, Accumulate, Block2Of, FormatOf, TokenByte;
    SlotToken(d, s, slot);
    HandleResponseOk(s, slot, from, m, link);
    if m.code == CONTINUE && s.uploads[slot].Just? {
      ContinueOther(d, bound, s, slot, link);
    } else {
      var b := Block2Of(m);
      if b.Just? {
        var recv := Accumulate(s.recvs[slot], from, m, b.value);
        SendBlock2Follow(d, bound, s.(uploads := s.uploads[slot := Nothing], recvs := s.recvs[slot := recv]), slot,
                         link);
      }
      Unaffected(d, s, HandleResponse(s, slot, from, m, link).state, bound);
    }
  }

  lemma SameSerialSameSlot(s: ClientState, i: nat, j: nat)
    requires SerialsOk(s) && i < |s.pending| && j < |s.pending| && s.pending[i].Just? && s.pending[j].Just?
    requires s.pending[i].value.serial == s.pending[j].value.serial
    ensures i == j
  {
    hide PendingOk, UploadOk, DiscoverOk, TxOk;
  }

  /** An answer for this download's own slot. */
  lemma ResponseOwn(d: Download, bound: nat, s: ClientState, slot: nat, from: Endpoint, m: Msg, link: bool)
    returns (high: nat)
    requires ClientOk(d, s, bound) && Owns(s, slot, d.serial) && IsAnswer(d, m, bound)
    ensures PollResult(d, bound, HandleResponse(s, slot, from, m, link), high)
  {
    hide SerialsOk, PoolGood, RequestOk, SendBlock2, RecvOk, Accumulate, Block2Of, FormatOf, TokenByte, S.Slice,
         Delivered, BlockSize;
    HandleResponseOk(s, slot, from, m, link);
    var r := HandleResponse(s, slot, from, m, link);
    var b := Block2Of(m);
    if b.Nothing? {
      high := bound;
      OwnClosed(d, s, r.state, slot, bound);
    } else {
      var recv := Accumulate(s.recvs[slot], from, m, b.value);
      AccumulateOk(d, s.recvs[slot], from, m, b.value);
      if b.value.more {
        high := BoundOf(recv);
        var s1 := s.(uploads := s.uploads[slot := Nothing], recvs := s.recvs[slot := recv]);
        PoolHigher(d, bound, high, s.pool);
        SendBlock2Follow(d, high, s1, slot, link);
        forall i: nat | Owns(r.state, i, d.serial) ensures i == slot { SameSerialSameSlot(s, i, slot); }
      } else {
        high := bound;
        OwnClosed(d, s, r.state, slot, bound);
      }
    }
  }

  lemma OwnClosed(d: Download, s: ClientState, t: ClientState, slot: nat, bound: nat)
    requires ClientOk(d, s, bound) && Owns(s, slot, d.serial) && SerialsOk(t) && Sized(t) && t.pool == s.pool
    requires t.issued == s.issued
    requires t.pending == s.pending[slot := Nothing]
    ensures ClientOk(d, t, bound)
  {
    hide SerialsOk, PoolGood, RecvOk, RequestOk, TokenByte;
    forall i: nat | Owns(t, i, d.serial) ensures false { SameSerialSameSlot(s, i, slot); }
  }

  lemma DeliverOk(d: Download, bound: nat, s: ClientState, from: Endpoint, m: Msg, link: bool) returns (high: nat)
    requires ClientOk(d, s, bound) && (m.token == d.Token() ==> IsAnswer(d, m, bound))
    ensures PollResult(d, bound, Deliver(s, from, m, link), high)
  {
    hide SerialsOk, PoolGood, RequestOk, HandleResponse, RecvOk, TokenByte, IsAnswer;
    var i := First(s.discovers, HasDiscoverToken(m.token));
    var slot := First(s.pending, HasToken(m.token));
    high := bound;
    if i < 0 && slot >= 0 {
      if m.token == d.Token() { high := ResponseOwn(d, bound, s, slot, from, m, link); }
      else { ResponseOther(d, bound, s, slot, from, m, link); }
    }
  }

  lemma AckOther(d: Download, bound: nat, m: Msg, from: Endpoint)
    ensures AllGood(RequestsOk(d, bound), AckOf(m, from))
  {
    hide RequestOk, EncodeMsg;
    var ack := Msg(ACK, EMPTY, m.mid, [], [], []);
    if Fits(ack) { OtherToken(d, bound, ack); }
  }

  lemma HandleMsgOutcome(d: Download, bound: nat, s: ClientState, from: Endpoint, m: Msg, link: bool)
    returns (high: nat)
    requires ClientOk(d, s, bound) && (m.token == d.Token() ==> IsAnswer(d, m, bound))
    ensures PollResult(d, bound, HandleMsg(s, from, m, link), high)
  {
    hide SerialsOk, PoolGood, RequestOk, Deliver, AckOf, RecvOk, TokenByte, IsAnswer, Release;
    var i := First(s.pool, HasMid(from.Addr(), m.mid));
    CompleteShrinks(s, i);
    ReleaseGood(RequestsOk(d, bound), s.pool, i);
    var s1 := if m.typ.ACK? then s.(pool := AfterComplete(s.pool, from.Addr(), m.mid)) else s;
    Unaffected(d, s, s1, bound);
    high := DeliverOk(d, bound, s1, from, m, link);
    AckOther(d, high, m, from);
    if m.code == EMPTY || IsMethodCode(m.code) { high := bound; }
  }

  lemma HandleResetOutcome(d: Download, bound: nat, s: ClientState, from: Endpoint, mid: u16)
    requires ClientOk(d, s, bound)
    ensures PollResult(d, bound, HandleReset(s, from, mid), bound)
  {
    hide SerialsOk, PoolGood, RequestOk, RecvOk, Release;
    HandleResetOk(s, from, mid);
    ReleaseGood(RequestsOk(d, bound), s.pool, First(s.pool, HasMid(from.Addr(), mid)));
    Unaffected(d, s, HandleReset(s, from, mid).state, bound);
  }

  lemma {:induction false} FiringEvents(d: Download, s: ClientState, fired: seq<Firing>)
    requires Sized(s)
    ensures EventsOk(d, HandleFirings(s, fired).events)
  {
    hide CallbackOk;
    if fired != [] { FiringEvents(d, s, fired[..|fired| - 1]); }
  }

  lemma TickOutcome(d: Download, bound: nat, s: ClientState, now: u32)
    requires ClientOk(d, s, bound)
    ensures PollResult(d, bound, TickClient(s, now), bound)
  {
    hide SerialsOk, PoolGood, RequestOk, RecvOk, HandleFirings, Firings, AfterTick, TokenByte;
    TickOk(s, now);
    TickSends(RequestsOk(d, bound), s, now);
    FiringEvents(d, s.(pool := AfterTick(Wrapping, s.pool, now)), Firings(Wrapping, s.pool, now));
    Unaffected(d, s, TickClient(s, now).state, bound);
  }

  /** A datagram the network may hand to the client. */
  predicate Deliverable(d: Download, bound: nat, incoming: Maybe<Datagram>) {
    incoming.Just? ==> AnswerOk(d, bound, incoming.value.bytes)
  }

  lemma PollOutcome(d: Download, bound: nat, s: ClientState, now: u32, incoming: Maybe<Datagram>, link: bool)
    returns (high: nat)
    requires ClientOk(d, s, bound) && Deliverable(d, bound, incoming)
    ensures PollResult(d, bound, Poll(s, now, incoming, link), high)
  {
    hide SerialsOk, PoolGood, RequestOk, RecvOk, HandleMsg, HandleReset, TickClient, ExpireDiscovers, DecodeMsg,
         IsAnswer, TokenByte;
    var s0 := s.(now := now);
    CountersOk(s, s0);
    Unaffected(d, s, s0, bound);
    var x := if incoming.Just? then DecodeMsg(Received(incoming.value.bytes)) else Rejected(TooShort);
    high := bound;
    if x.Decoded? && x.msg.typ.RST? {
      HandleResetOutcome(d, bound, s0, incoming.value.remote, x.msg.mid);
    } else {
      var r := if x.Decoded? then HandleMsg(s0, incoming.value.remote, x.msg, link) else Result(s0, [], [], true);
      if x.Decoded? { high := HandleMsgOutcome(d, bound, s0, incoming.value.remote, x.msg, link); }
      PollEnd(d, bound, r, now, high);
    }
  }

  lemma PollEnd(d: Download, bound: nat, r: Result, now: u32, high: nat)
    requires PollResult(d, bound, r, high)
    ensures var t := TickClient(ExpireDiscovers(r.state, now), now);
            PollResult(d, bound, t.(sent := r.sent + t.sent, events := r.events + t.events), high)
  {
    hide SerialsOk, PoolGood, RequestOk, RecvOk, TickClient, ExpireDiscovers, CallbackOk;
    ShrinksOk(r.state, ExpireDiscovers(r.state, now));
    Unaffected(d, r.state, ExpireDiscovers(r.state, now), high);
    TickOutcome(d, high, ExpireDiscovers(r.state, now), now);
  }

  /** Every client step. */
  lemma ClientKeepsDownload(d: Download, bound: nat, s: ClientState, op: ClientOp) returns (high: nat)
    requires ClientOk(d, s, bound)
    requires if op.OpPoll? then Deliverable(d, bound, op.incoming) else TokenOf(s.issued) != d.Token()
    ensures PollResult(d, bound, ClientStep(s, op), high)
  {
    hide ClientOk, AllGood, BeginUpload, SendRequest, Discover, Poll, CancelObserve, TokenOf;
    high := bound;
    match op
    case OpIssue(server, path, verb, payload, format, confirmable, observe, link) =>
      BeginUploadOther(d, bound, s, server, path, verb, payload, format, link);
      SendRequestOther(d, bound, s, server, path, verb, payload, format, confirmable,
                       if observe then Just(0) else Nothing, observe, link);
    case OpCancel(server, path, link) => CancelOther(d, bound, s, server, path, link);
    case OpDiscover(to, link) => DiscoverOther(d, bound, s, to, link);
    case OpPoll(now, incoming, link) => high := PollOutcome(d, bound, s, now, incoming, link);
  }
}
