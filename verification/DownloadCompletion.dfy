/** Block-wise downloads over a link that loses nothing: one exchange per block, then one callback with the whole
    resource. */
module DownloadCompletion {
  import opened Types
  import opened Config
  import opened Codec
  import opened OptionValues
  import opened Reliability
  import opened Paths
  import opened Sizes
  import opened S = ServerSpec
  import opened C = ClientSpec
  import P = ServerProps
  import CP = ClientProps
  import B = Block1Safety
  import D = Block2Safety
  import Y = Block2System
  import opened Completion

  /** What completion asks of the resource: it is served, and its body fits the buffers at both ends. */
  predicate Fetchable(d: D.Download) {
    0 < |d.body| <= BLOCK2_MAX_BODY && |d.body| <= 0x10_0000 * D.SIZE && d.route.To?
  }

  /** Follow-up requests, if there are any, can name the path and have room for their Block2 option. */
  predicate Followable(d: D.Download) {
    |d.body| <= D.SIZE || (D.Storable(d.path) && |Segments(d.path)| < MAX_OPTIONS)
  }

  /** The request for block k fits the option table. */
  predicate AskValid(d: D.Download, k: nat) {
    |Segments(d.path)| + (if k > 0 then 1 else 0) <= MAX_OPTIONS
  }

  /** And then a message; the message ID does not matter. */
  predicate AskFitsAt(d: D.Download, k: nat) {
    AskValid(d, k) ==> (ValidAsk(d, k, 0); Fits(Ask(d, k, 0)))
  }

  ghost predicate EveryAskFits(d: D.Download) {
    forall k: nat :: k * D.SIZE < |d.body| ==> AskFitsAt(d, k)
  }

  predicate AnswerFitsAt(d: D.Download, k: nat, res: Response) {
    k * D.SIZE < |d.body| && ValidMsg(Answer(d, k, 0, res)) ==> Fits(Answer(d, k, 0, res))
  }

  /** The resource's handler always answers inline with the body and a response code, and each answer fits a message. */
  ghost predicate Serves(d: D.Download, h: Handler) {
    && Y.ConstantHandler(d, h)
    && (forall req :: h(d.Resource(), req).code != EMPTY && !IsMethodCode(h(d.Resource(), req).code))
    && (forall req, k: nat :: AnswerFitsAt(d, k, h(d.Resource(), req)))
  }

  lemma ValidAsk(d: D.Download, k: nat, mid: u16)
    requires AskValid(d, k)
    ensures ValidMsg(Ask(d, k, mid))
  {
    hide Segments, UintBytes, BlockValue;
  }

  /** The request for block k: the first one asks for no block. */
  function Ask(d: D.Download, k: nat, mid: u16): Msg {
    Msg(CON, GET, mid, TokenOf(d.serial),
        UriOptions(Segments(d.path)) + (if k == 0 then [] else [BlockOpt(BLOCK2, k, false, BLOCK_SZX)]), [])
  }

  /** The answer to it. */
  function Answer(d: D.Download, k: nat, mid: u16, res: Response): Msg
    requires k * D.SIZE <= |d.body|
  {
    var more := |d.body| - k * D.SIZE > D.SIZE;
    if k == 0 && !more then Msg(ACK, res.code, mid, TokenOf(d.serial), PiggybackOptions(d.body, res.format, Nothing), d.body)
    else Msg(ACK, res.code, mid, TokenOf(d.serial), S.Block2Options(res.format, Nothing, k, more, BLOCK_SZX),
             Slice(d.body, k * D.SIZE, D.SIZE))
  }

  // ------------------------------------------------------------------ the server's end

  lemma AskIsRequest(d: D.Download, k: nat, mid: u16)
    requires k < 0x10_0000 && k * D.SIZE < |d.body|
    ensures D.IsRequest(d, Ask(d, k, mid), k, if k == 0 then Nothing else Just(k))
  {
    hide Segments, UintBytes, BlockValue, BlockSize, D.Downloadable;
  }

  lemma AskRouted(s: ServerState, d: D.Download, k: nat, mid: u16)
    requires Routed(s, d.path, GET, d.Resource())
    ensures RouteOf(s, Ask(d, k, mid)) == To(d.Resource())
  {
    hide Routed, RouteOf, Segments, UintBytes, BlockValue;
    RouteOfOptions(s, Ask(d, k, mid), d.path, if k == 0 then [] else [BlockOpt(BLOCK2, k, false, BLOCK_SZX)],
                   d.Resource());
  }

  lemma ServerAnswers(s: ServerState, d: D.Download, k: nat, mid: u16, from: Endpoint, h: Handler)
    returns (res: Response)
    requires d.route.To? && Serves(d, h) && k < 0x10_0000 && k * D.SIZE < |d.body|
    requires Routed(s, d.path, GET, d.Resource())
    ensures res.code != EMPTY && !IsMethodCode(res.code) && res.payload == d.body && AnswerFitsAt(d, k, res)
    ensures var o := HandleRequest(s, Ask(d, k, mid), from, h);
            && ValidMsg(Answer(d, k, mid, res)) && o.sent == Transmit(from, Answer(d, k, mid, res))
            && |o.calls| == 1 && o.calls[0].resource == d.Resource() && res == h(d.Resource(), o.calls[0].request)
  {
    hide HandleRequest, Transmit, Routed, RouteOf, FindOption, D.IsRequest, RequestedBlock2, P.AnswerContent, Ask,
         Answer, AnswerFitsAt, IsUploadBlock, Segments, TokenOf, P.BlockContent;
    var m := Ask(d, k, mid);
    AskHeader(d, k, mid);
    AskIsRequest(d, k, mid);
    AskRouted(s, d, k, mid);
    Y.AskedBlock(d, m, k, if k == 0 then Nothing else Just(k));
    NotUpload(m);
    P.RequestPays(s, m, from, h);
    res := h(d.Resource(), HandleRequest(s, m, from, h).calls[0].request);
    OwedAnswer(d, k, mid, s.nextMid, res);
  }

  lemma AskHeader(d: D.Download, k: nat, mid: u16)
    ensures var m := Ask(d, k, mid); m.typ == CON && m.code == GET && m.mid == mid && m.token == TokenOf(d.serial)
  {
    hide Segments, TokenOf, UintBytes, BlockValue;
  }

  /** What such a request is owed is the answer. */
  lemma OwedAnswer(d: D.Download, k: nat, mid: u16, next: u16, res: Response)
    requires k < 0x10_0000 && k * D.SIZE < |d.body| && res.payload == d.body && !IsUploadBlock(Ask(d, k, mid))
    ensures P.ReplyWith(Ask(d, k, mid), next, P.AnswerContent(Ask(d, k, mid), res, Nothing)) == Answer(d, k, mid, res)
    ensures ValidMsg(Answer(d, k, mid, res))
  {
    hide D.IsRequest, RequestedBlock2, Slice, S.Block2Options, PiggybackOptions, BlockSize, IsUploadBlock, TokenOf, Ask,
         P.AnswerContent, Answer, P.ReplyWith;
    var m, c := Ask(d, k, mid), P.AnswerContent(Ask(d, k, mid), res, Nothing);
    AskHeader(d, k, mid);
    AskIsRequest(d, k, mid);
    Y.AskedBlock(d, m, k, if k == 0 then Nothing else Just(k));
    SliceOwed(m, res, k, k * D.SIZE);
    AnswerIs(d, k, m, next, res, c);
  }

  lemma AnswerIs(d: D.Download, k: nat, m: Msg, next: u16, res: Response, c: P.Content)
    requires m.typ == CON && m.token == TokenOf(d.serial) && k * D.SIZE <= |d.body| && ValidOptions(c.options)
    requires c == if k == 0 && |d.body| - k * D.SIZE <= D.SIZE then
                    P.Content(res.code, PiggybackOptions(d.body, res.format, Nothing), d.body)
                  else P.Content(res.code, S.Block2Options(res.format, Nothing, k, |d.body| - k * D.SIZE > D.SIZE, BLOCK_SZX),
                                 Slice(d.body, k * D.SIZE, D.SIZE))
    ensures P.ReplyWith(m, next, c) == Answer(d, k, m.mid, res)
  {
    hide Slice, S.Block2Options, PiggybackOptions, BlockSize, TokenOf;
  }

  /** An answer in blocks, from offset `off`. */
  lemma SliceOwed(m: Msg, res: Response, k: nat, off: nat)
    requires !IsUploadBlock(m) && off == k * D.SIZE < |res.payload|
    requires RequestedBlock2(m) == (if k == 0 then Nothing else Just(Block(k, false, BLOCK_SZX)))
    ensures P.AnswerContent(m, res, Nothing) ==
              if k == 0 && |res.payload| - off <= D.SIZE then P.Content(res.code, PiggybackOptions(res.payload, res.format, Nothing), res.payload)
              else P.Content(res.code, S.Block2Options(res.format, Nothing, k, |res.payload| - off > D.SIZE, BLOCK_SZX),
                             Slice(res.payload, off, D.SIZE))
  {
    hide RequestedBlock2, Slice, S.Block2Options, PiggybackOptions, BlockSize, IsUploadBlock;
    assert k == 0 ==> off == 0 by { if k == 0 { assert 0 * D.SIZE == 0; } }
  }

  lemma NotUpload(m: Msg)
    requires m.code == GET
    ensures !IsUploadBlock(m)
  {
    hide FindOption;
  }

  lemma AnswerFits(d: D.Download, k: nat, mid: u16, res: Response)
    requires k * D.SIZE < |d.body| && ValidMsg(Answer(d, k, mid, res)) && AnswerFitsAt(d, k, res)
    ensures Fits(Answer(d, k, mid, res))
  {
    hide UintBytes, BlockValue, EncodeMsg, EncodeOptions, BlockSize, TokenOf, Slice, S.Block2Options, PiggybackOptions;
    MessageSize(Answer(d, k, mid, res));
    MessageSize(Answer(d, k, 0, res));
  }

  /** Enough room for every request and answer: block size, path and 18 bytes. */
  lemma RoomForDownload(d: D.Download, k: nat, res: Response)
    requires MAX_MSG_SIZE >= D.SIZE + 18
    ensures AnswerFitsAt(d, k, res)
    ensures ValidOptions(UriOptions(Segments(d.path))) && PathSize(d.path) + 13 <= MAX_MSG_SIZE ==> AskFitsAt(d, k)
  {
    hide UintBytes, BlockValue, EncodeMsg, EncodeOptions, ShortSize, Answer, Segments, TokenOf, UriOptions, BlockSize;
    OneToken(d.serial);
    NoOptionsLength();
    if k * D.SIZE < |d.body| {
      var m := Answer(d, k, 0, res);
      AnswerShort(d, k, 0, res);
      assert m.options == [] + m.options;
      if ValidMsg(m) { MessageLength(m, [], m.options); }
    }
    if AskValid(d, k) { AskLength(d, k); }
  }

  lemma AskLength(d: D.Download, k: nat)
    requires AskValid(d, k)
    ensures ValidMsg(Ask(d, k, 0)) && |EncodeMsg(Ask(d, k, 0))| <= PathSize(d.path) + 13
  {
    hide Segments, UintBytes, BlockValue, EncodeMsg, EncodeOptions, BlockSize, TokenOf, UriOptions;
    ValidAsk(d, k, 0);
    OneToken(d.serial);
    var m, uri := Ask(d, k, 0), UriOptions(Segments(d.path));
    if k == 0 {
      assert ShortSize([]) == 0;
      MessageLength(m, uri, []);
    } else {
      ShortOne(BlockOpt(BLOCK2, k, false, BLOCK_SZX));
      MessageLength(m, uri, [BlockOpt(BLOCK2, k, false, BLOCK_SZX)]);
    }
  }

  lemma AnswerShort(d: D.Download, k: nat, mid: u16, res: Response)
    requires k * D.SIZE < |d.body|
    ensures var m := Answer(d, k, mid, res);
            && Short(m.options) && ShortSize(m.options) <= 12 && |m.payload| <= D.SIZE && m.token == TokenOf(d.serial)
  {
    hide UintBytes, BlockValue, BlockSize, TokenOf, ShortSize;
    var m := Answer(d, k, mid, res);
    FormatLength(res.format);
    SmallBody(d, k);
    var more := |d.body| - k * D.SIZE > D.SIZE;
    if k == 0 && !more {
      assert m.options == [UintOpt(CONTENT_FORMAT, res.format)];
      ShortOne(m.options[0]);
    } else {
      assert m.options == [UintOpt(CONTENT_FORMAT, res.format), BlockOpt(BLOCK2, k, more, BLOCK_SZX)];
      ShortPair(m.options[0], m.options[1]);
    }
  }

  lemma SmallBody(d: D.Download, k: nat)
    ensures k == 0 ==> k * D.SIZE == 0
  {
  }

  lemma OneToken(n: nat)
    ensures |TokenOf(n)| == 1
  {
  }

  /** How the client reads the answer. */
  lemma AnswerReads(d: D.Download, k: nat, mid: u16, res: Response)
    requires d.route.To? && k < 0x10_0000 && k * D.SIZE < |d.body|
    ensures var m, more := Answer(d, k, mid, res), |d.body| - k * D.SIZE > D.SIZE;
            if k == 0 && !more then Block2Of(m) == Nothing && m.payload == d.body
            else Block2Of(m) == Just(Block(k, more, BLOCK_SZX)) && D.IsAnswer(d, m, k)
  {
    hide ReadBlock, BlockBytes, BlockSize, Slice, S.Block2Options, PiggybackOptions;
    var m, more := Answer(d, k, mid, res), |d.body| - k * D.SIZE > D.SIZE;
    if k == 0 && !more {
      PiggybackHasNoBlock2(m, d.body, res.format);
    } else {
      Y.SliceLabel(k, more, res.format);
    }
  }

  // ------------------------------------------------------------------ the client's end

  /** The slot has the first k blocks. */
  predicate HasBlocks(c: ClientState, slot: nat, d: D.Download, server: Endpoint, k: nat)
    requires Sized(c) && slot < |c.recvs|
  {
    var r := c.recvs[slot];
    r.path == StoredPath(d.path) && if k == 0 then !r.active
        else r.active && r.server == server && r.nextNum == k && D.RecvOk(d, r)
  }

  lemma AskSameLength(d: D.Download, k: nat, mid: u16)
    requires AskValid(d, k)
    ensures ValidMsg(Ask(d, k, mid)) && (AskFitsAt(d, k) <==> Fits(Ask(d, k, mid)))
  {
    hide Segments, UintBytes, BlockValue, EncodeMsg, EncodeOptions, BlockSize, TokenOf, UriOptions;
    ValidAsk(d, k, mid);
    ValidAsk(d, k, 0);
    MessageSize(Ask(d, k, mid));
    MessageSize(Ask(d, k, 0));
  }

  /** The message was sent and is the only one waiting to be acknowledged. */
  predicate Asked(c: ClientState, server: Endpoint, m: Msg, r: C.Result)
    requires ValidMsg(m)
  {
    && r == Result(r.state, [Datagram(server, EncodeMsg(m))], [], true)
    && NothingDue(r.state.pool, c.now) && ClearedBy(r.state.pool, server.Addr(), c.nextMid)
  }

  lemma MoreThanOne(d: D.Download, r: Recv)
    requires D.RecvOk(d, r) && r.active
    ensures |d.body| > D.SIZE && Segments(r.path) == Segments(d.path) && r.szx == BLOCK_SZX
  {
    hide Segments, BlockSize;
    D.MulMonotonic(1, r.nextNum, D.SIZE);
  }

  /** The follow-up goes out if it fits, and otherwise nothing does. */
  lemma FollowUp(c: ClientState, slot: nat, d: D.Download, server: Endpoint, k: nat)
    requires k > 0 && AskValid(d, k) && Sized(c) && slot < |c.pending| && c.pending[slot].Just?
    requires c.pending[slot].value.token == TokenOf(d.serial) && HasBlocks(c, slot, d, server, k) && Idle(c.pool)
    ensures ValidMsg(Ask(d, k, c.nextMid))
    ensures var r := SendBlock2(c, slot, true);
            if AskFitsAt(d, k) then Asked(c, server, Ask(d, k, c.nextMid), r)
                else r == Result(BumpMid(c), [], [], false)
  {
    hide Segments, UintBytes, BlockValue, EncodeMsg, BlockSize, TokenOf, UriOptions, ClearedBy, NothingDue, AfterStart,
         D.RecvOk, AskFitsAt;
    MoreThanOne(d, c.recvs[slot]);
    D.FollowUpOptions(c.recvs[slot].path, k);
    AskSameLength(d, k, c.nextMid);
    if AskFitsAt(d, k) {
      TrackFromIdle(BumpMid(c), c.pending[slot].value.serial, server, c.nextMid, TokenOf(d.serial),
                    EncodeMsg(Ask(d, k, c.nextMid)));
    }
  }

  /** After block k the client has reported the whole body once, or asked for the next block, or, if that request does
      not fit, sent nothing and kept its slot open. */
  predicate Took(c: ClientState, d: D.Download, slot: nat, server: Endpoint, k: nat, code: byte, format: u16,
                 r: C.Result)
    requires Sized(c) && Sized(r.state) && slot < |c.pending|
  {
    if |d.body| - k * D.SIZE <= D.SIZE then
      && r.sent == [] && r.state.pending[slot].Nothing?
      && |r.events| == 1 && r.events[0].Answered? && r.events[0].serial == d.serial && r.events[0].code == code
      && r.events[0].payload == d.body && r.events[0].format == format
    else
      && r.events == [] && AskValid(d, k + 1)
      && if AskFitsAt(d, k + 1) then
           ValidAsk(d, k + 1, c.nextMid);
           && r.sent == [Datagram(server, EncodeMsg(Ask(d, k + 1, c.nextMid)))]
           && Waiting(r.state, slot, d.serial, server, c.nextMid) && r.state.uploads[slot].Nothing?
           && HasBlocks(r.state, slot, d, server, k + 1) && r.state.recvs[slot].format == format
         else r.sent == [] && r.state.pending[slot] == c.pending[slot]
  }

  lemma ClientTakesAnswer(c: ClientState, d: D.Download, slot: nat, server: Endpoint, k: nat, mid: u16, now: u32,
                          res: Response)
    requires Fetchable(d) && Followable(d) && k < 0x10_0000 && k * D.SIZE < |d.body|
    requires Waiting(c, slot, d.serial, server, mid)
    requires c.uploads[slot].Nothing? && HasBlocks(c, slot, d, server, k) && res.code != EMPTY
    requires !IsMethodCode(res.code)
    requires ValidMsg(Answer(d, k, mid, res)) && Fits(Answer(d, k, mid, res))
    ensures Took(c, d, slot, server, k, res.code, if k == 0 then res.format else c.recvs[slot].format,
                 Poll(c, now, Just(Datagram(server, EncodeMsg(Answer(d, k, mid, res)))), true))
  {
    hide EncodeMsg, Poll, ExpireDiscovers, TokenOf, AfterComplete, Block2Of, FormatOf, Answer, Accumulate, D.IsAnswer,
         Followable, Ask, D.RecvOk, SendBlock2, BlockSize, AskFitsAt, AskValid, ClearedBy, NothingDue, StoredPath;
    var m := Answer(d, k, mid, res);
    var a := Acked(c, now, server, mid);
    AnswerReads(d, k, mid, res);
    AnswerHeader(d, k, mid, res);
    AnswerFormat(d, k, mid, res);
    IdleAfterAck(a.pool, c.pool, server.Addr(), mid, now);
    var more := |d.body| - k * D.SIZE > D.SIZE;
    WholeBody(d);
    if k == 0 && !more {
      PollTakesResponse(c, slot, d.serial, server, mid, now, m);
    } else {
      var b := Block(k, more, BLOCK_SZX);
      var recv := Accumulate(c.recvs[slot], server, m, b);
      FollowsStored(d);
      Grown(c, slot, d, server, k, m, b);
      assert a.uploads[slot := Nothing] == a.uploads;
      if more {
        NeedsMore(d, k);
        var s1 := a.(recvs := a.recvs[slot := recv]);
        AckedIsIdle(c, now, server, mid);
        FollowUp(s1, slot, d, server, k + 1);
        PollTakesResponse(c, slot, d.serial, server, mid, now, m);
        if AskFitsAt(d, k + 1) {
          StillWaiting(c, SendBlock2(s1, slot, true).state, now, slot, d.serial, server, c.nextMid);
        }
      } else {
        PollTakesResponse(c, slot, d.serial, server, mid, now, m);
      }
    }
  }

  lemma AckedIsIdle(c: ClientState, now: u32, server: Endpoint, mid: u16)
    requires ClearedBy(c.pool, server.Addr(), mid)
    ensures Idle(Acked(c, now, server, mid).pool)
  {
    hide AfterComplete;
  }

  lemma WholeBody(d: D.Download)
    requires Fetchable(d)
    ensures D.Delivered(d) == d.body
  {
  }

  lemma FollowsStored(d: D.Download)
    requires Followable(d)
    ensures |d.body| > D.SIZE ==> D.Storable(d.path)
  {
    hide BlockSize, Segments;
  }

  lemma NeedsMore(d: D.Download, k: nat)
    requires Followable(d) && |d.body| - k * D.SIZE > D.SIZE
    ensures D.Storable(d.path) && AskValid(d, k + 1)
  {
    hide BlockSize, Segments;
  }

  lemma AnswerHeader(d: D.Download, k: nat, mid: u16, res: Response)
    requires k * D.SIZE <= |d.body|
    ensures var m := Answer(d, k, mid, res);
            m.typ == ACK && m.mid == mid && m.token == TokenOf(d.serial) && m.code == res.code
  {
    hide BlockSize, TokenOf, Slice;
  }

  lemma AnswerFormat(d: D.Download, k: nat, mid: u16, res: Response)
    requires k * D.SIZE < |d.body|
    ensures FormatOf(Answer(d, k, mid, res)) == res.format
  {
    hide UintBytes, BlockValue, BlockSize, Slice, FindUint;
    var os := Answer(d, k, mid, res).options;
    SmallBody(d, k);
    FindsUint(os, 0, res.format);
    FormatReads(Answer(d, k, mid, res), res.format);
  }

  lemma FormatReads(m: Msg, format: u16)
    requires FindUint(m.options, CONTENT_FORMAT) == Just(format)
    ensures FormatOf(m) == format
  {
    hide ReadUint, FindOption;
  }

  lemma Grown(c: ClientState, slot: nat, d: D.Download, server: Endpoint, k: nat, m: Msg, b: Block)
    requires Sized(c) && slot < |c.recvs| && HasBlocks(c, slot, d, server, k) && k < 0x10_0000
    requires |d.body| > D.SIZE ==> D.Storable(d.path)
    requires b.num == k && Block2Of(m) == Just(b) && D.IsAnswer(d, m, k)
    ensures var t := Accumulate(c.recvs[slot], server, m, b);
            && t.server == server && t.path == c.recvs[slot].path
            && t.format == (if k == 0 then FormatOf(m) else c.recvs[slot].format)
            && (b.more ==> D.RecvOk(d, t) && t.active && t.nextNum == k + 1)
            && (!b.more ==> t.body == D.Delivered(d))
  {
    hide D.IsAnswer, Block2Of, FormatOf, D.Delivered, StoredPath, Segments, BlockSize, D.Storable;
    D.StoredSegments(d.path);
    D.AccumulateOk(d, c.recvs[slot], server, m, b);
  }

  // ------------------------------------------------------------------ one exchange and all of them

  /** The request for block k is in flight, the client has the blocks before it. */
  ghost predicate Downloading(y: Link, d: D.Download, server: Endpoint, slot: nat, k: nat) {
    && Sized(y.client) && slot < |y.client.pending| && k < 0x10_0000 && k * D.SIZE < |d.body|
    && Routed(y.server, d.path, GET, d.Resource()) && Idle(y.server.pool)
    && y.client.uploads[slot].Nothing? && HasBlocks(y.client, slot, d, server, k)
    && exists mid: u16 :: Waiting(y.client, slot, d.serial, server, mid) && InFlight(y, Ask(d, k, mid), server)
  }

  predicate InFlight(y: Link, m: Msg, server: Endpoint) {
    ValidMsg(m) && Fits(m) && y.inFlight == [Datagram(server, EncodeMsg(m))]
  }

  /** The client holds the content format of the first answer. */
  predicate FormatKept(y: Link, d: D.Download, slot: nat, h: Handler) {
    y.calls != [] ==>
      slot < |y.client.recvs| && y.client.recvs[slot].format == h(d.Resource(), y.calls[0].request).format
  }

  /** The download is over: one callback, with the code of the last answer, the content format of the first and the
      whole resource. */
  predicate Downloaded(z: Link, d: D.Download, h: Handler) {
    && z.inFlight == [] && z.calls != []
    && |z.events| == 1 && z.events[0].Answered? && z.events[0].serial == d.serial && z.events[0].payload == d.body
    && z.events[0].code == h(d.Resource(), z.calls[|z.calls| - 1].request).code
    && z.events[0].format == h(d.Resource(), z.calls[0].request).format
  }

  /** The download is stuck: nothing in flight, nothing reported, and the slot still taken. */
  predicate LeftOpen(z: Link, d: D.Download, slot: nat) {
    && z.inFlight == [] && z.events == []
    && slot < |z.client.pending| && z.client.pending[slot].Just? && z.client.pending[slot].value.serial == d.serial
  }

  lemma ServerReceives(y: Link, server: Endpoint, from: Endpoint, m: Msg, now: u32, h: Handler)
    requires Idle(y.server.pool) && InFlight(y, m, server) && m.typ == CON && m.code == GET
    ensures Receive(TickTo(y.server, now).state, from, y.inFlight[0].bytes, h) ==
            HandleRequest(y.server.(now := now), m, from, h)
  {
    hide HandleRequest, EncodeMsg, DecodeMsg, TickTo, Idle;
    QuietServerTick(y.server, now);
    DecodeEncode(m);
  }

  /** The server takes a request and sends its answer. */
  lemma ServerGets(y: Link, d: D.Download, server: Endpoint, from: Endpoint, k: nat, mid: u16, now: u32, h: Handler)
    returns (res: Response)
    requires d.route.To? && Serves(d, h) && k < 0x10_0000 && k * D.SIZE < |d.body|
    requires Routed(y.server, d.path, GET, d.Resource())
    requires Idle(y.server.pool) && InFlight(y, Ask(d, k, mid), server)
    ensures res.code != EMPTY && !IsMethodCode(res.code) && ValidMsg(Answer(d, k, mid, res))
    ensures Fits(Answer(d, k, mid, res))
    ensures var o := Receive(TickTo(y.server, now).state, from, y.inFlight[0].bytes, h);
            && o.sent == [Datagram(from, EncodeMsg(Answer(d, k, mid, res)))]
            && |o.calls| == 1 && res == h(d.Resource(), o.calls[0].request)
            && Routed(o.state, d.path, GET, d.Resource()) && Idle(o.state.pool)
            && o.state.resources == y.server.resources
  {
    hide HandleRequest, EncodeMsg, Receive, TickTo, Ask, Answer, Routed, Serves, Idle, AnswerFitsAt, BlockSize,
         InFlight;
    AskHeader(d, k, mid);
    ServerReceives(y, server, from, Ask(d, k, mid), now, h);
    var s := y.server.(now := now);
    RoutedLater(y.server, s, d.path, GET, d.Resource());
    res := ServerAnswers(s, d, k, mid, from, h);
    AnswerFits(d, k, mid, res);
    RoutedLater(y.server, HandleRequest(s, Ask(d, k, mid), from, h).state, d.path, GET, d.Resource());
  }

  /** One exchange: block k arrives. If it is the last, the download is over. If the request for the next one fits, it
      is in flight and nothing was reported. Otherwise nothing moves any more. */
  lemma OneDownloadExchange(y: Link, d: D.Download, server: Endpoint, from: Endpoint, slot: nat, k: nat, now: u32,
                            h: Handler)
    requires Fetchable(d) && Followable(d) && Serves(d, h) && Downloading(y, d, server, slot, k) && y.events == []
    requires FormatKept(y, d, slot, h) && |y.calls| == k
    ensures var z := Exchange(from, y, now, h);
            && |z.calls| == |y.calls| + 1
            && if |d.body| - k * D.SIZE <= D.SIZE then Downloaded(z, d, h)
               else if AskFitsAt(d, k + 1) then
                 Downloading(z, d, server, slot, k + 1) && z.events == [] && FormatKept(z, d, slot, h)
               else LeftOpen(z, d, slot)
  {
    hide Routed, S.Receive, TickTo, Poll, EncodeMsg, TokenOf, Followable, Serves, ClearedBy, Ask, Answer, HasBlocks,
         BlockSize, AskFitsAt, AskValid, Fits, Idle;
    var mid: u16 :| Waiting(y.client, slot, d.serial, server, mid) && InFlight(y, Ask(d, k, mid), server);
    var res := ServerGets(y, d, server, from, k, mid, now, h);
    ClientTakesAnswer(y.client, d, slot, server, k, mid, now, res);
    if |d.body| - k * D.SIZE > D.SIZE {
      NextAsk(d, k);
      if AskFitsAt(d, k + 1) {
        AskSameLength(d, k + 1, y.client.nextMid);
        assert InFlight(Exchange(from, y, now, h), Ask(d, k + 1, y.client.nextMid), server);
      }
    }
  }

  lemma NextAsk(d: D.Download, k: nat)
    requires Fetchable(d) && |d.body| - k * D.SIZE > D.SIZE && k < 0x10_0000
    ensures k + 1 < 0x10_0000 && (k + 1) * D.SIZE < |d.body|
  {
    hide BlockSize;
    D.NextBlock(k);
    B.NumBelow(k + 1, 0x10_0000, D.SIZE);
  }

  ghost predicate AsksFitUpTo(d: D.Download, j: nat) {
    forall k: nat :: k <= j && k * D.SIZE < |d.body| ==> AskFitsAt(d, k)
  }

  /** The first j exchanges: block by block, up to a request that does not fit. */
  lemma {:induction false} DownloadProceeds(y: Link, d: D.Download, server: Endpoint, from: Endpoint, slot: nat,
                                            times: seq<u32>, h: Handler)
    requires Fetchable(d) && Followable(d) && Serves(d, h) && Downloading(y, d, server, slot, 0) && y.events == []
    requires y.calls == []
    requires |times| <= BlockCount(|d.body|, D.SIZE)
    ensures var z := Exchanges(from, y, times, h);
            if !AsksFitUpTo(d, |times|) then LeftOpen(z, d, slot)
            else
              && |z.calls| == |times|
              && if |times| < BlockCount(|d.body|, D.SIZE) then
                   Downloading(z, d, server, slot, |times|) && z.events == [] && FormatKept(z, d, slot, h)
                 else Downloaded(z, d, h)
  {
    hide Fetchable, Followable, Serves, Exchange, BlockCount, BlockSize, Downloading, AskFitsAt;
    InFlightFits(y, d, server, slot, 0);
    if times == [] {
      CountPositive(d);
    } else {
      var j := |times| - 1;
      DownloadProceeds(y, d, server, from, slot, times[..j], h);
      var z := Exchanges(from, y, times[..j], h);
      if AsksFitUpTo(d, j) {
        FirstAskFitsLater(z, d, server, slot, j);
        OneDownloadExchange(z, d, server, from, slot, j, times[j], h);
        LastOf(|d.body|, D.SIZE, j);
        D.NextBlock(j);
      } else {
        NothingInFlight(z, from, times[j], h);
        assert !AsksFitUpTo(d, j + 1);
      }
    }
  }

  lemma InFlightFits(y: Link, d: D.Download, server: Endpoint, slot: nat, k: nat)
    requires Downloading(y, d, server, slot, k)
    ensures Sized(y.client) && AskFitsAt(d, k) && AskValid(d, k)
  {
    hide Routed, HasBlocks, EncodeMsg, BlockSize, Ask, AskFitsAt, AskValid, ClearedBy, TokenOf;
    var mid: u16 :| Waiting(y.client, slot, d.serial, server, mid) && InFlight(y, Ask(d, k, mid), server);
    AskCount(d, k, mid);
    AskSameLength(d, k, mid);
  }

  lemma AskCount(d: D.Download, k: nat, mid: u16)
    ensures ValidMsg(Ask(d, k, mid)) ==> AskValid(d, k)
  {
    hide Segments;
  }

  lemma FirstAskFitsLater(y: Link, d: D.Download, server: Endpoint, slot: nat, k: nat)
    requires Downloading(y, d, server, slot, k)
    ensures Sized(y.client) && k < 0x10_0000 && k * D.SIZE < |d.body|
  {
    hide Routed, Waiting, HasBlocks, InFlight, BlockSize;
  }

  /** Lossless download. From the first request in flight, each exchange puts the request for the next block in flight
      and reports nothing; after exactly ceil(length / blockSize) of them, with one handler call each, the download is
      over if and only if every request fits a message. Otherwise the slot stays open without a callback. */
  lemma DownloadCompletes(y: Link, d: D.Download, server: Endpoint, from: Endpoint, slot: nat, times: seq<u32>,
                          h: Handler)
    requires Fetchable(d) && Followable(d) && Serves(d, h) && Downloading(y, d, server, slot, 0) && y.events == []
    requires y.calls == []
    requires |times| <= BlockCount(|d.body|, D.SIZE)
    ensures var z := Exchanges(from, y, times, h);
            if |times| == BlockCount(|d.body|, D.SIZE) then
              (if EveryAskFits(d) then Downloaded(z, d, h) && |z.calls| == |times| else LeftOpen(z, d, slot))
            else EveryAskFits(d) ==> Downloading(z, d, server, slot, |times|) && z.events == [] && |z.calls| == |times|
  {
    hide Fetchable, Followable, Serves, Exchanges, BlockCount, BlockSize, Downloading, AskFitsAt, Downloaded, LeftOpen;
    InFlightFits(y, d, server, slot, 0);
    DownloadProceeds(y, d, server, from, slot, times, h);
    if AsksFitUpTo(d, BlockCount(|d.body|, D.SIZE)) {
      forall k: nat | k * D.SIZE < |d.body| ensures AskFitsAt(d, k) { LastOf(|d.body|, D.SIZE, k); }
    }
  }

  lemma CountPositive(d: D.Download)
    requires Fetchable(d)
    ensures BlockCount(|d.body|, D.SIZE) > 0
  {
    hide BlockSize;
    DivideBounds(|d.body| + D.SIZE - 1, D.SIZE);
  }

  /** A confirmable `get` puts the first request in flight exactly when that fits. */
  lemma DownloadStarts(c: ClientState, s: ServerState, d: D.Download, server: Endpoint)
    requires ReadyToSend(c) && d.serial == c.issued && |d.body| > 0 && Routed(s, d.path, GET, d.Resource())
    requires Idle(s.pool)
    ensures var r := SendRequest(c, server, d.path, GET, [], 0, true, Nothing, false, true);
            && (r.ok <==> AskValid(d, 0) && AskFitsAt(d, 0))
            && (r.ok ==>
                Downloading(Link(r.state, s, r.sent, [], []), d, server, First(c.pending, IsFree<Pending>()), 0))
  {
    hide EncodeMsg, AfterStart, Routed, BlockSize, TokenOf, Segments, Ask, StoredPath, AskFitsAt, Fits, UriOptions;
    var n, i := c.issued, First(c.pending, IsFree<Pending>());
    FirstAsk(d, c.nextMid);
    SmallBody(d, 0);
    var m := Ask(d, 0, c.nextMid);
    var s1 := BumpMid(c).(issued := n + 1);
    assert [] + UriOptions(Segments(d.path)) == UriOptions(Segments(d.path));
    if AskValid(d, 0) {
      AskSameLength(d, 0, c.nextMid);
      if Fits(m) { TrackFits(s1, n, server, c.nextMid, TokenOf(n), m); }
    }
    var r := SendRequest(c, server, d.path, GET, [], 0, true, Nothing, false, true);
    if r.ok {
      assert Waiting(r.state, i, n, server, c.nextMid);
      assert InFlight(Link(r.state, s, r.sent, [], []), m, server);
    }
  }

  /** So it is for a confirmable `get` itself. */
  lemma GetStarts(c: ClientState, s: ServerState, d: D.Download, server: Endpoint)
    requires ReadyToSend(c) && d.serial == c.issued && |d.body| > 0 && Routed(s, d.path, GET, d.Resource())
    requires Idle(s.pool)
    ensures var r := Issue(c, server, d.path, GET, [], 0, true, false, true);
            && (r.ok <==> AskValid(d, 0) && AskFitsAt(d, 0))
            && (r.ok ==>
                Downloading(Link(r.state, s, r.sent, [], []), d, server, First(c.pending, IsFree<Pending>()), 0))
  {
    hide SendRequest, Downloading, AskFitsAt, AskValid, Routed, Idle, ReadyToSend;
    ReadySized(c);
    DownloadStarts(c, s, d, server);
  }

  lemma ReadySized(c: ClientState)
    requires ReadyToSend(c)
    ensures Sized(c)
  {
  }

  lemma TrackFits(c: ClientState, serial: nat, remote: Endpoint, mid: u16, token: Token, m: Msg)
    requires Sized(c) && Idle(c.pool) && ValidMsg(m) && Fits(m)
    ensures var t := Track(c, serial, remote, mid, token, EncodeMsg(m));
            NothingDue(t.pool, c.now) && ClearedBy(t.pool, remote.Addr(), mid)
  {
    hide EncodeMsg;
    TrackFromIdle(c, serial, remote, mid, token, EncodeMsg(m));
  }

  lemma FirstAsk(d: D.Download, mid: u16)
    ensures Ask(d, 0, mid) == Msg(CON, GET, mid, TokenOf(d.serial), UriOptions(Segments(d.path)), [])
  {
    hide Segments;
    assert UriOptions(Segments(d.path)) + [] == UriOptions(Segments(d.path));
  }
}
