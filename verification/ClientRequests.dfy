/** What the client's requests carry, read off the datagrams. */
module ClientRequests {
  import opened Types
  import opened Config
  import opened Codec
  import opened OptionValues
  import opened Reliability
  import opened Paths
  import opened ClientSpec
  import S = ServerSpec
  import P = ServerProps
  import R = ServerReplies

  function ObserveOption(observe: Maybe<u32>): (os: seq<Opt>)
    ensures |os| == if observe.Just? then 1 else 0
  {
    if observe.Just? then [UintOpt(OBSERVE, observe.value)] else []
  }

  /** Observe and path need no more options than a message has. */
  predicate OptionsFit(path: seq<byte>, observe: Maybe<u32>) {
    |ObserveOption(observe)| + |Segments(path)| <= MAX_OPTIONS
  }

  /** A content format is sent with a payload, if an option slot is left for it. */
  predicate SendsFormat(path: seq<byte>, payload: seq<byte>, observe: Maybe<u32>) {
    payload != [] && |ObserveOption(observe)| + |Segments(path)| < MAX_OPTIONS
  }

  /** The request: Observe, the path and the content format, in this order. */
  function Wanted(typ: MsgType, verb: byte, mid: u16, token: Token, path: seq<byte>, payload: seq<byte>, format: u16,
                  observe: Maybe<u32>): (m: Msg)
    requires OptionsFit(path, observe)
    ensures ValidMsg(m)
  {
    Msg(typ, verb, mid, token,
        ObserveOption(observe) + UriOptions(Segments(path))
        + (if SendsFormat(path, payload, observe) then [UintOpt(CONTENT_FORMAT, format)] else []), payload)
  }

  /** What a server reads of a request: method, token, payload, Observe, content format and the normalised path. */
  predicate Carries(m: Msg, confirmable: bool, verb: byte, serial: nat, path: seq<byte>, payload: seq<byte>,
                    format: u16, observe: Maybe<u32>) {
    && m.typ == (if confirmable then CON else NON) && m.code == verb && m.token == [(1 + serial) % 0x100]
    && m.payload == payload
    && FindUint(m.options, OBSERVE) == (if observe.Just? then Just(observe.value) else Nothing)
    && FindUint(m.options, CONTENT_FORMAT) == (if SendsFormat(path, payload, observe) then Just(format) else Nothing)
    && FindOption(m.options, BLOCK1) == Nothing && FindOption(m.options, BLOCK2) == Nothing
    && (NulFree(path) && SegmentsFit(Segments(path)) ==>
        JoinPath(m.options) == CString(JoinPath(m.options)) == Normalize(path))
  }

  lemma WantedCarries(confirmable: bool, verb: byte, mid: u16, serial: nat, path: seq<byte>, payload: seq<byte>,
                      format: u16, observe: Maybe<u32>)
    requires OptionsFit(path, observe)
    ensures Carries(Wanted(if confirmable then CON else NON, verb, mid, TokenOf(serial), path, payload, format, observe),
                    confirmable, verb, serial, path, payload, format, observe)
  {
    hide Segments, UintBytes, JoinPath, CString, FindUint, Normalize;
    var m := Wanted(if confirmable then CON else NON, verb, mid, TokenOf(serial), path, payload, format, observe);
    var before, uri := ObserveOption(observe), UriOptions(Segments(path));
    var after := if SendsFormat(path, payload, observe) then [UintOpt(CONTENT_FORMAT, format)] else [];
    assert m.options == before + uri + after;
    if observe.Just? { FindsUint(m.options, 0, observe.value); } else { FindsNone(m.options, OBSERVE); }
    if SendsFormat(path, payload, observe) {
      FindsUint(m.options, |before + uri|, format);
    } else {
      FindsNone(m.options, CONTENT_FORMAT);
    }
    FindsNone(m.options, BLOCK1);
    FindsNone(m.options, BLOCK2);
    if NulFree(path) {
      PathReadBack(m, before, path, after);
      CStringNotLonger(JoinPath(m.options));
    }
  }

  lemma OptionsWanted(path: seq<byte>, payload: seq<byte>, format: u16, observe: Maybe<u32>)
    ensures RequestOptions(path, payload, format, observe) ==
            if OptionsFit(path, observe)
            then Just(Wanted(CON, GET, 0, [], path, payload, format, observe).options) else Nothing
  {
    hide Segments, UintBytes;
    var os := ObserveOption(observe) + UriOptions(Segments(path));
    assert os + [] == os;
  }

  /** The pool keeps the datagram for retransmission, in a free slot if it has one. */
  predicate Kept(p: Slots, q: Slots, remote: Endpoint, mid: u16, token: seq<byte>, bytes: seq<byte>) {
    if exists i :: 0 <= i < |p| && p[i].Nothing? then
      exists i: nat :: i < |p| == |q| && p[i].Nothing? && q[i].Just?
        && (forall j :: 0 <= j < |p| && j != i ==> q[j] == p[j])
        && var t := q[i].value;
           t.remote == remote && t.mid == mid && t.token == token && t.bytes == bytes && t.retries == 0
    else q == p
  }

  /** The request took a free slot for itself. */
  predicate Opens(s: ClientState, t: ClientState, server: Endpoint, path: seq<byte>, observing: bool) {
    exists i: nat :: i < |s.pending| == |t.pending| && s.pending[i].Nothing?
      && t.pending == s.pending[i := Just(Pending(s.issued, server, [(1 + s.issued) % 0x100], observing, StoredPath(path)))]
  }

  /** A request that succeeds has sent one datagram, to the server, that carries what was asked for; if confirmable
      the pool keeps that very datagram. It fails exactly when no slot is free, the options or the message do not fit,
      or the transport refuses; then nothing was sent or kept. */
  ghost predicate Requested(s: ClientState, r: Result, server: Endpoint, path: seq<byte>, verb: byte,
                            payload: seq<byte>, format: u16, confirmable: bool, observe: Maybe<u32>, observing: bool, link: bool) {
    && (r.ok <==> (exists i :: 0 <= i < |s.pending| && s.pending[i].Nothing?) && link && OptionsFit(path, observe)
                  && Fits(Wanted(if confirmable then CON else NON, verb, s.nextMid, TokenOf(s.issued), path, payload,
                                 format, observe)))
    && r.events == []
    && (!r.ok ==> r.sent == [] && r.state.pending == s.pending && r.state.pool == s.pool)
    && (r.ok ==>
          && |r.sent| == 1 && r.sent[0].remote == server && DecodeMsg(r.sent[0].bytes).Decoded?
          && var m := DecodeMsg(r.sent[0].bytes).msg;
             && m.mid == s.nextMid && Carries(m, confirmable, verb, s.issued, path, payload, format, observe)
             && Opens(s, r.state, server, path, observing)
             && if confirmable then Kept(s.pool, r.state.pool, server, m.mid, m.token, r.sent[0].bytes)
                else r.state.pool == s.pool)
  }

  lemma RequestCarries(s: ClientState, server: Endpoint, path: seq<byte>, verb: byte, payload: seq<byte>, format: u16,
                       confirmable: bool, observe: Maybe<u32>, observing: bool, link: bool)
    requires Sized(s)
    ensures Requested(s, SendRequest(s, server, path, verb, payload, format, confirmable, observe, observing, link),
                      server, path, verb, payload, format, confirmable, observe, observing, link)
  {
    hide EncodeMsg, DecodeMsg, AfterStart, RequestOptions, Carries, Wanted, OptionsFit, Kept;
    var r := SendRequest(s, server, path, verb, payload, format, confirmable, observe, observing, link);
    OptionsWanted(path, payload, format, observe);
    if OptionsFit(path, observe) {
      var m := Wanted(if confirmable then CON else NON, verb, s.nextMid, TokenOf(s.issued), path, payload, format,
                      observe);
      WantedParts(confirmable, verb, s.nextMid, TokenOf(s.issued), path, payload, format, observe);
      WantedCarries(confirmable, verb, s.nextMid, s.issued, path, payload, format, observe);
      DecodeEncode(m);
      if r.ok && confirmable { StartKeeps(s.pool, server, s.nextMid, TokenOf(s.issued), EncodeMsg(m), s.now); }
    }
  }

  lemma WantedParts(confirmable: bool, verb: byte, mid: u16, token: Token, path: seq<byte>, payload: seq<byte>,
                    format: u16, observe: Maybe<u32>)
    requires OptionsFit(path, observe)
    ensures var typ := if confirmable then CON else NON;
            Wanted(typ, verb, mid, token, path, payload, format, observe) ==
              Msg(typ, verb, mid, token, Wanted(CON, GET, 0, [], path, payload, format, observe).options, payload)
  {
    hide Segments, UintBytes;
  }

  lemma StartKeeps(p: Slots, remote: Endpoint, mid: u16, token: Token, bytes: seq<byte>, now: u32)
    requires |bytes| <= MAX_MSG_SIZE
    ensures Kept(p, AfterStart(Wrapping, p, remote, mid, token, bytes, now), remote, mid, token, bytes)
  {
    hide InitialTimeout;
    var q, i := AfterStart(Wrapping, p, remote, mid, token, bytes, now), First(p, IsFree<Txn>());
    if i >= 0 { assert q[i].Just? && p[i].Nothing?; }
  }

  /** `get`, `put`, `post`, `del` and `observe` of at most one block. */
  lemma IssueCarries(s: ClientState, server: Endpoint, path: seq<byte>, verb: byte, payload: seq<byte>, format: u16,
                     confirmable: bool, observe: bool, link: bool)
    requires Sized(s) && ((verb == PUT || verb == POST) ==> |payload| <= BlockSize(BLOCK_SZX))
    ensures Requested(s, Issue(s, server, path, verb, payload, format, confirmable, observe, link), server, path, verb,
                      payload, format, confirmable, if observe then Just(0) else Nothing, observe, link)
  {
    hide SendRequest, Requested, BlockSize;
    RequestCarries(s, server, path, verb, payload, format, confirmable, if observe then Just(0) else Nothing, observe,
                   link);
  }

  /** Slot i observes this path of this server. */
  predicate Observes(s: ClientState, i: int, server: Endpoint, path: seq<byte>) {
    && 0 <= i < |s.pending| && s.pending[i].Just? && s.pending[i].value.observing
    && s.pending[i].value.server.Addr() == server.Addr() && s.pending[i].value.path == path
  }

  /** `cancelObserve` frees the first slot that observes the path and sends a confirmable GET with Observe 1; it does
      nothing if there is none. */
  lemma CancelCarries(s: ClientState, server: Endpoint, path: seq<byte>, link: bool)
    requires Sized(s)
    ensures var r := CancelObserve(s, server, path, link);
            if exists i :: Observes(s, i, server, path) then
              exists i :: Observes(s, i, server, path) && (forall j :: 0 <= j < i ==> !Observes(s, j, server, path))
                && Requested(s.(pending := s.pending[i := Nothing]), r, server, path, GET, [], 0, true, Just(1), false, link)
            else r == Result(s, [], [], false)
  {
    hide SendRequest, Requested;
    var i := First(s.pending, ObservesPath(server.Addr(), path));
    forall j | 0 <= j < |s.pending|
      ensures Observes(s, j, server, path) <==> ObservesPath(server.Addr(), path)(s.pending[j]) {}
    if i >= 0 {
      RequestCarries(s.(pending := s.pending[i := Nothing]), server, path, GET, [], 0, true, Just(1), false, link);
    }
  }

  /** `discover` sends a non-confirmable GET that a server reads as one for "/.well-known/core", and remembers its token
      in a free discover slot. */
  lemma DiscoverCarries(s: ClientState, to: Endpoint, link: bool)
    requires Sized(s)
    ensures var r := Discover(s, to, link);
            r.ok ==>
              && |r.sent| == 1 && r.sent[0].remote == to && DecodeMsg(r.sent[0].bytes).Decoded?
              && Carries(DecodeMsg(r.sent[0].bytes).msg, false, GET, s.issued, WELL_KNOWN, [], 0, Nothing)
              && CString(JoinPath(DecodeMsg(r.sent[0].bytes).msg.options)) == Normalize(WELL_KNOWN)
              && exists i: nat :: i < |s.discovers| && s.discovers[i].Nothing?
                   && r.state.discovers == s.discovers[i := Just(Discovery(s.issued, [(1 + s.issued) % 0x100], s.now))]
  {
    hide EncodeMsg, DecodeMsg, Carries, Segments, JoinPath, CString, Normalize;
    var r := Discover(s, to, link);
    if r.ok {
      var m := Wanted(NON, GET, s.nextMid, TokenOf(s.issued), WELL_KNOWN, [], 0, Nothing);
      var uri := UriOptions(Segments(WELL_KNOWN));
      assert [] + uri + [] == [] + uri;
      WantedCarries(false, GET, s.nextMid, s.issued, WELL_KNOWN, [], 0, Nothing);
      DecodeEncode(m);
      CarriedPath(m, s.issued);
    }
  }

  lemma CarriedPath(m: Msg, serial: nat)
    requires Carries(m, false, GET, serial, WELL_KNOWN, [], 0, Nothing)
    ensures CString(JoinPath(m.options)) == Normalize(WELL_KNOWN)
  {
    hide Segments, JoinPath, CString, Normalize, FindUint, FindOption;
    ShortPathFits(WELL_KNOWN);
  }

  // ------------------------------------------------------------------ follow-ups of a download

  /** A follow-up request: a CON GET of the path under the token, with the Block2 label if an option is left. */
  predicate AsksBlock(m: Msg, mid: u16, token: Token, path: seq<byte>, num: nat, szx: nat) {
    && m.typ == CON && m.code == GET && m.mid == mid && m.token == token && m.payload == []
    && m.options == UriOptions(Segments(path)) +
                    if |Segments(path)| < MAX_OPTIONS then [BlockOpt(BLOCK2, num, false, szx)] else []
  }

  /** A fragment other than the last one is answered by nothing but the request for the next block expected, sent to
      where the first fragment came from, with its block size. */
  lemma FragmentAsks(s: ClientState, slot: nat, from: Endpoint, m: Msg, link: bool)
    requires Sized(s) && slot < |s.pending| && s.pending[slot].Just? && (m.code == CONTINUE ==> s.uploads[slot].Nothing?)
    requires Block2Of(m).Just? && Block2Of(m).value.more
    ensures var r, recv, b := HandleResponse(s, slot, from, m, link), s.recvs[slot], Block2Of(m).value;
            var t := r.state.recvs[slot];
            && r.events == [] && r.state.pending == s.pending && t.active && t.path == recv.path
            && t.server == (if recv.active then recv.server else from)
            && t.szx == (if recv.active then recv.szx else b.szx)
            && t.nextNum == (var due := if recv.active then recv.nextNum else 0;
                             if b.num == due then (due + 1) % 0x1_0000_0000 else due)
            && |r.sent| <= 1
            && (r.sent != [] ==>
                  && r.sent[0].remote == t.server && DecodeMsg(r.sent[0].bytes).Decoded?
                  && AsksBlock(DecodeMsg(r.sent[0].bytes).msg, s.nextMid, s.pending[slot].value.token, t.path, t.nextNum,
                               t.szx))
  {
    hide EncodeMsg, DecodeMsg, Segments, UriOptions, AfterStart, Block2Of, BlockValue, FormatOf;
    var recv := Accumulate(s.recvs[slot], from, m, Block2Of(m).value);
    var options := Block2Options(recv.path, recv.nextNum, recv.szx);
    if options.Just? {
      assert [] + UriOptions(Segments(recv.path)) == UriOptions(Segments(recv.path));
      DecodeEncode(Msg(CON, GET, s.nextMid, s.pending[slot].value.token, options.value, []));
    }
  }

  // ------------------------------------------------------------------ at the server

  /** A request of at most one block that was sent reaches the handler of the resource that serves its normalised path,
      with its method, token and payload. */
  lemma RequestArrives(c: ClientState, server: Endpoint, path: seq<byte>, verb: byte, payload: seq<byte>, format: u16,
                       confirmable: bool, observe: bool, s: S.ServerState, from: Endpoint, idx: nat, h: S.Handler)
    requires Sized(c) && ((verb == PUT || verb == POST) ==> |payload| <= BlockSize(BLOCK_SZX))
    requires NulFree(path) && SegmentsFit(Segments(path)) && |Normalize(path)| < MAX_URI_PATH_LEN
    requires FindResource(s.resources, Normalize(path)) == idx && verb in {GET, POST, PUT, DELETE}
    requires verb in s.resources[idx].methods
    requires Issue(c, server, path, verb, payload, format, confirmable, observe, true).ok
    ensures var r := Issue(c, server, path, verb, payload, format, confirmable, observe, true);
            && |r.sent| == 1
            && var calls := S.Receive(s, from, r.sent[0].bytes, h).calls;
               && |calls| == 1 && calls[0].resource == idx && calls[0].request.verb == verb
               && calls[0].request.msg.payload == payload && calls[0].request.msg.token == [(1 + c.issued) % 0x100]
               && calls[0].request.remote == from
  {
    hide Issue, DecodeMsg, EncodeMsg, S.HandleRequest, S.RouteOf, S.IsUploadBlock, Segments, FindOption, JoinPath,
         CString, Normalize, FindResource, FindUint, Kept, Wanted, SegmentsFit, BlockSize;
    var r := Issue(c, server, path, verb, payload, format, confirmable, observe, true);
    IssueCarries(c, server, path, verb, payload, format, confirmable, observe, true);
    SentFits(c, server, path, verb, payload, format, confirmable, observe);
    var m := DecodeMsg(r.sent[0].bytes).msg;
    RoutedTo(s, m, path, idx);
    P.RequestPays(s, m, from, h);
    R.HandlerSees(s, m, from, h);
  }

  lemma SentFits(c: ClientState, server: Endpoint, path: seq<byte>, verb: byte, payload: seq<byte>, format: u16,
                 confirmable: bool, observe: bool)
    requires Sized(c) && ((verb == PUT || verb == POST) ==> |payload| <= BlockSize(BLOCK_SZX))
    ensures var r := Issue(c, server, path, verb, payload, format, confirmable, observe, true);
            r.ok ==> |r.sent| == 1 && |r.sent[0].bytes| <= MAX_MSG_SIZE
  {
    hide EncodeMsg, AfterStart, RequestOptions, BlockSize;
  }

  lemma RoutedTo(s: S.ServerState, m: Msg, path: seq<byte>, idx: nat)
    requires CString(JoinPath(m.options)) == Normalize(path) && |JoinPath(m.options)| < MAX_URI_PATH_LEN
    requires FindResource(s.resources, Normalize(path)) == idx && m.code in {GET, POST, PUT, DELETE}
    requires m.code in s.resources[idx].methods && FindOption(m.options, BLOCK1) == Nothing
    ensures S.RouteOf(s, m) == S.To(idx) && !S.IsUploadBlock(m) && IsMethodCode(m.code)
  {
    hide CString, JoinPath, Normalize, FindResource, FindOption;
  }
}
