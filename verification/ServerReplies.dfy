/** What the server's handlers see and what its answers say, read off the datagrams. */
module ServerReplies {
  import opened Types
  import opened Config
  import opened Codec
  import opened OptionValues
  import opened Reliability
  import opened Paths
  import opened ServerSpec
  import opened ServerProps
  import SP = SessionProps

  // ------------------------------------------------------------------ what a handler sees

  /** The captured parameters of a request: none for a plain entry, those of the template otherwise. */
  predicate ParamsAre(r: Resource, path: seq<byte>, params: seq<PathParam>) {
    if r.IsTemplate() then Matches(r.path, path) && params == Captures(Split(r.path), Split(path)) else params == []
  }

  /** A handler that is called sees the request itself: its method, message, remote and path parameters. */
  predicate SeesRequest(s: ServerState, m: Msg, from: Endpoint, calls: seq<Call>) {
    forall i :: 0 <= i < |calls| ==>
      var req := calls[i].request;
      && req.verb == m.code && req.msg == m && req.remote == from
      && RouteOf(s, m) == To(calls[i].resource) && calls[i].resource < |s.resources|
      && ParamsAre(s.resources[calls[i].resource], RequestPath(m), req.params)
  }

  predicate CallIs(calls: seq<Call>, idx: nat, m: Msg, from: Endpoint, params: seq<PathParam>) {
    forall i :: 0 <= i < |calls| ==>
      && calls[i].resource == idx && calls[i].request.verb == m.code && calls[i].request.msg == m
      && calls[i].request.remote == from && calls[i].request.params == params
  }

  lemma AcceptCalls(s: ServerState, i: nat, idx: nat, m: Msg, from: Endpoint, params: seq<PathParam>,
                    observe: Maybe<u32>, b: Block, h: Handler)
    requires i < |s.sessions| && s.sessions[i].Just?
    ensures CallIs(AcceptBlock(s, i, idx, m, from, params, observe, b, h).calls, idx, m, from, params)
  {
    hide Reply, Plain, Piggyback, AckDeferral, BlockOpt;
  }

  lemma BlockCalls(s: ServerState, idx: nat, m: Msg, from: Endpoint, params: seq<PathParam>, observe: Maybe<u32>,
                   value: seq<byte>, h: Handler)
    ensures CallIs(HandleBlock1(s, idx, m, from, params, observe, value, h).calls, idx, m, from, params)
  {
    hide Plain, AcceptBlock, ReadBlock;
    var b := ReadBlock(value);
    if b.Just? {
      var i, j := SessionSlot(s.sessions, KeyOf(from, m)), First(s.sessions, IsFree<Session>());
      if i >= 0 {
        AcceptCalls(s, i, idx, m, from, params, observe, b.value, h);
      } else if j >= 0 {
        AcceptCalls(s.(sessions := s.sessions[j := Just(Session(from, m.token, 0, []))]), j, idx, m, from, params,
                    observe, b.value, h);
      }
    }
  }

  lemma PlainCall(s: ServerState, idx: nat, m: Msg, from: Endpoint, params: seq<PathParam>, observe: Maybe<u32>,
                  h: Handler)
    ensures CallIs(HandlePlain(s, idx, m, from, params, observe, h).calls, idx, m, from, params)
  {
    hide Respond2, AckDeferral;
  }

  lemma HandlerSees(s: ServerState, m: Msg, from: Endpoint, h: Handler)
    ensures SeesRequest(s, m, from, HandleRequest(s, m, from, h).calls)
  {
    hide Plain, HandleBlock1, HandlePlain, ObserveStep, ObserveValue, FindOption, RouteOf, Matches, Captures, Split,
         RequestPath;
    match RouteOf(s, m)
    case Refused(code) =>
    case To(idx) =>
      var params := ParamsFor(s.resources[idx], RequestPath(m));
      var s1, observe := ObserveStep(s, idx, m, from), ObserveValue(s, idx, m);
      if IsUploadBlock(m) {
        BlockCalls(s1, idx, m, from, params, observe, FindOption(m.options, BLOCK1).value, h);
      } else {
        PlainCall(s1, idx, m, from, params, observe, h);
      }
      RoutedMatches(s, m, idx);
  }

  lemma RoutedMatches(s: ServerState, m: Msg, idx: nat)
    requires RouteOf(s, m) == To(idx)
    ensures idx < |s.resources|
    ensures ParamsAre(s.resources[idx], RequestPath(m), ParamsFor(s.resources[idx], RequestPath(m)))
  {
    hide Matches, Captures, Split, RequestPath;
  }

  // ------------------------------------------------------------------ what an answer says

  /** The sequence number a registering GET is told: none once it reads as a negative signed number. */
  function ToldSequence(s: ServerState, m: Msg): Maybe<nat> {
    if RouteOf(s, m).To? && m.code == GET && s.resources[RouteOf(s, m).idx].observable
       && FindUint(m.options, OBSERVE) == Just(0) && s.resources[RouteOf(s, m).idx].sequence < 0x8000_0000
    then Just(s.resources[RouteOf(s, m).idx].sequence) else Nothing
  }

  /** The handler's code, content format and sequence number, or the refusal of a block beyond the payload. */
  predicate Says(r: Msg, res: Response, sequence: Maybe<nat>) {
    || (r.code == BAD_REQUEST && r.options == [] && r.payload == [] && res.payload != [])
    || (r.code == res.code && FindUint(r.options, OBSERVE) == sequence
        && FindUint(r.options, CONTENT_FORMAT) == (if res.payload == [] then Nothing else Just(res.format)))
  }

  lemma ReplyOptions(observe: Maybe<u32>, format: u16, rest: seq<Opt>)
    requires forall i :: 0 <= i < |rest| ==> rest[i].number == BLOCK2
    ensures var os := ObserveOptions(observe) + [UintOpt(CONTENT_FORMAT, format)] + rest;
            && FindUint(os, OBSERVE) == (if observe.Just? then Just(observe.value) else Nothing)
            && FindUint(os, CONTENT_FORMAT) == Just(format)
    ensures FindUint(ObserveOptions(observe), OBSERVE) == (if observe.Just? then Just(observe.value) else Nothing)
    ensures FindUint(ObserveOptions(observe), CONTENT_FORMAT) == Nothing
  {
    hide UintBytes, FindUint;
    var os := ObserveOptions(observe) + [UintOpt(CONTENT_FORMAT, format)] + rest;
    if observe.Just? {
      FindsUint(os, 0, observe.value);
      FindsUint(os, 1, format);
      FindsUint(ObserveOptions(observe), 0, observe.value);
    } else {
      FindsNone(os, OBSERVE);
      FindsUint(os, 0, format);
      FindsNone(ObserveOptions(observe), OBSERVE);
    }
    FindsNone(ObserveOptions(observe), CONTENT_FORMAT);
  }

  lemma ContentSays(m: Msg, res: Response, observe: Maybe<u32>, r: Msg)
    requires var c := AnswerContent(m, res, observe);
             r.code == c.code && r.options == c.options && r.payload == c.payload
    ensures Says(r, res, if observe.Just? then Just(observe.value) else Nothing)
  {
    hide UintBytes, BlockValue, FindUint, BlockSize, RequestedBlock2, IsUploadBlock, ObserveOptions;
    var b := if RequestedBlock2(m).Just? then RequestedBlock2(m).value else Block(0, false, BLOCK_SZX);
    var more := |res.payload| - b.num * BlockSize(b.szx) > BlockSize(b.szx);
    var tag := BlockOpt(BLOCK2, b.num, more, b.szx);
    ReplyOptions(observe, res.format, [tag]);
    ReplyOptions(observe, res.format, []);
    var os := ObserveOptions(observe);
    assert os + [UintOpt(CONTENT_FORMAT, res.format)] + [] == os + [UintOpt(CONTENT_FORMAT, res.format)];
    assert os + [UintOpt(CONTENT_FORMAT, res.format)] + [tag] == os + [UintOpt(CONTENT_FORMAT, res.format), tag];
    assert os + [] == os;
  }

  /** What the client reads off the datagram that answers an inline handler: the handler's code, its content format
      whenever there is a payload, and, for a registering GET, the resource's sequence number. */
  lemma AnswerSays(s: ServerState, m: Msg, from: Endpoint, h: Handler)
    requires var o := HandleRequest(s, m, from, h); o.calls != [] && o.state.deferred == s.deferred && o.sent != []
    ensures var o := HandleRequest(s, m, from, h);
            && DecodeMsg(o.sent[0].bytes).Decoded?
            && Says(DecodeMsg(o.sent[0].bytes).msg, h(o.calls[0].resource, o.calls[0].request), ToldSequence(s, m))
  {
    hide HandleRequest, DecodeMsg, EncodeMsg, AnswerContent, Says, RouteOf, FindUint, ObserveValue;
    ReplyDiscipline(s, m, from, h);
    RequestPays(s, m, from, h);
    var o := HandleRequest(s, m, from, h);
    SequenceTold(s, m);
    ContentSays(m, h(o.calls[0].resource, o.calls[0].request), ObserveValue(s, RouteOf(s, m).idx, m),
                DecodeMsg(o.sent[0].bytes).msg);
  }

  lemma SequenceTold(s: ServerState, m: Msg)
    requires RouteOf(s, m).To?
    ensures var v := ObserveValue(s, RouteOf(s, m).idx, m);
            ToldSequence(s, m) == if v.Just? then Just(v.value) else Nothing
  {
    hide RouteOf, FindOption, ReadUint;
  }

  // ------------------------------------------------------------------ what a separate response says

  /** `respond` sends at most one datagram: to the deferred request's remote, with its token, as CON exactly when the
      request was, with this code and payload, and the content format whenever there is a payload. It is silent exactly
      when that message is too long. */
  lemma RespondSays(s: ServerState, handle: nat, code: byte, payload: seq<byte>, format: u16)
    requires handle < |s.deferred| && s.deferred[handle].Just?
    ensures var d, o := s.deferred[handle].value, Respond(s, handle, code, payload, format);
            && |o.sent| <= 1 && o.state.deferred[handle].Nothing?
            && (o.sent != [] ==>
                  && o.sent[0].remote == d.remote && DecodeMsg(o.sent[0].bytes).Decoded?
                  && var r := DecodeMsg(o.sent[0].bytes).msg;
                     && r.token == d.token && r.code == code && r.payload == payload && r.mid == s.nextMid
                     && r.typ == (if d.wasConfirmable then CON else NON)
                     && FindUint(r.options, CONTENT_FORMAT) == (if payload == [] then Nothing else Just(format)))
            && (o.sent == [] <==> |EncodeMsg(SeparateResponse(d, s.nextMid, code, payload, format))| > MAX_MSG_SIZE)
  {
    hide EncodeMsg, DecodeMsg, AfterStart, FindUint, UintBytes;
    var r := SeparateResponse(s.deferred[handle].value, s.nextMid, code, payload, format);
    DecodeEncode(r);
    if payload != [] { FindsUint(r.options, 0, format); } else { FindsNone(r.options, CONTENT_FORMAT); }
  }

  // ------------------------------------------------------------------ what is served at all

  /** Only requests are served: a datagram that decodes to a CON or NON with a method code is handled as such, and
      anything else sends nothing and calls nobody. A poll never looks beyond MAX_MSG_SIZE bytes of it. */
  lemma OnlyRequestsServed(s: ServerState, from: Endpoint, bytes: seq<byte>, h: Handler)
    ensures var o := Receive(s, from, bytes, h);
            var d := DecodeMsg(if |bytes| <= MAX_MSG_SIZE then bytes else bytes[..MAX_MSG_SIZE]);
            if d.Decoded? && (d.msg.typ.CON? || d.msg.typ.NON?) && 1 <= d.msg.code <= 31 then
              o == HandleRequest(s, d.msg, from, h)
            else
              && o.sent == [] && o.calls == []
              && o.state == s.(observers := o.state.observers, pool := o.state.pool)
              && (!(d.Decoded? && d.msg.typ.ACK?) ==> o.state.pool == s.pool)
              && (!(d.Decoded? && d.msg.typ.RST?) ==> o.state.observers == s.observers)
  {
    hide HandleRequest, DecodeMsg, AfterComplete;
  }

  /** The tables keep their configured sizes. */
  predicate TablesSized(s: ServerState) {
    && |s.observers| == MAX_OBSERVERS && |s.deferred| == MAX_DEFERRED && |s.sessions| == MAX_BLOCK1_SESSIONS
    && |s.pool| == MAX_TRANSACTIONS && |s.resources| <= MAX_RESOURCES
  }

  lemma {:induction false} NotifySized(s: ServerState, k: nat, idx: nat, payload: seq<byte>, format: u16,
                                       confirmable: bool)
    requires k <= |s.observers| && idx < |s.resources|
    ensures var t := NotifyUpTo(s, k, idx, payload, format, confirmable).state;
            t == s.(observers := t.observers, pool := t.pool, nextMid := t.nextMid) && |t.pool| == |s.pool|
  {
    hide AfterStart, EncodeMsg, Notification, Transmit;
    if k > 0 { NotifySized(s, k - 1, idx, payload, format, confirmable); }
  }

  lemma AcceptSized(s: ServerState, i: nat, idx: nat, m: Msg, from: Endpoint, params: seq<PathParam>,
                    observe: Maybe<u32>, b: Block, h: Handler)
    requires i < |s.sessions| && s.sessions[i].Just?
    ensures |AcceptBlock(s, i, idx, m, from, params, observe, b, h).state.sessions| == |s.sessions|
  {
    hide Reply, Plain, Piggyback, AckDeferral, BlockOpt;
  }

  lemma BlockSized(s: ServerState, idx: nat, m: Msg, from: Endpoint, params: seq<PathParam>, observe: Maybe<u32>,
                   value: seq<byte>, h: Handler)
    ensures |HandleBlock1(s, idx, m, from, params, observe, value, h).state.sessions| == |s.sessions|
  {
    hide Plain, AcceptBlock, ReadBlock;
    var b := ReadBlock(value);
    if b.Just? {
      var i, j := SessionSlot(s.sessions, KeyOf(from, m)), First(s.sessions, IsFree<Session>());
      if i >= 0 {
        AcceptSized(s, i, idx, m, from, params, observe, b.value, h);
      } else if j >= 0 {
        AcceptSized(s.(sessions := s.sessions[j := Just(Session(from, m.token, 0, []))]), j, idx, m, from, params,
                    observe, b.value, h);
      }
    }
  }

  lemma RequestSized(s: ServerState, m: Msg, from: Endpoint, h: Handler)
    requires TablesSized(s)
    ensures TablesSized(HandleRequest(s, m, from, h).state)
  {
    hide Plain, HandleBlock1, HandlePlain, ObserveStep, ObserveValue, ParamsFor, FindOption, RouteOf;
    match RouteOf(s, m)
    case Refused(code) =>
    case To(idx) =>
      var params := ParamsFor(s.resources[idx], RequestPath(m));
      var s1, observe := ObserveStep(s, idx, m, from), ObserveValue(s, idx, m);
      if IsUploadBlock(m) {
        BlockSized(s1, idx, m, from, params, observe, FindOption(m.options, BLOCK1).value, h);
      } else {
        SP.PlainKeeps(s1, idx, m, from, params, observe, h);
      }
  }

  lemma StepSized(s: ServerState, op: ServerOp)
    requires TablesSized(s)
    ensures TablesSized(ServerStep(s, op).state)
  {
    hide HandleRequest, DecodeMsg, Received, AfterComplete, AfterStart, AfterTick, NotifyUpTo, FindResource, EncodeMsg,
         RemoveExpired, Firings, Resends, SeparateResponse;
    match op
    case OpReceive(from, bytes, h) =>
      if DecodeMsg(Received(bytes)).Decoded? { RequestSized(s, DecodeMsg(Received(bytes)).msg, from, h); }
    case OpNotify(path, payload, format, confirmable) =>
      if CanNotify(s, path) {
        var idx := FindResource(s.resources, path);
        NotifySized(BumpSequence(s, idx), |s.observers|, idx, payload, format, confirmable);
      }
    case _ =>
  }

  lemma {:induction false} TablesAlwaysSized(ops: seq<ServerOp>)
    ensures TablesSized(RunServer(ops))
  {
    hide ServerStep;
    if ops != [] {
      TablesAlwaysSized(ops[..|ops| - 1]);
      StepSized(RunServer(ops[..|ops| - 1]), ops[|ops| - 1]);
    }
  }

  // ------------------------------------------------------------------ registration of resources

  /** A resource added while there is room serves its path, with its methods, if no earlier entry has the path. */
  lemma AddedIsFound(s: ServerState, path: seq<byte>, methods: set<byte>, observable: bool)
    requires |s.resources| < MAX_RESOURCES
    requires forall j :: 0 <= j < |path| - 1 ==> !(path[j] == SLASH && path[j + 1] == COLON)
    requires forall i :: 0 <= i < |s.resources| ==> s.resources[i].path != path
    ensures var rs := AddResource(s, path, methods, observable).resources;
            var i := FindResource(rs, path);
            && 0 <= i < |rs| && rs[i].path == path && rs[i].methods == methods && rs[i].observable == observable
            && forall j :: 0 <= j < |s.resources| ==> rs[j] == s.resources[j]
  {
    hide FindResource, TemplateAt;
    var rs := AddResource(s, path, methods, observable).resources;
    assert ExactAt(rs, path, |rs| - 1);
    ResourceFound(rs, path);
  }
}
