/** When downloads are safe: exactly when the follow-up requests can name the path of the first one. */
module Block2Limits {
  import opened Types
  import opened Config
  import opened Codec
  import opened OptionValues
  import opened Reliability
  import opened Paths
  import opened Sizes
  import opened S = ServerSpec
  import C = ClientSpec
  import CP = ClientProps
  import T = Traffic
  import opened Block2Safety
  import opened Block2System
  import M = Completion
  import opened DownloadCompletion

  // ------------------------------------------------------------------ the exact condition

  function Launch(y: System, d: Download, server: Endpoint, confirmable: bool, link: bool): (r: C.Result)
    requires C.Sized(y.client)
    ensures C.Sized(r.state)
  {
    C.SendRequest(y.client, server, d.path, GET, [], 0, confirmable, Nothing, false, link)
  }

  function Launched(y: System, d: Download, server: Endpoint, confirmable: bool, link: bool): (z: System)
    requires C.Sized(y.client)
    ensures C.Sized(z.client)
  {
    var r := Launch(y, d, server, confirmable, link);
    y.(client := r.state, up := y.up + T.Bytes(r.sent))
  }

  /** A one-shot GET on its way from a client in good order, under a token nobody uses, to a server in this state. */
  ghost predicate GetSent(d: Download, s: ServerState, y: System, server: Endpoint, confirmable: bool, link: bool) {
    && y.server == s && C.Sized(y.client) && CP.SerialsOk(y.client) && d.serial == y.client.issued && TokenUnused(d, y)
    && y.events == []
    && Launch(y, d, server, confirmable, link).ok
  }

  /** No run of such a GET ends in a wrong callback. */
  ghost predicate AlwaysRight(d: Download, s: ServerState) {
    forall y, server, confirmable, link, acts ::
      GetSent(d, s, y, server, confirmable, link) && AllAllowed(d, Launched(y, d, server, confirmable, link), acts)
      ==> EventsOk(d, After(d, Launched(y, d, server, confirmable, link), acts).events)
  }

  lemma StorableIsRight(d: Download, s: ServerState)
    requires ServerOk(d, s) && Downloadable(d)
    ensures AlwaysRight(d, s)
  {
    hide ServerOk, Downloadable, TokenUnused, CP.SerialsOk, Launch, AllAllowed, After, EventsOk, Safe, C.SendRequest;
    forall y, server, confirmable, link, acts |
      GetSent(d, s, y, server, confirmable, link) && AllAllowed(d, Launched(y, d, server, confirmable, link), acts)
      ensures EventsOk(d, After(d, Launched(y, d, server, confirmable, link), acts).events)
    {
      StartIsSafe(d, y, server, confirmable, link);
      var _ := DownloadIsSafe(d, Launched(y, d, server, confirmable, link), acts, 0);
    }
  }

  lemma StartIsSafe(d: Download, y: System, server: Endpoint, confirmable: bool, link: bool)
    requires ServerOk(d, y.server) && Downloadable(d) && GetSent(d, y.server, y, server, confirmable, link)
    ensures Safe(d, Launched(y, d, server, confirmable, link), 0)
  {
    hide ServerOk, Downloadable, TokenUnused, CP.SerialsOk, Safe, C.SendRequest;
    DownloadStartsSafe(d, y, server, confirmable, link);
  }

  // ------------------------------------------------------------------ what a server reads of "/"

  /** The server does not read the path as "/", unless it has no segment. */
  predicate ReadElsewhere(path: seq<byte>) {
    Segments(path) == [] || CString(M.Served(path)) != [SLASH]
  }

  /** So it is for every C string whose segments fit the 16-bit option length. */
  lemma ReadElsewhereIf(path: seq<byte>)
    requires NulFree(path) && SegmentsFit(Segments(path))
    ensures ReadElsewhere(path)
  {
    hide Segments, CString, JoinOptions, SlashJoin;
    CollapseIsSlashJoin(path);
    JoinUriOptions(Segments(path));
    ShortestJoin(Segments(path));
    NormalizeNulFree(path);
    if Segments(path) != [] { FirstSegment(path); }
  }

  lemma FirstSegment(path: seq<byte>)
    requires Segments(path) != []
    ensures |SlashJoin(Segments(path))| >= 2
  {
    hide Split;
    NonEmptyFirst(Split(path));
  }

  lemma {:induction false} NonEmptyFirst(segs: seq<seq<byte>>)
    ensures NonEmpty(segs) != [] ==> NonEmpty(segs)[0] != []
  {
    if segs != [] { NonEmptyFirst(segs[1..]); }
  }

  /** No template matches "/". */
  lemma OnlyRootMatches(tmpl: seq<byte>)
    requires Matches(tmpl, [SLASH])
    ensures tmpl == [SLASH]
  {
    hide Split, MatchSegments;
    var root: seq<byte> := [SLASH];
    assert root[0..] == root && root[1..] == [] == root[|root|..];
    SplitAtSlash(root, 0);
    SplitEnd(root);
    MatchMeans(Split(tmpl), Split(root));
    var ts := Split(tmpl);
    assert SegmentMatches(ts[0], []) && SegmentMatches(ts[1], []);
    assert ts == [[], []];
    JoinSplit(tmpl);
    JoinTwo();
  }

  lemma JoinTwo()
    ensures JoinSegments([[], []]) == [SLASH]
  {
    var two: seq<seq<byte>> := [[], []];
    assert two[1..] == [[]];
  }

  /** The download that follow-up requests without a path amount to. */
  function Root(d: Download, route: Route, body: seq<byte>): Download {
    Download(d.addr, d.serial, [], route, body)
  }

  /** How the server routes "/". */
  function RootRoute(rs: seq<Resource>): Route {
    RouteBy(rs, Msg(CON, GET, 0, [], [], []))
  }

  lemma RootRouted(d: Download, route: Route, body: seq<byte>, rs: seq<Resource>)
    ensures RouteFor(Root(d, route, body), rs) == RootRoute(rs)
  {
    hide Segments;
    NoSegmentsOfEmpty();
    assert UriOptions(Segments([])) == [];
  }

  lemma RootElsewhere(d: Download, rs: seq<Resource>)
    requires d.route.To? && RouteFor(d, rs) == d.route && Segments(d.path) != [] && ReadElsewhere(d.path)
    ensures RootRoute(rs) != d.route
  {
    hide Segments, Matches, JoinOptions, CString;
    var p := CString(M.Served(d.path));
    RootReads();
    if RootRoute(rs) == d.route {
      var r := rs[d.route.idx];
      if Matches(r.path, [SLASH]) { OnlyRootMatches(r.path); }
    }
  }

  lemma RootReads()
    ensures JoinPath([]) == [SLASH] && CString([SLASH]) == [SLASH]
  {
    var root: seq<byte> := [SLASH];
    assert root[1..] == [];
  }

  // ------------------------------------------------------------------ a run with a wrong callback

  lemma Extend(d: Download, y: System, acts: seq<Action>, a: Action)
    requires C.Sized(y.client) && AllAllowed(d, y, acts) && Allowed(d, After(d, y, acts), a)
    ensures AllAllowed(d, y, acts + [a]) && After(d, y, acts + [a]) == Next(d, After(d, y, acts), a)
  {
    hide Next, Allowed;
    assert (acts + [a])[..|acts|] == acts;
  }

  /** A handler with two constant resources. */
  function TwoResources(d: Download, other: seq<byte>): Handler {
    (idx: nat, req: Request) => Response(CONTENT, 0, if idx == d.Resource() then d.body else other, false)
  }

  lemma HandlerServes(d: Download, q: Download, other: seq<byte>)
    requires MAX_MSG_SIZE >= SIZE + 18
    requires q.route.To? ==> q.body == if q.Resource() == d.Resource() then d.body else other
    ensures Serves(q, TwoResources(d, other))
  {
    hide AnswerFitsAt, BlockSize;
    var h := TwoResources(d, other);
    forall req: Request, k: nat ensures AnswerFitsAt(q, k, h(q.Resource(), req)) {
      RoomForDownload(q, k, h(q.Resource(), req));
    }
  }

  /** What the other resource holds so that it shows. */
  function Different(d: Download): (other: seq<byte>)
    requires SIZE < |d.body|
    ensures |other| == SIZE + 1 && other[SIZE] != d.body[SIZE]
  {
    var b: byte := (d.body[SIZE] as int + 1) % 0x100;
    seq(SIZE + 1, (i: nat) => b)
  }

  lemma RoutedAsSaid(q: Download, s: ServerState)
    requires RouteFor(q, s.resources) == q.route && q.route.To?
    ensures M.Routed(s, q.path, GET, q.Resource())
  {
    hide JoinOptions, CString, FindResource, Segments;
  }

  /** The first answer. */
  lemma FirstAnswered(s: ServerState, d: Download, mid: u16, from: Endpoint, h: Handler) returns (res: Response)
    requires d.route.To? && Serves(d, h) && |d.body| > 0 && RouteFor(d, s.resources) == d.route
    ensures res.code != EMPTY && !IsMethodCode(res.code) && ValidMsg(Answer(d, 0, mid, res))
    ensures C.Fits(Answer(d, 0, mid, res))
    ensures HandleRequest(s, Ask(d, 0, mid), from, h).sent == [Datagram(from, EncodeMsg(Answer(d, 0, mid, res)))]
  {
    hide HandleRequest, EncodeMsg, Ask, Answer, Serves, RouteFor, M.Routed, AnswerFitsAt, BlockSize;
    SmallBody(d, 0);
    RoutedAsSaid(d, s);
    res := ServerAnswers(s, d, 0, mid, from, h);
    AnswerFits(d, 0, mid, res);
  }

  /** The answer to the follow-up: block 1 of what "/" names, or the refusal. */
  predicate RootAnswer(q: Download, mid: u16, m: Msg)
    requires |q.body| == SIZE + 1
  {
    && ValidMsg(m) && C.Fits(m) && m.typ == ACK && m.mid == mid && m.token == C.TokenOf(q.serial) && m.code != EMPTY
    && !IsMethodCode(m.code)
    && if q.route.To? then C.Block2Of(m) == Just(Block(1, false, BLOCK_SZX)) && m.payload == [q.body[SIZE]]
       else C.Block2Of(m) == Nothing && m.payload == []
  }

  lemma RootAnswered(s: ServerState, q: Download, mid: u16, from: Endpoint, h: Handler) returns (m: Msg)
    requires |q.body| == SIZE + 1 && RouteFor(q, s.resources) == q.route && Serves(q, h) && MAX_MSG_SIZE >= SIZE + 18
    ensures RootAnswer(q, mid, m) && HandleRequest(s, Ask(q, 1, mid), from, h).sent == [Datagram(from, EncodeMsg(m))]
  {
    hide HandleRequest, EncodeMsg, Ask, Answer, Serves, RouteFor, M.Routed, AnswerFitsAt, BlockSize, C.Block2Of,
         C.TokenOf, S.Slice;
    assert 1 * SIZE == SIZE;
    if q.route.To? {
      RoutedAsSaid(q, s);
      var res := ServerAnswers(s, q, 1, mid, from, h);
      AnswerFits(q, 1, mid, res);
      AnswerReads(q, 1, mid, res);
      AnswerHeader(q, 1, mid, res);
      m := Answer(q, 1, mid, res);
      LastSlice(q);
    } else {
      m := Msg(ACK, q.route.code, mid, C.TokenOf(q.serial), [], []);
      RootRefused(s, q, mid, from, h);
    }
  }

  lemma LastSlice(q: Download)
    requires |q.body| == SIZE + 1
    ensures S.Slice(q.body, SIZE, SIZE) == [q.body[SIZE]]
  {
    hide BlockSize;
    assert BLOCK_SZX >= 0 && SIZE >= 1;
    assert q.body[SIZE..] == [q.body[SIZE]];
  }

  lemma RootRefused(s: ServerState, q: Download, mid: u16, from: Endpoint, h: Handler)
    requires 1 * SIZE < |q.body| && RouteFor(q, s.resources) == q.route && q.route.Refused? && MAX_MSG_SIZE >= SIZE + 18
    ensures var m := Msg(ACK, q.route.code, mid, C.TokenOf(q.serial), [], []);
            && m.code != EMPTY && !IsMethodCode(m.code) && ValidMsg(m) && C.Fits(m) && C.Block2Of(m) == Nothing
            && HandleRequest(s, Ask(q, 1, mid), from, h).sent == [Datagram(from, EncodeMsg(m))]
  {
    hide RouteOf, RouteFor, Ask, EncodeMsg, EncodeOptions, BlockSize, C.Block2Of, C.TokenOf, Dispatch, IsRequest;
    var m := Msg(ACK, q.route.code, mid, C.TokenOf(q.serial), [], []);
    AskHeader(q, 1, mid);
    AskIsRequest(q, 1, mid);
    SameRoute(q, s, Ask(q, 1, mid), 1, Just(1));
    RefusalCodes(q, s.resources);
    NoBlock2(m);
    OneToken(q.serial);
    MessageSize(m);
    NoOptionsLength();
    assert PiggybackOptions([], 0, Nothing) == [];
  }

  lemma RefusalCodes(q: Download, rs: seq<Resource>)
    ensures RouteFor(q, rs).Refused? ==> RouteFor(q, rs).code != EMPTY && !IsMethodCode(RouteFor(q, rs).code)
  {
    hide Segments, JoinOptions, FindResource, CString;
  }

  /** The client takes a block that is not the last: it asks for the next one under the path it stored. */
  lemma ClientAsksOn(d: Download, c: C.ClientState, slot: nat, server: Endpoint, mid: u16, now: u32, q: Download,
                     res: Response)
    requires M.Waiting(c, slot, d.serial, server, mid) && c.uploads[slot].Nothing? && !c.recvs[slot].active
    requires c.recvs[slot].path == []
    requires q.path == [] && q.serial == d.serial && d.route.To? && SIZE < |d.body| && SIZE < BLOCK2_MAX_BODY
    requires res.code != EMPTY && !IsMethodCode(res.code) && ValidMsg(Answer(d, 0, mid, res))
    requires C.Fits(Answer(d, 0, mid, res))
    requires ValidMsg(Ask(q, 1, c.nextMid)) && C.Fits(Ask(q, 1, c.nextMid))
    ensures var r := C.Poll(c, now, Just(Datagram(server, EncodeMsg(Answer(d, 0, mid, res)))), true);
            && r.sent == [Datagram(server, EncodeMsg(Ask(q, 1, c.nextMid)))] && r.events == []
            && M.Waiting(r.state, slot, d.serial, server, c.nextMid) && HasFirst(r.state, slot, d)
  {
    hide EncodeMsg, C.Poll, C.ExpireDiscovers, C.TokenOf, AfterComplete, C.Block2Of, C.FormatOf, Answer, C.Accumulate,
         Ask, C.SendBlock2, BlockSize, M.ClearedBy, M.NothingDue, IsAnswer;
    var m := Answer(d, 0, mid, res);
    var a := M.Acked(c, now, server, mid);
    AnswerReads(d, 0, mid, res);
    AnswerHeader(d, 0, mid, res);
    FirstBlockTaken(d, c.recvs[slot], server, mid, res);
    var recv := C.Accumulate(c.recvs[slot], server, m, Block(0, true, BLOCK_SZX));
    var s1 := a.(recvs := a.recvs[slot := recv]);
    assert a.uploads[slot := Nothing] == a.uploads;
    AckedIsIdle(c, now, server, mid);
    AsksRoot(s1, slot, q, server);
    M.PollTakesResponse(c, slot, d.serial, server, mid, now, m);
    M.StillWaiting(c, C.SendBlock2(s1, slot, true).state, now, slot, d.serial, server, c.nextMid);
  }

  /** The slot has the first block and no upload. */
  predicate HasFirst(c: C.ClientState, slot: nat, d: Download)
    requires C.Sized(c) && slot < |c.recvs| && SIZE < |d.body|
  {
    c.uploads[slot].Nothing? && c.recvs[slot].active && c.recvs[slot].nextNum == 1
        && c.recvs[slot].body == d.body[..SIZE]
  }

  lemma FirstBlockTaken(d: Download, r: C.Recv, server: Endpoint, mid: u16, res: Response)
    requires d.route.To? && !r.active && SIZE < |d.body| && SIZE < BLOCK2_MAX_BODY
    ensures var t := C.Accumulate(r, server, Answer(d, 0, mid, res), Block(0, true, BLOCK_SZX));
            t.active && t.nextNum == 1 && t.szx == BLOCK_SZX && t.body == d.body[..SIZE] && t.server == server
                && t.path == r.path
  {
    hide C.FormatOf, S.Block2Options, BlockSize;
    SmallBody(d, 0);
    assert d.body[0..SIZE] == d.body[..SIZE] && [] + d.body[..SIZE] == d.body[..SIZE];
  }

  lemma AsksRoot(c: C.ClientState, slot: nat, q: Download, server: Endpoint)
    requires C.Sized(c) && slot < |c.pending| && c.pending[slot].Just?
    requires c.pending[slot].value.token == C.TokenOf(q.serial) && M.Idle(c.pool)
    requires c.recvs[slot].path == [] && c.recvs[slot].nextNum == 1 && c.recvs[slot].szx == BLOCK_SZX
    requires c.recvs[slot].server == server
    requires q.path == [] && ValidMsg(Ask(q, 1, c.nextMid)) && C.Fits(Ask(q, 1, c.nextMid))
    ensures var r := C.SendBlock2(c, slot, true);
            && r == C.Result(r.state, [Datagram(server, EncodeMsg(Ask(q, 1, c.nextMid)))], [], true)
            && M.NothingDue(r.state.pool, c.now) && M.ClearedBy(r.state.pool, server.Addr(), c.nextMid)
  {
    hide Segments, UintBytes, BlockValue, EncodeMsg, BlockSize, C.TokenOf, UriOptions, M.ClearedBy, M.NothingDue,
         AfterStart;
    NoSegmentsOfEmpty();
    FollowUpOptions([], 1);
    M.TrackFromIdle(C.BumpMid(c), c.pending[slot].value.serial, server, c.nextMid, C.TokenOf(q.serial),
                    EncodeMsg(Ask(q, 1, c.nextMid)));
  }

  /** What the application is told: the first block with a byte of the other resource, or nothing under the refusal's
      code. */
  predicate WrongReport(d: Download, q: Download, events: seq<C.Event>)
    requires SIZE < |d.body| && |q.body| == SIZE + 1
  {
    && |events| == 1 && events[0].Answered? && events[0].serial == d.serial
    && events[0].payload == if q.route.To? then d.body[..SIZE] + [q.body[SIZE]] else []
  }

  lemma ClientReports(d: Download, c: C.ClientState, slot: nat, server: Endpoint, mid: u16, now: u32, q: Download,
                      m: Msg)
    requires M.Waiting(c, slot, d.serial, server, mid) && q.serial == d.serial && SIZE < |d.body|
    requires HasFirst(c, slot, d)
    requires SIZE < BLOCK2_MAX_BODY && |q.body| == SIZE + 1 && RootAnswer(q, mid, m)
    ensures var r := C.Poll(c, now, Just(Datagram(server, EncodeMsg(m))), true);
            WrongReport(d, q, r.events) && r.sent == []
  {
    hide EncodeMsg, C.Poll, C.ExpireDiscovers, C.TokenOf, AfterComplete, C.Block2Of, C.FormatOf, BlockSize, M.ClearedBy;
    var a := M.Acked(c, now, server, mid);
    assert a.uploads[slot := Nothing] == a.uploads;
    M.IdleAfterAck(a.pool, c.pool, server.Addr(), mid, now);
    M.PollTakesResponse(c, slot, d.serial, server, mid, now, m);
  }

  lemma WrongPayload(d: Download, q: Download, events: seq<C.Event>)
    requires SIZE < |d.body| && SIZE < BLOCK2_MAX_BODY && d.route.To? && q.body == Different(d)
    requires WrongReport(d, q, events)
    ensures events[0].payload != d.body && !EventsOk(d, events)
  {
    hide BlockSize, Different;
    var p := events[0].payload;
    assert |Delivered(d)| > SIZE && Delivered(d)[SIZE] == d.body[SIZE];
    if q.route.To? { assert p[SIZE] == Different(d)[SIZE]; }
    assert !CallbackOk(d, events[0].code, p);
  }

  /** The server answers with this message, which then is on the wire. */
  lemma ServerTurn(d: Download, y: System, m: Msg, from: Endpoint, h: Handler, r: Msg)
    requires C.Sized(y.client) && ConstantHandler(d, h) && from.Addr() == d.addr && ValidMsg(r)
    requires ValidMsg(m) && C.Fits(m) && EncodeMsg(m) in y.up && m.typ == CON && m.code == GET
    requires HandleRequest(y.server, m, from, h).sent == [Datagram(from, EncodeMsg(r))]
    ensures var a := ServerActs(OpReceive(from, EncodeMsg(m), h));
            var z := Next(d, y, a);
            && Allowed(d, y, a) && z.client == y.client && z.events == y.events && z.up == y.up
            && z.server.resources == y.server.resources
            && EncodeMsg(r) in z.down
  {
    hide HandleRequest, EncodeMsg, DecodeMsg, ConstantHandler, AfterComplete, RouteFor;
    DecodeEncode(m);
    var o := HandleRequest(y.server, m, from, h);
    assert ServerStep(y.server, OpReceive(from, EncodeMsg(m), h)) == o;
    assert o.sent[0].remote.Addr() == d.addr;
  }

  /** A poll that takes something the server sent. */
  lemma ClientTurn(d: Download, y: System, incoming: Datagram)
    requires C.Sized(y.client) && incoming.bytes in y.down
    ensures var a := ClientActs(C.OpPoll(y.client.now, Just(incoming), true));
            var r := C.Poll(y.client, y.client.now, Just(incoming), true);
            var z := Next(d, y, a);
            && Allowed(d, y, a) && z.client == r.state && z.server == y.server && z.events == y.events + r.events
            && (forall e :: e in r.sent ==> e.bytes in z.up)
  {
    hide C.Poll, C.TokenOf, ForeignTo;
  }

  lemma FourSteps(d: Download, y: System, a1: Action, a2: Action, a3: Action, a4: Action) returns (acts: seq<Action>)
    requires C.Sized(y.client) && Allowed(d, y, a1)
    requires var y1 := Next(d, y, a1);
             Allowed(d, y1, a2) && var y2 := Next(d, y1, a2); Allowed(d, y2, a3) && Allowed(d, Next(d, y2, a3), a4)
    ensures AllAllowed(d, y, acts) && After(d, y, acts) == Next(d, Next(d, Next(d, Next(d, y, a1), a2), a3), a4)
  {
    hide Next, Allowed;
    Extend(d, y, [], a1);
    Extend(d, y, [] + [a1], a2);
    Extend(d, y, [] + [a1] + [a2], a3);
    Extend(d, y, [] + [a1] + [a2] + [a3], a4);
    acts := [] + [a1] + [a2] + [a3] + [a4];
  }

  lemma RootAsk(q: Download, mid: u16)
    requires MAX_MSG_SIZE >= SIZE + 18 && q.path == []
    ensures ValidMsg(Ask(q, 1, mid)) && C.Fits(Ask(q, 1, mid))
  {
    hide UintBytes, BlockValue, EncodeMsg, EncodeOptions, Segments, UriOptions, Ask, BlockSize;
    NoSegmentsOfEmpty();
    AskLength(q, 1);
    RootPathSize();
    AskSameLength(q, 1, mid);
  }

  lemma RootPathSize()
    ensures |Segments([])| == 0 && ValidOptions(UriOptions(Segments([]))) && M.PathSize([]) == 0
  {
    hide Segments;
    NoSegmentsOfEmpty();
    assert UriOptions(Segments([])) == [];
  }

  /** The first request was sent, its slot is fresh, and follow-ups will not name the path. */
  predicate Begun(d: Download, s: ServerState, server: Endpoint, z: System) {
    && z.server == s && z.events == [] && ValidMsg(Ask(d, 0, 1)) && EncodeMsg(Ask(d, 0, 1)) in z.up
    && M.Waiting(z.client, 0, d.serial, server, 1) && z.client.uploads[0].Nothing? && !z.client.recvs[0].active
    && z.client.recvs[0].path == []
    && z.client.nextMid == 2
  }

  /** The failing run: the first block is the resource's, the follow-up asks "/" for block 1, and the client reports
      what that brings. */
  lemma WrongRun(d: Download, s: ServerState, server: Endpoint, from: Endpoint, z0: System)
    returns (acts: seq<Action>, z4: System)
    requires CanGet(d, s) && !Downloadable(d) && from.Addr() == d.addr && Begun(d, s, server, z0)
    ensures AllAllowed(d, z0, acts) && z4 == After(d, z0, acts) && !EventsOk(d, z4.events)
  {
    hide Next, Allowed, AllAllowed, After, EventsOk, Serves, ConstantHandler, RouteFor, Ask, Answer, M.Waiting,
         EncodeMsg, BlockSize, C.Poll, ServerOk, TwoResources, RootAnswer, HandleRequest, RootRoute, HasFirst,
         ReadElsewhere, WrongReport;
    var other := Different(d);
    var q, h := Root(d, RootRoute(s.resources), other), TwoResources(d, other);
    RootRouted(d, q.route, other, s.resources);
    NotDownloadable(d, s);
    HandlerServes(d, d, other);
    HandlerServes(d, q, other);
    OwnServes(d, h);
    RootAsk(q, 2);
    SizedSlot(z0.client, 0, d.serial, server, 1);
    AskHeader(d, 0, 1);
    AskHeader(q, 1, 2);
    var res := FirstAnswered(z0.server, d, 1, from, h);
    var r1 := Answer(d, 0, 1, res);
    ServerTurn(d, z0, Ask(d, 0, 1), from, h, r1);
    var a1 := ServerActs(OpReceive(from, EncodeMsg(Ask(d, 0, 1)), h));
    var z1 := Next(d, z0, a1);
    ClientAsksOn(d, z1.client, 0, server, 1, z1.client.now, q, res);
    var a2 := ClientActs(C.OpPoll(z1.client.now, Just(Datagram(server, EncodeMsg(r1))), true));
    ClientTurn(d, z1, Datagram(server, EncodeMsg(r1)));
    var z2 := Next(d, z1, a2);
    var r2 := RootAnswered(z2.server, q, 2, from, h);
    RootAnswerValid(q, 2, r2);
    ServerTurn(d, z2, Ask(q, 1, 2), from, h, r2);
    var a3 := ServerActs(OpReceive(from, EncodeMsg(Ask(q, 1, 2)), h));
    var z3 := Next(d, z2, a3);
    ClientReports(d, z3.client, 0, server, 2, z3.client.now, q, r2);
    var a4 := ClientActs(C.OpPoll(z3.client.now, Just(Datagram(server, EncodeMsg(r2))), true));
    ClientTurn(d, z3, Datagram(server, EncodeMsg(r2)));
    z4 := Next(d, z3, a4);
    acts := FourSteps(d, z0, a1, a2, a3, a4);
    assert z4.events == C.Poll(z3.client, z3.client.now, Just(Datagram(server, EncodeMsg(r2))), true).events;
    WrongPayload(d, q, z4.events);
  }

  lemma RootAnswerValid(q: Download, mid: u16, m: Msg)
    requires |q.body| == SIZE + 1 && RootAnswer(q, mid, m)
    ensures ValidMsg(m)
  {
  }

  lemma OwnServes(d: Download, h: Handler)
    requires Serves(d, h)
    ensures ConstantHandler(d, h)
  {
  }

  lemma SizedSlot(c: C.ClientState, slot: nat, n: nat, server: Endpoint, mid: u16)
    requires M.Waiting(c, slot, n, server, mid)
    ensures C.Sized(c)
  {
  }

  /** The case that fails: a routed path that cannot be stored, more than one block, and "/" is something else. */
  lemma NotDownloadable(d: Download, s: ServerState)
    requires CanGet(d, s) && !Downloadable(d)
    ensures d.route.To? && SIZE < |d.body| && |d.path| >= MAX_URI_PATH_LEN && C.StoredPath(d.path) == []
    ensures RouteFor(d, s.resources) == d.route && RootRoute(s.resources) != d.route
  {
    hide Segments, RouteFor, RootRoute, FirstFits, NoObserver, NoDeferred, PoolForeign;
    RootElsewhere(d, s.resources);
  }

  // ------------------------------------------------------------------ the theorem

  /** At this server a GET for the path can be sent, messages hold a block and 18 bytes, and the receive buffer more
      than a block. */
  predicate CanGet(d: Download, s: ServerState) {
    && ServerOk(d, s) && |Segments(d.path)| <= MAX_OPTIONS && FirstFits(d) && ReadElsewhere(d.path)
    && MAX_MSG_SIZE >= SIZE + 18 && SIZE < BLOCK2_MAX_BODY
  }

  predicate FirstFits(d: Download)
    requires |Segments(d.path)| <= MAX_OPTIONS
  {
    FirstValid(d);
    C.Fits(Ask(d, 0, 1))
  }

  lemma FirstValid(d: Download)
    requires |Segments(d.path)| <= MAX_OPTIONS
    ensures ValidMsg(Ask(d, 0, 1))
  {
    hide Segments;
  }

  /** A client that is about to issue the download's token. */
  function FreshClient(n: nat): (c: C.ClientState)
    ensures C.Sized(c)
  {
    C.InitialClient().(issued := n)
  }

  function FreshSystem(d: Download, s: ServerState): System {
    System(FreshClient(d.serial), s, {}, {}, [])
  }

  lemma FreshStart(d: Download, s: ServerState, server: Endpoint)
    requires |Segments(d.path)| <= MAX_OPTIONS && FirstFits(d) && |d.path| >= MAX_URI_PATH_LEN
    ensures GetSent(d, s, FreshSystem(d, s), server, true, true)
    ensures Begun(d, s, server, Launched(FreshSystem(d, s), d, server, true, true))
  {
    hide EncodeMsg, AfterStart, C.RequestOptions, C.TokenOf, Segments, Ask, C.TokenByte, M.ClearedBy, M.NothingDue,
         M.Idle;
    var c := FreshClient(d.serial);
    FirstIs(c.pending, IsFree<C.Pending>(), 0);
    FirstOptions(d);
    FirstValid(d);
    FirstAsk(d, 1);
    FreshOk(d.serial);
    FreshUnused(d, s);
    FreshIdle(d.serial);
    M.TrackFromIdle(C.BumpMid(c).(issued := d.serial + 1), d.serial, server, 1, C.TokenOf(d.serial),
                    EncodeMsg(Ask(d, 0, 1)));
    var r := C.SendRequest(c, server, d.path, GET, [], 0, true, Nothing, false, true);
    assert r.sent == [Datagram(server, EncodeMsg(Ask(d, 0, 1)))] && r.sent[0] in r.sent;
  }

  lemma FreshOk(n: nat)
    ensures CP.SerialsOk(FreshClient(n))
  {
    CP.InitialOk();
    CP.CountersOk(C.InitialClient(), FreshClient(n));
  }

  lemma FreshUnused(d: Download, s: ServerState)
    ensures TokenUnused(d, FreshSystem(d, s))
  {
  }

  lemma FreshIdle(n: nat)
    ensures M.Idle(FreshClient(n).pool)
  {
  }

  function EndpointOf(a: Address): (e: Endpoint)
    ensures e.Addr() == a
  {
    match a
    case V4(ip, port) => Endpoint(ip, [], false, port)
    case V6(v6, port) => Endpoint([], v6, true, port)
  }

  lemma LongPathIsWrong(d: Download, s: ServerState, from: Endpoint)
    requires CanGet(d, s) && !Downloadable(d) && from.Addr() == d.addr
    ensures !AlwaysRight(d, s)
  {
    hide CanGet, Next, Allowed, AllAllowed, After, EventsOk, GetSent, Launched, Downloadable, Begun;
    NotDownloadable(d, s);
    FirstSendable(d, s);
    FreshStart(d, s, from);
    var y0 := FreshSystem(d, s);
    var z0 := Launched(y0, d, from, true, true);
    var acts, y := WrongRun(d, s, from, from, z0);
    assert GetSent(d, s, y0, from, true, true);
    assert AllAllowed(d, Launched(y0, d, from, true, true), acts);
  }

  lemma FirstSendable(d: Download, s: ServerState)
    requires CanGet(d, s)
    ensures ServerOk(d, s) && |Segments(d.path)| <= MAX_OPTIONS && FirstFits(d)
  {
    hide ServerOk, FirstFits, Segments, ReadElsewhere;
  }

  /** Block2 safety, exactly: at every server, no run of the GET ends in a wrong callback if and only if the server
      refuses it, the resource fits one block, or the path can be stored for the follow-up requests (or has no
      segment). */
  lemma DownloadSafeExactly(d: Download, s: ServerState)
    requires CanGet(d, s)
    ensures AlwaysRight(d, s) <==> d.route.Refused? || |d.body| <= SIZE || Storable(d.path)
  {
    hide CanGet, ServerOk, AlwaysRight, Storable, FirstFits, Segments;
    FirstSendable(d, s);
    if Downloadable(d) { StorableIsRight(d, s); } else { LongPathIsWrong(d, s, EndpointOf(d.addr)); }
  }

  // ------------------------------------------------------------------ the failing family is not empty

  /** A path too long to store that reaches the server as "/a". */
  const LONG_A: seq<byte> := Slashes(MAX_URI_PATH_LEN) + [97]

  function Slashes(n: nat): (p: seq<byte>)
    ensures |p| == n
  {
    if n == 0 then [] else [SLASH] + Slashes(n - 1)
  }

  lemma {:induction false} SlashesSegments(n: nat)
    ensures Segments(Slashes(n) + [97]) == [[97]]
  {
    hide Segments;
    var p := Slashes(n) + [97];
    if n == 0 {
      assert p == [97] && p[0..] == p && p[0..1] == [97];
      SegEndIs(p, 0, 1);
      SegmentsAtSegment(p, 0, 1);
      SegmentsAtEnd(p);
    } else {
      SlashesSegments(n - 1);
      assert p[0..] == p && p[1..] == Slashes(n - 1) + [97];
      SegmentsAtSlash(p, 0);
    }
  }

  /** A fresh server with "/a" and nothing else. */
  function OnePath(): ServerState {
    AddResource(InitialServer(), [SLASH, 97], {GET}, false)
  }

  lemma OnePathRoute(d: Download)
    requires MAX_URI_PATH_LEN > 2 && Segments(d.path) == [[97]]
    ensures RouteFor(d, OnePath().resources) == To(0) && ReadElsewhere(d.path)
  {
    hide Segments, CString, Matches;
    var rs := OnePath().resources;
    assert rs == [Resource([SLASH, 97], {GET}, false, 0)];
    CStringOfNulFree([SLASH, 97]);
    NoColons();
    OneLetter();
    JoinOne();
    FirstIs(rs, HasExactPath([SLASH, 97]), 0);
  }

  lemma JoinOne()
    ensures JoinPath([Opt(URI_PATH, [97])]) == [SLASH, 97]
  {
    JoinCons(Opt(URI_PATH, [97]), []);
    assert [Opt(URI_PATH, [97])] + [] == [Opt(URI_PATH, [97])];
    assert JoinOption(Opt(URI_PATH, [97])) == [SLASH, 97];
  }

  lemma OneLetter()
    ensures UriOptions([[97]]) == [Opt(URI_PATH, [97])]
  {
    var seg: seq<byte> := [97];
    assert seg[..|seg|] == seg;
    assert SegmentOpt(seg) == Opt(URI_PATH, seg);
  }

  lemma NoColons()
    ensures !Resource([SLASH, 97], {GET}, false, 0).IsTemplate()
  {
  }

  lemma ShortFirst(d: Download)
    requires Segments(d.path) == [[97]] && MAX_MSG_SIZE >= 18
    ensures |Segments(d.path)| <= MAX_OPTIONS && FirstFits(d)
  {
    hide EncodeMsg, EncodeOptions, Segments;
    FirstValid(d);
    var o := Opt(URI_PATH, [97]);
    OneLetter();
    assert Ask(d, 0, 1).options == [] + [o];
    OneToken(d.serial);
    NoOptionsLength();
    ShortOne(o);
    MessageLength(Ask(d, 0, 1), [], [o]);
  }

  /** A failing input: a GET of "//.../a", longer than the path buffer, at a server with "/a". */
  lemma UnsafeDownload(addr: Address, serial: nat, body: seq<byte>)
    requires MAX_URI_PATH_LEN > 2 && MAX_MSG_SIZE >= SIZE + 18 && SIZE < |body| && SIZE < BLOCK2_MAX_BODY
    ensures var d := Download(addr, serial, LONG_A, To(0), body); CanGet(d, OnePath()) && !AlwaysRight(d, OnePath())
  {
    hide RouteFor, AlwaysRight, FirstFits, Segments, BlockSize, ReadElsewhere;
    var d := Download(addr, serial, LONG_A, To(0), body);
    SlashesSegments(MAX_URI_PATH_LEN);
    OnePathRoute(d);
    ShortFirst(d);
    DownloadSafeExactly(d, OnePath());
  }
}
