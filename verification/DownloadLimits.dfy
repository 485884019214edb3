/** When downloads finish over a link that loses nothing: exactly when the follow-up requests name the path, carry
    their label and fit. */
module DownloadLimits {
  import opened Types
  import opened Config
  import opened Codec
  import opened OptionValues
  import opened Reliability
  import opened Paths
  import opened Sizes
  import opened S = ServerSpec
  import opened C = ClientSpec
  import D = Block2Safety
  import Y = Block2System
  import L = Block2Limits
  import U = Block1Limits
  import opened Completion
  import opened DownloadCompletion

  // ------------------------------------------------------------------ a full option table: the same block for ever

  /** More than one block, at a path that fills the option table, so that follow-up requests lose their label. */
  predicate Unlabelled(d: D.Download) {
    d.route.To? && |d.body| > D.SIZE && D.Storable(d.path) && |Segments(d.path)| == MAX_OPTIONS
  }

  /** The request for the first block is in flight, and the client has at most that block. */
  ghost predicate Repeating(y: Link, d: D.Download, server: Endpoint, slot: nat) {
    && Sized(y.client) && slot < |y.client.pending|
    && Routed(y.server, d.path, GET, d.Resource()) && Idle(y.server.pool)
    && y.client.uploads[slot].Nothing?
    && (HasBlocks(y.client, slot, d, server, 0) || HasBlocks(y.client, slot, d, server, 1))
    && exists mid: u16 :: Waiting(y.client, slot, d.serial, server, mid) && InFlight(y, Ask(d, 0, mid), server)
  }

  lemma UnlabelledAsk(d: D.Download, path: seq<byte>, mid: u16)
    requires Unlabelled(d) && Segments(path) == Segments(d.path)
    ensures var os := C.Block2Options(path, 1, BLOCK_SZX);
            os.Just? && Ask(d, 0, mid) == Msg(CON, GET, mid, TokenOf(d.serial), os.value, [])
  {
    hide Segments, BlockSize;
    D.FollowUpOptions(path, 1);
    FirstAsk(d, mid);
    assert UriOptions(Segments(path)) + [] == UriOptions(Segments(path));
  }

  lemma AsksAgain(c: ClientState, slot: nat, d: D.Download, server: Endpoint)
    requires Unlabelled(d) && AskFitsAt(d, 0) && Sized(c) && slot < |c.pending| && c.pending[slot].Just? && Idle(c.pool)
    requires c.pending[slot].value.token == TokenOf(d.serial) && HasBlocks(c, slot, d, server, 1)
    ensures ValidMsg(Ask(d, 0, c.nextMid)) && Asked(c, server, Ask(d, 0, c.nextMid), SendBlock2(c, slot, true))
  {
    hide Segments, UintBytes, BlockValue, EncodeMsg, BlockSize, TokenOf, UriOptions, ClearedBy, NothingDue, AfterStart,
         D.RecvOk, AskFitsAt, Ask, C.Block2Options;
    MoreThanOne(d, c.recvs[slot]);
    UnlabelledAsk(d, c.recvs[slot].path, c.nextMid);
    AskSameLength(d, 0, c.nextMid);
    TrackFromIdle(BumpMid(c), c.pending[slot].value.serial, server, c.nextMid, TokenOf(d.serial),
                  EncodeMsg(Ask(d, 0, c.nextMid)));
  }

  lemma FirstBlockAgain(d: D.Download, c: ClientState, slot: nat, server: Endpoint, k: nat, m: Msg)
    requires Unlabelled(d) && k <= 1 && Sized(c) && slot < |c.recvs| && HasBlocks(c, slot, d, server, k)
    requires Block2Of(m) == Just(Block(0, true, BLOCK_SZX)) && D.IsAnswer(d, m, 0)
    ensures var t := Accumulate(c.recvs[slot], server, m, Block(0, true, BLOCK_SZX));
            t.active && t.server == server && t.nextNum == 1 && D.RecvOk(d, t) && t.path == c.recvs[slot].path
  {
    hide Block2Of, FormatOf, D.Delivered, StoredPath, Segments, BlockSize, D.Storable, Slice;
    D.StoredSegments(d.path);
    D.AccumulateOk(d, c.recvs[slot], server, m, Block(0, true, BLOCK_SZX));
  }

  lemma ClientAsksAgain(c: ClientState, d: D.Download, slot: nat, server: Endpoint, k: nat, mid: u16, now: u32,
                        res: Response)
    requires Unlabelled(d) && AskFitsAt(d, 0) && Waiting(c, slot, d.serial, server, mid) && c.uploads[slot].Nothing?
    requires k <= 1 && HasBlocks(c, slot, d, server, k) && res.code != EMPTY && !IsMethodCode(res.code)
    requires ValidMsg(Answer(d, 0, mid, res)) && Fits(Answer(d, 0, mid, res))
    ensures var r := Poll(c, now, Just(Datagram(server, EncodeMsg(Answer(d, 0, mid, res)))), true);
            && ValidMsg(Ask(d, 0, c.nextMid)) && r.sent == [Datagram(server, EncodeMsg(Ask(d, 0, c.nextMid)))]
            && r.events == []
            && Waiting(r.state, slot, d.serial, server, c.nextMid) && r.state.uploads[slot].Nothing?
            && HasBlocks(r.state, slot, d, server, 1)
  {
    hide EncodeMsg, Poll, ExpireDiscovers, TokenOf, AfterComplete, Block2Of, FormatOf, Answer, Accumulate, D.IsAnswer,
         Ask, D.RecvOk, SendBlock2, BlockSize, AskFitsAt, ClearedBy, NothingDue, StoredPath, Segments;
    var m := Answer(d, 0, mid, res);
    var a := Acked(c, now, server, mid);
    SmallBody(d, 0);
    AnswerReads(d, 0, mid, res);
    AnswerHeader(d, 0, mid, res);
    var b := Block(0, true, BLOCK_SZX);
    var recv := Accumulate(c.recvs[slot], server, m, b);
    FirstBlockAgain(d, c, slot, server, k, m);
    assert a.uploads[slot := Nothing] == a.uploads;
    AckedIsIdle(c, now, server, mid);
    var s1 := a.(recvs := a.recvs[slot := recv]);
    AsksAgain(s1, slot, d, server);
    PollTakesResponse(c, slot, d.serial, server, mid, now, m);
    StillWaiting(c, SendBlock2(s1, slot, true).state, now, slot, d.serial, server, c.nextMid);
  }

  lemma OneRepeat(y: Link, d: D.Download, server: Endpoint, from: Endpoint, slot: nat, now: u32, h: Handler)
    requires Unlabelled(d) && Serves(d, h) && Repeating(y, d, server, slot)
    ensures var z := Exchange(from, y, now, h);
            Repeating(z, d, server, slot) && z.events == y.events && |z.calls| == |y.calls| + 1
  {
    hide Routed, S.Receive, TickTo, Poll, EncodeMsg, TokenOf, Serves, ClearedBy, Ask, Answer, HasBlocks, BlockSize,
         AskFitsAt, AskValid, Fits, Idle, Segments;
    var mid: u16 :| Waiting(y.client, slot, d.serial, server, mid) && InFlight(y, Ask(d, 0, mid), server);
    SmallBody(d, 0);
    AskCount(d, 0, mid);
    AskSameLength(d, 0, mid);
    AskSameLength(d, 0, y.client.nextMid);
    var res := ServerGets(y, d, server, from, 0, mid, now, h);
    ClientAsksAgain(y.client, d, slot, server, if HasBlocks(y.client, slot, d, server, 0) then 0 else 1, mid, now, res);
    assert InFlight(Exchange(from, y, now, h), Ask(d, 0, y.client.nextMid), server);
  }

  /** A download of more than one block whose path fills the option table never ends: whatever the number of
      exchanges, the request for the first block is in flight again, the handler was called once for each, and nothing
      was reported. */
  lemma {:induction false} NeverFinishes(y: Link, d: D.Download, server: Endpoint, from: Endpoint, slot: nat,
                                         times: seq<u32>, h: Handler)
    requires Unlabelled(d) && Serves(d, h) && Downloading(y, d, server, slot, 0) && y.events == [] && y.calls == []
    ensures var z := Exchanges(from, y, times, h);
            Repeating(z, d, server, slot) && z.events == [] && |z.calls| == |times|
  {
    hide Unlabelled, Serves, Exchange, Routed, Waiting, InFlight, Idle, HasBlocks, Ask, BlockSize;
    if times != [] {
      var j := |times| - 1;
      NeverFinishes(y, d, server, from, slot, times[..j], h);
      OneRepeat(Exchanges(from, y, times[..j], h), d, server, from, slot, times[j], h);
    }
  }

  // ------------------------------------------------------------------ a path too long to store: the wrong end

  lemma RouteIs(s: ServerState, d: D.Download)
    requires d.route.To? && Routed(s, d.path, GET, d.Resource())
    ensures Y.RouteFor(d, s.resources) == d.route
  {
    hide Segments, Routed;
    var m := Msg(CON, GET, 0, [], UriOptions(Segments(d.path)), []);
    assert UriOptions(Segments(d.path)) + [] == UriOptions(Segments(d.path));
    RouteOfOptions(s, m, d.path, [], d.Resource());
  }

  /** The first block has arrived and the request for block 1 of "/" is in flight. */
  ghost predicate AskingRoot(z: Link, d: D.Download, q: D.Download, server: Endpoint, slot: nat, mid: u16)
    requires |d.body| > D.SIZE
  {
    && Idle(z.server.pool) && z.events == [] && Waiting(z.client, slot, d.serial, server, mid)
    && L.HasFirst(z.client, slot, d)
    && InFlight(z, Ask(q, 1, mid), server)
  }

  lemma FirstExchange(y: Link, d: D.Download, q: D.Download, server: Endpoint, from: Endpoint, slot: nat, now: u32,
                      h: Handler) returns (mid: u16)
    requires Fetchable(d) && |d.body| > D.SIZE && !D.Storable(d.path) && Serves(d, h)
    requires Downloading(y, d, server, slot, 0) && y.events == []
    requires q.path == [] && q.serial == d.serial && MAX_MSG_SIZE >= D.SIZE + 18
    ensures var z := Exchange(from, y, now, h);
            AskingRoot(z, d, q, server, slot, mid) && z.server.resources == y.server.resources
  {
    hide Routed, S.Receive, TickTo, Poll, EncodeMsg, TokenOf, Serves, ClearedBy, Ask, Answer, BlockSize, Fits, Idle,
         Segments, L.HasFirst, Waiting;
    var prev: u16 :| Waiting(y.client, slot, d.serial, server, prev) && InFlight(y, Ask(d, 0, prev), server);
    var res := ServerGets(y, d, server, from, 0, prev, now, h);
    mid := y.client.nextMid;
    L.RootAsk(q, mid);
    L.ClientAsksOn(d, y.client, slot, server, prev, now, q, res);
    assert InFlight(Exchange(from, y, now, h), Ask(q, 1, mid), server);
  }

  lemma SecondExchange(z: Link, d: D.Download, q: D.Download, server: Endpoint, from: Endpoint, slot: nat, mid: u16,
                       now: u32, h: Handler)
    requires Fetchable(d) && |d.body| > D.SIZE && AskingRoot(z, d, q, server, slot, mid) && Serves(q, h)
    requires q.serial == d.serial
    requires |q.body| == D.SIZE + 1 && Y.RouteFor(q, z.server.resources) == q.route && MAX_MSG_SIZE >= D.SIZE + 18
    ensures var t := Exchange(from, z, now, h);
            t.inFlight == [] && L.WrongReport(d, q, t.events)
  {
    hide Routed, S.Receive, HandleRequest, TickTo, Poll, EncodeMsg, TokenOf, Serves, ClearedBy, Ask, BlockSize, Fits,
         Idle, L.HasFirst, Waiting, L.RootAnswer, Y.RouteFor, L.WrongReport;
    AskHeader(q, 1, mid);
    ServerReceives(z, server, from, Ask(q, 1, mid), now, h);
    var m := L.RootAnswered(z.server.(now := now), q, mid, from, h);
    L.RootAnswerValid(q, mid, m);
    L.SizedSlot(z.client, slot, d.serial, server, mid);
    L.ClientReports(d, z.client, slot, server, mid, now, q, m);
    assert Exchange(from, z, now, h).events == Poll(z.client, now, Just(Datagram(server, EncodeMsg(m))), true).events;
  }

  /** Two exchanges end such a download with a payload that is not the resource. */
  lemma EndsWrong(y: Link, d: D.Download, server: Endpoint, from: Endpoint, slot: nat, t0: u32, t1: u32)
    requires Fetchable(d) && |d.body| > D.SIZE && !D.Storable(d.path) && L.ReadElsewhere(d.path)
    requires MAX_MSG_SIZE >= D.SIZE + 18
    requires Downloading(y, d, server, slot, 0) && y.events == []
    ensures var h := L.TwoResources(d, L.Different(d));
            var z := Exchange(from, Exchange(from, y, t0, h), t1, h);
            Serves(d, h) && z.inFlight == [] && |z.events| == 1 && z.events[0].Answered?
                && z.events[0].payload != d.body
  {
    hide Exchange, Serves, L.TwoResources, BlockSize, Segments, L.ReadElsewhere, Y.RouteFor, L.RootRoute, AskingRoot,
         Downloading, D.CallbackOk;
    var h, rs := L.TwoResources(d, L.Different(d)), y.server.resources;
    var q := L.Root(d, L.RootRoute(rs), L.Different(d));
    ServedPath(y, d, server, slot);
    L.RootElsewhere(d, rs);
    L.RootRouted(d, q.route, q.body, rs);
    L.HandlerServes(d, d, L.Different(d));
    L.HandlerServes(d, q, L.Different(d));
    var mid := FirstExchange(y, d, q, server, from, slot, t0, h);
    SecondExchange(Exchange(from, y, t0, h), d, q, server, from, slot, mid, t1, h);
    L.WrongPayload(d, q, Exchange(from, Exchange(from, y, t0, h), t1, h).events);
  }

  lemma ServedPath(y: Link, d: D.Download, server: Endpoint, slot: nat)
    requires d.route.To? && Downloading(y, d, server, slot, 0)
    ensures Sized(y.client) && Y.RouteFor(d, y.server.resources) == d.route
  {
    hide Routed, Waiting, InFlight, HasBlocks, Idle, Y.RouteFor, BlockSize;
    RouteIs(y.server, d);
  }

  /** Once nothing is in flight, nothing happens any more. */
  lemma {:induction false} StaysDone(y: Link, from: Endpoint, times: seq<u32>, j: nat, h: Handler)
    requires Sized(y.client) && j <= |times| && Exchanges(from, y, times[..j], h).inFlight == []
    ensures Exchanges(from, y, times, h) == Exchanges(from, y, times[..j], h)
    decreases |times|
  {
    hide Exchange;
    if j == |times| {
      assert times[..j] == times;
    } else {
      var n := |times| - 1;
      assert times[..n][..j] == times[..j];
      StaysDone(y, from, times[..n], j, h);
      NothingInFlight(Exchanges(from, y, times[..n], h), from, times[n], h);
    }
  }

  lemma FirstTwo(y: Link, from: Endpoint, times: seq<u32>, h: Handler)
    requires Sized(y.client) && |times| >= 2
    ensures Exchanges(from, y, times[..2], h) == Exchange(from, Exchange(from, y, times[0], h), times[1], h)
  {
    hide Exchange;
    assert times[..2][..1] == times[..1] && times[..1][..0] == [];
    assert Exchanges(from, y, times[..1][..0], h) == y;
    assert Exchanges(from, y, times[..1], h) == Exchange(from, y, times[0], h);
  }

  // ------------------------------------------------------------------ the exact condition

  /** Whatever the application's constant answer and the clock, the download is over after ceil(length / blockSize)
      exchanges. */
  ghost predicate AlwaysFinishes(y: Link, d: D.Download, from: Endpoint)
    requires Sized(y.client)
  {
    forall times: seq<u32>, h: Handler :: |times| == BlockCount(|d.body|, D.SIZE) && Serves(d, h) ==>
        Downloaded(Exchanges(from, y, times, h), d, h)
  }

  /** Download completion, exactly: a served GET on its way over a link that loses nothing ends after ceil(length /
      blockSize) exchanges with the whole resource if and only if one block holds the resource, or the path can be
      stored and leaves an option slot; and every request fits a message. */
  lemma DownloadFinishesExactly(y: Link, d: D.Download, server: Endpoint, from: Endpoint, slot: nat)
    requires Fetchable(d) && Downloading(y, d, server, slot, 0) && y.events == [] && y.calls == []
    requires L.ReadElsewhere(d.path) && MAX_MSG_SIZE >= D.SIZE + 18
    ensures Sized(y.client)
    ensures AlwaysFinishes(y, d, from) <==>
              (|d.body| <= D.SIZE || (D.Storable(d.path) && |Segments(d.path)| < MAX_OPTIONS)) && EveryAskFits(d)
  {
    hide Fetchable, Serves, Exchanges, Downloading, BlockCount, BlockSize, Segments, D.Storable, L.ReadElsewhere,
         EveryAskFits, Downloaded;
    InFlightFits(y, d, server, slot, 0);
    if Followable(d) && EveryAskFits(d) {
      forall times: seq<u32>, h: Handler | |times| == BlockCount(|d.body|, D.SIZE) && Serves(d, h)
        ensures Downloaded(Exchanges(from, y, times, h), d,
                           h) { DownloadCompletes(y, d, server, from, slot, times, h); }
    } else {
      var times, h := FailsOnce(y, d, server, from, slot);
    }
  }

  lemma FailsOnce(y: Link, d: D.Download, server: Endpoint, from: Endpoint, slot: nat)
    returns (times: seq<u32>, h: Handler)
    requires Fetchable(d) && Downloading(y, d, server, slot, 0) && y.events == [] && y.calls == []
    requires L.ReadElsewhere(d.path) && MAX_MSG_SIZE >= D.SIZE + 18 && !(Followable(d) && EveryAskFits(d))
    ensures Sized(y.client) && |times| == BlockCount(|d.body|, D.SIZE) && Serves(d, h)
    ensures !Downloaded(Exchanges(from, y, times, h), d, h)
  {
    hide Fetchable, Serves, Exchange, Exchanges, Downloading, BlockCount, BlockSize, Segments, D.Storable,
         L.ReadElsewhere, EveryAskFits, L.TwoResources, Repeating;
    InFlightFits(y, d, server, slot, 0);
    times := seq(BlockCount(|d.body|, D.SIZE), (i: nat) => 0);
    if Followable(d) {
      h := L.TwoResources(d, []);
      L.HandlerServes(d, d, []);
      DownloadCompletes(y, d, server, from, slot, times, h);
    } else if D.Storable(d.path) {
      h := L.TwoResources(d, []);
      L.HandlerServes(d, d, []);
      FullTable(d);
      NeverFinishes(y, d, server, from, slot, times, h);
    } else {
      h := L.TwoResources(d, L.Different(d));
      TwoBlocks(d);
      EndsWrong(y, d, server, from, slot, times[0], times[1]);
      FirstTwo(y, from, times, h);
      StaysDone(y, from, times, 2, h);
    }
  }

  lemma FullTable(d: D.Download)
    requires Fetchable(d) && AskValid(d, 0) && !Followable(d) && D.Storable(d.path)
    ensures Unlabelled(d)
  {
    hide Segments, BlockSize, D.Storable;
  }

  lemma TwoBlocks(d: D.Download)
    requires |d.body| > D.SIZE
    ensures BlockCount(|d.body|, D.SIZE) >= 2
  {
    hide BlockSize, BlockCount;
    assert 0 * D.SIZE == 0;
    LastOf(|d.body|, D.SIZE, 0);
  }

  // ------------------------------------------------------------------ the endless download is not hypothetical

  const FULL: seq<byte> := U.FullPath(MAX_OPTIONS)

  /** A fresh server with one resource at "/a/a/.../a". */
  function FullServer(): ServerState {
    AddResource(InitialServer(), FULL, {GET}, false)
  }

  lemma FullServed()
    requires 2 * MAX_OPTIONS < MAX_URI_PATH_LEN
    ensures |Segments(FULL)| == MAX_OPTIONS && Routed(FullServer(), FULL, GET, 0)
  {
    hide Segments, JoinOptions, CString, UriOptions, Matches, U.FullPath;
    U.FullPathSegments(MAX_OPTIONS);
    JoinUriOptions(U.Letters(MAX_OPTIONS));
    CStringOfNulFree(FULL);
    var rs := FullServer().resources;
    assert rs == [Resource(FULL, {GET}, false, 0)];
    NoColon();
    FirstIs(rs, HasExactPath(FULL), 0);
  }

  lemma NoColon()
    ensures !Resource(FULL, {GET}, false, 0).IsTemplate()
  {
  }

  lemma FullAsk(d: D.Download)
    requires d.path == FULL && MAX_MSG_SIZE >= 4 * MAX_OPTIONS + 6
    ensures AskValid(d, 0) && AskFitsAt(d, 0)
  {
    hide Segments, EncodeMsg, EncodeOptions, UriOptions, ShortSize, Short, TokenOf, U.FullPath, Ask;
    U.FullPathSegments(MAX_OPTIONS);
    U.LetterOptionsLength(MAX_OPTIONS);
    U.ShortLetters(MAX_OPTIONS);
    FirstAsk(d, 0);
    ValidAsk(d, 0, 0);
    OneToken(d.serial);
    ShortLength(UriOptions(Segments(FULL)), 0);
    MessageSize(Ask(d, 0, 0));
  }

  /** A failing input: with buffers large enough to send and serve it, a fresh client's GET of "/a/a/.../a" with
      MAX_OPTIONS segments, for a resource of more than one block, is on its way and is still asking for the first
      block after any number of exchanges. */
  lemma EndlessDownload(server: Endpoint, from: Endpoint, body: seq<byte>, times: seq<u32>)
    requires 2 * MAX_OPTIONS < MAX_URI_PATH_LEN && MAX_MSG_SIZE >= 4 * MAX_OPTIONS + 6 && MAX_MSG_SIZE >= D.SIZE + 18
    requires |body| > D.SIZE
    ensures var r := SendRequest(InitialClient(), server, FULL, GET, [], 0, true, Nothing, false, true);
            var d := D.Download(from.Addr(), 0, FULL, To(0), body);
            var h := L.TwoResources(d, []);
            var z := Exchanges(from, Link(r.state, FullServer(), r.sent, [], []), times, h);
            && r.ok && Serves(d, h) && |z.calls| == |times| && z.events == []
            && exists mid: u16 :: InFlight(z, Ask(d, 0, mid), server)
  {
    hide Segments, BlockSize, U.FullPath, SendRequest, Exchanges, Ask, InFlight, Routed, Serves, L.TwoResources,
         Downloading, Waiting, HasBlocks, AskFitsAt, TokenByte;
    var d := D.Download(from.Addr(), 0, FULL, To(0), body);
    var c, s, h := InitialClient(), FullServer(), L.TwoResources(d, []);
    FullServed();
    FullAsk(d);
    FirstIs(c.pending, IsFree<Pending>(), 0);
    L.HandlerServes(d, d, []);
    DownloadStarts(c, s, d, server);
    var r := SendRequest(c, server, FULL, GET, [], 0, true, Nothing, false, true);
    NeverFinishes(Link(r.state, s, r.sent, [], []), d, server, from, 0, times, h);
  }
}
