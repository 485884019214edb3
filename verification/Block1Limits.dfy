/** When uploads are safe: exactly when the path leaves room for the Block1 label. */
module Block1Limits {
  import opened Types
  import opened Config
  import opened Codec
  import opened OptionValues
  import opened Reliability
  import opened Paths
  import opened Sizes
  import S = ServerSpec
  import P = ServerProps
  import opened ClientSpec
  import opened ClientProps
  import opened Traffic
  import opened Block1Safety

  // ------------------------------------------------------------------ a fragment without its label

  /** Without room the fragment goes out unlabelled, and a server that serves the path hands it to the handler as a
      complete request: one call, with no assembled body and a payload that is not the upload's. */
  lemma UnlabelledFragment(x: Upload, k: u32, mid: u16, s: S.ServerState, from: Endpoint, h: S.Handler)
    requires Uploads(Msg(CON, x.verb, mid, [x.token], [], [])) && !PathLeavesRoom(x.path)
    requires |x.payload| > BlockSize(x.szx)
    requires BlockOffset(BlockAt(x, k)) < |x.payload| && BlockRequest(BlockAt(x, k), mid).Just?
    requires S.RouteOf(s, BlockRequest(BlockAt(x, k), mid).value).To?
    ensures var m := BlockRequest(BlockAt(x, k), mid).value;
            var o := S.HandleRequest(s, m, from, h);
            && |o.calls| == 1 && o.calls[0].request.msg == m && o.calls[0].request.body == Nothing
            && m.payload != x.payload
            && !CallsOk(x, from.Addr(), o.calls)
  {
    hide BlockSize, Segments, S.RouteOf, S.ObserveStep, S.ObserveValue, ParamsFor, BlockOptions;
    var up := BlockAt(x, k);
    var m := BlockRequest(up, mid).value;
    BlockOptionPresent(up, mid);
    assert |BlockPayload(up)| <= BlockSize(up.szx);
    var idx := S.RouteOf(s, m).idx;
    PlainCall(S.ObserveStep(s, idx, m, from), idx, m, from, ParamsFor(s.resources[idx], S.RequestPath(m)),
              S.ObserveValue(s, idx, m), h);
    var req := S.HandleRequest(s, m, from, h).calls[0].request;
    assert S.KeyOf(req.remote, req.msg) == KeyOfUpload(from.Addr(), x) && Uploads(req.msg)
        && req.body != Just(x.payload);
  }

  lemma PlainCall(s: S.ServerState, idx: nat, m: Msg, from: Endpoint, params: seq<PathParam>, observe: Maybe<u32>,
                  h: S.Handler)
    ensures var o := S.HandlePlain(s, idx, m, from, params, observe, h);
            |o.calls| == 1 && o.calls[0].request.msg == m && o.calls[0].request.remote == from
                && o.calls[0].request.body == Nothing
  {
    hide S.Respond2, S.AckDeferral;
  }

  // ------------------------------------------------------------------ the exact condition

  /** No run from here makes a wrong call. */
  ghost predicate AlwaysSafe(x: Upload, addr: Address, y: System)
    requires Sized(y.client)
  {
    forall acts :: AllAllowed(x, addr, y, acts) ==> CallsOk(x, addr, After(y, acts).calls)
  }

  /** One datagram of the wire, delivered to the server. */
  lemma OneDelivery(x: Upload, y: System, from: Endpoint, m: Msg, h: S.Handler)
    requires Sized(y.client) && ValidMsg(m) && Fits(m) && EncodeMsg(m) in y.wire && IsMethodCode(m.code)
    requires m.typ == CON && y.calls == []
    ensures var acts := [ServerActs(S.OpReceive(from, EncodeMsg(m), h))];
            AllAllowed(x, from.Addr(), y, acts) && After(y, acts).calls == S.HandleRequest(y.server, m, from, h).calls
  {
    hide S.HandleRequest, EncodeMsg, DecodeMsg, AfterComplete;
    DecodeEncode(m);
    var a: Action := ServerActs(S.OpReceive(from, EncodeMsg(m), h));
    var acts := [a];
    assert acts[..0] == [] && acts[|acts| - 1] == a;
    assert After(y, []) == y && AllAllowed(x, from.Addr(), y, []);
    assert After(y, acts) == Next(y, a);
    assert [] + S.HandleRequest(y.server, m, from, h).calls == S.HandleRequest(y.server, m, from, h).calls;
  }

  /** The start of an upload whose first block was sent, to a server that serves its path; nothing else uses its
      token. */
  ghost predicate UploadSent(y: System, x: Upload, from: Endpoint, link: bool) {
    && Sized(y.client) && SerialsOk(y.client) && TokenUnused(TokenByte(y.client.issued), from.Addr(), y)
    && y.calls == []
    && x == Upload(x.payload, 0, BLOCK_SZX, x.format, x.verb, x.server, x.path, TokenByte(y.client.issued))
    && (x.verb == PUT || x.verb == POST) && BlockSize(BLOCK_SZX) < |x.payload| <= 0x1000_0000 * BlockSize(BLOCK_SZX)
    && BeginUpload(y.client, x.server, x.path, x.verb, x.payload, x.format, link).ok
    && BlockRequest(x, y.client.nextMid).Just? && S.RouteOf(y.server, BlockRequest(x, y.client.nextMid).value).To?
  }

  function Started(y: System, x: Upload, link: bool): (z: System)
    requires Sized(y.client)
    ensures Sized(z.client)
  {
    var r := BeginUpload(y.client, x.server, x.path, x.verb, x.payload, x.format, link);
    y.(client := r.state, wire := y.wire + Bytes(r.sent))
  }

  lemma RoomIsSafe(y: System, x: Upload, from: Endpoint, link: bool)
    requires UploadSent(y, x, from, link) && PathLeavesRoom(x.path)
    ensures AlwaysSafe(x, from.Addr(), Started(y, x, link))
  {
    hide SerialsOk, TokenUnused, BeginUpload, PathLeavesRoom, S.RouteOf, BlockRequest, Safe, CallsOk, TokenByte,
         AllAllowed, After, BlockSize;
    var z := Started(y, x, link);
    UploadStartsSafe(y, from.Addr(), x.server, x.path, x.verb, x.payload, x.format, link);
    IsUploadable(x);
    forall acts | AllAllowed(x, from.Addr(), z, acts) ensures CallsOk(x, from.Addr(), After(z, acts).calls) {
      UploadIsSafe(x, from.Addr(), z, acts);
    }
  }

  lemma NoRoomIsUnsafe(y: System, x: Upload, from: Endpoint, link: bool)
    requires UploadSent(y, x, from, link) && !PathLeavesRoom(x.path)
    ensures !AlwaysSafe(x, from.Addr(), Started(y, x, link))
  {
    hide UploadSent, Started, PathLeavesRoom, S.RouteOf, BlockRequest, CallsOk, AllAllowed, After, BlockSize,
         BlockOffset, EncodeMsg, S.HandleRequest;
    FirstBlockOnWire(y, x, from, link);
    var z := Started(y, x, link);
    var h: S.Handler := (i, req) => S.Response(CONTENT, 0, [], false);
    var m := BlockRequest(x, y.client.nextMid).value;
    assert BlockAt(x, 0) == x;
    UnlabelledFragment(x, 0, y.client.nextMid, z.server, from, h);
    OneDelivery(x, z, from, m, h);
  }

  lemma FirstBlockOnWire(y: System, x: Upload, from: Endpoint, link: bool)
    requires UploadSent(y, x, from, link)
    ensures Sized(y.client)
    ensures var z := Started(y, x, link);
            && x.nextNum == 0 && (x.verb == PUT || x.verb == POST) && BlockSize(x.szx) < |x.payload|
            && BlockOffset(x) < |x.payload|
            && z.calls == [] && z.server == y.server
            && BlockRequest(x, y.client.nextMid).Just?
            && var m := BlockRequest(x, y.client.nextMid).value;
               && ValidMsg(m) && Fits(m) && EncodeMsg(m) in z.wire && IsMethodCode(m.code) && m.typ == CON
               && S.RouteOf(z.server, m).To?
  {
    hide SerialsOk, TokenUnused, BeginUpload, S.RouteOf, BlockRequest, BlockSize, BlockOffset, EncodeMsg, TokenByte;
    AtStart(x);
    FirstBlockSent(y.client, x, link);
  }

  /** Block1 safety, exactly: once an upload is on its way to a server that serves its path, no run makes a wrong
      handler call if and only if the path leaves two option slots free. */
  lemma UploadSafeExactly(y: System, x: Upload, from: Endpoint, link: bool)
    requires UploadSent(y, x, from, link)
    ensures AlwaysSafe(x, from.Addr(), Started(y, x, link)) <==> PathLeavesRoom(x.path)
  {
    hide UploadSent, AlwaysSafe, Started, PathLeavesRoom;
    if PathLeavesRoom(x.path) { RoomIsSafe(y, x, from, link); } else { NoRoomIsUnsafe(y, x, from, link); }
  }

  lemma AtStart(x: Upload)
    requires |x.payload| > 0 && x.nextNum == 0
    ensures BlockOffset(x) < |x.payload|
  {
  }

  lemma IsUploadable(x: Upload)
    requires PathLeavesRoom(x.path) && x.szx == BLOCK_SZX && (x.verb == PUT || x.verb == POST)
    requires 0 < |x.payload| <= 0x1000_0000 * BlockSize(BLOCK_SZX)
    ensures Uploadable(x)
  {
  }

  lemma FirstBlockSent(c: ClientState, x: Upload, link: bool)
    requires Sized(c) && x == Upload(x.payload, 0, BLOCK_SZX, x.format, x.verb, x.server, x.path, TokenByte(c.issued))
    requires |x.payload| > 0 && (x.verb == PUT || x.verb == POST)
    requires BeginUpload(c, x.server, x.path, x.verb, x.payload, x.format, link).ok
    ensures BlockOffset(x) < |x.payload| && BlockRequest(x, c.nextMid).Just?
    ensures var m := BlockRequest(x, c.nextMid).value;
            && ValidMsg(m) && Fits(m) && m.typ == CON && IsMethodCode(m.code)
            && EncodeMsg(m) in Bytes(BeginUpload(c, x.server, x.path, x.verb, x.payload, x.format, link).sent)
  {
    hide EncodeMsg, BlockOptions, Track, TokenByte, BlockSize, First;
    var r := BeginUpload(c, x.server, x.path, x.verb, x.payload, x.format, link);
    var m := BlockRequest(x, c.nextMid).value;
    assert r.sent == [Datagram(x.server, EncodeMsg(m))];
    assert r.sent[0] in r.sent;
  }

  // ------------------------------------------------------------------ the failing family is not empty

  /** "/a" n times. */
  function FullPath(n: nat): (p: seq<byte>)
    ensures |p| == 2 * n && NulFree(p) && forall i :: 0 <= i < |p| ==> p[i] == (if i % 2 == 0 then SLASH else 97)
  {
    if n == 0 then [] else [SLASH, 97] + FullPath(n - 1)
  }

  function Letters(n: nat): (segs: seq<seq<byte>>)
    ensures |segs| == n && forall i :: 0 <= i < n ==> segs[i] == [97]
  {
    seq(n, (i: nat) => [97])
  }

  lemma {:induction false} FullPathSegments(n: nat)
    ensures Segments(FullPath(n)) == Letters(n)
    ensures SlashJoin(Letters(n)) == FullPath(n)
  {
    hide Segments;
    var p := FullPath(n);
    if n == 0 {
      SegmentsAtEnd(p);
      assert p[|p|..] == [];
    } else {
      FullPathSegments(n - 1);
      assert p[0..] == p && p[2..] == FullPath(n - 1) && p[1..2] == [97];
      SegmentsAtSlash(p, 0);
      SegEndIs(p, 1, 2);
      SegmentsAtSegment(p, 1, 2);
      assert Letters(n) == [[97]] + Letters(n - 1);
      SlashCons([97], Letters(n - 1));
      assert [SLASH] + [97] == [SLASH, 97];
    }
  }

  lemma {:induction false} LetterOptionsLength(n: nat)
    ensures ShortSize(UriOptions(Letters(n))) == 4 * n
  {
    var os := UriOptions(Letters(n));
    if n > 0 {
      LetterOptionsLength(n - 1);
      assert os[1..] == UriOptions(Letters(n - 1));
      assert os[0] == SegmentOpt([97]);
    }
  }

  const LONG: seq<byte> := FullPath(MAX_OPTIONS - 1)

  /** What the server reads of the longest path that still leaves one option slot. */
  lemma LongPathServed(after: seq<Opt>)
    requires forall i :: 0 <= i < |after| ==> after[i].number != URI_PATH
    ensures |Segments(LONG)| == MAX_OPTIONS - 1 && JoinPath(UriOptions(Segments(LONG)) + after) == LONG
    ensures CString(LONG) == LONG
  {
    hide Segments, JoinOptions, CString, UriOptions;
    FullPathSegments(MAX_OPTIONS - 1);
    JoinUriOptions(Letters(MAX_OPTIONS - 1));
    assert [] + UriOptions(Segments(LONG)) == UriOptions(Segments(LONG));
    JoinedOptions([], Segments(LONG), after);
    CStringOfNulFree(LONG);
  }

  /** A fresh client and a server with one resource at that path. */
  function Fresh(): System {
    System(InitialClient(), S.AddResource(S.InitialServer(), LONG, {PUT}, false), {}, [])
  }

  lemma LongPathFound(m: Msg)
    requires |LONG| < MAX_URI_PATH_LEN && m.code == PUT && JoinPath(m.options) == LONG && CString(LONG) == LONG
    ensures S.RouteOf(Fresh().server, m) == S.To(0)
  {
    hide JoinPath, CString, Matches, FullPath;
    var rs := Fresh().server.resources;
    assert rs == [Resource(LONG, {PUT}, false, 0)];
    NoColon();
    FirstIs(rs, HasExactPath(LONG), 0);
  }

  lemma NoColon()
    ensures !Resource(LONG, {PUT}, false, 0).IsTemplate()
  {
  }

  /** The request is the unlabelled one, and it fits. */
  lemma LongBlock(x: Upload, mid: u16)
    requires x.path == LONG && BlockOffset(x) < |x.payload| && x.szx == BLOCK_SZX
    requires MAX_MSG_SIZE >= BlockSize(BLOCK_SZX) + 4 * MAX_OPTIONS + 7
    ensures BlockRequest(x, mid).Just? && Fits(BlockRequest(x, mid).value)
    ensures BlockRequest(x, mid).value.options == UriOptions(Segments(LONG)) + [UintOpt(CONTENT_FORMAT, x.format)]
  {
    hide Segments, UintBytes, BlockValue, EncodeMsg, EncodeOptions, UriOptions, BlockSize, ShortSize, Short,
         BlockOffset, FullPath;
    LongOptions(x);
    var os, cf := UriOptions(Segments(LONG)), UintOpt(CONTENT_FORMAT, x.format);
    var m := BlockRequest(x, mid).value;
    FormatLength(x.format);
    ShortOne(cf);
    ShortLength(os, 0);
    JustOne(cf);
    MessageLength(m, os, [cf]);
    assert |m.payload| <= BlockSize(BLOCK_SZX);
  }

  lemma LongOptions(x: Upload)
    requires x.path == LONG
    ensures BlockOptions(x, MoreBlocks(x)) == Just(UriOptions(Segments(LONG)) + [UintOpt(CONTENT_FORMAT, x.format)])
    ensures Short(UriOptions(Segments(LONG))) && ShortSize(UriOptions(Segments(LONG))) == 4 * (MAX_OPTIONS - 1)
  {
    hide Segments, UintBytes, BlockValue, BlockSize, ShortSize, BlockOffset, FullPath, Short, UriOptions, JoinPath,
         CString;
    LongPathServed([]);
    FullPathSegments(MAX_OPTIONS - 1);
    LetterOptionsLength(MAX_OPTIONS - 1);
    ShortLetters(MAX_OPTIONS - 1);
    assert [] + UriOptions(Segments(LONG)) == UriOptions(Segments(LONG));
  }

  lemma JustOne(o: Opt)
    requires |o.value| <= 4
    ensures Short([o])
  {
  }

  lemma ShortLetters(n: nat)
    ensures Short(UriOptions(Letters(n)))
  {
  }

  /** A failing input: with buffers that hold such a request, a PUT of more than one block to the path "/a/a/.../a" of
      MAX_OPTIONS - 1 segments is on its way to the server that serves it, and is not safe. */
  lemma UnsafeUpload(payload: seq<byte>, format: u16, server: Endpoint, from: Endpoint)
    requires BlockSize(BLOCK_SZX) < |payload| <= 0x1000_0000 * BlockSize(BLOCK_SZX)
    requires 2 * MAX_OPTIONS - 2 < MAX_URI_PATH_LEN && MAX_MSG_SIZE >= BlockSize(BLOCK_SZX) + 4 * MAX_OPTIONS + 7
    ensures var x := Upload(payload, 0, BLOCK_SZX, format, PUT, server, LONG, TokenByte(0));
            UploadSent(Fresh(), x, from, true) && !AlwaysSafe(x, from.Addr(), Started(Fresh(), x, true))
  {
    hide Segments, BlockOptions, EncodeMsg, S.RouteOf, BlockSize, FullPath, JoinPath, AlwaysSafe, Track, TokenByte,
         UriOptions;
    var x := Upload(payload, 0, BLOCK_SZX, format, PUT, server, LONG, TokenByte(0));
    AtStart(x);
    LongBlock(x, 1);
    LongPathServed([UintOpt(CONTENT_FORMAT, format)]);
    LongPathFound(BlockRequest(x, 1).value);
    InitialOk();
    NothingUsed(TokenByte(0), from.Addr());
    UploadGoes(x);
    UploadSafeExactly(Fresh(), x, from, true);
  }

  lemma NothingUsed(token: byte, addr: Address)
    ensures TokenUnused(token, addr, Fresh())
  {
  }

  lemma UploadGoes(x: Upload)
    requires x == Upload(x.payload, 0, BLOCK_SZX, x.format, x.verb, x.server, x.path, TokenByte(0))
    requires BlockOffset(x) < |x.payload| && BlockRequest(x, 1).Just? && Fits(BlockRequest(x, 1).value)
    requires |x.path| < MAX_URI_PATH_LEN
    ensures BeginUpload(InitialClient(), x.server, x.path, x.verb, x.payload, x.format, true).ok
  {
    hide EncodeMsg, BlockRequest, BlockOffset, Track, TokenByte;
    FirstIs(InitialClient().pending, IsFree<Pending>(), 0);
  }
}
