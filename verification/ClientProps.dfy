/** What every client run keeps: token bookkeeping and at most one outcome per one-shot request. */
module ClientProps {
  import opened Types
  import opened Config
  import opened Codec
  import opened OptionValues
  import opened Reliability
  import opened Paths
  import opened ClientSpec

  // ------------------------------------------------------------------ serial numbers

  predicate PendingOk(s: ClientState, i: nat)
    requires i < |s.pending|
  {
    s.pending[i].Just? ==>
      s.pending[i].value.serial < s.issued && s.pending[i].value.token == TokenOf(s.pending[i].value.serial)
  }

  predicate DiscoverOk(s: ClientState, i: nat)
    requires i < |s.discovers|
  {
    s.discovers[i].Just? ==>
      s.discovers[i].value.serial < s.issued && s.discovers[i].value.token == TokenOf(s.discovers[i].value.serial)
  }

  predicate TxOk(s: ClientState, i: nat)
    requires |s.txSerial| == |s.pool| && i < |s.pool|
  {
    s.pool[i].Just? ==> s.txSerial[i] < s.issued && s.pool[i].value.token == TokenOf(s.txSerial[i])
  }

  predicate UploadOk(s: ClientState, i: nat)
    requires |s.uploads| == |s.pending| && i < |s.pending|
  {
    s.pending[i].Just? && s.uploads[i].Just? ==> s.uploads[i].value.token == TokenByte(s.pending[i].value.serial)
  }

  /** Every active slot and transaction carries the token byte of the request it belongs to, and no two active pending
      or discover slots belong to the same request. No transaction belongs to a discovery. */
  predicate SerialsOk(s: ClientState) {
    && Sized(s)
    && (forall i :: 0 <= i < |s.pending| ==> PendingOk(s, i) && UploadOk(s, i))
    && (forall i :: 0 <= i < |s.discovers| ==> DiscoverOk(s, i))
    && (forall i :: 0 <= i < |s.pool| ==> TxOk(s, i))
    && (forall i, j :: 0 <= i < j < |s.pending| && s.pending[i].Just? && s.pending[j].Just?
          ==> s.pending[i].value.serial != s.pending[j].value.serial)
    && (forall i, j :: 0 <= i < j < |s.discovers| && s.discovers[i].Just? && s.discovers[j].Just?
          ==> s.discovers[i].value.serial != s.discovers[j].value.serial)
    && (forall i, j :: 0 <= i < |s.pending| && 0 <= j < |s.discovers| && s.pending[i].Just? && s.discovers[j].Just?
          ==> s.pending[i].value.serial != s.discovers[j].value.serial)
    && (forall i, j :: 0 <= i < |s.pool| && 0 <= j < |s.discovers| && s.pool[i].Just? && s.discovers[j].Just?
          ==> s.txSerial[i] != s.discovers[j].value.serial)
  }

  /** Nothing but closing: slots, transactions and uploads may go, none comes or changes owner. */
  predicate Shrinks(s: ClientState, t: ClientState) {
    && Sized(s) && Sized(t) && |t.pool| == |s.pool| && |t.discovers| == |s.discovers|
    && t.issued == s.issued && t.nextMid == s.nextMid
    && (forall i :: 0 <= i < |s.pending| ==> t.pending[i] == s.pending[i] || t.pending[i].Nothing?)
    && (forall i :: 0 <= i < |s.pending| && t.pending[i].Just? && t.uploads[i].Just? ==>
        s.uploads[i].Just? && t.uploads[i].value.token == s.uploads[i].value.token)
    && (forall i :: 0 <= i < |s.discovers| ==> t.discovers[i] == s.discovers[i] || t.discovers[i].Nothing?)
    && (forall i :: 0 <= i < |s.pool| && t.pool[i].Just? ==>
        s.pool[i].Just? && t.pool[i].value.token == s.pool[i].value.token)
    && t.txSerial == s.txSerial
  }

  lemma ShrinksOk(s: ClientState, t: ClientState)
    requires SerialsOk(s) && Shrinks(s, t)
    ensures SerialsOk(t)
  {
    hide TokenByte, TokenOf;
    forall i | 0 <= i < |t.pending| ensures PendingOk(t, i) && UploadOk(t, i) {
      assert PendingOk(s, i) && UploadOk(s, i);
    }
    forall i | 0 <= i < |t.discovers| ensures DiscoverOk(t, i) { assert DiscoverOk(s, i); }
    forall i | 0 <= i < |t.pool| ensures TxOk(t, i) { assert TxOk(s, i); }
  }

  /** Starting a transaction for the request that owns a pending slot, or for the one just issued. */
  lemma TrackOk(s: ClientState, serial: nat, remote: Endpoint, mid: u16, token: Token, bytes: seq<byte>)
    requires SerialsOk(s) && serial < s.issued && token == TokenOf(serial)
    requires forall j :: 0 <= j < |s.discovers| && s.discovers[j].Just? ==> s.discovers[j].value.serial != serial
    ensures SerialsOk(Track(s, serial, remote, mid, token, bytes))
  {
    hide TokenByte, TokenOf, InitialTimeout;
    var t := Track(s, serial, remote, mid, token, bytes);
    forall i | 0 <= i < |t.pending| ensures PendingOk(t, i) && UploadOk(t, i) {
      assert PendingOk(s, i) && UploadOk(s, i);
    }
    forall i | 0 <= i < |t.discovers| ensures DiscoverOk(t, i) { assert DiscoverOk(s, i); }
    forall i | 0 <= i < |t.pool| ensures TxOk(t, i) { assert TxOk(s, i); }
  }

  /** Issuing tokens without using them, and moving the message ID counter. */
  lemma CountersOk(s: ClientState, t: ClientState)
    requires SerialsOk(s) && t == s.(issued := t.issued, nextMid := t.nextMid, now := t.now, recvs := t.recvs)
    requires t.issued >= s.issued && |t.recvs| == |s.recvs|
    ensures SerialsOk(t)
  {
    hide TokenByte, TokenOf;
    forall i | 0 <= i < |t.pending| ensures PendingOk(t, i) && UploadOk(t, i) {
      assert PendingOk(s, i) && UploadOk(s, i);
    }
    forall i | 0 <= i < |t.discovers| ensures DiscoverOk(t, i) { assert DiscoverOk(s, i); }
    forall i | 0 <= i < |t.pool| ensures TxOk(t, i) { assert TxOk(s, i); }
  }

  /** A free slot taken by the newest request. */
  lemma OccupyOk(s: ClientState, i: nat, p: Pending, up: Maybe<Upload>, recv: Recv)
    requires SerialsOk(s) && i < |s.pending| && s.pending[i].Nothing?
    requires s.issued > 0 && p.serial == s.issued - 1 && p.token == TokenOf(p.serial)
    requires (up.Just? ==> up.value.token == TokenByte(p.serial))
    requires forall j :: 0 <= j < |s.pending| && s.pending[j].Just? ==> s.pending[j].value.serial != p.serial
    requires forall j :: 0 <= j < |s.discovers| && s.discovers[j].Just? ==> s.discovers[j].value.serial != p.serial
    ensures SerialsOk(s.(pending := s.pending[i := Just(p)], uploads := s.uploads[i := up], recvs := s.recvs[i := recv]))
  {
    hide TokenByte, TokenOf;
    var t := s.(pending := s.pending[i := Just(p)], uploads := s.uploads[i := up], recvs := s.recvs[i := recv]);
    forall j | 0 <= j < |t.pending| ensures PendingOk(t, j) && UploadOk(t, j) {
      assert PendingOk(s, j) && UploadOk(s, j);
    }
    forall j | 0 <= j < |t.discovers| ensures DiscoverOk(t, j) { assert DiscoverOk(s, j); }
    forall j | 0 <= j < |t.pool| ensures TxOk(t, j) { assert TxOk(s, j); }
  }

  lemma NewSerialUnused(s: ClientState)
    requires SerialsOk(s)
    ensures forall j :: 0 <= j < |s.pending| && s.pending[j].Just? ==> s.pending[j].value.serial != s.issued
    ensures forall j :: 0 <= j < |s.discovers| && s.discovers[j].Just? ==> s.discovers[j].value.serial != s.issued
  {
    hide TokenOf;
    forall j | 0 <= j < |s.pending| && s.pending[j].Just? ensures s.pending[j].value.serial != s.issued {
      assert PendingOk(s, j);
    }
    forall j | 0 <= j < |s.discovers| && s.discovers[j].Just? ensures s.discovers[j].value.serial != s.issued {
      assert DiscoverOk(s, j);
    }
  }

  lemma SendRequestOk(s: ClientState, server: Endpoint, path: seq<byte>, verb: byte, payload: seq<byte>, format: u16,
                      confirmable: bool, observe: Maybe<u32>, markObserving: bool, link: bool)
    requires SerialsOk(s)
    ensures SerialsOk(SendRequest(s, server, path, verb, payload, format, confirmable, observe, markObserving, link).state)
  {
    hide SerialsOk, Track, RequestOptions, EncodeMsg, TokenOf, StoredPath;
    SizedOf(s);
    var r := SendRequest(s, server, path, verb, payload, format, confirmable, observe, markObserving, link);
    var i := First(s.pending, IsFree<Pending>());
    if i >= 0 {
      var n := s.issued;
      var s1 := BumpMid(s).(issued := n + 1);
      CountersOk(s, s1);
      NewSerialUnused(s);
      if r.ok {
        var m := Msg(if confirmable then CON else NON, verb, s.nextMid, TokenOf(n),
                     RequestOptions(path, payload, format, observe).value, payload);
        var s2 := if confirmable then Track(s1, n, server, s.nextMid, TokenOf(n), EncodeMsg(m)) else s1;
        if confirmable { TrackOk(s1, n, server, s.nextMid, TokenOf(n), EncodeMsg(m)); }
        OccupyOk(s2, i, Pending(n, server, TokenOf(n), markObserving, StoredPath(path)), Nothing,
                 s.recvs[i].(active := false, path := StoredPath(path)));
      }
    }
  }

  lemma SendBlock1Ok(s: ClientState, slot: nat, serial: nat, link: bool)
    requires SerialsOk(s) && slot < |s.pending| && s.pending[slot].Just? && s.uploads[slot].Just?
    requires serial == s.pending[slot].value.serial
    ensures SerialsOk(SendBlock1(s, slot, serial, link).state)
  {
    hide Track, BlockRequest, EncodeMsg, TokenByte;
    assert PendingOk(s, slot) && UploadOk(s, slot);
    CountersOk(s, BumpMid(s));
    var r := SendBlock1(s, slot, serial, link);
    if r.ok {
      var up := s.uploads[slot].value;
      TrackOk(BumpMid(s), serial, up.server, s.nextMid, [up.token], EncodeMsg(BlockRequest(up, s.nextMid).value));
    }
  }

  lemma SendBlock2Ok(s: ClientState, slot: nat, link: bool)
    requires SerialsOk(s) && slot < |s.pending| && s.pending[slot].Just?
    ensures SerialsOk(SendBlock2(s, slot, link).state)
  {
    hide Track, Block2Options, EncodeMsg, TokenByte;
    assert PendingOk(s, slot);
    CountersOk(s, BumpMid(s));
    var r := SendBlock2(s, slot, link);
    if r.ok {
      var p, recv := s.pending[slot].value, s.recvs[slot];
      var m := Msg(CON, GET, s.nextMid, p.token, Block2Options(recv.path, recv.nextNum, recv.szx).value, []);
      TrackOk(BumpMid(s), p.serial, recv.server, s.nextMid, p.token, EncodeMsg(m));
    }
  }

  lemma BeginUploadOk(s: ClientState, server: Endpoint, path: seq<byte>, verb: byte, payload: seq<byte>, format: u16,
                      link: bool)
    requires SerialsOk(s)
    ensures SerialsOk(BeginUpload(s, server, path, verb, payload, format, link).state)
  {
    hide SerialsOk, SendBlock1, TokenByte;
    SizedOf(s);
    var i := First(s.pending, IsFree<Pending>());
    if i >= 0 {
      var n := s.issued;
      var s1 := s.(issued := n + 1);
      CountersOk(s, s1);
      NewSerialUnused(s);
      var up := Upload(payload, 0, BLOCK_SZX, format, verb, server, path, TokenByte(n));
      var s2 := s1.(pending := s.pending[i := Just(Pending(n, server, TokenOf(n), false, path))],
                    uploads := s.uploads[i := Just(up)], recvs := s.recvs[i := s.recvs[i].(active := false)]);
      OccupyOk(s1, i, Pending(n, server, TokenOf(n), false, path), Just(up), s.recvs[i].(active := false));
      SendBlock1Ok(s2, i, n, link);
      SizedOf(s2);
      var t := SendBlock1(s2, i, n, link).state;
      ShrinksOk(t, t.(pending := t.pending[i := Nothing], uploads := t.uploads[i := Nothing]));
      ShrinksOk(s1, s1.(uploads := s.uploads[i := Nothing]));
    }
  }

  // ------------------------------------------------------------------ polls

  lemma HandleContinueOk(s: ClientState, slot: nat, link: bool)
    requires SerialsOk(s) && slot < |s.pending| && s.pending[slot].Just? && s.uploads[slot].Just?
    ensures SerialsOk(HandleContinue(s, slot, link).state)
  {
    hide SerialsOk, SendBlock1;
    SizedOf(s);
    var up := s.uploads[slot].value;
    var s1 := s.(uploads := s.uploads[slot := Just(up.(nextNum := (up.nextNum + 1) % WRAP))]);
    ShrinksOk(s, s1);
    SendBlock1Ok(s1, slot, s.pending[slot].value.serial, link);
    var t := SendBlock1(s1, slot, s.pending[slot].value.serial, link).state;
    ShrinksOk(t, t.(uploads := t.uploads[slot := Nothing], pending := t.pending[slot := Nothing]));
  }

  lemma HandleResponseOk(s: ClientState, slot: nat, from: Endpoint, m: Msg, link: bool)
    requires SerialsOk(s) && slot < |s.pending| && s.pending[slot].Just?
    ensures SerialsOk(HandleResponse(s, slot, from, m, link).state)
  {
    hide SerialsOk, HandleContinue, SendBlock2, Accumulate, Block2Of, FormatOf;
    SizedOf(s);
    if m.code == CONTINUE && s.uploads[slot].Just? {
      HandleContinueOk(s, slot, link);
    } else {
      var s1 := s.(uploads := s.uploads[slot := Nothing]);
      ShrinksOk(s, s1);
      ShrinksOk(s1, Close(s1, slot));
      var b := Block2Of(m);
      if b.Just? {
        var recv := Accumulate(s.recvs[slot], from, m, b.value);
        CountersOk(s1, s1.(recvs := s.recvs[slot := recv]));
        SendBlock2Ok(s1.(recvs := s.recvs[slot := recv]), slot, link);
        var s2 := s1.(recvs := s.recvs[slot := recv.(active := false)]);
        CountersOk(s1, s2);
        ShrinksOk(s2, Close(s2, slot));
      }
    }
  }

  lemma CompleteShrinks(s: ClientState, i: int)
    requires SerialsOk(s) && -1 <= i < |s.pool|
    ensures SerialsOk(s.(pool := Release(s.pool, i)))
  {
    ShrinksOk(s, s.(pool := Release(s.pool, i)));
  }

  lemma HandleMsgOk(s: ClientState, from: Endpoint, m: Msg, link: bool)
    requires SerialsOk(s)
    ensures SerialsOk(HandleMsg(s, from, m, link).state)
  {
    hide SerialsOk, HandleResponse, AckOf, Release;
    CompleteShrinks(s, First(s.pool, HasMid(from.Addr(), m.mid)));
    var s1 := if m.typ.ACK? then s.(pool := AfterComplete(s.pool, from.Addr(), m.mid)) else s;
    var slot := First(s1.pending, HasToken(m.token));
    if slot >= 0 { HandleResponseOk(s1, slot, from, m, link); }
  }

  lemma HandleResetOk(s: ClientState, from: Endpoint, mid: u16)
    requires SerialsOk(s)
    ensures SerialsOk(HandleReset(s, from, mid).state)
  {
    hide SerialsOk, Release;
    var i := First(s.pool, HasMid(from.Addr(), mid));
    if i >= 0 {
      CompleteShrinks(s, i);
      var s1 := s.(pool := AfterComplete(s.pool, from.Addr(), mid));
      var slot := First(s.pending, HasToken(s.pool[i].value.token));
      if slot >= 0 { ShrinksOk(s1, s1.(pending := s.pending[slot := Nothing])); }
    }
  }

  lemma {:induction false} FiringsShrink(s: ClientState, fired: seq<Firing>)
    requires Sized(s)
    ensures var t := HandleFirings(s, fired).state;
            forall i :: 0 <= i < |s.pending| ==> t.pending[i] == s.pending[i] || t.pending[i].Nothing?
  {
    hide HandleTimeout;
    if fired != [] {
      var before := HandleFirings(s, fired[..|fired| - 1]);
      FiringsShrink(s, fired[..|fired| - 1]);
      var f := fired[|fired| - 1];
      if f.Expire? { TimeoutShrinks(before.state, f.token); }
    }
  }

  lemma TimeoutShrinks(s: ClientState, token: seq<byte>)
    requires Sized(s)
    ensures var t := HandleTimeout(s, token).state;
            forall i :: 0 <= i < |s.pending| ==> t.pending[i] == s.pending[i] || t.pending[i].Nothing?
  {
  }

  lemma TickOk(s: ClientState, now: u32)
    requires SerialsOk(s)
    ensures SerialsOk(TickClient(s, now).state)
  {
    hide SerialsOk, HandleFirings, Firings;
    var s1 := s.(pool := AfterTick(Wrapping, s.pool, now));
    TickedTokens(s.pool, now);
    SizedOf(s);
    FiringsShrink(s1, Firings(Wrapping, s.pool, now));
    ShrinksOk(s, TickClient(s, now).state);
  }

  lemma SizedOf(s: ClientState)
    requires SerialsOk(s)
    ensures Sized(s)
  {
  }

  lemma TickedTokens(p: Slots, now: u32)
    ensures var q := AfterTick(Wrapping, p, now);
            forall i :: 0 <= i < |p| && q[i].Just? ==> p[i].Just? && q[i].value.token == p[i].value.token
                                                         && q[i].value.bytes == p[i].value.bytes
                                                         && q[i].value.remote == p[i].value.remote
  {
  }

  lemma PollOk(s: ClientState, now: u32, incoming: Maybe<Datagram>, link: bool)
    requires SerialsOk(s)
    ensures SerialsOk(Poll(s, now, incoming, link).state)
  {
    hide SerialsOk, HandleMsg, HandleReset, TickClient, ExpireDiscovers, DecodeMsg;
    SizedOf(s);
    var s0 := s.(now := now);
    CountersOk(s, s0);
    var d := if incoming.Just? then DecodeMsg(Received(incoming.value.bytes)) else Rejected(TooShort);
    if d.Decoded? && d.msg.typ.RST? {
      HandleResetOk(s0, incoming.value.remote, d.msg.mid);
    } else {
      var r := if d.Decoded? then HandleMsg(s0, incoming.value.remote, d.msg, link) else Result(s0, [], [], true);
      if d.Decoded? { HandleMsgOk(s0, incoming.value.remote, d.msg, link); }
      SizedOf(r.state);
      ShrinksOk(r.state, ExpireDiscovers(r.state, now));
      TickOk(ExpireDiscovers(r.state, now), now);
    }
  }

  lemma DiscoverRequestOk(s: ClientState, to: Endpoint, link: bool)
    requires SerialsOk(s)
    ensures SerialsOk(Discover(s, to, link).state)
  {
    hide TokenByte, TokenOf, EncodeMsg, AddPath;
    var i := First(s.discovers, IsFree<Discovery>());
    if i >= 0 {
      var s1 := BumpMid(s).(issued := s.issued + 1);
      CountersOk(s, s1);
      NewSerialUnused(s);
      var t := Discover(s, to, link).state;
      forall j | 0 <= j < |t.pending| ensures PendingOk(t, j) && UploadOk(t, j) {
        assert PendingOk(s1, j) && UploadOk(s1, j);
      }
      forall j | 0 <= j < |t.discovers| ensures DiscoverOk(t, j) { assert DiscoverOk(s1, j); }
      forall j | 0 <= j < |t.pool| ensures TxOk(t, j) && (t.pool[j].Just? ==> t.txSerial[j] < s.issued) {
        assert TxOk(s, j) && TxOk(s1, j);
      }
    }
  }

  lemma StepOk(s: ClientState, op: ClientOp)
    requires SerialsOk(s)
    ensures SerialsOk(ClientStep(s, op).state)
  {
    hide SerialsOk, BeginUpload, SendRequest, Discover, Poll;
    SizedOf(s);
    match op
    case OpIssue(server, path, verb, payload, format, confirmable, observe, link) =>
      BeginUploadOk(s, server, path, verb, payload, format, link);
      SendRequestOk(s, server, path, verb, payload, format, confirmable, if observe then Just(0) else Nothing, observe,
                    link);
    case OpCancel(server, path, link) =>
      var i := First(s.pending, ObservesPath(server.Addr(), path));
      if i >= 0 {
        ShrinksOk(s, s.(pending := s.pending[i := Nothing]));
        SendRequestOk(s.(pending := s.pending[i := Nothing]), server, path, GET, [], 0, true, Just(1), false, link);
      }
    case OpDiscover(to, link) => DiscoverRequestOk(s, to, link);
    case OpPoll(now, incoming, link) => PollOk(s, now, incoming, link);
  }

  lemma InitialOk()
    ensures SerialsOk(InitialClient())
  {
  }

  lemma {:induction false} SerialsAlways(ops: seq<ClientOp>)
    ensures SerialsOk(RunClient(ops).state)
  {
    hide SerialsOk, ClientStep;
    if ops == [] {
      InitialOk();
    } else {
      SerialsAlways(ops[..|ops| - 1]);
      StepOk(RunClient(ops[..|ops| - 1]).state, ops[|ops| - 1]);
    }
  }

  // ------------------------------------------------------------------ tokens

  /** Fewer than 256 tokens were issued during the life of every active pending slot, discover slot and transaction. */
  predicate InWindow(s: ClientState)
    requires |s.txSerial| == |s.pool|
  {
    && (forall i :: 0 <= i < |s.pending| && s.pending[i].Just? ==> s.issued - s.pending[i].value.serial <= 0x100)
    && (forall i :: 0 <= i < |s.discovers| && s.discovers[i].Just? ==> s.issued - s.discovers[i].value.serial <= 0x100)
    && (forall i :: 0 <= i < |s.pool| && s.pool[i].Just? ==> s.issued - s.txSerial[i] <= 0x100)
  }

  lemma TokenTellsSerial(issued: nat, a: nat, b: nat)
    requires a < issued && b < issued && issued - a <= 0x100 && issued - b <= 0x100
    ensures TokenOf(a) == TokenOf(b) <==> a == b
  {
    assert TokenOf(a)[0] == TokenByte(a) && TokenOf(b)[0] == TokenByte(b);
  }

  /** Within the window a token names one request: the tokens of active pending and discover slots are pairwise
      distinct, two transactions carry one token exactly when they were started for one request, none carries the
      token of a discovery, and one whose token finds a pending slot was started for the very request in that slot. */
  lemma TokensDistinct(ops: seq<ClientOp>)
    requires InWindow(RunClient(ops).state)
    ensures var s := RunClient(ops).state;
            && (forall i, j :: 0 <= i < j < |s.pending| && s.pending[i].Just? && s.pending[j].Just?
                  ==> s.pending[i].value.token != s.pending[j].value.token)
            && (forall i, j :: 0 <= i < j < |s.discovers| && s.discovers[i].Just? && s.discovers[j].Just?
                  ==> s.discovers[i].value.token != s.discovers[j].value.token)
            && (forall i, j :: 0 <= i < |s.pending| && 0 <= j < |s.discovers| && s.pending[i].Just? && s.discovers[j].Just?
                  ==> s.pending[i].value.token != s.discovers[j].value.token)
            && (forall k, l :: 0 <= k < l < |s.pool| && s.pool[k].Just? && s.pool[l].Just?
                  ==> (s.pool[k].value.token == s.pool[l].value.token <==> s.txSerial[k] == s.txSerial[l]))
            && (forall k, j :: 0 <= k < |s.pool| && 0 <= j < |s.discovers| && s.pool[k].Just? && s.discovers[j].Just?
                  ==> s.pool[k].value.token != s.discovers[j].value.token)
            && (forall k :: 0 <= k < |s.pool| && s.pool[k].Just? ==>
                  var slot := First(s.pending, HasToken(s.pool[k].value.token));
                  slot >= 0 ==> s.pending[slot].value.serial == s.txSerial[k])
  {
    hide RunClient, TokenOf;
    SerialsAlways(ops);
    var s := RunClient(ops).state;
    forall i | 0 <= i < |s.pending| && s.pending[i].Just?
      ensures s.pending[i].value.serial < s.issued && s.pending[i].value.token == TokenOf(s.pending[i].value.serial)
    {
      assert PendingOk(s, i);
    }
    forall i | 0 <= i < |s.discovers| && s.discovers[i].Just?
      ensures s.discovers[i].value.serial < s.issued
      ensures s.discovers[i].value.token == TokenOf(s.discovers[i].value.serial)
    {
      assert DiscoverOk(s, i);
    }
    forall i, j | 0 <= i < j < |s.pending| && s.pending[i].Just? && s.pending[j].Just?
      ensures s.pending[i].value.token != s.pending[j].value.token
    {
      TokenTellsSerial(s.issued, s.pending[i].value.serial, s.pending[j].value.serial);
    }
    forall i, j | 0 <= i < j < |s.discovers| && s.discovers[i].Just? && s.discovers[j].Just?
      ensures s.discovers[i].value.token != s.discovers[j].value.token
    {
      TokenTellsSerial(s.issued, s.discovers[i].value.serial, s.discovers[j].value.serial);
    }
    forall i, j | 0 <= i < |s.pending| && 0 <= j < |s.discovers| && s.pending[i].Just? && s.discovers[j].Just?
      ensures s.pending[i].value.token != s.discovers[j].value.token
    {
      TokenTellsSerial(s.issued, s.pending[i].value.serial, s.discovers[j].value.serial);
    }
    forall k | 0 <= k < |s.pool| && s.pool[k].Just?
      ensures s.txSerial[k] < s.issued && s.pool[k].value.token == TokenOf(s.txSerial[k])
    {
      assert TxOk(s, k);
    }
    forall k, l | 0 <= k < l < |s.pool| && s.pool[k].Just? && s.pool[l].Just?
      ensures s.pool[k].value.token == s.pool[l].value.token <==> s.txSerial[k] == s.txSerial[l]
    {
      TokenTellsSerial(s.issued, s.txSerial[k], s.txSerial[l]);
    }
    forall k, j | 0 <= k < |s.pool| && 0 <= j < |s.discovers| && s.pool[k].Just? && s.discovers[j].Just?
      ensures s.pool[k].value.token != s.discovers[j].value.token
    {
      TokenTellsSerial(s.issued, s.txSerial[k], s.discovers[j].value.serial);
    }
    forall k | 0 <= k < |s.pool| && s.pool[k].Just?
      ensures var slot := First(s.pending, HasToken(s.pool[k].value.token));
              slot >= 0 ==> s.pending[slot].value.serial == s.txSerial[k]
    {
      var slot := First(s.pending, HasToken(s.pool[k].value.token));
      if slot >= 0 { TokenTellsSerial(s.issued, s.pending[slot].value.serial, s.txSerial[k]); }
    }
  }

  // ------------------------------------------------------------------ outcomes

  function CountFor(events: seq<Event>, n: nat): nat {
    if events == [] then 0
    else CountFor(events[..|events| - 1], n) + (if IsOutcome(events[|events| - 1], n) then 1 else 0)
  }

  /** A response callback of request `n`, or a timeout callback attributed to it. */
  predicate IsOutcome(e: Event, n: nat) {
    (e.Answered? && e.serial == n) || e == TimedOut(Just(n))
  }

  lemma {:induction false} CountConcat(a: seq<Event>, b: seq<Event>, n: nat)
    ensures CountFor(a + b, n) == CountFor(a, n) + CountFor(b, n)
    decreases |b|
  {
    if b == [] {
      assert a + b == a;
    } else {
      assert (a + b)[..|a + b| - 1] == a + b[..|b| - 1];
      CountConcat(a, b[..|b| - 1], n);
    }
  }

  predicate Live(s: ClientState, n: nat) {
    exists i :: 0 <= i < |s.pending| && s.pending[i].Just? && s.pending[i].value.serial == n
  }

  predicate OneShot(s: ClientState, n: nat) {
    forall i :: 0 <= i < |s.pending| && s.pending[i].Just? && s.pending[i].value.serial == n ==>
        !s.pending[i].value.observing
  }

  /** The callbacks of a poll: each is for a request that was live, and the callback of a one-shot request closes it. */
  ghost predicate Closes(s: ClientState, t: ClientState, events: seq<Event>) {
    && |t.pending| == |s.pending|
    && (forall i :: 0 <= i < |s.pending| ==> t.pending[i] == s.pending[i] || t.pending[i].Nothing?)
    && (forall n :: CountFor(events, n) > 0 ==> Live(s, n))
    && (forall n :: OneShot(s, n) ==> CountFor(events, n) <= 1 && (CountFor(events, n) == 1 ==> !Live(t, n)))
  }

  lemma ClosesThen(s: ClientState, t: ClientState, u: ClientState, a: seq<Event>, b: seq<Event>)
    requires Closes(s, t, a) && Closes(t, u, b)
    ensures Closes(s, u, a + b)
  {
    hide CountFor;
    forall n ensures CountFor(a + b, n) == CountFor(a, n) + CountFor(b, n) { CountConcat(a, b, n); }
    forall n ensures Live(t, n) ==> Live(s, n) {
      if Live(t, n) {
        var i :| 0 <= i < |t.pending| && t.pending[i].Just? && t.pending[i].value.serial == n;
        assert s.pending[i] == t.pending[i];
      }
    }
    forall n ensures Live(u, n) ==> Live(t, n) {
      if Live(u, n) {
        var i :| 0 <= i < |u.pending| && u.pending[i].Just? && u.pending[i].value.serial == n;
        assert t.pending[i] == u.pending[i];
      }
    }
    forall n | OneShot(s, n) ensures OneShot(t, n) {}
  }

  lemma ClosesQuietly(s: ClientState, t: ClientState)
    requires |t.pending| == |s.pending| && forall i :: 0 <= i < |s.pending| ==> t.pending[i] == s.pending[i] || t.pending[i].Nothing?
    ensures Closes(s, t, [])
  {
  }

  lemma CountOne(e: Event, n: nat)
    ensures CountFor([e], n) == if IsOutcome(e, n) then 1 else 0
  {
    assert [e][..0] == [];
  }

  /** One callback for the request in `slot`, which is freed unless it observes. */
  lemma ClosesSlot(s: ClientState, t: ClientState, slot: nat, e: Event)
    requires SerialsOk(s) && slot < |s.pending| && s.pending[slot].Just? && |t.pending| == |s.pending|
    requires forall i :: 0 <= i < |s.pending| && i != slot ==> t.pending[i] == s.pending[i]
    requires t.pending[slot].Nothing? || (t.pending[slot] == s.pending[slot] && s.pending[slot].value.observing)
    requires forall n: nat :: IsOutcome(e, n) <==> n == s.pending[slot].value.serial
    ensures Closes(s, t, [e])
  {
    hide CountFor, PendingOk, UploadOk, DiscoverOk, TxOk, IsOutcome;
    forall n ensures CountFor([e], n) == if IsOutcome(e, n) then 1 else 0 { CountOne(e, n); }
    var n0 := s.pending[slot].value.serial;
    assert Live(s, n0);
    if OneShot(s, n0) {
      assert t.pending[slot].Nothing?;
      assert forall i :: 0 <= i < |t.pending| && t.pending[i].Just? ==>
               s.pending[i].Just? && t.pending[i].value.serial != n0;
    }
  }

  lemma ResponseCloses(s: ClientState, slot: nat, from: Endpoint, m: Msg, link: bool)
    requires SerialsOk(s) && slot < |s.pending| && s.pending[slot].Just?
    ensures var r := HandleResponse(s, slot, from, m, link); Closes(s, r.state, r.events)
  {
    hide SerialsOk, Closes, SendBlock1, SendBlock2, Accumulate, Block2Of, FormatOf;
    SizedOf(s);
    var r := HandleResponse(s, slot, from, m, link);
    if r.events == [] {
      ClosesQuietly(s, r.state);
    } else {
      ClosesSlot(s, r.state, slot, r.events[0]);
      assert r.events == [r.events[0]];
    }
  }

  lemma DeliverCloses(s: ClientState, from: Endpoint, m: Msg, link: bool)
    requires SerialsOk(s)
    ensures var r := Deliver(s, from, m, link); Closes(s, r.state, r.events)
  {
    hide SerialsOk, HandleResponse;
    SizedOf(s);
    var r := Deliver(s, from, m, link);
    var d := First(s.discovers, HasDiscoverToken(m.token));
    var slot := First(s.pending, HasToken(m.token));
    if d >= 0 {
      forall n ensures CountFor(r.events, n) == 0 { CountOne(r.events[0], n); }
    } else if slot >= 0 {
      ResponseCloses(s, slot, from, m, link);
    } else {
      ClosesQuietly(s, s);
    }
  }

  lemma HandleMsgCloses(s: ClientState, from: Endpoint, m: Msg, link: bool)
    requires SerialsOk(s)
    ensures var r := HandleMsg(s, from, m, link); Closes(s, r.state, r.events)
  {
    hide SerialsOk, Deliver, AckOf, Release, Closes, CountFor;
    SizedOf(s);
    CompleteShrinks(s, First(s.pool, HasMid(from.Addr(), m.mid)));
    var s1 := if m.typ.ACK? then s.(pool := AfterComplete(s.pool, from.Addr(), m.mid)) else s;
    ClosesQuietly(s, s1);
    DeliverCloses(s1, from, m, link);
    var r := Deliver(s1, from, m, link);
    ClosesThen(s, s1, r.state, [], r.events);
    assert [] + r.events == r.events;
  }

  lemma ResetCloses(s: ClientState, from: Endpoint, mid: u16)
    requires SerialsOk(s)
    ensures var r := HandleReset(s, from, mid); Closes(s, r.state, r.events)
  {
    hide SerialsOk, Closes, Release;
    SizedOf(s);
    var r := HandleReset(s, from, mid);
    if r.events == [] {
      ClosesQuietly(s, r.state);
    } else {
      var i := First(s.pool, HasMid(from.Addr(), mid));
      ClosesSlot(s, r.state, First(s.pending, HasToken(s.pool[i].value.token)), r.events[0]);
      assert r.events == [r.events[0]];
    }
  }

  lemma TimeoutCloses(s: ClientState, token: seq<byte>)
    requires SerialsOk(s)
    ensures var r := HandleTimeout(s, token); Closes(s, r.state, r.events) && SerialsOk(r.state)
  {
    hide SerialsOk;
    SizedOf(s);
    var r := HandleTimeout(s, token);
    ShrinksOk(s, r.state) by { TimeoutShrinks(s, token); }
    var slot := First(s.pending, HasToken(token));
    if slot >= 0 {
      ClosesSlot(s, r.state, slot, r.events[0]);
    } else {
      forall n: nat ensures CountFor(r.events, n) == 0 { CountOne(r.events[0], n); }
    }
  }

  lemma {:induction false} FiringsClose(s: ClientState, fired: seq<Firing>)
    requires SerialsOk(s) && Sized(s)
    ensures var r := HandleFirings(s, fired); Closes(s, r.state, r.events) && SerialsOk(r.state)
  {
    hide SerialsOk, Closes, HandleTimeout;
    if fired == [] {
      ClosesQuietly(s, s);
    } else {
      FiringsClose(s, fired[..|fired| - 1]);
      var before := HandleFirings(s, fired[..|fired| - 1]);
      var f := fired[|fired| - 1];
      if f.Expire? {
        TimeoutCloses(before.state, f.token);
        var last := HandleTimeout(before.state, f.token);
        ClosesThen(s, before.state, last.state, before.events, last.events);
      }
    }
  }

  lemma TickCloses(s: ClientState, now: u32)
    requires SerialsOk(s) && Sized(s)
    ensures var r := TickClient(s, now); Closes(s, r.state, r.events)
  {
    hide SerialsOk, Closes, HandleFirings, Firings;
    var s1 := s.(pool := AfterTick(Wrapping, s.pool, now));
    TickedTokens(s.pool, now);
    ShrinksOk(s, s1);
    FiringsClose(s1, Firings(Wrapping, s.pool, now));
    ClosesQuietly(s, s1);
    var r := HandleFirings(s1, Firings(Wrapping, s.pool, now));
    ClosesThen(s, s1, r.state, [], r.events);
    assert [] + r.events == r.events;
  }

  lemma PollCloses(s: ClientState, now: u32, incoming: Maybe<Datagram>, link: bool)
    requires SerialsOk(s) && Sized(s)
    ensures var r := Poll(s, now, incoming, link); Closes(s, r.state, r.events)
  {
    hide SerialsOk, Closes, HandleMsg, HandleReset, TickClient, ExpireDiscovers, DecodeMsg;
    var s0 := s.(now := now);
    CountersOk(s, s0);
    ClosesQuietly(s, s0);
    var d := if incoming.Just? then DecodeMsg(Received(incoming.value.bytes)) else Rejected(TooShort);
    if d.Decoded? && d.msg.typ.RST? {
      ResetCloses(s0, incoming.value.remote, d.msg.mid);
      var r := HandleReset(s0, incoming.value.remote, d.msg.mid);
      ClosesThen(s, s0, r.state, [], r.events);
      assert [] + r.events == r.events;
    } else {
      var r := if d.Decoded? then HandleMsg(s0, incoming.value.remote, d.msg, link) else Result(s0, [], [], true);
      if d.Decoded? {
        HandleMsgOk(s0, incoming.value.remote, d.msg, link);
        HandleMsgCloses(s0, incoming.value.remote, d.msg, link);
      } else {
        ClosesQuietly(s0, s0);
      }
      PollTail(s, s0, r, now);
    }
  }

  lemma PollTail(s: ClientState, s0: ClientState, r: Result, now: u32)
    requires SerialsOk(r.state) && Sized(r.state) && Closes(s, s0, []) && Closes(s0, r.state, r.events)
    ensures var t := TickClient(ExpireDiscovers(r.state, now), now); Closes(s, t.state, r.events + t.events)
  {
    hide SerialsOk, Closes, TickClient, ExpireDiscovers;
    var x := ExpireDiscovers(r.state, now);
    ShrinksOk(r.state, x);
    ClosesQuietly(r.state, x);
    TickCloses(x, now);
    var t := TickClient(x, now);
    ClosesThen(r.state, x, t.state, [], t.events);
    assert [] + t.events == t.events;
    ClosesThen(s, s0, r.state, [], r.events);
    assert [] + r.events == r.events;
    ClosesThen(s, r.state, t.state, r.events, t.events);
  }

  // ------------------------------------------------------------------ over a run

  /** The requests issued by `observe`. */
  function ObserveSerials(ops: seq<ClientOp>): set<nat> {
    if ops == [] then {}
    else
      var op, n := ops[|ops| - 1], RunClient(ops[..|ops| - 1]).state.issued;
      ObserveSerials(ops[..|ops| - 1]) + if op.OpIssue? && op.observe && RunClient(ops).state.issued > n then {n}
          else {}
  }

  /** What an operation other than `poll` does to the pending table: nothing happens to live requests except that they
      may be closed, and the only newcomer carries the next serial. */
  predicate Issues(s: ClientState, t: ClientState, observe: bool) {
    && |t.pending| == |s.pending| && s.issued <= t.issued <= s.issued + 1
    && forall i :: 0 <= i < |s.pending| && t.pending[i].Just? ==>
         || t.pending[i] == s.pending[i]
         || (t.pending[i].value.serial == s.issued < t.issued && t.pending[i].value.observing == observe)
  }

  lemma SendRequestIssues(s: ClientState, server: Endpoint, path: seq<byte>, verb: byte, payload: seq<byte>,
                          format: u16,
                          confirmable: bool, observe: Maybe<u32>, markObserving: bool, link: bool)
    requires Sized(s)
    ensures var r := SendRequest(s, server, path, verb, payload, format, confirmable, observe, markObserving, link);
            Issues(s, r.state, markObserving)
  {
    hide RequestOptions, EncodeMsg, TokenOf, AfterStart;
  }

  lemma BeginUploadIssues(s: ClientState, server: Endpoint, path: seq<byte>, verb: byte, payload: seq<byte>,
                          format: u16, link: bool)
    requires Sized(s)
    ensures Issues(s, BeginUpload(s, server, path, verb, payload, format, link).state, false)
  {
    hide BlockRequest, EncodeMsg, TokenOf, TokenByte, AfterStart;
  }

  lemma OtherIssues(s: ClientState, op: ClientOp)
    requires Sized(s) && !op.OpPoll?
    ensures var r := ClientStep(s, op);
            && r.events == []
            && (Issues(s, r.state, false) || (op.OpIssue? && op.observe && Issues(s, r.state, true)))
  {
    hide SendRequest, BeginUpload, EncodeMsg, AddPath;
    match op
    case OpIssue(server, path, verb, payload, format, confirmable, observe, link) =>
      BeginUploadIssues(s, server, path, verb, payload, format, link);
      SendRequestIssues(s, server, path, verb, payload, format, confirmable, if observe then Just(0) else Nothing,
                        observe, link);
    case OpCancel(server, path, link) =>
      var i := First(s.pending, ObservesPath(server.Addr(), path));
      if i >= 0 {
        SendRequestIssues(s.(pending := s.pending[i := Nothing]), server, path, GET, [], 0, true, Just(1), false, link);
      }
    case _ =>
  }

  lemma HandleMsgIssued(s: ClientState, from: Endpoint, m: Msg, link: bool)
    requires Sized(s)
    ensures HandleMsg(s, from, m, link).state.issued == s.issued
  {
    hide EncodeMsg, Accumulate, Block2Of, BlockRequest, Block2Options, AfterStart, AckOf, AfterComplete, FormatOf,
         First, BlockOffset;
  }

  lemma PollIssued(s: ClientState, now: u32, incoming: Maybe<Datagram>, link: bool)
    requires Sized(s)
    ensures Poll(s, now, incoming, link).state.issued == s.issued
  {
    hide HandleMsg, HandleFirings, DecodeMsg, Received, AfterTick, Firings, ExpireDiscovers, AfterComplete, First;
    var d := if incoming.Just? then DecodeMsg(Received(incoming.value.bytes)) else Rejected(TooShort);
    if d.Decoded? { HandleMsgIssued(s.(now := now), incoming.value.remote, d.msg, link); }
  }

  ghost predicate OutcomesOk(ops: seq<ClientOp>, s: ClientState, events: seq<Event>) {
    && (forall n: nat :: n >= s.issued ==> CountFor(events, n) == 0 && n !in ObserveSerials(ops))
    && (forall i :: 0 <= i < |s.pending| && s.pending[i].Just? && s.pending[i].value.observing ==>
        s.pending[i].value.serial in ObserveSerials(ops))
    && (forall n: nat :: n !in ObserveSerials(ops) ==>
        CountFor(events, n) <= 1 && (CountFor(events, n) == 1 ==> !Live(s, n)))
  }

  lemma IssueKeepsOutcomes(ops: seq<ClientOp>, before: Result, t: ClientState, observe: bool)
    requires ops != [] && SerialsOk(before.state)
    requires OutcomesOk(ops[..|ops| - 1], before.state, before.events) && Issues(before.state, t, observe)
    requires ObserveSerials(ops[..|ops| - 1]) <= ObserveSerials(ops) <= ObserveSerials(ops[..|ops| - 1]) + {before.state.issued}
    requires before.state.issued in ObserveSerials(ops) ==> t.issued == before.state.issued + 1
    requires observe ==> before.state.issued in ObserveSerials(ops)
    ensures OutcomesOk(ops, t, before.events)
  {
    hide SerialsOk, CountFor, ObserveSerials;
    var s := before.state;
    forall n: nat | Live(t, n) && n < s.issued ensures Live(s, n) {
      var i :| 0 <= i < |t.pending| && t.pending[i].Just? && t.pending[i].value.serial == n;
      assert t.pending[i] == s.pending[i];
    }
  }

  lemma PollKeepsOutcomes(ops: seq<ClientOp>, before: Result, t: ClientState, events: seq<Event>)
    requires ops != [] && ObserveSerials(ops) == ObserveSerials(ops[..|ops| - 1])
    requires SerialsOk(before.state) && OutcomesOk(ops[..|ops| - 1], before.state, before.events)
    requires Closes(before.state, t, events) && t.issued == before.state.issued
    ensures OutcomesOk(ops, t, before.events + events)
  {
    hide CountFor, ObserveSerials, UploadOk, DiscoverOk, TxOk;
    var s := before.state;
    forall n ensures CountFor(before.events + events, n) == CountFor(before.events, n) + CountFor(events, n) {
      CountConcat(before.events, events, n);
    }
    forall n: nat | Live(s, n) ensures n < s.issued {
      var i :| 0 <= i < |s.pending| && s.pending[i].Just? && s.pending[i].value.serial == n;
      assert PendingOk(s, i);
    }
    forall n: nat | Live(t, n) ensures Live(s, n) {
      var i :| 0 <= i < |t.pending| && t.pending[i].Just? && t.pending[i].value.serial == n;
      assert t.pending[i] == s.pending[i];
    }
    forall n: nat | n !in ObserveSerials(ops) ensures OneShot(s, n) {}
  }

  lemma {:induction false} OutcomesAlways(ops: seq<ClientOp>)
    ensures OutcomesOk(ops, RunClient(ops).state, RunClient(ops).events)
  {
    hide SerialsOk, ClientStep, OutcomesOk, Closes, Issues;
    if ops == [] {
      NoOutcomes();
    } else {
      var n := |ops| - 1;
      var before, op := RunClient(ops[..n]), ops[n];
      OutcomesAlways(ops[..n]);
      SerialsAlways(ops[..n]);
      if op.OpPoll? {
        PollCloses(before.state, op.now, op.incoming, op.link);
        PollIssued(before.state, op.now, op.incoming, op.link);
        StepIsPoll(before.state, op);
        PollKeepsOutcomes(ops, before, ClientStep(before.state, op).state, ClientStep(before.state, op).events);
      } else {
        OtherIssues(before.state, op);
        IssuedGrows(before.state, op);
        NextNotObserved(ops[..n], before.state, before.events);
        assert before.events + [] == before.events;
        if Issues(before.state, ClientStep(before.state, op).state, false) {
          IssueKeepsOutcomes(ops, before, ClientStep(before.state, op).state, false);
        } else {
          NewcomerOnly(before.state, ClientStep(before.state, op).state);
          IssueKeepsOutcomes(ops, before, ClientStep(before.state, op).state, true);
        }
      }
    }
  }

  lemma NextNotObserved(ops: seq<ClientOp>, s: ClientState, events: seq<Event>)
    requires OutcomesOk(ops, s, events)
    ensures s.issued !in ObserveSerials(ops)
  {
    hide ObserveSerials;
  }

  lemma NoOutcomes()
    ensures OutcomesOk([], InitialClient(), [])
  {
  }

  lemma StepIsPoll(s: ClientState, op: ClientOp)
    requires Sized(s) && op.OpPoll?
    ensures ClientStep(s, op) == Poll(s, op.now, op.incoming, op.link)
  {
    hide Poll;
  }

  lemma IssuedGrows(s: ClientState, op: ClientOp)
    requires Sized(s) && !op.OpPoll?
    requires (Issues(s, ClientStep(s, op).state, false) || Issues(s, ClientStep(s, op).state, true))
    ensures s.issued <= ClientStep(s, op).state.issued <= s.issued + 1
  {
    hide ClientStep;
  }

  /** If no token was issued there is no newcomer, whatever it would have been. */
  lemma NewcomerOnly(s: ClientState, t: ClientState)
    requires Issues(s, t, true) && !Issues(s, t, false)
    ensures t.issued == s.issued + 1
  {
  }

  /** Client outcome, over every run: a one-shot request gets at most one of its response callback or a timeout
      attributed to its slot, and after that it holds no slot any more. */
  lemma OneOutcome(ops: seq<ClientOp>, n: nat)
    requires n !in ObserveSerials(ops)
    ensures var r := RunClient(ops);
            CountFor(r.events, n) <= 1 && (CountFor(r.events, n) == 1 ==> !Live(r.state, n))
  {
    hide RunClient, CountFor;
    OutcomesAlways(ops);
  }
}
