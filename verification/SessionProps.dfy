/** The Block1 session table as a map from (remote, token) to progress. */
module SessionProps {
  import opened Types
  import opened Config
  import opened Codec
  import opened OptionValues
  import opened Reliability
  import opened Paths
  import opened ServerSpec
  import opened ServerProps

  /** The number of blocks a session has taken, and their bytes. */
  datatype Progress = Progress(blocks: nat, body: seq<byte>)

  /** No two active sessions share (remote, token). */
  predicate Distinct(ss: seq<Maybe<Session>>) {
    forall i, j :: 0 <= i < j < |ss| && ss[i].Just? && ss[j].Just? ==> ss[i].value.Id() != ss[j].value.Id()
  }

  predicate HasProgress(ss: seq<Maybe<Session>>, key: Key, p: Progress) {
    exists i :: 0 <= i < |ss| && ss[i].Just? && ss[i].value.Id() == key
                && ss[i].value.next == p.blocks && ss[i].value.body == p.body
  }

  predicate HasSession(ss: seq<Maybe<Session>>, key: Key) {
    exists i :: 0 <= i < |ss| && ss[i].Just? && ss[i].value.Id() == key
  }

  /** The table holds this progress, or none, for the key. */
  predicate Stands(ss: seq<Maybe<Session>>, key: Key, p: Maybe<Progress>) {
    if p.Just? then HasProgress(ss, key, p.value) else !HasSession(ss, key)
  }

  /** What an upload block does to the progress under its key. A block out of turn changes nothing; the expected block
      is added; it ends the session if it is the last one or takes the body over the limit. Only block 0 opens a
      session, and only with a slot free. */
  function AfterBlock(p: Maybe<Progress>, room: bool, b: Block, payload: seq<byte>): Maybe<Progress> {
    var at := if p.Just? then p.value else Progress(0, []);
    if b.num != at.blocks || (p.Nothing? && !room) then p
    else if |at.body| + |payload| > BLOCK1_MAX_BODY || !b.more then Nothing
    else Just(Progress(at.blocks + 1, at.body + payload))
  }

  /** Slots of other keys are untouched, and no session of another key appears. */
  predicate OthersKept(ss: seq<Maybe<Session>>, tt: seq<Maybe<Session>>, key: Key) {
    && |tt| == |ss|
    && (forall i :: 0 <= i < |ss| && ss[i].Just? && ss[i].value.Id() != key ==> tt[i] == ss[i])
    && (forall i :: 0 <= i < |ss| && tt[i].Just? && tt[i].value.Id() != key ==> tt[i] == ss[i])
  }

  predicate HasRoom(ss: seq<Maybe<Session>>) {
    exists i :: 0 <= i < |ss| && ss[i].Nothing?
  }

  // ------------------------------------------------------------------ one block

  /** A block for the session in slot i, seen from the table `ss` before a new session was put there. */
  lemma AcceptProgress(ss: seq<Maybe<Session>>, s: ServerState, i: nat, idx: nat, m: Msg, from: Endpoint,
                       params: seq<PathParam>, observe: Maybe<u32>, b: Block, h: Handler, p: Maybe<Progress>)
    requires i < |s.sessions| && s.sessions[i].Just? && s.sessions[i].value.Id() == KeyOf(from, m)
    requires Distinct(s.sessions) && OthersKept(ss, s.sessions, KeyOf(from, m))
    requires s.sessions[i].value.next == (if p.Just? then p.value.blocks else 0)
    requires s.sessions[i].value.body == (if p.Just? then p.value.body else [])
    requires p.Nothing? ==> b.num == 0
    ensures var tt := AcceptBlock(s, i, idx, m, from, params, observe, b, h).state.sessions;
            && Distinct(tt) && OthersKept(ss, tt, KeyOf(from, m))
            && Stands(tt, KeyOf(from, m), AfterBlock(p, true, b, m.payload))
  {
    hide AcceptBlock, AfterBlock;
    AcceptSlot(s, i, idx, m, from, params, observe, b, h);
    PutProgress(ss, s.sessions, i, KeyOf(from, m), SlotAfter(s.sessions[i].value, b, m.payload));
    AfterSlot(s.sessions[i].value, b, m.payload, p);
  }

  function SlotAfter(sess: Session, b: Block, payload: seq<byte>): Maybe<Session> {
    if b.num != sess.next then Just(sess)
    else if |sess.body| + |payload| > BLOCK1_MAX_BODY || !b.more then Nothing
    else Just(sess.(next := sess.next + 1, body := sess.body + payload))
  }

  lemma AcceptSlot(s: ServerState, i: nat, idx: nat, m: Msg, from: Endpoint, params: seq<PathParam>,
                   observe: Maybe<u32>, b: Block, h: Handler)
    requires i < |s.sessions| && s.sessions[i].Just?
    ensures AcceptBlock(s, i, idx, m, from, params, observe, b, h).state.sessions ==
              s.sessions[i := SlotAfter(s.sessions[i].value, b, m.payload)]
  {
    hide Piggyback, AckDeferral, BlockOpt;
  }

  lemma AfterSlot(sess: Session, b: Block, payload: seq<byte>, p: Maybe<Progress>)
    requires sess.next == (if p.Just? then p.value.blocks else 0) && (p.Nothing? ==> b.num == 0)
    requires sess.body == (if p.Just? then p.value.body else [])
    ensures var t := SlotAfter(sess, b, payload);
            && AfterBlock(p, true, b, payload) == (if t.Just? then Just(Progress(t.value.next, t.value.body)) else Nothing)
            && (t.Just? ==> t.value.Id() == sess.Id())
  {
  }

  lemma PutProgress(ss: seq<Maybe<Session>>, us: seq<Maybe<Session>>, i: nat, key: Key, t: Maybe<Session>)
    requires i < |us| && us[i].Just? && us[i].value.Id() == key && Distinct(us) && OthersKept(ss, us, key)
    requires t.Just? ==> t.value.Id() == key
    ensures var tt := us[i := t];
            && Distinct(tt) && OthersKept(ss, tt, key)
            && Stands(tt, key, if t.Just? then Just(Progress(t.value.next, t.value.body)) else Nothing)
  {
    var tt := us[i := t];
    if t.Just? { assert tt[i].Just?; }
  }

  lemma BlockProgress(s: ServerState, idx: nat, m: Msg, from: Endpoint, params: seq<PathParam>, observe: Maybe<u32>,
                      value: seq<byte>, h: Handler, p: Maybe<Progress>)
    requires Distinct(s.sessions) && Stands(s.sessions, KeyOf(from, m), p)
    ensures var tt := HandleBlock1(s, idx, m, from, params, observe, value, h).state.sessions;
            && Distinct(tt) && OthersKept(s.sessions, tt, KeyOf(from, m))
            && Stands(tt, KeyOf(from, m), if ReadBlock(value).Nothing? then p
                                          else AfterBlock(p, HasRoom(s.sessions), ReadBlock(value).value, m.payload))
  {
    hide Plain, AcceptBlock, ReadBlock;
    var b, key := ReadBlock(value), KeyOf(from, m);
    if b.Just? {
      var i, j := SessionSlot(s.sessions, key), First(s.sessions, IsFree<Session>());
      if i >= 0 {
        assert HasSession(s.sessions, key);
        SlotProgress(s.sessions, i, key, p.value);
        AcceptProgress(s.sessions, s, i, idx, m, from, params, observe, b.value, h, p);
      } else if b.value.num == 0 && j >= 0 {
        var s1 := s.(sessions := s.sessions[j := Just(Session(from, m.token, 0, []))]);
        AcceptProgress(s.sessions, s1, j, idx, m, from, params, observe, b.value, h, p);
      }
    }
  }

  lemma SlotProgress(ss: seq<Maybe<Session>>, i: nat, key: Key, p: Progress)
    requires Distinct(ss) && i < |ss| && ss[i].Just? && ss[i].value.Id() == key && HasProgress(ss, key, p)
    ensures ss[i].value.next == p.blocks && ss[i].value.body == p.body
  {
  }

  // ------------------------------------------------------------------ every server step

  /** The step handles an upload block under this key that reaches a resource. */
  predicate Uploads(s: ServerState, op: ServerOp, key: Key) {
    && op.OpReceive? && DecodeMsg(Received(op.bytes)).Decoded?
    && var m := DecodeMsg(Received(op.bytes)).msg;
       && KeyOf(op.from, m) == key && (m.typ.CON? || m.typ.NON?) && IsMethodCode(m.code) && IsUploadBlock(m)
       && RouteOf(s, m).To? && ReadBlock(FindOption(m.options, BLOCK1).value).Just?
  }

  /** The progress under `key` after a step. */
  function AfterStep(s: ServerState, op: ServerOp, key: Key, p: Maybe<Progress>): Maybe<Progress> {
    if !Uploads(s, op, key) then p
    else
      var m := DecodeMsg(Received(op.bytes)).msg;
      AfterBlock(p, HasRoom(s.sessions), ReadBlock(FindOption(m.options, BLOCK1).value).value, m.payload)
  }

  lemma RequestProgress(s: ServerState, m: Msg, from: Endpoint, h: Handler, p: Maybe<Progress>)
    requires Distinct(s.sessions) && Stands(s.sessions, KeyOf(from, m), p)
    ensures var tt := HandleRequest(s, m, from, h).state.sessions;
            && Distinct(tt) && OthersKept(s.sessions, tt, KeyOf(from, m))
            && Stands(tt, KeyOf(from, m),
                      if RouteOf(s, m).To? && IsUploadBlock(m) && ReadBlock(FindOption(m.options, BLOCK1).value).Just?
                      then AfterBlock(p, HasRoom(s.sessions), ReadBlock(FindOption(m.options, BLOCK1).value).value, m.payload)
                      else p)
  {
    hide Plain, HandleBlock1, HandlePlain, ObserveStep, ObserveValue, ParamsFor, FindOption, RouteOf, ReadBlock, Stands,
         HasRoom;
    match RouteOf(s, m)
    case Refused(code) =>
    case To(idx) =>
      var params := ParamsFor(s.resources[idx], RequestPath(m));
      var s1, observe := ObserveStep(s, idx, m, from), ObserveValue(s, idx, m);
      if IsUploadBlock(m) {
        BlockProgress(s1, idx, m, from, params, observe, FindOption(m.options, BLOCK1).value, h, p);
      } else {
        PlainKeeps(s1, idx, m, from, params, observe, h);
      }
  }

  lemma PlainKeeps(s: ServerState, idx: nat, m: Msg, from: Endpoint, params: seq<PathParam>, observe: Maybe<u32>,
                   h: Handler)
    ensures HandlePlain(s, idx, m, from, params, observe, h).state.sessions == s.sessions
  {
    hide Respond2, AckDeferral;
  }

  lemma OtherProgress(ss: seq<Maybe<Session>>, tt: seq<Maybe<Session>>, key: Key, other: Key, p: Maybe<Progress>)
    requires OthersKept(ss, tt, key) && other != key && Stands(ss, other, p)
    ensures Stands(tt, other, p)
  {
    if p.Just? {
      var i :| 0 <= i < |ss| && ss[i].Just? && ss[i].value.Id() == other && ss[i].value.next == p.value.blocks
          && ss[i].value.body == p.value.body;
      assert tt[i] == ss[i];
    }
  }

  /** Sessions refine a map from (remote, token) to progress. Every step keeps keys distinct, and changes the progress
      of a key only by an upload block under that very key, as `AfterBlock` says; a slot of another key, and every slot
      in a step that handles no upload block, keeps its contents. */
  lemma SessionTable(s: ServerState, op: ServerOp, key: Key, p: Maybe<Progress>)
    requires Distinct(s.sessions) && Stands(s.sessions, key, p)
    ensures var tt := ServerStep(s, op).state.sessions;
            && Distinct(tt) && |tt| == |s.sessions| && Stands(tt, key, AfterStep(s, op, key, p))
            && forall i :: 0 <= i < |s.sessions| && s.sessions[i].Just? && !Uploads(s, op, s.sessions[i].value.Id()) ==>
                 tt[i] == s.sessions[i]
  {
    hide Receive, DecodeMsg, Received, AfterBlock, Stands, HasRoom, NotifyUpTo, FindResource, AfterStart, AfterTick,
         RemoveExpired, Distinct;
    match op
    case OpReceive(from, bytes, h) => ReceiveProgress(s, from, bytes, h, key, p);
    case OpNotify(path, payload, format, confirmable) =>
      if CanNotify(s, path) {
        var idx := FindResource(s.resources, path);
        NotifyKeepsDeferred(BumpSequence(s, idx), |s.observers|, idx, payload, format, confirmable);
      }
    case _ =>
  }

  lemma ReceiveProgress(s: ServerState, from: Endpoint, bytes: seq<byte>, h: Handler, key: Key, p: Maybe<Progress>)
    requires Distinct(s.sessions) && Stands(s.sessions, key, p)
    ensures var op := OpReceive(from, bytes, h);
            var tt := Receive(s, from, bytes, h).state.sessions;
            && Distinct(tt) && |tt| == |s.sessions| && Stands(tt, key, AfterStep(s, op, key, p))
            && forall i :: 0 <= i < |s.sessions| && s.sessions[i].Just? && !Uploads(s, op, s.sessions[i].value.Id()) ==>
                 tt[i] == s.sessions[i]
  {
    hide HandleRequest, DecodeMsg, Received, AfterComplete, AfterBlock, Stands, HasRoom, RouteOf, FindOption, ReadBlock,
         IsUploadBlock;
    var d := DecodeMsg(Received(bytes));
    if d.Decoded? && (d.msg.typ.CON? || d.msg.typ.NON?) && IsMethodCode(d.msg.code) {
      var own := ProgressOf(s.sessions, KeyOf(from, d.msg));
      RequestProgress(s, d.msg, from, h, own);
      if KeyOf(from, d.msg) == key {
        SameProgress(s.sessions, key, p, own);
      } else {
        OtherProgress(s.sessions, HandleRequest(s, d.msg, from, h).state.sessions, KeyOf(from, d.msg), key, p);
      }
      if !Uploads(s, OpReceive(from, bytes, h), KeyOf(from, d.msg)) { IdleRequest(s, d.msg, from, h); }
    }
  }

  lemma ProgressOf(ss: seq<Maybe<Session>>, key: Key) returns (p: Maybe<Progress>)
    ensures Stands(ss, key, p)
  {
    if HasSession(ss, key) {
      var i :| 0 <= i < |ss| && ss[i].Just? && ss[i].value.Id() == key;
      p := Just(Progress(ss[i].value.next, ss[i].value.body));
    } else {
      p := Nothing;
    }
  }

  lemma SameProgress(ss: seq<Maybe<Session>>, key: Key, p: Maybe<Progress>, q: Maybe<Progress>)
    requires Distinct(ss) && Stands(ss, key, p) && Stands(ss, key, q)
    ensures p == q
  {
    assert p.Just? <==> HasSession(ss, key);
    assert q.Just? <==> HasSession(ss, key);
  }

  /** A request that is no upload block, or is refused, or has a malformed block option, leaves every session. */
  lemma IdleRequest(s: ServerState, m: Msg, from: Endpoint, h: Handler)
    requires RouteOf(s, m).Refused? || !IsUploadBlock(m) || ReadBlock(FindOption(m.options, BLOCK1).value).Nothing?
    ensures HandleRequest(s, m, from, h).state.sessions == s.sessions
  {
    hide Plain, HandlePlain, ObserveStep, ObserveValue, ParamsFor, FindOption, RouteOf, ReadBlock, AcceptBlock;
    match RouteOf(s, m)
    case Refused(code) =>
    case To(idx) =>
      PlainKeeps(ObserveStep(s, idx, m, from), idx, m, from, ParamsFor(s.resources[idx], RequestPath(m)),
                 ObserveValue(s, idx, m), h);
  }

  // ------------------------------------------------------------------ over a run

  /** The progress a run leaves under `key`. */
  function AfterSteps(s: ServerState, ops: seq<ServerOp>, key: Key, p: Maybe<Progress>): Maybe<Progress> {
    if ops == [] then p
    else
      var before := ops[..|ops| - 1];
      AfterStep(StepAll(s, before), ops[|ops| - 1], key, AfterSteps(s, before, key, p))
  }

  /** In every run the table stands as the map says, for every key; sessions under one key never disturb another. */
  lemma {:induction false} SessionTableAlways(s: ServerState, ops: seq<ServerOp>, key: Key, p: Maybe<Progress>)
    requires Distinct(s.sessions) && Stands(s.sessions, key, p)
    ensures Distinct(StepAll(s, ops).sessions) && Stands(StepAll(s, ops).sessions, key, AfterSteps(s, ops, key, p))
    ensures (forall k :: 0 <= k < |ops| ==>
             !Uploads(StepAll(s, ops[..k]), ops[k], key)) ==> AfterSteps(s, ops, key, p) == p
  {
    hide ServerStep, Stands, Distinct, Uploads;
    if ops != [] {
      var n := |ops| - 1;
      var before := ops[..n];
      SessionTableAlways(s, before, key, p);
      SessionTable(StepAll(s, before), ops[n], key, AfterSteps(s, before, key, p));
      if forall k :: 0 <= k < |ops| ==> !Uploads(StepAll(s, ops[..k]), ops[k], key) {
        forall k | 0 <= k < n ensures !Uploads(StepAll(s, before[..k]), before[k], key) {
          assert before[..k] == ops[..k];
        }
      }
    }
  }

  lemma NoSessionsAtFirst(key: Key)
    ensures Distinct(InitialServer().sessions) && Stands(InitialServer().sessions, key, Nothing)
  {
  }
}
