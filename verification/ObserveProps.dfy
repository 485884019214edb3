/** Observe (RFC 7641) from registration to the end: who is registered, what ends it, and that until then every
    notification reaches the observer. */
module ObserveProps {
  import opened Types
  import opened Config
  import opened Codec
  import opened OptionValues
  import opened Reliability
  import opened Paths
  import opened ServerSpec
  import opened ServerProps

  /** An observer with this key watches the resource, and `mid` is the last message ID exchanged with it. */
  predicate Registered(os: seq<Maybe<Observer>>, key: Key, idx: nat, mid: u16) {
    exists i :: 0 <= i < |os| && os[i].Just? && os[i].value.Id() == key && os[i].value.resource == idx
                && os[i].value.lastMid == mid
  }

  predicate WatchedBy(os: seq<Maybe<Observer>>, key: Key, idx: nat) {
    exists i :: 0 <= i < |os| && os[i].Just? && os[i].value.Id() == key && os[i].value.resource == idx
  }

  predicate OthersKept(os: seq<Maybe<Observer>>, ts: seq<Maybe<Observer>>, key: Key) {
    && |ts| == |os|
    && (forall i :: 0 <= i < |os| && os[i].Just? && os[i].value.Id() != key ==> ts[i] == os[i])
    && (forall i :: 0 <= i < |os| && ts[i].Just? && ts[i].value.Id() != key ==> ts[i] == os[i])
  }

  predicate HasFree(os: seq<Maybe<Observer>>) {
    exists i :: 0 <= i < |os| && os[i].Nothing?
  }

  // ------------------------------------------------------------------ one message

  lemma RegisterPuts(os: seq<Maybe<Observer>>, idx: nat, from: Endpoint, token: Token, mid: u16)
    ensures var key := Key(from.Addr(), token);
            var ts := Stamp(Register(os, idx, from, token), key, mid);
            && OthersKept(os, ts, key)
            && if Observing(os, key) || HasFree(os) then Registered(ts, key, idx, mid) else ts == os
  {
    var key := Key(from.Addr(), token);
    var i, j := First(os, HasObserverKey(key)), First(os, IsFree<Observer>());
    var rs := Register(os, idx, from, token);
    var k := if i >= 0 then i else j;
    if Observing(os, key) {
      var l :| 0 <= l < |os| && os[l].Just? && os[l].value.Id() == key;
      assert HasObserverKey(key)(os[l]);
    }
    if k >= 0 {
      assert rs[k].Just? && rs[k].value.Id() == key && rs[k].value.resource == idx;
      FirstIs(rs, HasObserverKey(key), k);
      var ts := Stamp(rs, key, mid);
      assert ts[k].Just? && ts[k].value.Id() == key && ts[k].value.resource == idx && ts[k].value.lastMid == mid;
    } else {
      assert First(os, HasObserverKey(key)) == -1;
    }
  }

  /** A routed GET with Observe 0 for an observable resource registers its sender, if there is room or it is registered
      already; with any other Observe value it ends the sender's registration. Everything else leaves the table alone,
      and nobody else's entry ever changes. */
  lemma Registration(s: ServerState, m: Msg, from: Endpoint, h: Handler)
    ensures var os, ts, key := s.observers, HandleRequest(s, m, from, h).state.observers, KeyOf(from, m);
            var observe := FindUint(m.options, OBSERVE);
            && OthersKept(os, ts, key)
            && if RouteOf(s, m).To? && m.code == GET && s.resources[RouteOf(s, m).idx].observable && observe.Just? then
                 if observe == Just(0) then
                   if Observing(os, key) || HasFree(os) then Registered(ts, key, RouteOf(s, m).idx, m.mid) else ts == os
                 else !Observing(ts, key)
               else ts == os
  {
    hide HandleRequest, RouteOf, Register, Stamp, FindOption, ReadUint, Registered;
    if RouteOf(s, m).To? { RegisterPuts(s.observers, RouteOf(s, m).idx, from, m.token, m.mid); }
  }

  /** A Reset ends the registration of an observer of its sender whose last message it names, and nothing else. */
  lemma ResetEnds(s: ServerState, m: Msg, from: Endpoint, h: Handler)
    requires ObserversOk(s.observers, s.resources) && m.typ.RST?
    ensures var t := ReceiveMsg(s, from, m, h).state;
            && t == s.(observers := t.observers)
            && if exists i :: Rejected(s.observers, i, from, m.mid) then
                 exists i :: Rejected(s.observers, i, from, m.mid) && t.observers == s.observers[i := Nothing]
                             && !Observing(t.observers, s.observers[i].value.Id())
               else t.observers == s.observers
  {
    var i := First(s.observers, HasLastMid(from.Addr(), m.mid));
    if i >= 0 {
      assert Rejected(s.observers, i, from, m.mid);
    } else {
      assert forall j :: 0 <= j < |s.observers| ==> !HasLastMid(from.Addr(), m.mid)(s.observers[j]);
    }
  }

  predicate Rejected(os: seq<Maybe<Observer>>, i: int, from: Endpoint, mid: u16) {
    0 <= i < |os| && os[i].Just? && os[i].value.remote.Addr() == from.Addr() && os[i].value.lastMid == mid
  }

  // ------------------------------------------------------------------ over a run

  /** A GET under this key that may register it for another resource. */
  predicate Reregisters(op: ServerOp, key: Key) {
    && op.OpReceive? && DecodeMsg(Received(op.bytes)).Decoded?
    && KeyOf(op.from, DecodeMsg(Received(op.bytes)).msg) == key
    && FindUint(DecodeMsg(Received(op.bytes)).msg.options, OBSERVE) == Just(0)
  }

  /** Whoever has this key afterwards had it before, for the same resource. */
  predicate SameWatch(os: seq<Maybe<Observer>>, ts: seq<Maybe<Observer>>, key: Key) {
    |ts| == |os| && forall i :: 0 <= i < |os| && ts[i].Just? && ts[i].value.Id() == key ==>
      os[i].Just? && os[i].value.Id() == key && os[i].value.resource == ts[i].value.resource
  }

  lemma {:induction false} ExpiredSame(os: seq<Maybe<Observer>>, fired: seq<Firing>, key: Key)
    ensures SameWatch(os, RemoveExpired(os, fired), key)
  {
    if fired != [] { ExpiredSame(os, fired[..|fired| - 1], key); }
  }

  lemma {:induction false} NotifiedSame(s: ServerState, k: nat, idx: nat, payload: seq<byte>, format: u16,
                                        confirmable: bool, key: Key)
    requires k <= |s.observers| && idx < |s.resources|
    ensures SameWatch(s.observers, NotifyUpTo(s, k, idx, payload, format, confirmable).state.observers, key)
  {
    hide AfterStart, EncodeMsg, Notification, Transmit;
    if k > 0 { NotifiedSame(s, k - 1, idx, payload, format, confirmable, key); }
  }

  lemma ReceivedSame(s: ServerState, from: Endpoint, bytes: seq<byte>, h: Handler, key: Key)
    requires !Reregisters(OpReceive(from, bytes, h), key)
    ensures SameWatch(s.observers, Receive(s, from, bytes, h).state.observers, key)
  {
    hide ReceiveMsg, HandleRequest, DecodeMsg, Received, FindUint, SameWatch;
    var d := DecodeMsg(Received(bytes));
    if d.Decoded? {
      if d.msg.typ.RST? || d.msg.typ.ACK? || !IsMethodCode(d.msg.code) {
        OtherSame(s, from, d.msg, h, key);
      } else {
        RequestSame(s, d.msg, from, h, key);
        assert ReceiveMsg(s, from, d.msg, h) == HandleRequest(s, d.msg, from, h) by { RequestServed(s, from, d.msg, h); }
      }
    } else {
      assert SameWatch(s.observers, s.observers, key) by { SameSelf(s.observers, key); }
    }
  }

  lemma RequestServed(s: ServerState, from: Endpoint, m: Msg, h: Handler)
    requires !m.typ.RST? && !m.typ.ACK? && IsMethodCode(m.code)
    ensures ReceiveMsg(s, from, m, h) == HandleRequest(s, m, from, h)
  {
    hide HandleRequest;
  }

  lemma SameSelf(os: seq<Maybe<Observer>>, key: Key)
    ensures SameWatch(os, os, key)
  {
  }

  lemma OtherSame(s: ServerState, from: Endpoint, m: Msg, h: Handler, key: Key)
    requires m.typ.RST? || m.typ.ACK? || !IsMethodCode(m.code)
    ensures SameWatch(s.observers, ReceiveMsg(s, from, m, h).state.observers, key)
  {
    hide HandleRequest, AfterComplete;
  }

  lemma RequestSame(s: ServerState, m: Msg, from: Endpoint, h: Handler, key: Key)
    requires KeyOf(from, m) == key ==> FindUint(m.options, OBSERVE) != Just(0)
    ensures SameWatch(s.observers, HandleRequest(s, m, from, h).state.observers, key)
  {
    hide HandleRequest, RouteOf, FindUint, Registered;
    Registration(s, m, from, h);
  }

  lemma StepSame(s: ServerState, op: ServerOp, key: Key)
    requires !Reregisters(op, key)
    ensures SameWatch(s.observers, ServerStep(s, op).state.observers, key)
  {
    hide Receive, Reregisters, NotifyUpTo, FindResource, RemoveExpired, Firings, AfterTick, AfterStart, EncodeMsg;
    match op
    case OpTickTo(now) => ExpiredSame(s.observers, Firings(Wrapping, s.pool, now % WRAP), key);
    case OpReceive(from, bytes, h) => ReceivedSame(s, from, bytes, h, key);
    case OpNotify(path, payload, format, confirmable) =>
      if CanNotify(s, path) {
        var idx := FindResource(s.resources, path);
        NotifiedSame(BumpSequence(s, idx), |s.observers|, idx, payload, format, confirmable, key);
      }
    case _ =>
  }

  /** Nothing in the run ends the registration or replaces it. */
  ghost predicate Undisturbed(s: ServerState, ops: seq<ServerOp>, key: Key) {
    forall k :: 0 <= k < |ops| ==> !MayLeave(StepAll(s, ops[..k]), ops[k], key) && !Reregisters(ops[k], key)
  }

  /** An observer stays registered for its resource until it deregisters, rejects a message, times out or registers
      anew. */
  lemma {:induction false} StaysRegistered(s: ServerState, ops: seq<ServerOp>, key: Key, idx: nat)
    requires ObserversOk(s.observers, s.resources) && WatchedBy(s.observers, key, idx) && Undisturbed(s, ops, key)
    ensures var t := StepAll(s, ops); ObserversOk(t.observers, t.resources) && WatchedBy(t.observers, key, idx)
  {
    hide ServerStep, ObserversOk, MayLeave, Reregisters;
    if ops != [] {
      var n := |ops| - 1;
      var before := ops[..n];
      forall k | 0 <= k < n ensures !MayLeave(StepAll(s, before[..k]), before[k], key) && !Reregisters(before[k], key) {
        assert before[..k] == ops[..k];
      }
      StaysRegistered(s, before, key, idx);
      var t := StepAll(s, before);
      ObserverTable(t, ops[n]);
      StepSame(t, ops[n], key);
      assert Observing(t.observers, key);
      StillWatched(t.observers, ServerStep(t, ops[n]).state.observers, t.resources, key, idx);
    }
  }

  lemma StillWatched(os: seq<Maybe<Observer>>, ts: seq<Maybe<Observer>>, rs: seq<Resource>, key: Key, idx: nat)
    requires ObserversOk(os, rs) && WatchedBy(os, key, idx) && Observing(ts, key) && SameWatch(os, ts, key)
    ensures WatchedBy(ts, key, idx)
  {
    var i :| 0 <= i < |ts| && ts[i].Just? && ts[i].value.Id() == key;
    var j :| 0 <= j < |os| && os[j].Just? && os[j].value.Id() == key && os[j].value.resource == idx;
    assert i == j;
  }

  /** The observer with this key is sent an announcement of this state of the resource. */
  ghost predicate Hears(t: ServerState, o: Outcome, key: Key, sequence: u32, payload: seq<byte>, format: u16,
                        confirmable: bool) {
    exists i, m :: 0 <= i < |t.observers| && t.observers[i].Just? && t.observers[i].value.Id() == key && ValidMsg(m)
      && Announces(m, t.observers[i].value, m.mid, sequence, payload, format, confirmable)
      && (|EncodeMsg(m)| <= MAX_MSG_SIZE ==> Datagram(t.observers[i].value.remote, EncodeMsg(m)) in o.sent)
  }

  /** Observe works: an observer that registered is sent every later notification of its resource that fits a message,
      with the new sequence number and the payload, until it deregisters, rejects a message, times out or registers
      anew. */
  lemma ObserverHears(s: ServerState, m: Msg, from: Endpoint, h: Handler, ops: seq<ServerOp>, path: seq<byte>,
                      payload: seq<byte>, format: u16, confirmable: bool)
    requires ObserversOk(s.observers, s.resources) && RouteOf(s, m).To? && m.code == GET
    requires s.resources[RouteOf(s, m).idx].observable && FindUint(m.options, OBSERVE) == Just(0)
    requires Observing(s.observers, KeyOf(from, m)) || HasFree(s.observers)
    requires Undisturbed(HandleRequest(s, m, from, h).state, ops, KeyOf(from, m))
    requires var t := StepAll(HandleRequest(s, m, from, h).state, ops);
             FindResource(t.resources, path) == RouteOf(s, m).idx
    ensures var t := StepAll(HandleRequest(s, m, from, h).state, ops);
            Hears(t, Notify(t, path, payload, format, confirmable), KeyOf(from, m),
                  (t.resources[RouteOf(s, m).idx].sequence + 1) % WRAP, payload, format, confirmable)
  {
    hide HandleRequest, RouteOf, ObserversOk, Undisturbed, StepAll, FindResource, FindUint, Notify, Hears, ObserveStep;
    var idx, key := RouteOf(s, m).idx, KeyOf(from, m);
    Registration(s, m, from, h);
    ObserveStepOk(s, idx, m, from);
    var u := HandleRequest(s, m, from, h).state;
    StaysRegistered(u, ops, key, idx);
    WatcherHears(StepAll(u, ops), key, idx, path, payload, format, confirmable);
  }

  lemma WatcherHears(t: ServerState, key: Key, idx: nat, path: seq<byte>, payload: seq<byte>, format: u16,
                     confirmable: bool)
    requires ObserversOk(t.observers, t.resources) && WatchedBy(t.observers, key, idx)
    requires FindResource(t.resources, path) == idx
    ensures Hears(t, Notify(t, path, payload, format, confirmable), key, (t.resources[idx].sequence + 1) % WRAP,
                  payload, format, confirmable)
  {
    hide FindResource, Notify, Hears, Told, MidAfter, ObserversOk;
    WatchedObservable(t, key, idx);
    NotifyReachesObservers(t, path, payload, format, confirmable);
    var i: nat :| i < |t.observers| && t.observers[i].Just? && t.observers[i].value.Id() == key
        && t.observers[i].value.resource == idx;
    var r := t.resources[idx];
    var b := t.(resources := t.resources[idx := r.(sequence := (r.sequence + 1) % WRAP)]);
    assert Watches(b, i, idx);
    assert Told(b, Notify(t, path, payload, format, confirmable), i, idx, payload, format, confirmable,
                MidAfter(b, i, idx));
    ToldHears(t, b, Notify(t, path, payload, format, confirmable), i, key, idx, payload, format, confirmable,
              MidAfter(b, i, idx));
  }

  lemma WatchedObservable(t: ServerState, key: Key, idx: nat)
    requires ObserversOk(t.observers, t.resources) && WatchedBy(t.observers, key, idx)
    ensures idx < |t.resources| && t.resources[idx].observable
  {
  }

  lemma ToldHears(t: ServerState, b: ServerState, o: Outcome, i: nat, key: Key, idx: nat, payload: seq<byte>,
                  format: u16,
                  confirmable: bool, mid: u16)
    requires Watches(b, i, idx) && idx < |b.resources| && i < |o.state.observers| && b.observers == t.observers
    requires t.observers[i].value.Id() == key && Told(b, o, i, idx, payload, format, confirmable, mid)
    ensures Hears(t, o, key, b.resources[idx].sequence, payload, format, confirmable)
  {
    hide EncodeMsg, FindUint;
    var w := b.observers[i].value;
    var m :| Announces(m, w, mid, b.resources[idx].sequence, payload, format, confirmable)
             && ValidMsg(m) && forall d :: d in Transmit(w.remote, m) ==> d in o.sent;
    if |EncodeMsg(m)| <= MAX_MSG_SIZE {
      assert Transmit(w.remote, m)[0] in Transmit(w.remote, m);
    }
  }
}
