/** What every server step keeps: the observer table, deferred slots, sessions, and the reply discipline. */
module ServerProps {
  import opened Types
  import opened Config
  import opened Codec
  import opened OptionValues
  import opened Reliability
  import opened Paths
  import opened Sizes
  import opened ServerSpec

  // ------------------------------------------------------------------ the observer table

  predicate Observable(rs: seq<Resource>, i: nat) {
    i < |rs| && rs[i].observable
  }

  /** No two active observers share (remote, token), and each points at a registered observable resource. */
  predicate ObserversOk(os: seq<Maybe<Observer>>, rs: seq<Resource>) {
    && (forall i, j :: 0 <= i < j < |os| && os[i].Just? && os[j].Just? ==> os[i].value.Id() != os[j].value.Id())
    && (forall i :: 0 <= i < |os| && os[i].Just? ==> Observable(rs, os[i].value.resource))
  }

  predicate Observing(os: seq<Maybe<Observer>>, key: Key) {
    exists i :: 0 <= i < |os| && os[i].Just? && os[i].value.Id() == key
  }

  lemma RegisterOk(os: seq<Maybe<Observer>>, rs: seq<Resource>, idx: nat, from: Endpoint, token: Token)
    requires ObserversOk(os, rs) && Observable(rs, idx)
    ensures ObserversOk(Register(os, idx, from, token), rs)
    ensures forall k :: Observing(os, k) ==> Observing(Register(os, idx, from, token), k)
  {
    var key := Key(from.Addr(), token);
    var i, j := First(os, HasObserverKey(key)), First(os, IsFree<Observer>());
    hide First;
    if i >= 0 {
      PutOk(os, rs, i, os[i].value.(resource := idx));
    } else if j >= 0 {
      assert forall l :: 0 <= l < |os| && os[l].Just? ==> !HasObserverKey(key)(os[l]);
      PutOk(os, rs, j, Observer(idx, from, token, 0));
    }
  }

  /** Writing an observer into a free slot, or over one with its key. */
  lemma PutOk(os: seq<Maybe<Observer>>, rs: seq<Resource>, i: nat, o: Observer)
    requires ObserversOk(os, rs) && i < |os| && Observable(rs, o.resource)
    requires os[i].Just? ==> os[i].value.Id() == o.Id()
    requires os[i].Nothing? ==> forall l :: 0 <= l < |os| && os[l].Just? ==> os[l].value.Id() != o.Id()
    ensures ObserversOk(os[i := Just(o)], rs)
    ensures forall k :: Observing(os, k) ==> Observing(os[i := Just(o)], k)
  {
    var r := os[i := Just(o)];
    forall k | Observing(os, k) ensures Observing(r, k) {
      var l :| 0 <= l < |os| && os[l].Just? && os[l].value.Id() == k;
      assert r[l].Just? && r[l].value.Id() == k;
    }
  }

  lemma StampOk(os: seq<Maybe<Observer>>, rs: seq<Resource>, key: Key, mid: u16)
    requires ObserversOk(os, rs)
    ensures ObserversOk(Stamp(os, key, mid), rs)
    ensures forall k :: Observing(os, k) ==> Observing(Stamp(os, key, mid), k)
  {
    var r := Stamp(os, key, mid);
    forall k | Observing(os, k) ensures Observing(r, k) {
      var i :| 0 <= i < |os| && os[i].Just? && os[i].value.Id() == k;
      assert r[i].Just? && r[i].value.Id() == k;
    }
  }

  lemma RemoveKeyOk(os: seq<Maybe<Observer>>, rs: seq<Resource>, key: Key)
    requires ObserversOk(os, rs)
    ensures ObserversOk(RemoveKey(os, key), rs)
    ensures !Observing(RemoveKey(os, key), key)
    ensures forall k :: k != key && Observing(os, k) ==> Observing(RemoveKey(os, key), k)
    ensures forall k :: Observing(RemoveKey(os, key), k) ==> Observing(os, k)
  {
    var r := RemoveKey(os, key);
    forall k | k != key && Observing(os, k) ensures Observing(r, k) {
      var i :| 0 <= i < |os| && os[i].Just? && os[i].value.Id() == k;
      assert r[i].Just? && r[i].value.Id() == k;
    }
    forall k | Observing(r, k) ensures Observing(os, k) {
      var i :| 0 <= i < |r| && r[i].Just? && r[i].value.Id() == k;
      assert os[i].Just? && os[i].value.Id() == k;
    }
  }

  /** Some timeout callback of the tick names this key. */
  predicate Expires(fired: seq<Firing>, key: Key) {
    exists i :: 0 <= i < |fired| && fired[i].Expire? && Key(fired[i].remote.Addr(), fired[i].token) == key
  }

  lemma {:induction false} RemoveExpiredOk(os: seq<Maybe<Observer>>, rs: seq<Resource>, fired: seq<Firing>)
    requires ObserversOk(os, rs)
    ensures ObserversOk(RemoveExpired(os, fired), rs)
    ensures forall k :: Expires(fired, k) ==> !Observing(RemoveExpired(os, fired), k)
    ensures forall k :: !Expires(fired, k) && Observing(os, k) ==> Observing(RemoveExpired(os, fired), k)
  {
    hide ObserversOk, Observing, RemoveKey;
    if fired != [] {
      var n := |fired| - 1;
      var before := fired[..n];
      RemoveExpiredOk(os, rs, before);
      var mid := RemoveExpired(os, before);
      ExpiresSnoc(fired);
      if fired[n].Expire? { RemoveKeyOk(mid, rs, Key(fired[n].remote.Addr(), fired[n].token)); }
    }
  }

  lemma ExpiresSnoc(fired: seq<Firing>)
    requires fired != []
    ensures var n := |fired| - 1;
            forall k :: Expires(fired, k) <==>
              Expires(fired[..n], k) || (fired[n].Expire? && Key(fired[n].remote.Addr(), fired[n].token) == k)
  {
    var n := |fired| - 1;
    forall k
      ensures Expires(fired, k) <==>
              Expires(fired[..n], k) || (fired[n].Expire? && Key(fired[n].remote.Addr(), fired[n].token) == k)
    {
      if Expires(fired, k) {
        var i :| 0 <= i < |fired| && fired[i].Expire? && Key(fired[i].remote.Addr(), fired[i].token) == k;
        if i < n { assert fired[..n][i] == fired[i]; }
      }
      if Expires(fired[..n], k) {
        var i :| 0 <= i < n && fired[..n][i].Expire? && Key(fired[..n][i].remote.Addr(), fired[..n][i].token) == k;
        assert fired[i] == fired[..n][i];
      }
    }
  }

  lemma ObserveStepOk(s: ServerState, idx: nat, m: Msg, from: Endpoint)
    requires ObserversOk(s.observers, s.resources) && idx < |s.resources|
    ensures ObserversOk(ObserveStep(s, idx, m, from).observers, s.resources)
    ensures forall k :: Observing(s.observers, k) && !IsDeregistration(m, from, k) ==>
              Observing(ObserveStep(s, idx, m, from).observers, k)
  {
    hide ObserversOk, Observing, Register, Stamp, RemoveKey, FindOption;
    var r := s.resources[idx];
    if IsObserveRequest(r, m) {
      if ReadUint(FindOption(m.options, OBSERVE).value) == 0 {
        RegisterOk(s.observers, s.resources, idx, from, m.token);
        StampOk(Register(s.observers, idx, from, m.token), s.resources, KeyOf(from, m), m.mid);
      } else {
        RemoveKeyOk(s.observers, s.resources, KeyOf(from, m));
      }
    }
  }

  /** A GET from this key with a non-zero Observe option. */
  predicate IsDeregistration(m: Msg, from: Endpoint, key: Key) {
    && KeyOf(from, m) == key && m.code == GET
    && FindOption(m.options, OBSERVE).Just? && ReadUint(FindOption(m.options, OBSERVE).value) != 0
  }

  /** A Reset from the observer's remote for the last message sent to it. */
  predicate IsMatchingReset(s: ServerState, m: Msg, from: Endpoint, key: Key) {
    m.typ.RST? && exists i :: 0 <= i < |s.observers| && HasLastMid(from.Addr(), m.mid)(s.observers[i]) && s.observers[i].value.Id() == key
  }

  /** The only three ways an observer leaves the table. */
  predicate MayLeave(s: ServerState, op: ServerOp, key: Key) {
    match op
    case OpReceive(from, bytes, _) =>
      var d := DecodeMsg(Received(bytes));
      d.Decoded? && (IsDeregistration(d.msg, from, key) || IsMatchingReset(s, d.msg, from, key))
    case OpTickTo(now) => Expires(Firings(Wrapping, s.pool, now % WRAP), key)
    case _ => false
  }

  predicate ResourcesKept(rs: seq<Resource>, qs: seq<Resource>) {
    |rs| <= |qs| && forall i :: 0 <= i < |rs| ==> qs[i].path == rs[i].path && qs[i].observable == rs[i].observable && qs[i].methods == rs[i].methods
  }

  lemma KeptOk(os: seq<Maybe<Observer>>, rs: seq<Resource>, qs: seq<Resource>)
    requires ObserversOk(os, rs) && ResourcesKept(rs, qs)
    ensures ObserversOk(os, qs)
  {
  }

  lemma ReceiveObservers(s: ServerState, from: Endpoint, m: Msg, h: Handler)
    requires ObserversOk(s.observers, s.resources)
    ensures var t := ReceiveMsg(s, from, m, h).state;
            && ObserversOk(t.observers, t.resources)
            && forall k :: Observing(s.observers, k) && !IsDeregistration(m, from, k) && !IsMatchingReset(s, m, from, k)
                           ==> Observing(t.observers, k)
  {
    hide HandleRequest, ObserveStep, FindOption, AfterComplete, IsDeregistration;
    var t := ReceiveMsg(s, from, m, h).state;
    if m.typ.RST? {
      var i := First(s.observers, HasLastMid(from.Addr(), m.mid));
      forall k | Observing(s.observers, k) && !IsMatchingReset(s, m, from, k) ensures Observing(t.observers, k) {
        var j :| 0 <= j < |s.observers| && s.observers[j].Just? && s.observers[j].value.Id() == k;
        assert j != i;
        assert t.observers[j] == s.observers[j];
      }
    } else if !m.typ.ACK? && IsMethodCode(m.code) {
      if RouteOf(s, m).To? { ObserveStepOk(s, RouteOf(s, m).idx, m, from); }
    }
  }

  lemma NotifyOneObservers(s: ServerState, i: nat, idx: nat, payload: seq<byte>, format: u16, confirmable: bool)
    requires ObserversOk(s.observers, s.resources) && i < |s.observers| && idx < |s.resources|
    ensures var t := NotifyOne(s, i, idx, payload, format, confirmable).state;
            && t.resources == s.resources && ObserversOk(t.observers, t.resources)
            && (forall k :: Observing(s.observers, k) ==> Observing(t.observers, k))
  {
    hide AfterStart, EncodeMsg, Notification, Transmit;
    var t := NotifyOne(s, i, idx, payload, format, confirmable).state;
    forall k | Observing(s.observers, k) ensures Observing(t.observers, k) {
      var j :| 0 <= j < |s.observers| && s.observers[j].Just? && s.observers[j].value.Id() == k;
      assert t.observers[j].Just? && t.observers[j].value.Id() == k;
    }
  }

  lemma {:induction false} NotifyObservers(s: ServerState, k: nat, idx: nat, payload: seq<byte>, format: u16,
                                           confirmable: bool)
    requires ObserversOk(s.observers, s.resources) && k <= |s.observers| && idx < |s.resources|
    ensures var t := NotifyUpTo(s, k, idx, payload, format, confirmable).state;
            && ObserversOk(t.observers, t.resources)
            && (forall key :: Observing(s.observers, key) ==> Observing(t.observers, key))
  {
    hide NotifyOne, ObserversOk, Observing;
    if k > 0 {
      NotifyObservers(s, k - 1, idx, payload, format, confirmable);
      NotifyOneObservers(NotifyUpTo(s, k - 1, idx, payload, format, confirmable).state, k - 1, idx, payload, format,
                         confirmable);
    }
  }

  /** Every step keeps the observer table well formed, and an observer that is gone after a step left through a
      same-key deregistering GET, a matching Reset or a same-key timeout. */
  lemma ObserverTable(s: ServerState, op: ServerOp)
    requires ObserversOk(s.observers, s.resources)
    ensures var t := ServerStep(s, op).state;
            && ObserversOk(t.observers, t.resources) && ResourcesKept(s.resources, t.resources)
            && forall k :: Observing(s.observers, k) && !Observing(t.observers, k) ==> MayLeave(s, op, k)
  {
    hide ObserversOk, Observing, FindResource, ReceiveMsg, DecodeMsg, Firings, NotifyUpTo, IsDeregistration,
         IsMatchingReset, AfterTick;
    var t := ServerStep(s, op).state;
    match op
    case OpAdd(path, methods, observable) => KeptOk(s.observers, s.resources, t.resources);
    case OpTickTo(now) => RemoveExpiredOk(s.observers, s.resources, Firings(Wrapping, s.pool, now % WRAP));
    case OpReceive(from, bytes, h) =>
      var d := DecodeMsg(Received(bytes));
      if d.Decoded? {
        ReceiveObservers(s, from, d.msg, h);
        ReceiveKeepsResources(s, from, d.msg, h);
      }
    case OpNotify(path, payload, format, confirmable) =>
      if CanNotify(s, path) {
        var idx := FindResource(s.resources, path);
        KeptOk(s.observers, s.resources, BumpSequence(s, idx).resources);
        NotifyObservers(BumpSequence(s, idx), |s.observers|, idx, payload, format, confirmable);
      }
    case OpRespond(handle, code, payload, format) =>
  }

  lemma ReceiveKeepsResources(s: ServerState, from: Endpoint, m: Msg, h: Handler)
    ensures ReceiveMsg(s, from, m, h).state.resources == s.resources
  {
    hide HandleRequest, AfterComplete;
  }

  /** The invariant in every reachable state. */
  lemma {:induction false} ObserverTableAlways(ops: seq<ServerOp>)
    ensures ObserversOk(RunServer(ops).observers, RunServer(ops).resources)
  {
    hide ServerStep;
    if ops != [] {
      ObserverTableAlways(ops[..|ops| - 1]);
      ObserverTable(RunServer(ops[..|ops| - 1]), ops[|ops| - 1]);
    }
  }

  // ------------------------------------------------------------------ routing by the path of the request

  /** A client's request for a NUL-free path reaches the server as the normalised path: it is refused for its length
      exactly when that path and its NUL do not fit the server's path buffer, and is otherwise routed by that path. */
  lemma RequestRouted(s: ServerState, m: Msg, before: seq<Opt>, path: seq<byte>, after: seq<Opt>)
    requires ValidMsg(m) && m.options == before + UriOptions(Segments(path)) + after && NulFree(path)
    requires SegmentsFit(Segments(path))
    requires forall i :: 0 <= i < |before| ==> before[i].number != URI_PATH
    requires forall i :: 0 <= i < |after| ==> after[i].number != URI_PATH
    ensures DecodeMsg(EncodeMsg(m)) == Decoded(m) && RequestPath(m) == Normalize(path)
    ensures RouteOf(s, m) == Refused(BAD_OPTION) <==> |Normalize(path)| >= MAX_URI_PATH_LEN
    ensures |Normalize(path)| < MAX_URI_PATH_LEN ==>
              var idx := FindResource(s.resources, Normalize(path));
              RouteOf(s, m) == if idx < 0 then Refused(NOT_FOUND)
                               else if m.code !in {GET, POST, PUT, DELETE} then Refused(NOT_IMPLEMENTED)
                               else if m.code !in s.resources[idx].methods then Refused(METHOD_NOT_ALLOWED) else To(idx)
  {
    hide DecodeMsg, EncodeMsg, Segments, CString, JoinPath, FindResource, SegmentsFit;
    DecodeEncode(m);
    PathReadBack(m, before, path, after);
    CStringNotLonger(JoinPath(m.options));
  }

  // ------------------------------------------------------------------ notifications

  predicate Watches(s: ServerState, i: nat, idx: nat) {
    i < |s.observers| && s.observers[i].Just? && s.observers[i].value.resource == idx
  }

  /** Observer `i` was told: it remembers the message ID, and the message, if it fits, was sent to it. */
  ghost predicate Told(s: ServerState, o: Outcome, i: nat, idx: nat, payload: seq<byte>, format: u16, confirmable: bool,
                       mid: u16)
    requires Watches(s, i, idx) && idx < |s.resources| && i < |o.state.observers|
  {
    var w := s.observers[i].value;
    && o.state.observers[i] == Just(w.(lastMid := mid))
    && exists m :: Announces(m, w, mid, s.resources[idx].sequence, payload, format, confirmable)
                   && ValidMsg(m) && forall d :: d in Transmit(w.remote, m) ==> d in o.sent
  }

  /** A 2.05 for the observer's token with the sequence number, the content format and the payload. */
  predicate Announces(m: Msg, w: Observer, mid: u16, sequence: u32, payload: seq<byte>, format: u16,
                      confirmable: bool) {
    && m.code == CONTENT && m.token == w.token && m.mid == mid && m.typ == (if confirmable then CON else NON)
    && FindUint(m.options, OBSERVE) == Just(sequence) && FindUint(m.options, CONTENT_FORMAT) == Just(format)
    && m.payload == payload
  }

  lemma NotificationSays(w: Observer, mid: u16, sequence: u32, payload: seq<byte>, format: u16, confirmable: bool)
    ensures Announces(Notification(w, mid, sequence, payload, format, confirmable), w, mid, sequence, payload, format,
                      confirmable)
  {
    hide UintBytes, FindUint;
    var os := Notification(w, mid, sequence, payload, format, confirmable).options;
    FindsUint(os, 0, sequence);
    FindsUint(os, 1, format);
  }

  /** A datagram that is the notification of some observer of the resource, as the observer will decode it. */
  ghost predicate IsNotification(s: ServerState, d: Datagram, k: nat, idx: nat, payload: seq<byte>, format: u16,
                                 confirmable: bool)
    requires idx < |s.resources|
  {
    DecodeMsg(d.bytes).Decoded?
    && var m := DecodeMsg(d.bytes).msg;
       exists i :: 0 <= i < k && Watches(s, i, idx) && d.remote == s.observers[i].value.remote
         && Announces(m, s.observers[i].value, m.mid, s.resources[idx].sequence, payload, format, confirmable)
  }

  /** After `k` slots `notify` has told every observer of the resource among them, with message IDs counting up from
      the first free one, left every other observer alone, and sent nothing but their notifications, at most one each.
      */
  ghost predicate ToldUpTo(s: ServerState, o: Outcome, k: nat, idx: nat, payload: seq<byte>, format: u16,
                           confirmable: bool)
    requires idx < |s.resources|
  {
    && |o.state.observers| == |s.observers| && o.state.resources == s.resources
    && o.state.nextMid == MidAfter(s, k, idx) && |o.sent| <= CountWatching(s, k, idx)
    && (forall i: nat :: i < k && Watches(s, i, idx) ==>
        Told(s, o, i, idx, payload, format, confirmable, MidAfter(s, i, idx)))
    && (forall i: nat :: i < |s.observers| && (i >= k || !Watches(s, i, idx)) ==>
        o.state.observers[i] == s.observers[i])
    && (forall d :: d in o.sent ==> IsNotification(s, d, k, idx, payload, format, confirmable))
  }

  function MidAfter(s: ServerState, k: nat, idx: nat): u16 {
    (s.nextMid + CountWatching(s, k, idx)) % 0x1_0000
  }

  lemma NextMid(s: ServerState, k: nat, idx: nat)
    ensures MidAfter(s, k + 1, idx) == (MidAfter(s, k, idx) + if Watches(s, k, idx) then 1 else 0) % 0x1_0000
  {
  }

  lemma TellNext(s: ServerState, before: Outcome, k: nat, idx: nat, payload: seq<byte>, format: u16, confirmable: bool)
    requires idx < |s.resources| && k < |s.observers| && ToldUpTo(s, before, k, idx, payload, format, confirmable)
    ensures var last := NotifyOne(before.state, k, idx, payload, format, confirmable);
            ToldUpTo(s, last.(sent := before.sent + last.sent), k + 1, idx, payload, format, confirmable)
  {
    hide NotifyOne, Told, IsNotification, MidAfter, Watches;
    var last := NotifyOne(before.state, k, idx, payload, format, confirmable);
    var o := last.(sent := before.sent + last.sent);
    TellOne(s, before.state, k, idx, payload, format, confirmable);
    NextMid(s, k, idx);
    forall i: nat | i < k + 1 && Watches(s, i, idx)
      ensures i < |o.state.observers| && Told(s, o, i, idx, payload, format, confirmable, MidAfter(s, i, idx))
    {
      WatchesBelow(s, i, idx);
      ToldLater(s, if i < k then before else last, o, i, idx, payload, format, confirmable, MidAfter(s, i, idx));
    }
    forall d | d in o.sent ensures IsNotification(s, d, k + 1, idx, payload, format, confirmable) {
      if d in before.sent { MoreNotifications(s, d, k, idx, payload, format, confirmable); }
    }
  }

  lemma WatchesBelow(s: ServerState, i: nat, idx: nat)
    requires Watches(s, i, idx)
    ensures i < |s.observers|
  {
  }

  lemma {:induction false} NotifyTells(s: ServerState, k: nat, idx: nat, payload: seq<byte>, format: u16,
                                       confirmable: bool)
    requires k <= |s.observers| && idx < |s.resources|
    ensures ToldUpTo(s, NotifyUpTo(s, k, idx, payload, format, confirmable), k, idx, payload, format, confirmable)
  {
    hide NotifyOne, ToldUpTo;
    if k == 0 {
      TellsNone(s, idx, payload, format, confirmable);
    } else {
      NotifyTells(s, k - 1, idx, payload, format, confirmable);
      TellNext(s, NotifyUpTo(s, k - 1, idx, payload, format, confirmable), k - 1, idx, payload, format, confirmable);
    }
  }

  lemma TellsNone(s: ServerState, idx: nat, payload: seq<byte>, format: u16, confirmable: bool)
    requires idx < |s.resources|
    ensures ToldUpTo(s, Outcome(s, [], []), 0, idx, payload, format, confirmable)
  {
    hide Told, IsNotification;
  }

  function CountWatching(s: ServerState, k: nat, idx: nat): nat {
    if k == 0 then 0 else CountWatching(s, k - 1, idx) + if Watches(s, k - 1, idx) then 1 else 0
  }

  lemma TellOne(s: ServerState, t: ServerState, i: nat, idx: nat, payload: seq<byte>, format: u16, confirmable: bool)
    requires |t.observers| == |s.observers| && i < |s.observers| && idx < |s.resources| && t.resources == s.resources
    requires t.observers[i] == s.observers[i]
    ensures var o := NotifyOne(t, i, idx, payload, format, confirmable);
            && |o.state.observers| == |t.observers| && o.state.resources == t.resources
            && o.state.nextMid == (t.nextMid + if Watches(s, i, idx) then 1 else 0) % 0x1_0000
            && |o.sent| <= (if Watches(s, i, idx) then 1 else 0)
            && (Watches(s, i, idx) ==> Told(s, o, i, idx, payload, format, confirmable, t.nextMid))
            && (!Watches(s, i, idx) ==> o.state.observers[i] == s.observers[i])
            && (forall j :: 0 <= j < |t.observers| && j != i ==> o.state.observers[j] == t.observers[j])
            && (forall d :: d in o.sent ==> IsNotification(s, d, i + 1, idx, payload, format, confirmable))
  {
    hide EncodeMsg, DecodeMsg, Notification, AfterStart, Announces;
    if Watches(s, i, idx) {
      var m := Notification(s.observers[i].value, t.nextMid, s.resources[idx].sequence, payload, format, confirmable);
      DecodeEncode(m);
      NotificationSays(s.observers[i].value, t.nextMid, s.resources[idx].sequence, payload, format, confirmable);
      AnnouncedMid(m, s.observers[i].value, t.nextMid, s.resources[idx].sequence, payload, format, confirmable);
    }
  }

  lemma AnnouncedMid(m: Msg, w: Observer, mid: u16, sequence: u32, payload: seq<byte>, format: u16, confirmable: bool)
    requires Announces(m, w, mid, sequence, payload, format, confirmable)
    ensures m.mid == mid
  {
  }

  lemma ToldLater(s: ServerState, o: Outcome, p: Outcome, i: nat, idx: nat, payload: seq<byte>, format: u16,
                  confirmable: bool, mid: u16)
    requires Watches(s, i, idx) && idx < |s.resources| && i < |o.state.observers| == |p.state.observers|
    requires Told(s, o, i, idx, payload, format, confirmable, mid)
    requires p.state.observers[i] == o.state.observers[i] && forall d :: d in o.sent ==> d in p.sent
    ensures Told(s, p, i, idx, payload, format, confirmable, mid)
  {
    hide Transmit, Announces;
  }

  lemma MoreNotifications(s: ServerState, d: Datagram, k: nat, idx: nat, payload: seq<byte>, format: u16,
                          confirmable: bool)
    requires idx < |s.resources| && IsNotification(s, d, k, idx, payload, format, confirmable)
    ensures IsNotification(s, d, k + 1, idx, payload, format, confirmable)
  {
    hide DecodeMsg, Announces;
  }

  /** A notify on an observable resource raises its sequence number by one and tells exactly its observers; on any other
      path it does nothing. */
  lemma NotifyReachesObservers(s: ServerState, path: seq<byte>, payload: seq<byte>, format: u16, confirmable: bool)
    ensures var idx := FindResource(s.resources, path);
            if idx < 0 || !s.resources[idx].observable then
              Notify(s, path, payload, format, confirmable) == Outcome(s, [], [])
            else
            var r := s.resources[idx];
            var b := s.(resources := s.resources[idx := r.(sequence := (r.sequence + 1) % WRAP)]);
            ToldUpTo(b, Notify(s, path, payload, format, confirmable), |s.observers|, idx, payload, format, confirmable)
  {
    hide FindResource, NotifyUpTo, ToldUpTo;
    var idx := FindResource(s.resources, path);
    if idx >= 0 { NotifyTells(BumpSequence(s, idx), |s.observers|, idx, payload, format, confirmable); }
  }

  // ------------------------------------------------------------------ deferred responses

  /** A request takes one more deferred slot exactly when its handler deferred with a slot free: the lowest free one,
      the one whose handle the handler was given, bound to the request. */
  lemma DeferralBinds(s: ServerState, m: Msg, from: Endpoint, h: Handler)
    ensures var o := HandleRequest(s, m, from, h);
            var wants := o.calls != [] && h(o.calls[0].resource, o.calls[0].request).deferred;
            if wants && (exists i :: 0 <= i < |s.deferred| && s.deferred[i].Nothing?) then
              exists i: nat :: TakesSlot(s, o.state, i, Deferred(from, m.token, m.typ.CON?)) && o.calls[0].request.deferHandle == Just(i)
            else o.state.deferred == s.deferred
  {
    hide HandleRequest;
    var o := HandleRequest(s, m, from, h);
    var d := First(s.deferred, IsFree<Deferred>());
    if d >= 0 && o.calls != [] && h(o.calls[0].resource, o.calls[0].request).deferred {
      assert TakesSlot(s, o.state, d, Deferred(from, m.token, m.typ.CON?));
    }
  }

  predicate TakesSlot(s: ServerState, t: ServerState, i: nat, d: Deferred) {
    && i < |s.deferred| && s.deferred[i].Nothing? && (forall j :: 0 <= j < i ==> s.deferred[j].Just?)
    && t.deferred == s.deferred[i := Just(d)]
  }

  /** From deferral until `respond` consumes it, a slot keeps its remote, token and kind through every other step. */
  lemma DeferredBinding(s: ServerState, op: ServerOp, i: nat)
    requires i < |s.deferred| && s.deferred[i].Just? && !(op.OpRespond? && op.handle == i)
    ensures var t := ServerStep(s, op).state; |t.deferred| == |s.deferred| && t.deferred[i] == s.deferred[i]
  {
    hide HandleRequest, DecodeMsg, NotifyUpTo, FindResource, AfterTick, AfterComplete, RemoveExpired, Firings,
         AfterStart;
    match op
    case OpReceive(from, bytes, h) =>
    case OpNotify(path, payload, format, confirmable) =>
      if CanNotify(s, path) {
        var idx := FindResource(s.resources, path);
        NotifyKeepsDeferred(BumpSequence(s, idx), |s.observers|, idx, payload, format, confirmable);
      }
    case _ =>
  }

  lemma {:induction false} NotifyKeepsDeferred(s: ServerState, k: nat, idx: nat, payload: seq<byte>, format: u16,
                                               confirmable: bool)
    requires k <= |s.observers| && idx < |s.resources|
    ensures var t := NotifyUpTo(s, k, idx, payload, format, confirmable).state;
            t.deferred == s.deferred && t.sessions == s.sessions && t.now == s.now
  {
    hide AfterStart, EncodeMsg, Notification, Transmit;
    if k > 0 { NotifyKeepsDeferred(s, k - 1, idx, payload, format, confirmable); }
  }

  function StepAll(s: ServerState, ops: seq<ServerOp>): ServerState {
    if ops == [] then s else ServerStep(StepAll(s, ops[..|ops| - 1]), ops[|ops| - 1]).state
  }

  /** Over a whole run without `respond(i)` the binding of slot i stands, and the `respond(i)` that ends it answers that
      remote with that token, as CON exactly when the request was CON. */
  lemma {:induction false} DeferredUntilRespond(s: ServerState, ops: seq<ServerOp>, i: nat, code: byte,
                                                payload: seq<byte>, format: u16)
    requires i < |s.deferred| && s.deferred[i].Just?
    requires forall k :: 0 <= k < |ops| ==> !(ops[k].OpRespond? && ops[k].handle == i)
    ensures var t := StepAll(s, ops);
            && |t.deferred| == |s.deferred| && t.deferred[i] == s.deferred[i]
            && var d, o := s.deferred[i].value, Respond(t, i, code, payload, format);
               var m := SeparateResponse(d, t.nextMid, code, payload, format);
               && o.sent == Transmit(d.remote, m) && m.token == d.token && (m.typ.CON? <==> d.wasConfirmable)
               && o.state.deferred == t.deferred[i := Nothing]
  {
    hide ServerStep, AfterStart, EncodeMsg;
    if ops != [] {
      var n := |ops| - 1;
      DeferredUntilRespond(s, ops[..n], i, code, payload, format);
      DeferredBinding(StepAll(s, ops[..n]), ops[n], i);
    }
  }

  // ------------------------------------------------------------------ reply discipline

  /** What a reply says, apart from its header. */
  datatype Content = Content(code: byte, options: seq<Opt>, payload: seq<byte>)

  function Bare(code: byte): Content {
    Content(code, [], [])
  }

  function Continue(num: nat, more: bool, szx: nat): (c: Content)
    ensures ValidOptions(c.options)
  {
    Content(CONTINUE, [BlockOpt(BLOCK1, num, more, szx)], [])
  }

  /** The answer to an upload block that completes nothing, for a session that expects block `next` and holds `held`
      bytes. */
  function TakenContent(next: nat, held: nat, m: Msg, b: Block): (c: Content)
    ensures ValidOptions(c.options)
  {
    if b.num != next then Continue((next - 1) % WRAP, true, b.szx)
    else if held + |m.payload| > BLOCK1_MAX_BODY then Bare(REQUEST_ENTITY_TOO_LARGE)
    else Continue(b.num, false, b.szx)
  }

  function BlockContent(s: ServerState, m: Msg, from: Endpoint, value: seq<byte>): (c: Content)
    ensures ValidOptions(c.options)
  {
    var b, i := ReadBlock(value), SessionSlot(s.sessions, KeyOf(from, m));
    if b.Nothing? then Bare(BAD_OPTION)
    else if i >= 0 then TakenContent(s.sessions[i].value.next, |s.sessions[i].value.body|, m, b.value)
    else if b.value.num != 0 then Bare(REQUEST_ENTITY_INCOMPLETE)
    else if First(s.sessions, IsFree<Session>()) < 0 then Bare(SERVICE_UNAVAILABLE)
    else TakenContent(0, 0, m, b.value)
  }

  /** The body an upload block completes: the expected block, the last one, within the body limit. */
  function Completed(next: nat, held: seq<byte>, m: Msg, b: Block): Maybe<seq<byte>> {
    if b.num == next && |held| + |m.payload| <= BLOCK1_MAX_BODY && !b.more then Just(held + m.payload) else Nothing
  }

  function CompletedBy(s: ServerState, m: Msg, from: Endpoint, value: seq<byte>): Maybe<seq<byte>> {
    var b, i := ReadBlock(value), SessionSlot(s.sessions, KeyOf(from, m));
    if b.Nothing? then Nothing
    else if i >= 0 then Completed(s.sessions[i].value.next, s.sessions[i].value.body, m, b.value)
    else if First(s.sessions, IsFree<Session>()) < 0 then Nothing
    else Completed(0, [], m, b.value)
  }

  /** The handler is called exactly when there is a completed body, and sees it. */
  predicate CalledWith(o: Outcome, body: Maybe<seq<byte>>) {
    (o.calls != [] <==> body.Just?) && (o.calls != [] ==> o.calls[0].request.body == body)
  }

  /** Block-wise answers go to requests that ask for a block or would need more than one. */
  predicate Fragments(m: Msg, res: Response) {
    !IsUploadBlock(m) && res.payload != [] && (RequestedBlock2(m).Just? || |res.payload| > BlockSize(BLOCK_SZX))
  }

  /** The answer to a request whose handler answered inline: its code with the payload, or with the slice asked for. */
  function AnswerContent(m: Msg, res: Response, observe: Maybe<u32>): (c: Content)
    ensures ValidOptions(c.options)
  {
    if !Fragments(m, res) then Content(res.code, PiggybackOptions(res.payload, res.format, observe), res.payload)
    else
      var b := if RequestedBlock2(m).Just? then RequestedBlock2(m).value else Block(0, false, BLOCK_SZX);
      var offset := b.num * BlockSize(b.szx);
      if offset >= |res.payload| then Bare(BAD_REQUEST)
      else Content(res.code,
                   Block2Options(res.format, observe, b.num, |res.payload| - offset > BlockSize(b.szx), b.szx),
                   Slice(res.payload, offset, BlockSize(b.szx)))
  }

  /** What a request is owed, given the handler call it led to, if any. */
  function Owed(s: ServerState, m: Msg, from: Endpoint, h: Handler, calls: seq<Call>): (c: Content)
    ensures ValidOptions(c.options)
  {
    match RouteOf(s, m)
    case Refused(code) => Bare(code)
    case To(idx) =>
      if calls != [] then AnswerContent(m, h(idx, calls[0].request), ObserveValue(s, idx, m))
      else if IsUploadBlock(m) then BlockContent(s, m, from, FindOption(m.options, BLOCK1).value) else Bare(EMPTY)
  }

  /** An ACK with the request's message ID for CON, a NON with the next ID for NON, with the request's token. */
  function ReplyWith(m: Msg, mid: u16, c: Content): (r: Msg)
    requires ValidOptions(c.options)
    ensures ValidMsg(r)
  {
    if m.typ.CON? then Msg(ACK, c.code, m.mid, m.token, c.options, c.payload)
    else Msg(NON, c.code, mid, m.token, c.options, c.payload)
  }

  /** The content goes out if it fits; a deferral is answered by the empty ACK, if at all. The counter moves exactly
      for a NON reply. */
  predicate Pays(m: Msg, from: Endpoint, mid: u16, o: Outcome, c: Content, deferred: bool)
    requires ValidOptions(c.options)
  {
    && o.sent == (if deferred then AckDeferral(m, from) else Transmit(from, ReplyWith(m, mid, c)))
    && o.state.nextMid == (if m.typ.CON? || deferred then mid else (mid + 1) % 0x1_0000)
  }

  /** Either the handler was called and its answer is paid, or it was not and `c` is. */
  predicate PaysFor(s: ServerState, idx: nat, m: Msg, from: Endpoint, observe: Maybe<u32>, h: Handler, o: Outcome,
                    c: Content)
    requires ValidOptions(c.options)
  {
    if o.calls == [] then Pays(m, from, s.nextMid, o, c, false) && o.state.deferred == s.deferred
    else
      && o.calls[0].resource == idx
      && Pays(m, from, s.nextMid, o, AnswerContent(m, h(idx, o.calls[0].request), observe), o.state.deferred != s.deferred)
  }

  lemma ReplyPays(s: ServerState, m: Msg, from: Endpoint, code: byte, options: seq<Opt>, payload: seq<byte>)
    requires ValidOptions(options)
    ensures Pays(m, from, s.nextMid, Reply(s, m, from, code, options, payload), Content(code, options, payload), false)
  {
    hide Transmit;
  }

  lemma PlainPays(s: ServerState, m: Msg, from: Endpoint, code: byte)
    ensures Pays(m, from, s.nextMid, Plain(s, m, from, code), Bare(code), false)
  {
    hide Reply, Pays;
    assert PiggybackOptions([], 0, Nothing) == [];
    ReplyPays(s, m, from, code, [], []);
  }

  lemma Respond2Pays(s: ServerState, m: Msg, from: Endpoint, res: Response, observe: Maybe<u32>)
    requires !IsUploadBlock(m)
    ensures Pays(m, from, s.nextMid, Respond2(s, m, from, res, observe), AnswerContent(m, res, observe), false)
  {
    hide Reply, Plain, Pays, RequestedBlock2, Block2Options, PiggybackOptions, BlockSize, IsUploadBlock;
    var b := if RequestedBlock2(m).Just? then RequestedBlock2(m).value else Block(0, false, BLOCK_SZX);
    var offset := b.num * BlockSize(b.szx);
    PlainPays(s, m, from, BAD_REQUEST);
    ReplyPays(s, m, from, res.code, PiggybackOptions(res.payload, res.format, observe), res.payload);
    if offset < |res.payload| {
      ReplyPays(s, m, from, res.code,
                Block2Options(res.format, observe, b.num, |res.payload| - offset > BlockSize(b.szx), b.szx),
                Slice(res.payload, offset, BlockSize(b.szx)));
    }
  }

  lemma HandlePlainPays(s: ServerState, idx: nat, m: Msg, from: Endpoint, params: seq<PathParam>, observe: Maybe<u32>,
                        h: Handler)
    requires !IsUploadBlock(m)
    ensures PaysFor(s, idx, m, from, observe, h, HandlePlain(s, idx, m, from, params, observe, h), Bare(EMPTY))
  {
    hide AckDeferral, Respond2, AnswerContent, IsUploadBlock, Transmit;
    var run := RunHandler(s, idx, m, from, params, Nothing, h);
    if !run.kept { Respond2Pays(run.state, m, from, run.response, observe); }
  }

  lemma FinishUploadPays(s: ServerState, i: nat, idx: nat, m: Msg, from: Endpoint, params: seq<PathParam>,
                         observe: Maybe<u32>,
                         body: seq<byte>, h: Handler, c: Content)
    requires i < |s.sessions| && IsUploadBlock(m) && ValidOptions(c.options)
    ensures var o := FinishUpload(s, i, idx, m, from, params, observe, body, h);
            PaysFor(s, idx, m, from, observe, h, o, c) && CalledWith(o, Just(body))
  {
    hide AckDeferral, Reply, PiggybackOptions, IsUploadBlock, Transmit;
    var run := RunHandler(s, idx, m, from, params, Just(body), h);
    var s1 := run.state.(sessions := run.state.sessions[i := Nothing]);
    if !run.kept {
      ReplyPays(s1, m, from, run.response.code, PiggybackOptions(run.response.payload, run.response.format, observe),
                run.response.payload);
    }
  }

  lemma AcceptBlockPays(s: ServerState, i: nat, idx: nat, m: Msg, from: Endpoint, params: seq<PathParam>,
                        observe: Maybe<u32>,
                        b: Block, h: Handler)
    requires i < |s.sessions| && s.sessions[i].Just? && IsUploadBlock(m)
    ensures var o, sess := AcceptBlock(s, i, idx, m, from, params, observe, b, h), s.sessions[i].value;
            && PaysFor(s, idx, m, from, observe, h, o, TakenContent(sess.next, |sess.body|, m, b))
            && CalledWith(o, Completed(sess.next, sess.body, m, b))
  {
    hide Pays, Reply, Plain, FinishUpload, BlockOpt, IsUploadBlock, AnswerContent;
    var sess := s.sessions[i].value;
    var c := TakenContent(sess.next, |sess.body|, m, b);
    if b.num != sess.next {
      ReplyPays(s, m, from, CONTINUE, [BlockOpt(BLOCK1, (sess.next - 1) % WRAP, true, b.szx)], []);
    } else if |sess.body| + |m.payload| > BLOCK1_MAX_BODY {
      PlainPays(s.(sessions := s.sessions[i := Nothing]), m, from, REQUEST_ENTITY_TOO_LARGE);
    } else {
      var grown := sess.(next := sess.next + 1, body := sess.body + m.payload);
      var s1 := s.(sessions := s.sessions[i := Just(grown)]);
      if b.more { ReplyPays(s1, m, from, CONTINUE, [BlockOpt(BLOCK1, b.num, false, b.szx)], []); }
      else { FinishUploadPays(s1, i, idx, m, from, params, observe, grown.body, h, c); }
    }
  }

  lemma HandleBlock1Pays(s: ServerState, idx: nat, m: Msg, from: Endpoint, params: seq<PathParam>, observe: Maybe<u32>,
                         value: seq<byte>, h: Handler)
    requires IsUploadBlock(m)
    ensures var o := HandleBlock1(s, idx, m, from, params, observe, value, h);
            PaysFor(s, idx, m, from, observe, h, o, BlockContent(s, m, from, value))
                && CalledWith(o, CompletedBy(s, m, from, value))
  {
    hide Pays, Plain, AcceptBlock, ReadBlock, TakenContent, IsUploadBlock, AnswerContent;
    PlainPays(s, m, from, BAD_OPTION);
    PlainPays(s, m, from, REQUEST_ENTITY_INCOMPLETE);
    PlainPays(s, m, from, SERVICE_UNAVAILABLE);
    var b := ReadBlock(value);
    if b.Just? {
      var i, j := SessionSlot(s.sessions, KeyOf(from, m)), First(s.sessions, IsFree<Session>());
      if i >= 0 { AcceptBlockPays(s, i, idx, m, from, params, observe, b.value, h); }
      else if j >= 0 {
        var s1 := s.(sessions := s.sessions[j := Just(Session(from, m.token, 0, []))]);
        AcceptBlockPays(s1, j, idx, m, from, params, observe, b.value, h);
      }
    }
  }

  /** Every handled request is answered with exactly what it is owed. A routed one reaches the handler, an upload
      block exactly when it completes the body, which the handler then sees. */
  lemma RequestPays(s: ServerState, m: Msg, from: Endpoint, h: Handler)
    ensures var o := HandleRequest(s, m, from, h);
            && Pays(m, from, s.nextMid, o, Owed(s, m, from, h, o.calls), o.state.deferred != s.deferred)
            && (o.calls != [] ==> RouteOf(s, m).To? && o.calls[0].resource == RouteOf(s, m).idx)
            && (o.calls == [] ==> o.state.deferred == s.deferred)
            && (RouteOf(s, m).To? ==>
                  if IsUploadBlock(m) then CalledWith(o, CompletedBy(s, m, from, FindOption(m.options, BLOCK1).value))
                  else o.calls != [] && o.calls[0].request.body == Nothing)
  {
    hide CompletedBy, Pays, Plain, HandleBlock1, HandlePlain, ObserveStep, ObserveValue, ParamsFor, FindOption,
         BlockContent, AnswerContent, RouteOf;
    match RouteOf(s, m)
    case Refused(code) => PlainPays(s, m, from, code);
    case To(idx) =>
      var params := ParamsFor(s.resources[idx], RequestPath(m));
      var s1, observe := ObserveStep(s, idx, m, from), ObserveValue(s, idx, m);
      if IsUploadBlock(m) {
        HandleBlock1Pays(s1, idx, m, from, params, observe, FindOption(m.options, BLOCK1).value, h);
        SameSessions(s, s1, m, from, FindOption(m.options, BLOCK1).value);
      } else {
        HandlePlainPays(s1, idx, m, from, params, observe, h);
        PlainCalls(s1, idx, m, from, params, observe, h);
      }
  }

  lemma SameSessions(s: ServerState, t: ServerState, m: Msg, from: Endpoint, value: seq<byte>)
    requires t.sessions == s.sessions
    ensures BlockContent(t, m, from, value) == BlockContent(s, m, from, value)
    ensures CompletedBy(t, m, from, value) == CompletedBy(s, m, from, value)
  {
    hide TakenContent, Completed, ReadBlock;
  }

  lemma PlainCalls(s: ServerState, idx: nat, m: Msg, from: Endpoint, params: seq<PathParam>, observe: Maybe<u32>,
                   h: Handler)
    ensures var o := HandlePlain(s, idx, m, from, params, observe, h);
            o.calls != [] && o.calls[0].request.body == Nothing
  {
    hide Respond2, AckDeferral;
  }

  /** The one message a request is owed: the empty ACK if it was deferred, the reply otherwise. */
  function OwedReply(s: ServerState, m: Msg, from: Endpoint, h: Handler, calls: seq<Call>, deferred: bool): (r: Msg)
    ensures ValidMsg(r)
  {
    if deferred then Msg(ACK, EMPTY, m.mid, [], [], []) else ReplyWith(m, s.nextMid, Owed(s, m, from, h, calls))
  }

  /** Reply discipline on the wire. A handled request sends at most one datagram, back to the sender, which decodes to
      the message the request is owed. It sends none exactly when a NON request was deferred or that very message is
      too long for the buffer. */
  lemma ReplyDiscipline(s: ServerState, m: Msg, from: Endpoint, h: Handler)
    ensures var o := HandleRequest(s, m, from, h);
            var deferred := o.state.deferred != s.deferred;
            var r := OwedReply(s, m, from, h, o.calls, deferred);
            && |o.sent| <= 1
            && (o.sent != [] ==> o.sent[0].remote == from && DecodeMsg(o.sent[0].bytes) == Decoded(r))
            && (o.sent == [] <==> (!m.typ.CON? && deferred) || |EncodeMsg(r)| > MAX_MSG_SIZE)
            && o.state.nextMid == (if m.typ.CON? || deferred then s.nextMid else (s.nextMid + 1) % 0x1_0000)
  {
    hide HandleRequest, DecodeMsg, EncodeMsg, Owed;
    RequestPays(s, m, from, h);
    var o := HandleRequest(s, m, from, h);
    DecodeEncode(OwedReply(s, m, from, h, o.calls, o.state.deferred != s.deferred));
  }

  // ------------------------------------------------------------------ when nothing is sent

  /** Header, token and up to three options of a reply. */
  const REPLY_OVERHEAD: nat := 34

  lemma ShortContent(m: Msg, mid: u16, c: Content)
    requires ValidOptions(c.options) && Short(c.options)
    ensures |EncodeMsg(ReplyWith(m, mid, c))| <= 13 + ShortSize(c.options) + |c.payload|
  {
    hide EncodeMsg, EncodeOptions, ShortSize;
    assert c.options == [] + c.options;
    NoOptionsLength();
    MessageLength(ReplyWith(m, mid, c), [], c.options);
  }

  lemma ObserveLength(observe: Maybe<u32>, rest: seq<Opt>)
    requires Short(rest)
    ensures Short(ObserveOptions(observe) + rest) && ShortSize(ObserveOptions(observe) + rest) <= 7 + ShortSize(rest)
  {
    hide UintBytes;
    var all := ObserveOptions(observe) + rest;
    if observe.Just? { assert all[1..] == rest; } else { assert all == rest; }
  }

  /** The options of every reply are short. */
  lemma AnswerLength(m: Msg, res: Response, observe: Maybe<u32>)
    ensures var c := AnswerContent(m, res, observe); Short(c.options) && ShortSize(c.options) <= 21
    ensures res.payload == [] ==> AnswerContent(m, res, observe).payload == []
  {
    hide UintBytes, BlockValue, ShortSize, BlockSize, RequestedBlock2, IsUploadBlock, ObserveOptions;
    FormatLength(res.format);
    ShortNone();
    var b := if RequestedBlock2(m).Just? then RequestedBlock2(m).value else Block(0, false, BLOCK_SZX);
    var more := |res.payload| - b.num * BlockSize(b.szx) > BlockSize(b.szx);
    var cf, tag := UintOpt(CONTENT_FORMAT, res.format), BlockOpt(BLOCK2, b.num, more, b.szx);
    ShortOne(cf);
    ShortPair(cf, tag);
    ObserveLength(observe, []);
    ObserveLength(observe, [cf]);
    ObserveLength(observe, [cf, tag]);
  }

  lemma ShortNone()
    ensures ShortSize([]) == 0
  {
  }

  lemma UncalledLength(s: ServerState, m: Msg, from: Endpoint, h: Handler)
    ensures var c := Owed(s, m, from, h, []); c.payload == [] && Short(c.options) && ShortSize(c.options) <= 7
  {
    hide UintBytes, BlockValue, ShortSize, ReadBlock, RouteOf, IsUploadBlock, FindOption, BlockOpt;
    var c := Owed(s, m, from, h, []);
    ShortNone();
    if c.options != [] {
      assert |c.options| == 1 && |c.options[0].value| <= 4;
      assert c.options == [c.options[0]];
      ShortOne(c.options[0]);
    }
  }

  /** With room for a header, a token and the options, silence is the application's doing: the handler was called,
      answered inline, and its answer, whole or sliced, nearly fills the buffer by itself. Refusals and 2.31 are never
      lost. */
  lemma SilenceIsOversize(s: ServerState, m: Msg, from: Endpoint, h: Handler)
    requires MAX_MSG_SIZE >= REPLY_OVERHEAD && HandleRequest(s, m, from, h).sent == []
    ensures var o := HandleRequest(s, m, from, h);
            || (!m.typ.CON? && o.state.deferred != s.deferred)
            || (o.calls != [] && RouteOf(s, m).To? && o.state.deferred == s.deferred
                && var res := h(RouteOf(s, m).idx, o.calls[0].request);
                   res.payload != []
                       && |AnswerContent(m, res, ObserveValue(s, RouteOf(s, m).idx, m)).payload| > MAX_MSG_SIZE - REPLY_OVERHEAD)
  {
    hide HandleRequest, DecodeMsg, EncodeMsg, AnswerContent, BlockContent, ObserveValue, RouteOf, ShortSize;
    ReplyDiscipline(s, m, from, h);
    RequestPays(s, m, from, h);
    var o := HandleRequest(s, m, from, h);
    if o.state.deferred != s.deferred {
      ShortNone();
      ShortContent(m, s.nextMid, Bare(EMPTY));
      EmptyAckFits(m.mid);
    } else {
      if o.calls == [] {
        UncalledLength(s, m, from, h);
      } else {
        AnswerLength(m, h(RouteOf(s, m).idx, o.calls[0].request), ObserveValue(s, RouteOf(s, m).idx, m));
      }
      ShortContent(m, s.nextMid, Owed(s, m, from, h, o.calls));
    }
  }

  lemma EmptyAckFits(mid: u16)
    ensures |EncodeMsg(Msg(ACK, EMPTY, mid, [], [], []))| == 4
  {
  }
}
