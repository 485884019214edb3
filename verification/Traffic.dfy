/** What holds of every datagram a client has sent or keeps for retransmission, for any property of datagrams. */
module Traffic {
  import opened Types
  import opened Config
  import opened Codec
  import opened Reliability
  import opened ClientSpec
  import opened ClientProps

  type Property = seq<byte> -> bool

  predicate AllGood(good: Property, sent: seq<Datagram>) {
    forall i :: 0 <= i < |sent| ==> good(sent[i].bytes)
  }

  predicate PoolGood(good: Property, p: Slots) {
    forall i :: 0 <= i < |p| && p[i].Just? ==> good(p[i].value.bytes)
  }

  lemma TrackGood(good: Property, s: ClientState, serial: nat, remote: Endpoint, mid: u16, token: Token,
                  bytes: seq<byte>)
    requires |s.txSerial| == |s.pool| && PoolGood(good, s.pool) && good(bytes)
    ensures PoolGood(good, Track(s, serial, remote, mid, token, bytes).pool)
  {
  }

  lemma ReleaseGood(good: Property, p: Slots, i: int)
    requires PoolGood(good, p) && -1 <= i < |p|
    ensures PoolGood(good, Release(p, i))
  {
  }

  lemma TickedPoolGood(good: Property, p: Slots, now: u32)
    requires PoolGood(good, p)
    ensures PoolGood(good, AfterTick(Wrapping, p, now))
  {
    TickedTokens(p, now);
  }

  lemma {:induction false} FiringsGood(good: Property, p: Slots, now: u32)
    requires PoolGood(good, p)
    ensures forall i :: 0 <= i < |Firings(Wrapping, p, now)| && Firings(Wrapping, p, now)[i].Resend? ==>
              good(Firings(Wrapping, p, now)[i].bytes)
  {
    if p != [] { FiringsGood(good, p[..|p| - 1], now); }
  }

  lemma {:induction false} FiredSends(good: Property, s: ClientState, fired: seq<Firing>)
    requires Sized(s) && forall i :: 0 <= i < |fired| && fired[i].Resend? ==> good(fired[i].bytes)
    ensures AllGood(good, HandleFirings(s, fired).sent)
  {
    hide HandleTimeout;
    if fired != [] {
      assert forall i :: 0 <= i < |fired| - 1 ==> fired[..|fired| - 1][i] == fired[i];
      FiredSends(good, s, fired[..|fired| - 1]);
    }
  }

  /** A tick only retransmits what the pool holds. */
  lemma TickSends(good: Property, s: ClientState, now: u32)
    requires Sized(s) && PoolGood(good, s.pool)
    ensures var r := TickClient(s, now); AllGood(good, r.sent) && PoolGood(good, r.state.pool)
    ensures var r := TickClient(s, now);
            && r.state.uploads == s.uploads && r.state.recvs == s.recvs && r.state.issued == s.issued
            && forall i :: 0 <= i < |s.pending| ==> r.state.pending[i] == s.pending[i] || r.state.pending[i].Nothing?
  {
    hide HandleFirings, Firings, AfterTick, PoolGood;
    TickedPoolGood(good, s.pool, now);
    FiringsGood(good, s.pool, now);
    var s1 := s.(pool := AfterTick(Wrapping, s.pool, now));
    FiredSends(good, s1, Firings(Wrapping, s.pool, now));
    FiringsShrink(s1, Firings(Wrapping, s.pool, now));
  }

  function Bytes(sent: seq<Datagram>): set<seq<byte>> {
    set d | d in sent :: d.bytes
  }
}
