/** Which operation ends which transaction, and what a tick sends. */
module PoolCauses {
  import opened Types
  import opened Config
  import opened Reliability
  import opened PoolRuns

  // ------------------------------------------------------------------ acknowledgements

  /** The operation acknowledges what `start` began: same remote and message ID, or same remote and token. */
  predicate Ends(op: Op, start: Op) {
    && start.OpStart?
    && match op
       case OpComplete(addr, mid) => start.remote.Addr() == addr && start.mid == mid
       case OpCompleteByToken(key) => Key(start.remote.Addr(), start.token) == key
       case _ => false
  }

  predicate IsEnd(op: Op) {
    op.OpComplete? || op.OpCompleteByToken?
  }

  /** An active transaction that the operation acknowledges. */
  predicate Endable(ops: seq<Op>, h: Hist, op: Op, n: nat)
    requires |h.owner| == |h.slots|
  {
    n < |ops| && n in Active(h) && Ends(op, ops[n])
  }

  /** Transaction `n` went from active to acknowledged and nothing else happened. */
  predicate EndsOnly(h: Hist, r: Hist, n: nat)
    requires |h.owner| == |h.slots| && |r.owner| == |r.slots|
  {
    && r == h.(slots := r.slots, acked := h.acked + {n})
    && n in Active(h) && Active(r) == Active(h) - {n}
  }

  /** A completing operation acknowledges one active transaction it matches, if there is one, and otherwise changes
      nothing; starts and ticks acknowledge nothing. */
  lemma AckEnds(c: Clock, ops: seq<Op>)
    requires ops != []
    ensures var last := |ops| - 1;
            var h, r, op := Run(c, ops[..last]), Run(c, ops), ops[last];
            && (!IsEnd(op) ==> r.acked == h.acked)
            && (IsEnd(op) && (exists n :: Endable(ops, h, op, n)) ==>
                exists n :: Endable(ops, h, op, n) && EndsOnly(h, r, n))
            && (IsEnd(op) && !(exists n :: Endable(ops, h, op, n)) ==> r == h)
  {
    hide Run, Active, Endable;
    var last := |ops| - 1;
    var before, op := ops[..last], ops[last];
    var h := Run(c, before);
    RunInv(c, before, 0, AnyPace);
    LastApplied(c, ops);
    match op
    case OpStart(_, _, _, _, _) =>
    case OpTick(now) => TickUpToSlots(c, h, now, |h.slots|);
    case OpComplete(addr, mid) => RetiresFirst(ops, h, op, First(h.slots, HasMid(addr, mid)));
    case OpCompleteByToken(key) => RetiresFirst(ops, h, op, First(h.slots, HasKey(key)));
  }

  lemma LastApplied(c: Clock, ops: seq<Op>)
    requires ops != []
    ensures var last := |ops| - 1; Run(c, ops) == Apply(c, Run(c, ops[..last]), ops[last], last)
  {
    hide Apply;
  }

  lemma RetiresFirst(ops: seq<Op>, h: Hist, op: Op, i: int)
    requires ops != [] && op == ops[|ops| - 1] && IsEnd(op) && |h.owner| == |h.slots|
    requires Inv(ops[..|ops| - 1], h, 0, LastTick(ops[..|ops| - 1], 0), LastTick(ops[..|ops| - 1], 0),
                 Now(ops[..|ops| - 1], 0), AnyPace)
    requires i == if op.OpComplete? then First(h.slots, HasMid(op.addr, op.mid)) else First(h.slots, HasKey(op.key))
    ensures if exists n :: Endable(ops, h, op, n) then exists n :: Endable(ops, h, op, n) && EndsOnly(h, Retire(h, i), n)
            else Retire(h, i) == h
  {
    hide Inv;
    var before := ops[..|ops| - 1];
    forall j: nat | j < |h.slots| && h.slots[j].Just?
      ensures h.owner[j] < |before| && h.owner[j] in Active(h)
      ensures Ends(op, ops[h.owner[j]]) <==> Matches(op, h.slots[j].value)
    {
      OwnerStarted(before, h, j, LastTick(before, 0), Now(before, 0));
    }
    if i >= 0 {
      assert Matches(op, h.slots[i].value);
      assert Endable(ops, h, op, h.owner[i]);
      RetireEndsOnly(before, h, i);
    }
  }

  predicate Matches(op: Op, t: Txn) {
    match op
    case OpComplete(addr, mid) => t.remote.Addr() == addr && t.mid == mid
    case OpCompleteByToken(key) => Key(t.remote.Addr(), t.token) == key
    case _ => false
  }

  /** The start operation of a busy slot. */
  lemma OwnerStarted(ops: seq<Op>, h: Hist, i: nat, lastTick: nat, now: nat)
    requires Inv(ops, h, 0, lastTick, lastTick, now, AnyPace) && i < |h.slots| && h.slots[i].Just?
    ensures IsStart(ops, h.owner[i])
    ensures var op, t := ops[h.owner[i]], h.slots[i].value;
            op.remote == t.remote && op.mid == t.mid && op.token == t.token && op.bytes == t.bytes
  {
    assert SlotOk(ops, h, i, lastTick, now, AnyPace);
  }

  lemma RetireEndsOnly(ops: seq<Op>, h: Hist, i: nat)
    requires Inv(ops, h, 0, LastTick(ops, 0), LastTick(ops, 0), Now(ops, 0), AnyPace) && i < |h.slots|
    requires h.slots[i].Just?
    ensures EndsOnly(h, Retire(h, i), h.owner[i])
  {
    hide SlotOk, SerialOk, EntryOk;
    var r, n := Retire(h, i), h.owner[i];
    forall m ensures m in Active(r) <==> m in Active(h) && m != n {
      if m in Active(r) {
        var j :| 0 <= j < |r.slots| && r.slots[j].Just? && r.owner[j] == m;
        assert j != i && h.slots[j].Just? && h.owner[j] == m;
      }
      if m in Active(h) && m != n {
        var j :| 0 <= j < |h.slots| && h.slots[j].Just? && h.owner[j] == m;
        assert r.slots[j].Just? && r.owner[j] == m;
      }
    }
  }

  /** Every acknowledged transaction was acknowledged by an operation that matches it, while it was active. */
  lemma {:induction false} AckedByMatch(c: Clock, ops: seq<Op>, n: nat)
    requires n in Run(c, ops).acked
    ensures exists k: nat :: EndedAt(c, ops, n, k)
  {
    hide Run, Active;
    if ops == [] {
      NoneAcked(c);
    } else {
      var last := |ops| - 1;
      var before := ops[..last];
      AckEnds(c, ops);
      if n in Run(c, before).acked {
        AckedByMatch(c, before, n);
        var k: nat :| EndedAt(c, before, n, k);
        assert before[..k] == ops[..k];
        assert EndedAt(c, ops, n, k);
      } else {
        RunInv(c, before, 0, AnyPace);
        var m :| Endable(ops, Run(c, before), ops[last], m) && EndsOnly(Run(c, before), Run(c, ops), m);
        assert m == n;
        assert EndedAt(c, ops, n, last);
      }
    }
  }

  predicate EndedAt(c: Clock, ops: seq<Op>, n: nat, k: nat) {
    k < |ops| && Endable(ops, Run(c, ops[..k]), ops[k], n)
  }

  lemma NoneAcked(c: Clock)
    ensures Run(c, []).acked == {}
  {
  }

  // ------------------------------------------------------------------ what a tick reports

  /** The callback reports what the history logs. */
  predicate Reports(f: Firing, e: Entry, now: nat) {
    && e.at == now
    && match f
       case Resend(remote, bytes) => e.Resent? && e.remote == remote && e.bytes == bytes
       case Expire(remote, token) => e.Expired? && e.remote == remote && e.token == token
  }

  /** The callbacks of a tick report, in order, exactly what the history logs for it. */
  lemma {:induction false} TickReports(c: Clock, h: Hist, now: nat, k: nat)
    requires |h.owner| == |h.slots| && k <= |h.slots|
    ensures var log, fired := TickUpTo(c, h, now, k).log, Firings(c, h.slots[..k], now);
            && |log| == |h.log| + |fired| && log[..|h.log|] == h.log
            && forall i :: 0 <= i < |fired| ==> Reports(fired[i], log[|h.log| + i], now)
  {
    hide Due, TickSlot, TickOne, Firings, Fired, Reports;
    if k == 0 {
      FiringsNone(c, now);
    } else {
      TickReports(c, h, now, k - 1);
      TickUpToSlots(c, h, now, k - 1);
      FiringsSnoc(c, h.slots, now, k - 1);
      SlotReports(c, TickUpTo(c, h, now, k - 1), now, k - 1);
    }
  }

  lemma SlotReports(c: Clock, h: Hist, now: nat, i: nat)
    requires |h.owner| == |h.slots| && i < |h.slots|
    ensures var log, fired := TickOne(c, h, now, i).log, Fired(c, h.slots[i], now);
            && |log| == |h.log| + |fired| && log[..|h.log|] == h.log
            && forall j :: 0 <= j < |fired| ==> Reports(fired[j], log[|h.log| + j], now)
  {
    hide Due, TickSlot;
  }

  /** A transaction that a tick times out is in the history's log of that tick. */
  lemma {:induction false} TickExpiryLogged(c: Clock, h: Hist, now: nat, k: nat, n: nat)
    requires |h.owner| == |h.slots| && k <= |h.slots| && n in TickUpTo(c, h, now, k).expired && n !in h.expired
    ensures var log := TickUpTo(c, h, now, k).log;
            exists j :: |h.log| <= j < |log| && log[j].Expired? && log[j].serial == n && log[j].at == now
  {
    hide Due;
    var before, after := TickUpTo(c, h, now, k - 1), TickUpTo(c, h, now, k);
    TickReports(c, h, now, k - 1);
    if n in before.expired {
      TickExpiryLogged(c, h, now, k - 1, n);
      var j :| |h.log| <= j < |before.log| && before.log[j].Expired? && before.log[j].serial == n
          && before.log[j].at == now;
      assert after.log[j] == before.log[j];
    } else {
      assert after.log[|after.log| - 1].Expired?;
    }
  }

  /** What the log says was sent again. */
  function SentAgain(log: seq<Entry>): seq<Datagram> {
    if log == [] then []
    else SentAgain(log[..|log| - 1]) +
         if log[|log| - 1].Resent? then [Datagram(log[|log| - 1].remote, log[|log| - 1].bytes)] else []
  }

  // ------------------------------------------------------------------ a run split into stretches

  function Steps(p: Slots, ops: seq<Op>): (q: Slots)
    ensures |q| == |p|
  {
    if ops == [] then p else Step(Wrapping, Steps(p, ops[..|ops| - 1]), ops[|ops| - 1])
  }

  lemma StepsSnoc(p: Slots, ops: seq<Op>, more: seq<Op>)
    requires |more| <= 1
    ensures Steps(p, ops + more) == if more == [] then Steps(p, ops) else Step(Wrapping, Steps(p, ops), more[0])
  {
    if more == [] { assert ops + more == ops; } else { assert (ops + more)[..|ops|] == ops; }
  }

  lemma NoSteps(p: Slots)
    ensures Steps(p, []) == p
  {
  }

  lemma {:induction false} RunSteps(h0: seq<Op>, more: seq<Op>)
    ensures Run(Wrapping, h0 + more).slots == Steps(Run(Wrapping, h0).slots, more)
    decreases |more|
  {
    hide Apply, Step;
    if more == [] {
      assert h0 + more == h0;
    } else {
      var n := |more| - 1;
      RunSteps(h0, more[..n]);
      assert (h0 + more)[..|h0 + more| - 1] == h0 + more[..n];
      ApplyIsStep(Wrapping, Run(Wrapping, h0 + more[..n]), more[n], |h0| + n);
    }
  }

  predicate StartsAt(more: seq<Op>, now: nat) {
    forall i :: 0 <= i < |more| ==> !more[i].OpTick? && (more[i].OpStart? ==> more[i].now == now)
  }

  lemma {:induction false} StartsTimed(base: seq<Op>, more: seq<Op>, now: nat, origin: nat, gap: nat)
    requires WellTimed(base, origin, gap) && Now(base, origin) <= now <= LastTick(base, origin) + gap
    requires StartsAt(more, now)
    ensures WellTimed(base + more, origin, gap) && LastTick(base + more, origin) == LastTick(base, origin)
    ensures Now(base, origin) <= Now(base + more, origin) <= now
    decreases |more|
  {
    if more == [] {
      assert base + more == base;
    } else {
      var n := |more| - 1;
      assert (base + more)[..|base + more| - 1] == base + more[..n];
      StartsTimed(base, more[..n], now, origin, gap);
    }
  }

  lemma RunOneMore(base: seq<Op>, op: Op)
    ensures Run(Wrapping, base + [op]) == Apply(Wrapping, Run(Wrapping, base), op, |base|)
  {
    hide Apply;
    assert (base + [op])[..|base|] == base;
  }

  lemma ApplyTick(h: Hist, now: nat, n: nat)
    requires |h.owner| == |h.slots|
    ensures Apply(Wrapping, h, OpTick(now), n) == TickUpTo(Wrapping, h, now, |h.slots|)
  {
  }

  lemma {:induction false} NoTickNoExpiry(base: seq<Op>, more: seq<Op>, now: nat)
    requires StartsAt(more, now)
    ensures Run(Wrapping, base + more).expired == Run(Wrapping, base).expired
    decreases |more|
  {
    hide AfterStart;
    if more == [] {
      assert base + more == base;
    } else {
      var n := |more| - 1;
      assert base + more[..n] + [more[n]] == base + more;
      RunOneMore(base + more[..n], more[n]);
      NoTickNoExpiry(base, more[..n], now);
    }
  }
}
