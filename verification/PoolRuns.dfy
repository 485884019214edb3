/** Whole runs of the pool: every transaction gets the index of the operation that started it as its serial
    number, and a run keeps the log of what happened to each serial number. */
module PoolRuns {
  import opened Types
  import opened Config
  import opened Reliability

  /** Times are readings of an unbounded millisecond clock. */
  datatype Op =
    | OpStart(remote: Endpoint, mid: u16, token: seq<byte>, bytes: seq<byte>, now: nat)
    | OpComplete(addr: Address, mid: u16)
    | OpCompleteByToken(key: Key)
    | OpTick(now: nat)

  datatype Entry =
    | Resent(serial: nat, at: nat, remote: Endpoint, bytes: seq<byte>)
    | Expired(serial: nat, at: nat, remote: Endpoint, token: seq<byte>)

  datatype Hist = Hist(slots: Slots, owner: seq<nat>, log: seq<Entry>, started: set<nat>, acked: set<nat>,
                       expired: set<nat>)

  function Empty(): Hist {
    Hist(FreeSlots<Txn>(MAX_TRANSACTIONS), seq(MAX_TRANSACTIONS, (i: nat) => 0), [], {}, {}, {})
  }

  function Retire(h: Hist, i: int): Hist
    requires |h.owner| == |h.slots| && -1 <= i < |h.slots|
  {
    if i < 0 then h else h.(slots := h.slots[i := Nothing], acked := h.acked + {h.owner[i]})
  }

  function TickOne(c: Clock, h: Hist, now: nat, i: nat): (r: Hist)
    requires |h.owner| == |h.slots| && i < |h.slots|
    ensures |r.owner| == |r.slots| == |h.slots|
  {
    if h.slots[i].Nothing? || !Due(c, h.slots[i].value.nextAt, now) then h
    else
      var t, n := h.slots[i].value, h.owner[i];
      var h1 := h.(slots := h.slots[i := TickSlot(c, h.slots[i], now)]);
      if t.retries < MAX_RETRANSMIT then h1.(log := h.log + [Resent(n, now, t.remote, t.bytes)])
      else h1.(log := h.log + [Expired(n, now, t.remote, t.token)], expired := h.expired + {n})
  }

  function TickUpTo(c: Clock, h: Hist, now: nat, k: nat): (r: Hist)
    requires |h.owner| == |h.slots| && k <= |h.slots|
    ensures |r.owner| == |r.slots| == |h.slots|
  {
    if k == 0 then h else TickOne(c, TickUpTo(c, h, now, k - 1), now, k - 1)
  }

  /** `n` is the serial number of the operation. */
  function Apply(c: Clock, h: Hist, op: Op, n: nat): (r: Hist)
    requires |h.owner| == |h.slots|
    ensures |r.owner| == |r.slots| == |h.slots|
  {
    match op
    case OpStart(remote, mid, token, bytes, now) =>
      var i := StartSlot(h.slots, token, bytes);
      if i < 0 then h
      else h.(slots := AfterStart(c, h.slots, remote, mid, token, bytes, now), owner := h.owner[i := n], started := h.started + {n})
    case OpComplete(addr, mid) => Retire(h, First(h.slots, HasMid(addr, mid)))
    case OpCompleteByToken(key) => Retire(h, First(h.slots, HasKey(key)))
    case OpTick(now) => TickUpTo(c, h, now, |h.slots|)
  }

  function Run(c: Clock, ops: seq<Op>): (h: Hist)
    ensures |h.owner| == |h.slots| == MAX_TRANSACTIONS
  {
    if ops == [] then Empty() else Apply(c, Run(c, ops[..|ops| - 1]), ops[|ops| - 1], |ops| - 1)
  }

  // ------------------------------------------------------------------ the pool inside a run

  /** The slots of the pool object after one operation. */
  function Step(c: Clock, p: Slots, op: Op): (q: Slots)
    ensures |q| == |p|
  {
    match op
    case OpStart(remote, mid, token, bytes, now) => AfterStart(c, p, remote, mid, token, bytes, now)
    case OpComplete(addr, mid) => AfterComplete(p, addr, mid)
    case OpCompleteByToken(key) => Release(p, First(p, HasKey(key)))
    case OpTick(now) => AfterTick(c, p, now)
  }

  lemma {:induction false} TickUpToSlots(c: Clock, h: Hist, now: nat, k: nat)
    requires |h.owner| == |h.slots| && k <= |h.slots|
    ensures var r := TickUpTo(c, h, now, k);
            && r.owner == h.owner && r.started == h.started && r.acked == h.acked
            && (forall i :: 0 <= i < k ==> r.slots[i] == TickSlot(c, h.slots[i], now))
            && (forall i :: k <= i < |h.slots| ==> r.slots[i] == h.slots[i])
  {
    if k > 0 { TickUpToSlots(c, h, now, k - 1); }
  }

  /** The history shadows the pool: its slots are the pool's slots after every operation. */
  lemma ApplyIsStep(c: Clock, h: Hist, op: Op, n: nat)
    requires |h.owner| == |h.slots|
    ensures Apply(c, h, op, n).slots == Step(c, h.slots, op)
  {
    if op.OpTick? { TickUpToSlots(c, h, op.now, |h.slots|); }
  }

  // ------------------------------------------------------------------ timing assumptions

  function LastTick(ops: seq<Op>, origin: nat): nat {
    if ops == [] then origin
    else if ops[|ops| - 1].OpTick? then ops[|ops| - 1].now else LastTick(ops[..|ops| - 1], origin)
  }

  /** The latest time mentioned so far. */
  function Now(ops: seq<Op>, origin: nat): nat {
    if ops == [] then origin
    else var op := ops[|ops| - 1];
         if op.OpTick? || op.OpStart? then op.now else Now(ops[..|ops| - 1], origin)
  }

  /** Time does not run backwards, and neither a start nor a tick comes more than `gap` after the last tick. */
  predicate WellTimed(ops: seq<Op>, origin: nat, gap: nat) {
    ops == [] ||
    var before, op := ops[..|ops| - 1], ops[|ops| - 1];
    && WellTimed(before, origin, gap)
    && (op.OpTick? || op.OpStart? ==> Now(before, origin) <= op.now <= LastTick(before, origin) + gap)
  }

  lemma {:induction false} TickNotLater(ops: seq<Op>, origin: nat, gap: nat)
    requires WellTimed(ops, origin, gap)
    ensures LastTick(ops, origin) <= Now(ops, origin)
  {
    if ops != [] { TickNotLater(ops[..|ops| - 1], origin, gap); }
  }

  /** t0 * 2^r */
  function Backoff(t0: nat, r: nat): nat {
    if r == 0 then t0 else 2 * Backoff(t0, r - 1)
  }

  /** t0 * (2^(r+1) - 1): the time from the start to the r-th deadline when every tick is punctual. */
  function Elapsed(t0: nat, r: nat): nat {
    if r == 0 then t0 else Elapsed(t0, r - 1) + Backoff(t0, r)
  }

  function Times(gap: nat, r: nat): nat {
    if r == 0 then 0 else gap + Times(gap, r - 1)
  }

  lemma BackoffTotals(t0: nat, gap: nat)
    ensures Backoff(t0, 4) == 16 * t0 && Elapsed(t0, 4) == 31 * t0 && Times(gap, 4) == 4 * gap
    ensures forall r :: 0 <= r <= 4 ==> Backoff(t0, r) <= 16 * t0
  {
    assert Backoff(t0, 0) == t0 && Elapsed(t0, 0) == t0;
    assert Backoff(t0, 1) == 2 * t0 && Backoff(t0, 2) == 4 * t0 && Backoff(t0, 3) == 8 * t0;
    assert Elapsed(t0, 1) == 3 * t0 && Elapsed(t0, 2) == 7 * t0 && Elapsed(t0, 3) == 15 * t0;
    assert Times(gap, 0) == 0;
    assert Times(gap, 1) == gap && Times(gap, 2) == 2 * gap && Times(gap, 3) == 3 * gap;
  }

  // ------------------------------------------------------------------ the invariant

  predicate IsStart(ops: seq<Op>, n: nat) {
    n < |ops| && ops[n].OpStart?
  }

  function CountResent(log: seq<Entry>, n: nat): nat {
    if log == [] then 0
    else CountResent(log[..|log| - 1], n) + (if log[|log| - 1].Resent? && log[|log| - 1].serial == n then 1 else 0)
  }

  /** Either no timing assumption, or `WellTimed` with this gap on the unbounded clock. */
  datatype Pace = AnyPace | Gap(ms: nat)

  /** A busy slot holds what its start operation gave, counts its own retries and, in a well-timed run, has a
      deadline within the backoff bounds. */
  predicate TxnOk(t: Txn, op: Op, resent: nat, lastTick: nat, now: nat, pace: Pace) {
    && op.OpStart?
    && t.remote == op.remote && t.mid == op.mid && t.token == op.token && t.bytes == op.bytes
    && t.retries == resent <= MAX_RETRANSMIT
    && t.timeout == Backoff(InitialTimeout(op.mid), t.retries)
    && (pace.Gap? ==> DeadlineOk(t, op, lastTick, now, pace.ms))
  }

  predicate DeadlineOk(t: Txn, op: Op, lastTick: nat, now: nat, gap: nat)
    requires op.OpStart?
  {
    var due := op.now + Elapsed(InitialTimeout(op.mid), t.retries);
    due <= t.nextAt <= due + Times(gap, t.retries) && lastTick < t.nextAt <= now + t.timeout
  }

  predicate SlotOk(ops: seq<Op>, h: Hist, i: nat, lastTick: nat, now: nat, pace: Pace)
    requires |h.owner| == |h.slots| && i < |h.slots|
  {
    h.slots[i].Just? ==>
      var n := h.owner[i];
      && n in h.started && n !in h.acked && n !in h.expired
      && n < |ops| && TxnOk(h.slots[i].value, ops[n], CountResent(h.log, n), lastTick, now, pace)
  }

  predicate Held(h: Hist, n: nat)
    requires |h.owner| == |h.slots|
  {
    exists i :: 0 <= i < |h.slots| && h.slots[i].Just? && h.owner[i] == n
  }

  /** A started transaction is in exactly one of three places. */
  predicate SerialOk(ops: seq<Op>, h: Hist, n: nat)
    requires |h.owner| == |h.slots|
  {
    && (n in h.started ==> IsStart(ops, n) && (n in h.acked || n in h.expired || Held(h, n)))
    && (n in h.acked || n in h.expired ==> n in h.started)
    && !(n in h.acked && n in h.expired)
    && CountResent(h.log, n) <= MAX_RETRANSMIT
    && (n in h.expired ==> CountResent(h.log, n) == MAX_RETRANSMIT)
    && (n !in h.started ==> CountResent(h.log, n) == 0)
  }

  /** The time from the start to the timeout callback. */
  predicate WaitedOk(op: Op, at: nat, gap: nat)
    requires op.OpStart?
  {
    var t0 := InitialTimeout(op.mid);
    31 * t0 <= at - op.now <= 31 * t0 + 5 * gap
  }

  predicate EntryOk(ops: seq<Op>, h: Hist, e: Entry, pace: Pace) {
    && IsStart(ops, e.serial) && e.serial in h.started && e.remote == ops[e.serial].remote
    && (e.Resent? ==> e.bytes == ops[e.serial].bytes)
    && (e.Expired? ==>
          && e.serial in h.expired && e.token == ops[e.serial].token
          && (pace.Gap? ==> WaitedOk(ops[e.serial], e.at, pace.ms)))
  }

  predicate DistinctOwners(h: Hist)
    requires |h.owner| == |h.slots|
  {
    forall i, j :: 0 <= i < j < |h.slots| && h.slots[i].Just? && h.slots[j].Just? ==> h.owner[i] != h.owner[j]
  }

  ghost predicate Inv(ops: seq<Op>, h: Hist, done: nat, lastTick: nat, nextTick: nat, now: nat, pace: Pace) {
    && |h.owner| == |h.slots| && done <= |h.slots|
    && DistinctOwners(h)
    && (forall i :: 0 <= i < done ==> SlotOk(ops, h, i, nextTick, now, pace))
    && (forall i :: done <= i < |h.slots| ==> SlotOk(ops, h, i, lastTick, now, pace))
    && (forall n :: SerialOk(ops, h, n))
    && (forall k :: 0 <= k < |h.log| ==> EntryOk(ops, h, h.log[k], pace))
  }

  lemma CountSnoc(log: seq<Entry>, e: Entry, n: nat)
    ensures CountResent(log + [e], n) == CountResent(log, n) + (if e.Resent? && e.serial == n then 1 else 0)
  {
    assert (log + [e])[..|log|] == log;
  }

  /** One due slot whose retries are not used up. */
  lemma RetryOk(c: Clock, t: Txn, op: Op, resent: nat, lastTick: nat, now: nat, pace: Pace)
    requires TxnOk(t, op, resent, lastTick, now, pace) && Due(c, t.nextAt, now) && t.retries < MAX_RETRANSMIT
    requires Paced(c, lastTick, now, pace)
    ensures TickSlot(c, Just(t), now).Just?
    ensures TxnOk(TickSlot(c, Just(t), now).value, op, resent + 1, now, now, pace)
  {
    hide InitialTimeout;
    var t0 := InitialTimeout(op.mid);
    BackoffTotals(t0, if pace.Gap? then pace.ms else 0);
    assert Backoff(t0, t.retries + 1) == 2 * t.timeout;
  }

  lemma ExpiryOk(t: Txn, op: Op, resent: nat, lastTick: nat, now: nat, gap: nat)
    requires TxnOk(t, op, resent, lastTick, now, Gap(gap)) && t.nextAt <= now <= lastTick + gap
    requires t.retries == MAX_RETRANSMIT
    ensures WaitedOk(op, now, gap)
  {
    hide InitialTimeout;
    BackoffTotals(InitialTimeout(op.mid), gap);
  }

  lemma NotDueOk(c: Clock, t: Txn, op: Op, resent: nat, lastTick: nat, now: nat, pace: Pace)
    requires TxnOk(t, op, resent, lastTick, now, pace) && !Due(c, t.nextAt, now) && (pace.Gap? ==> c.Unbounded?)
    ensures TxnOk(t, op, resent, now, now, pace)
  {
    hide InitialTimeout, Backoff, Elapsed, Times;
  }

  predicate Paced(c: Clock, lastTick: nat, now: nat, pace: Pace) {
    pace.Gap? ==> c.Unbounded? && lastTick <= now <= lastTick + pace.ms
  }

  /** What processing slot `i` of a tick keeps. */
  lemma TickOneInv(c: Clock, ops: seq<Op>, h: Hist, i: nat, lastTick: nat, now: nat, pace: Pace)
    requires Inv(ops, h, i, lastTick, now, now, pace) && i < |h.slots| && Paced(c, lastTick, now, pace)
    ensures Inv(ops, TickOne(c, h, now, i), i + 1, lastTick, now, now, pace)
  {
    hide InitialTimeout, Backoff, DeadlineOk, WaitedOk, CountResent;
    var r := TickOne(c, h, now, i);
    assert SlotOk(ops, h, i, lastTick, now, pace);
    if h.slots[i].Just? && Due(c, h.slots[i].value.nextAt, now) {
      var t, n := h.slots[i].value, h.owner[i];
      var e := r.log[|h.log|];
      assert r.log == h.log + [e];
      forall m ensures CountResent(r.log, m) == CountResent(h.log, m) + (if e.Resent? && m == n then 1 else 0) {
        CountSnoc(h.log, e, m);
      }
      if t.retries < MAX_RETRANSMIT {
        RetryOk(c, t, ops[n], CountResent(h.log, n), lastTick, now, pace);
      } else {
        if pace.Gap? { ExpiryOk(t, ops[n], CountResent(h.log, n), lastTick, now, pace.ms); }
      }
      TickOneRest(ops, h, r, e, i, lastTick, now, pace);
    } else {
      assert r == h;
      if h.slots[i].Just? {
        NotDueOk(c, h.slots[i].value, ops[h.owner[i]], CountResent(h.log, h.owner[i]), lastTick, now, pace);
      }
      assert SlotOk(ops, h, i, now, now, pace);
    }
  }

  lemma {:induction false} TickUpToInv(c: Clock, ops: seq<Op>, h: Hist, k: nat, lastTick: nat, now: nat, pace: Pace)
    requires Inv(ops, h, 0, lastTick, now, now, pace) && k <= |h.slots| && Paced(c, lastTick, now, pace)
    ensures Inv(ops, TickUpTo(c, h, now, k), k, lastTick, now, now, pace)
  {
    hide SlotOk, SerialOk, EntryOk;
    if k > 0 {
      TickUpToInv(c, ops, h, k - 1, lastTick, now, pace);
      TickOneInv(c, ops, TickUpTo(c, h, now, k - 1), k - 1, lastTick, now, pace);
    }
  }

  lemma TickOneRest(ops: seq<Op>, h: Hist, r: Hist, e: Entry, i: nat, lastTick: nat, now: nat, pace: Pace)
    requires Inv(ops, h, i, lastTick, now, now, pace) && i < |h.slots| && h.slots[i].Just?
    requires |r.slots| == |h.slots| && r.owner == h.owner && r.log == h.log + [e] && r.started == h.started
    requires r.acked == h.acked
    requires forall j :: 0 <= j < |h.slots| && j != i ==> r.slots[j] == h.slots[j]
    requires forall m :: CountResent(r.log, m) ==
                         CountResent(h.log, m) + (if e.Resent? && m == h.owner[i] then 1 else 0)
    requires e.serial == h.owner[i] && e.Resent? == r.slots[i].Just?
    requires CountResent(h.log, h.owner[i]) == MAX_RETRANSMIT <==> e.Expired?
    requires r.expired == if e.Resent? then h.expired else h.expired + {h.owner[i]}
    requires SlotOk(ops, r, i, now, now, pace)
    requires EntryOk(ops, r, e, pace)
    ensures Inv(ops, r, i + 1, lastTick, now, now, pace)
  {
    hide TxnOk, CountResent, IsStart, InitialTimeout;
    var n := h.owner[i];
    var t := h.slots[i].value;
    assert SlotOk(ops, h, i, lastTick, now, pace);
    forall j | 0 <= j < i ensures SlotOk(ops, r, j, now, now, pace) {
      assert SlotOk(ops, h, j, now, now, pace);
    }
    forall j | i < j < |h.slots| ensures SlotOk(ops, r, j, lastTick, now, pace) {
      assert SlotOk(ops, h, j, lastTick, now, pace);
    }
    forall m ensures SerialOk(ops, r, m) {
      assert SerialOk(ops, h, m);
      if m != n && Held(h, m) { assert Held(r, m); }
      if m == n && e.Resent? { assert Held(r, m); }
    }
    forall k | 0 <= k < |r.log| ensures EntryOk(ops, r, r.log[k], pace) {
      if k < |h.log| { assert EntryOk(ops, h, h.log[k], pace); }
    }
  }

  // ------------------------------------------------------------------ every operation keeps the invariant

  /** Appending an operation and letting time pass keeps what is known of the slots. */
  lemma LaterOk(ops: seq<Op>, op: Op, h: Hist, lastTick: nat, now: nat, later: nat, pace: Pace)
    requires Inv(ops, h, 0, lastTick, lastTick, now, pace) && (pace.Gap? ==> now <= later)
    ensures Inv(ops + [op], h, 0, lastTick, lastTick, later, pace)
  {
    hide InitialTimeout, Backoff, Elapsed, Times, CountResent;
    var ops' := ops + [op];
    assert forall n :: 0 <= n < |ops| ==> ops'[n] == ops[n];
    forall i | 0 <= i < |h.slots| ensures SlotOk(ops', h, i, lastTick, later, pace) {
      assert SlotOk(ops, h, i, lastTick, now, pace);
    }
    forall n ensures SerialOk(ops', h, n) { assert SerialOk(ops, h, n); }
    forall k | 0 <= k < |h.log| ensures EntryOk(ops', h, h.log[k], pace) { assert EntryOk(ops, h, h.log[k], pace); }
  }

  lemma RetireInv(ops: seq<Op>, h: Hist, i: int, lastTick: nat, now: nat, pace: Pace)
    requires Inv(ops, h, 0, lastTick, lastTick, now, pace) && -1 <= i < |h.slots| && (i >= 0 ==> h.slots[i].Just?)
    ensures Inv(ops, Retire(h, i), 0, lastTick, lastTick, now, pace)
  {
    hide TxnOk, CountResent, IsStart, InitialTimeout;
    if i >= 0 {
      var r := Retire(h, i);
      assert SlotOk(ops, h, i, lastTick, now, pace);
      forall j | 0 <= j < |h.slots| ensures SlotOk(ops, r, j, lastTick, now, pace) {
        assert SlotOk(ops, h, j, lastTick, now, pace);
      }
      forall m ensures SerialOk(ops, r, m) {
        assert SerialOk(ops, h, m);
        if m != h.owner[i] && Held(h, m) { assert Held(r, m); }
      }
      forall k | 0 <= k < |r.log| ensures EntryOk(ops, r, r.log[k], pace) { assert EntryOk(ops, h, h.log[k], pace); }
    }
  }

  lemma StartInv(c: Clock, ops: seq<Op>, h: Hist, n: nat, lastTick: nat, pace: Pace)
    requires IsStart(ops, n) && n == |ops| - 1 && (pace.Gap? ==> c.Unbounded? && lastTick <= ops[n].now)
    requires n !in h.started
    requires Inv(ops, h, 0, lastTick, lastTick, ops[n].now, pace)
    ensures Inv(ops, Apply(c, h, ops[n], n), 0, lastTick, lastTick, ops[n].now, pace)
  {
    hide CountResent, InitialTimeout;
    var op := ops[n];
    var r, i := Apply(c, h, op, n), StartSlot(h.slots, op.token, op.bytes);
    if i >= 0 {
      assert SerialOk(ops, h, n);
      forall j | 0 <= j < |h.slots| ensures SlotOk(ops, r, j, lastTick, op.now, pace) {
        assert SlotOk(ops, h, j, lastTick, op.now, pace);
        if j == i { FreshTxnOk(c, op, lastTick, pace); }
      }
      assert DistinctOwners(r) by {
        forall j | 0 <= j < |h.slots| && h.slots[j].Just? ensures h.owner[j] != n {
          assert SlotOk(ops, h, j, lastTick, op.now, pace);
        }
      }
      forall m ensures SerialOk(ops, r, m) {
        assert SerialOk(ops, h, m);
        if m == n { assert Held(r, m) by { assert r.slots[i].Just? && r.owner[i] == n; } }
        else if Held(h, m) { HeldAfterStart(h, r, i, m); }
      }
      forall k | 0 <= k < |r.log| ensures EntryOk(ops, r, r.log[k], pace) { assert EntryOk(ops, h, h.log[k], pace); }
    }
  }

  lemma HeldAfterStart(h: Hist, r: Hist, i: nat, m: nat)
    requires |h.owner| == |h.slots| == |r.slots| == |r.owner| && i < |h.slots| && h.slots[i].Nothing? && Held(h, m)
    requires forall j :: 0 <= j < |h.slots| && j != i ==> r.slots[j] == h.slots[j] && r.owner[j] == h.owner[j]
    ensures Held(r, m)
  {
    var j :| 0 <= j < |h.slots| && h.slots[j].Just? && h.owner[j] == m;
    assert r.slots[j].Just? && r.owner[j] == m;
  }

  lemma FreshTxnOk(c: Clock, op: Op, lastTick: nat, pace: Pace)
    requires op.OpStart? && (pace.Gap? ==> c.Unbounded? && lastTick <= op.now)
    ensures TxnOk(NewTxn(c, op.remote, op.mid, op.token, op.bytes, op.now), op, 0, lastTick, op.now, pace)
  {
    hide InitialTimeout;
    assert InitialTimeout(op.mid) > 0;
  }

  lemma {:induction false} RunInv(c: Clock, ops: seq<Op>, origin: nat, pace: Pace)
    requires pace.Gap? ==> c.Unbounded? && WellTimed(ops, origin, pace.ms)
    ensures var last := LastTick(ops, origin); Inv(ops, Run(c, ops), 0, last, last, Now(ops, origin), pace)
  {
    hide InitialTimeout, Apply, SlotOk, SerialOk, EntryOk, DistinctOwners, TickOne;
    if ops == [] {
      EmptyInv(origin, pace);
    } else {
      var n := |ops| - 1;
      var before, op := ops[..n], ops[n];
      var h, last := Run(c, before), LastTick(before, origin);
      RunInv(c, before, origin, pace);
      if pace.Gap? { TickNotLater(before, origin, pace.ms); }
      LaterOk(before, op, h, last, Now(before, origin), Now(ops, origin), pace);
      assert before + [op] == ops;
      NotYetStarted(before, h, last, Now(before, origin), pace);
      ApplyInv(c, ops, h, last, Now(ops, origin), pace);
    }
  }

  lemma EmptyInv(origin: nat, pace: Pace)
    ensures Inv([], Empty(), 0, origin, origin, origin, pace)
  {
  }

  lemma NotYetStarted(ops: seq<Op>, h: Hist, lastTick: nat, now: nat, pace: Pace)
    requires Inv(ops, h, 0, lastTick, lastTick, now, pace)
    ensures |ops| !in h.started
  {
    assert SerialOk(ops, h, |ops|);
  }

  lemma ApplyInv(c: Clock, ops: seq<Op>, h: Hist, lastTick: nat, now: nat, pace: Pace)
    requires ops != [] && |ops| - 1 !in h.started
    requires Inv(ops, h, 0, lastTick, lastTick, now, pace)
    requires var op := ops[|ops| - 1]; op.OpTick? || op.OpStart? ==> op.now == now && Paced(c, lastTick, now, pace)
    ensures var op := ops[|ops| - 1];
            var last := if op.OpTick? then op.now else lastTick;
            Inv(ops, Apply(c, h, op, |ops| - 1), 0, last, last, now, pace)
  {
    hide InitialTimeout, SlotOk, SerialOk, EntryOk, DistinctOwners, TickOne, AfterStart, TickUpTo;
    var op := ops[|ops| - 1];
    match op
    case OpStart(_, _, _, _, _) => StartInv(c, ops, h, |ops| - 1, lastTick, pace);
    case OpComplete(addr, mid) => RetireInv(ops, h, First(h.slots, HasMid(addr, mid)), lastTick, now, pace);
    case OpCompleteByToken(key) => RetireInv(ops, h, First(h.slots, HasKey(key)), lastTick, now, pace);
    case OpTick(at) => TickUpToInv(c, ops, h, |h.slots|, lastTick, now, pace);
  }

  // ------------------------------------------------------------------ theorems

  function Active(h: Hist): set<nat>
    requires |h.owner| == |h.slots|
  {
    set i | 0 <= i < |h.slots| && h.slots[i].Just? :: h.owner[i]
  }

  function AllButLast(h: Hist): (g: Hist)
    requires |h.owner| == |h.slots| > 0
    ensures |g.owner| == |g.slots| == |h.slots| - 1
  {
    h.(slots := h.slots[..|h.slots| - 1], owner := h.owner[..|h.slots| - 1])
  }

  lemma ActiveSnoc(h: Hist)
    requires |h.owner| == |h.slots| > 0
    ensures var k := |h.slots| - 1;
            Active(h) == Active(AllButLast(h)) + if h.slots[k].Just? then {h.owner[k]} else {}
  {
    var k, g := |h.slots| - 1, AllButLast(h);
    forall n | n in Active(h) ensures n in Active(g) || (h.slots[k].Just? && n == h.owner[k]) {
      var i :| 0 <= i < |h.slots| && h.slots[i].Just? && h.owner[i] == n;
      if i < k { assert g.slots[i].Just? && g.owner[i] == n; }
    }
    forall n | n in Active(g) ensures n in Active(h) {
      var i :| 0 <= i < |g.slots| && g.slots[i].Just? && g.owner[i] == n;
      assert h.slots[i].Just? && h.owner[i] == n;
    }
  }

  lemma {:induction false} ActiveSize(h: Hist)
    requires |h.owner| == |h.slots| && DistinctOwners(h)
    ensures |Active(h)| == CountActive(h.slots)
    decreases |h.slots|
  {
    if h.slots == [] {
      assert Active(h) == {};
    } else {
      var k, g := |h.slots| - 1, AllButLast(h);
      ActiveSize(g);
      ActiveSnoc(h);
      if h.slots[k].Just? { LastNotActive(h); }
    }
  }

  lemma LastNotActive(h: Hist)
    requires |h.owner| == |h.slots| > 0 && DistinctOwners(h) && h.slots[|h.slots| - 1].Just?
    ensures h.owner[|h.slots| - 1] !in Active(AllButLast(h))
  {
    var k, g := |h.slots| - 1, AllButLast(h);
    if h.owner[k] in Active(g) {
      var i :| 0 <= i < k && g.slots[i].Just? && g.owner[i] == h.owner[k];
      assert h.slots[i].Just? && h.owner[i] == h.owner[k];
    }
  }

  /** Conservation, for every sequence of operations on either clock: the started transactions are exactly the
      disjoint union of the active, the acknowledged and the timed-out ones, so the counts add up. */
  lemma Conservation(c: Clock, ops: seq<Op>)
    ensures var h := Run(c, ops);
            && h.started == Active(h) + h.acked + h.expired
            && Active(h) !! h.acked && Active(h) !! h.expired && h.acked !! h.expired
            && |h.started| == CountActive(h.slots) + |h.acked| + |h.expired|
  {
    hide Run, TxnOk, CountResent, EntryOk;
    RunInv(c, ops, 0, AnyPace);
    var h := Run(c, ops);
    forall i | 0 <= i < |h.slots| && h.slots[i].Just?
      ensures h.owner[i] in h.started && h.owner[i] !in h.acked && h.owner[i] !in h.expired
    {
      assert SlotOk(ops, h, i, LastTick(ops, 0), Now(ops, 0), AnyPace);
    }
    forall n
      ensures n in h.started <==> n in Active(h) || n in h.acked || n in h.expired
      ensures !(n in h.acked && n in h.expired)
    {
      assert SerialOk(ops, h, n);
      assert Held(h, n) <==> n in Active(h);
    }
    ActiveSize(h);
    assert h.started == Active(h) + (h.acked + h.expired);
    assert |Active(h) + (h.acked + h.expired)| == |Active(h)| + |h.acked + h.expired|;
  }

  /** Every resend carries the bytes its start operation was given, to the remote it was given, and no transaction
      is resent more than MAX_RETRANSMIT times. */
  lemma ResendsFaithful(c: Clock, ops: seq<Op>, k: nat)
    requires k < |Run(c, ops).log| && Run(c, ops).log[k].Resent?
    ensures var e := Run(c, ops).log[k];
            && IsStart(ops, e.serial) && e.bytes == ops[e.serial].bytes && e.remote == ops[e.serial].remote
            && CountResent(Run(c, ops).log, e.serial) <= MAX_RETRANSMIT
  {
    hide Run;
    RunInv(c, ops, 0, AnyPace);
    var h := Run(c, ops);
    assert EntryOk(ops, h, h.log[k], AnyPace);
    assert SerialOk(ops, h, h.log[k].serial);
  }

  /** An active transaction is the one its start operation described, has been resent `retries` times and waits
      t0 * 2^retries for the next step, with t0 in [2000, 3000). */
  lemma CurrentTimeout(c: Clock, ops: seq<Op>, i: nat)
    requires i < |Run(c, ops).slots| && Run(c, ops).slots[i].Just?
    ensures var h := Run(c, ops);
            var t, n := h.slots[i].value, h.owner[i];
            && IsStart(ops, n) && t.remote == ops[n].remote && t.mid == ops[n].mid && t.token == ops[n].token
            && t.bytes == ops[n].bytes
            && t.retries == CountResent(h.log, n) <= MAX_RETRANSMIT
            && 2000 <= InitialTimeout(t.mid) < 3000 && t.timeout == Backoff(InitialTimeout(t.mid), t.retries)
  {
    hide Run;
    RunInv(c, ops, 0, AnyPace);
    assert SlotOk(ops, Run(c, ops), i, LastTick(ops, 0), Now(ops, 0), AnyPace);
  }

  /** Backoff bound. A timeout callback comes after exactly MAX_RETRANSMIT resends, no earlier than 31 t0 and no later
      than 31 t0 plus five tick gaps after the start, on either clock. */
  lemma TimeoutBound(c: Clock, ops: seq<Op>, origin: nat, gap: nat, k: nat)
    requires WellTimed(ops, origin, gap) && (c.Wrapping? ==> gap < 0x8000_0000)
    requires k < |Run(c, ops).log| && Run(c, ops).log[k].Expired?
    ensures var h := Run(c, ops);
            var e := h.log[k];
            && IsStart(ops, e.serial) && e.remote == ops[e.serial].remote && e.token == ops[e.serial].token
            && CountResent(h.log, e.serial) == MAX_RETRANSMIT
            && WaitedOk(ops[e.serial], e.at, gap)
  {
    hide Run;
    if c.Wrapping? { ClockRefinement(ops, origin, gap); }
    RunInv(Unbounded, ops, origin, Gap(gap));
    var h := Run(Unbounded, ops);
    assert EntryOk(ops, h, h.log[k], Gap(gap));
    assert SerialOk(ops, h, h.log[k].serial);
  }

  /** A started transaction that is still unacknowledged 31 t0 plus five tick gaps after its start has timed out
      by the last tick: none stays active longer. */
  lemma TimeoutHappens(c: Clock, ops: seq<Op>, origin: nat, gap: nat, n: nat)
    requires WellTimed(ops, origin, gap) && (c.Wrapping? ==> gap < 0x8000_0000) && n in Run(c, ops).started
    ensures IsStart(ops, n)
    ensures LastTick(ops, origin) >= ops[n].now + 31 * InitialTimeout(ops[n].mid) + 5 * gap ==>
            n in Run(c, ops).acked || n in Run(c, ops).expired
  {
    hide Run, InitialTimeout;
    if c.Wrapping? { ClockRefinement(ops, origin, gap); }
    RunInv(Unbounded, ops, origin, Gap(gap));
    var h, last := Run(Unbounded, ops), LastTick(ops, origin);
    assert SerialOk(ops, h, n);
    if Held(h, n) {
      var i :| 0 <= i < |h.slots| && h.slots[i].Just? && h.owner[i] == n;
      assert SlotOk(ops, h, i, last, Now(ops, origin), Gap(gap));
      DeadlineBound(h.slots[i].value, ops[n], last, Now(ops, origin), gap);
    }
  }

  lemma DeadlineBound(t: Txn, op: Op, lastTick: nat, now: nat, gap: nat)
    requires op.OpStart? && t.retries <= MAX_RETRANSMIT && DeadlineOk(t, op, lastTick, now, gap)
    ensures lastTick < op.now + 31 * InitialTimeout(op.mid) + 5 * gap
  {
    hide InitialTimeout;
    var t0 := InitialTimeout(op.mid);
    BackoffTotals(t0, gap);
    assert forall r :: 0 <= r <= 4 ==> Elapsed(t0, r) <= Elapsed(t0, 4) && Times(gap, r) <= Times(gap, 4) by {
      assert Elapsed(t0, 4) == Elapsed(t0, 3) + Backoff(t0, 4);
      assert Elapsed(t0, 3) == Elapsed(t0, 2) + Backoff(t0, 3);
      assert Elapsed(t0, 2) == Elapsed(t0, 1) + Backoff(t0, 2);
      assert Elapsed(t0, 1) == Elapsed(t0, 0) + Backoff(t0, 1);
      assert Times(gap, 0) == 0 && Times(gap, 4) == gap + Times(gap, 3);
      assert Times(gap, 3) == gap + Times(gap, 2) && Times(gap, 2) == gap + Times(gap, 1)
          && Times(gap, 1) == gap + Times(gap, 0);
    }
  }

  // ------------------------------------------------------------------ the wrapping clock

  function WrapTxn(x: Maybe<Txn>): Maybe<Txn> {
    if x.Nothing? then x else Just(x.value.(nextAt := x.value.nextAt % WRAP))
  }

  function WrapSlots(p: Slots): (q: Slots)
    ensures |q| == |p| && forall i :: 0 <= i < |p| ==> q[i] == WrapTxn(p[i])
  {
    seq(|p|, i requires 0 <= i < |p| => WrapTxn(p[i]))
  }

  /** The history of the pool that only sees deadlines modulo 2^32. */
  function WrapHist(h: Hist): Hist {
    h.(slots := WrapSlots(h.slots))
  }

  /** Within half the clock's range on either side, the signed difference decides as the unbounded clock does. */
  lemma DueAgrees(deadline: nat, now: nat)
    requires -0x8000_0000 < deadline - now < 0x8000_0000
    ensures Due(Wrapping, deadline % WRAP, now) == Due(Unbounded, deadline, now)
  {
    ModOfDifference(deadline, now);
  }

  lemma ModOfDifference(deadline: nat, now: nat)
    ensures (deadline % WRAP - now) % WRAP == (deadline - now) % WRAP
  {
  }

  /** Nothing changes when the clock reading itself is reduced modulo 2^32, as `millis()` is. */
  lemma {:induction false} WrappedReading(p: Slots, op: Op)
    ensures op.OpTick? ==> Step(Wrapping, p, op) == Step(Wrapping, p, OpTick(op.now % WRAP))
    ensures op.OpStart? ==> Step(Wrapping, p, op) == Step(Wrapping, p, op.(now := op.now % WRAP))
    ensures op.OpTick? ==> Firings(Wrapping, p, op.now) == Firings(Wrapping, p, op.now % WRAP)
    decreases |p|
  {
    hide InitialTimeout;
    if op.OpTick? {
      forall x: Maybe<Txn>
        ensures TickSlot(Wrapping, x, op.now) == TickSlot(Wrapping, x, op.now % WRAP)
        ensures Fired(Wrapping, x, op.now) == Fired(Wrapping, x, op.now % WRAP)
      {
        WrappedSlot(x, op.now);
      }
      if p != [] { WrappedReading(p[..|p| - 1], op); }
    }
  }

  lemma WrappedSlot(x: Maybe<Txn>, now: nat)
    ensures TickSlot(Wrapping, x, now) == TickSlot(Wrapping, x, now % WRAP)
    ensures Fired(Wrapping, x, now) == Fired(Wrapping, x, now % WRAP)
  {
    if x.Just? {
      assert (x.value.nextAt - now) % WRAP == (x.value.nextAt - now % WRAP) % WRAP;
      var d := x.value.timeout * 2 % WRAP;
      assert (now + d) % WRAP == (now % WRAP + d) % WRAP;
    }
  }

  lemma WrapTickOne(h: Hist, now: nat, i: nat)
    requires |h.owner| == |h.slots| && i < |h.slots|
    requires h.slots[i].Just? ==> -0x8000_0000 < h.slots[i].value.nextAt - now < 0x8000_0000
    ensures TickOne(Wrapping, WrapHist(h), now, i) == WrapHist(TickOne(Unbounded, h, now, i))
  {
    if h.slots[i].Just? {
      DueAgrees(h.slots[i].value.nextAt, now);
      var u, w := TickOne(Unbounded, h, now, i), TickOne(Wrapping, WrapHist(h), now, i);
      assert w.slots == WrapSlots(u.slots);
    }
  }

  lemma {:induction false} WrapTick(h: Hist, now: nat, k: nat)
    requires |h.owner| == |h.slots| && k <= |h.slots|
    requires forall i :: 0 <= i < |h.slots| && h.slots[i].Just? ==>
               -0x8000_0000 < h.slots[i].value.nextAt - now < 0x8000_0000
    ensures TickUpTo(Wrapping, WrapHist(h), now, k) == WrapHist(TickUpTo(Unbounded, h, now, k))
  {
    hide TickOne;
    if k > 0 {
      WrapTick(h, now, k - 1);
      TickUpToSlots(Unbounded, h, now, k - 1);
      WrapTickOne(TickUpTo(Unbounded, h, now, k - 1), now, k - 1);
    }
  }

  lemma WrapApply(h: Hist, op: Op, n: nat)
    requires |h.owner| == |h.slots|
    requires op.OpTick? ==>
               forall i :: 0 <= i < |h.slots| && h.slots[i].Just? ==>
                   -0x8000_0000 < h.slots[i].value.nextAt - op.now < 0x8000_0000
    ensures Apply(Wrapping, WrapHist(h), op, n) == WrapHist(Apply(Unbounded, h, op, n))
  {
    hide InitialTimeout, TickUpTo;
    var w := WrapSlots(h.slots);
    match op
    case OpStart(remote, mid, token, bytes, now) =>
      FirstAgrees(w, IsFree<Txn>(), h.slots, IsFree<Txn>());
      var i := StartSlot(h.slots, token, bytes);
      if i >= 0 {
        assert AfterStart(Wrapping, w, remote, mid, token, bytes, now) ==
               WrapSlots(AfterStart(Unbounded, h.slots, remote, mid, token, bytes, now));
      }
    case OpComplete(addr, mid) =>
      FirstAgrees(w, HasMid(addr, mid), h.slots, HasMid(addr, mid));
      WrapRetire(h, First(h.slots, HasMid(addr, mid)));
    case OpCompleteByToken(key) =>
      FirstAgrees(w, HasKey(key), h.slots, HasKey(key));
      WrapRetire(h, First(h.slots, HasKey(key)));
    case OpTick(now) => WrapTick(h, now, |h.slots|);
  }

  lemma WrapRetire(h: Hist, i: int)
    requires |h.owner| == |h.slots| && -1 <= i < |h.slots|
    ensures Retire(WrapHist(h), i) == WrapHist(Retire(h, i))
  {
    if i >= 0 { assert WrapSlots(h.slots[i := Nothing]) == WrapSlots(h.slots)[i := Nothing]; }
  }

  /** Clock refinement: while no two consecutive ticks, and no start and the tick after it, are 2^31 ms apart, the pool
      on the wrapping 32-bit clock makes the same resends and timeouts, for the same transactions at the same ticks,
      as the pool on an unbounded clock, across any number of wraps. */
  lemma {:induction false} ClockRefinement(ops: seq<Op>, origin: nat, gap: nat)
    requires WellTimed(ops, origin, gap) && gap < 0x8000_0000
    ensures Run(Wrapping, ops) == WrapHist(Run(Unbounded, ops))
  {
    hide InitialTimeout, Apply, Inv, WrapSlots;
    if ops == [] {
      WrapEmpty();
    } else {
      var n := |ops| - 1;
      var before, op := ops[..n], ops[n];
      ClockRefinement(before, origin, gap);
      var h := Run(Unbounded, before);
      RunInv(Unbounded, before, origin, Gap(gap));
      TickNotLater(before, origin, gap);
      if op.OpTick? { DeadlinesNear(before, h, LastTick(before, origin), Now(before, origin), op.now, gap); }
      WrapApply(h, op, n);
    }
  }

  lemma WrapEmpty()
    ensures Empty() == WrapHist(Empty())
  {
    assert WrapSlots(Empty().slots) == Empty().slots;
  }

  lemma DeadlinesNear(ops: seq<Op>, h: Hist, lastTick: nat, now: nat, tick: nat, gap: nat)
    requires Inv(ops, h, 0, lastTick, lastTick, now, Gap(gap)) && now <= tick <= lastTick + gap && gap < 0x8000_0000
    ensures forall i :: 0 <= i < |h.slots| && h.slots[i].Just? ==>
              -0x8000_0000 < h.slots[i].value.nextAt - tick < 0x8000_0000
  {
    hide InitialTimeout;
    forall i | 0 <= i < |h.slots| && h.slots[i].Just?
      ensures -0x8000_0000 < h.slots[i].value.nextAt - tick < 0x8000_0000
    {
      assert SlotOk(ops, h, i, lastTick, now, Gap(gap));
      BackoffTotals(InitialTimeout(ops[h.owner[i]].mid), gap);
    }
  }
}
