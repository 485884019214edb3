/** The retransmission pool (sections 4.2 and 4.8 of RFC 7252): fixed slots, exponential backoff and a
    32-bit millisecond clock. The same functions are also read on an unbounded clock. */
module Reliability {
  import opened Types
  import opened Config
  import opened Generator

  const WRAP: nat := 0x1_0000_0000

  datatype Clock = Wrapping | Unbounded

  datatype Txn = Txn(remote: Endpoint, mid: u16, token: seq<byte>, retries: nat, timeout: nat, nextAt: nat,
                     bytes: seq<byte>)

  type Slots = seq<Maybe<Txn>>

  /** What `tick` reports through its callbacks. */
  datatype Firing = Resend(remote: Endpoint, bytes: seq<byte>) | Expire(remote: Endpoint, token: seq<byte>)

  function At(c: Clock, t: nat): nat {
    if c.Wrapping? then t % WRAP else t
  }

  /** The deadline has passed: on the wrapping clock, the difference read as a signed 32-bit number is not positive. */
  predicate Due(c: Clock, deadline: nat, now: nat) {
    if c.Wrapping? then !(0 < (deadline - now) % WRAP < 0x8000_0000) else deadline <= now
  }

  /** `computeInitialTimeoutMs`. */
  function InitialTimeout(seed: u32): (t: nat)
    ensures 2000 <= t < 3000
  {
    var x := Xorshift(if seed == 0 then 0x2545F491 else seed as bv32);
    var upper := ACK_TIMEOUT_MS * ACK_RANDOM_FACTOR_NUM / ACK_RANDOM_FACTOR_DEN;
    ACK_TIMEOUT_MS + (x as int) % (upper - ACK_TIMEOUT_MS)
  }

  /** Seeds spread the first timeout over its range: for every number but zero some seed gives 2000 ms plus that number
      modulo 1000. */
  lemma EveryTimeout(y: bv32) returns (seed: u32)
    requires y != 0
    ensures InitialTimeout(seed) == 2000 + y as int % 1000
  {
    hide Xorshift, InitialTimeout;
    var x := Onto(y);
    seed := x as int;
    SeedBack(x);
    SeedUsed(seed, x);
  }

  lemma SeedUsed(seed: u32, x: bv32)
    requires seed != 0 && seed as bv32 == x
    ensures InitialTimeout(seed) == 2000 + Xorshift(x) as int % 1000
  {
    hide Xorshift;
  }

  lemma SeedBack(x: bv32)
    ensures (x as int) as bv32 == x && (x != 0 ==> x as int != 0)
  {
    if x as int == 0 { assert (x as int) as bv32 == 0; }
  }

  function NewTxn(c: Clock, remote: Endpoint, mid: u16, token: seq<byte>, bytes: seq<byte>, now: nat): Txn {
    Txn(remote, mid, token, 0, InitialTimeout(mid), At(c, now + InitialTimeout(mid)), bytes)
  }

  function StartSlot(p: Slots, token: seq<byte>, bytes: seq<byte>): (i: int)
    ensures -1 <= i < |p| && (i >= 0 ==> p[i].Nothing?)
  {
    if |token| > MAX_TOKEN_LEN || |bytes| > MAX_MSG_SIZE then -1 else First(p, IsFree<Txn>())
  }

  function AfterStart(c: Clock, p: Slots, remote: Endpoint, mid: u16, token: seq<byte>, bytes: seq<byte>,
                      now: nat): (q: Slots)
    ensures |q| == |p|
  {
    var i := StartSlot(p, token, bytes);
    if i < 0 then p else p[i := Just(NewTxn(c, remote, mid, token, bytes, now))]
  }

  function HasMid(addr: Address, mid: u16): Maybe<Txn> -> bool {
    (x: Maybe<Txn>) => x.Just? && x.value.remote.Addr() == addr && x.value.mid == mid
  }

  function HasKey(key: Key): Maybe<Txn> -> bool {
    (x: Maybe<Txn>) => x.Just? && Key(x.value.remote.Addr(), x.value.token) == key
  }

  function Release(p: Slots, i: int): (q: Slots)
    requires -1 <= i < |p|
    ensures |q| == |p|
  {
    if i < 0 then p else p[i := Nothing]
  }

  function AfterComplete(p: Slots, addr: Address, mid: u16): (q: Slots)
    ensures |q| == |p|
  {
    Release(p, First(p, HasMid(addr, mid)))
  }

  function TickSlot(c: Clock, x: Maybe<Txn>, now: nat): Maybe<Txn> {
    if x.Nothing? || !Due(c, x.value.nextAt, now) then x
    else if x.value.retries < MAX_RETRANSMIT then
      var timeout := x.value.timeout * 2 % WRAP;
      Just(x.value.(retries := x.value.retries + 1, timeout := timeout, nextAt := At(c, now + timeout)))
    else Nothing
  }

  function Fired(c: Clock, x: Maybe<Txn>, now: nat): seq<Firing> {
    if x.Nothing? || !Due(c, x.value.nextAt, now) then []
    else if x.value.retries < MAX_RETRANSMIT then [Resend(x.value.remote, x.value.bytes)]
    else [Expire(x.value.remote, x.value.token)]
  }

  function AfterTick(c: Clock, p: Slots, now: nat): (q: Slots)
    ensures |q| == |p|
    ensures forall i :: 0 <= i < |p| ==> q[i] == TickSlot(c, p[i], now)
  {
    seq(|p|, i requires 0 <= i < |p| => TickSlot(c, p[i], now))
  }

  /** The callbacks of one tick, lowest slot first. */
  function Firings(c: Clock, p: Slots, now: nat): seq<Firing> {
    if p == [] then [] else Firings(c, p[..|p| - 1], now) + Fired(c, p[|p| - 1], now)
  }

  lemma FiringsNone(c: Clock, now: nat)
    ensures Firings(c, [], now) == []
  {
  }

  lemma FiringsSnoc(c: Clock, p: Slots, now: nat, i: nat)
    requires i < |p|
    ensures Firings(c, p[..i + 1], now) == Firings(c, p[..i], now) + Fired(c, p[i], now)
  {
    assert p[..i + 1][..i] == p[..i];
  }

  function CountActive(p: Slots): (n: nat)
    ensures n <= |p|
  {
    if p == [] then 0 else CountActive(p[..|p| - 1]) + (if p[|p| - 1].Just? then 1 else 0)
  }

  class TransactionPool {
    var slots: Slots

    ghost predicate Valid()
      reads this
    {
      |slots| == MAX_TRANSACTIONS
    }

    constructor ()
      ensures Valid() && slots == FreeSlots<Txn>(MAX_TRANSACTIONS)
    {
      slots := FreeSlots<Txn>(MAX_TRANSACTIONS);
    }

    method Start(remote: Endpoint, mid: u16, token: seq<byte>, bytes: seq<byte>, now: u32) returns (slot: int)
      requires Valid()
      modifies this
      ensures Valid()
      ensures slot == StartSlot(old(slots), token, bytes)
      ensures slots == AfterStart(Wrapping, old(slots), remote, mid, token, bytes, now)
    {
      if |token| > MAX_TOKEN_LEN { return -1; }
      if |bytes| > MAX_MSG_SIZE { return -1; }
      slot := AllocateSlot(slots);
      if slot >= 0 { slots := slots[slot := Just(NewTxn(Wrapping, remote, mid, token, bytes, now))]; }
    }

    method Complete(remote: Endpoint, mid: u16) returns (found: bool)
      requires Valid()
      modifies this
      ensures Valid()
      ensures slots == AfterComplete(old(slots), remote.Addr(), mid)
      ensures found <==> exists i :: 0 <= i < |old(slots)| && HasMid(remote.Addr(), mid)(old(slots)[i])
    {
      var wanted := HasMid(remote.Addr(), mid);
      for i := 0 to |slots|
        invariant slots == old(slots)
        invariant First(slots, wanted) == First(slots, wanted, i)
      {
        if slots[i].Just? && slots[i].value.remote.Addr() == remote.Addr() && slots[i].value.mid == mid {
          assert wanted(old(slots)[i]);
          slots := slots[i := Nothing];
          return true;
        }
      }
      return false;
    }

    method CompleteByToken(remote: Endpoint, token: seq<byte>) returns (found: bool)
      requires Valid()
      modifies this
      ensures Valid()
      ensures slots == Release(old(slots), First(old(slots), HasKey(Key(remote.Addr(), token))))
      ensures found <==> exists i :: 0 <= i < |old(slots)| && HasKey(Key(remote.Addr(), token))(old(slots)[i])
    {
      var wanted := HasKey(Key(remote.Addr(), token));
      for i := 0 to |slots|
        invariant slots == old(slots)
        invariant First(slots, wanted) == First(slots, wanted, i)
      {
        if slots[i].Nothing? { continue; }
        if slots[i].value.remote.Addr() != remote.Addr() || slots[i].value.token != token { continue; }
        assert wanted(old(slots)[i]);
        slots := slots[i := Nothing];
        return true;
      }
      return false;
    }

    /** The token of the very slot that `Complete` with the same arguments would free. */
    method GetToken(remote: Endpoint, mid: u16) returns (token: Maybe<seq<byte>>)
      requires Valid()
      ensures var i := First(slots, HasMid(remote.Addr(), mid));
              && token == (if i < 0 then Nothing else Just(slots[i].value.token))
              && AfterComplete(slots, remote.Addr(), mid) == (if i < 0 then slots else slots[i := Nothing])
    {
      for i := 0 to |slots|
        invariant First(slots, HasMid(remote.Addr(), mid)) == First(slots, HasMid(remote.Addr(), mid), i)
      {
        if slots[i].Just? && slots[i].value.remote.Addr() == remote.Addr() && slots[i].value.mid == mid {
          return Just(slots[i].value.token);
        }
      }
      return Nothing;
    }

    /** Advances every slot to `now`; `fired` lists the callbacks made, in order. */
    method Tick(now: u32) returns (fired: seq<Firing>)
      requires Valid()
      modifies this
      ensures Valid()
      ensures slots == AfterTick(Wrapping, old(slots), now)
      ensures fired == Firings(Wrapping, old(slots), now)
    {
      hide Firings, AfterTick;
      fired := [];
      FiringsNone(Wrapping, now);
      for i := 0 to |slots|
        invariant Valid()
        invariant forall j :: 0 <= j < i ==> slots[j] == TickSlot(Wrapping, old(slots)[j], now)
        invariant forall j :: i <= j < |slots| ==> slots[j] == old(slots)[j]
        invariant fired == Firings(Wrapping, old(slots)[..i], now)
      {
        FiringsSnoc(Wrapping, old(slots), now, i);
        if slots[i].Nothing? { continue; }
        var t := slots[i].value;
        var remaining := (t.nextAt - now) % WRAP;
        if 0 < remaining < 0x8000_0000 { continue; }
        if t.retries < MAX_RETRANSMIT {
          var timeout := t.timeout * 2 % WRAP;
          slots := slots[i := Just(t.(retries := t.retries + 1, timeout := timeout, nextAt := (now + timeout) % WRAP))];
          fired := fired + [Resend(t.remote, t.bytes)];
        } else {
          slots := slots[i := Nothing];
          fired := fired + [Expire(t.remote, t.token)];
        }
      }
      assert old(slots)[..|slots|] == old(slots);
    }

    method ActiveCount() returns (count: nat)
      requires Valid()
      ensures count == CountActive(slots)
    {
      count := 0;
      for i := 0 to |slots|
        invariant count == CountActive(slots[..i])
      {
        assert slots[..i + 1][..i] == slots[..i];
        if slots[i].Just? { count := count + 1; }
      }
      assert slots[..|slots|] == slots;
    }
  }
}
