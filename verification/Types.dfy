/** Shared vocabulary: machine integers, endpoints, CoAP constants and the table search
    that every fixed-slot table of the library uses. */
module Types {

  type byte = x: int | 0 <= x < 0x100
  type u16 = x: int | 0 <= x < 0x1_0000
  type u32 = x: int | 0 <= x < 0x1_0000_0000

  datatype Maybe<+T> = Nothing | Just(value: T)

  /** The part of an endpoint that `operator==` looks at. */
  datatype Address = V4(ip: seq<byte>, port: u16) | V6(addr: seq<byte>, port: u16)

  /** UDP remote. `ip` is ignored when `isV6` is set and `v6` is ignored when it is not. */
  datatype Endpoint = Endpoint(ip: seq<byte>, v6: seq<byte>, isV6: bool, port: u16) {
    function Addr(): Address {
      if isV6 then V6(v6, port) else V4(ip, port)
    }
  }

  const MAX_TOKEN_LEN: nat := 8

  type Token = t: seq<byte> | |t| <= MAX_TOKEN_LEN

  /** What observers, Block1 sessions and transactions are looked up by. */
  datatype Key = Key(addr: Address, token: seq<byte>)

  /** A datagram handed to, or taken from, the transport, with the remote it goes to or comes from. */
  datatype Datagram = Datagram(remote: Endpoint, bytes: seq<byte>)

  datatype MsgType = CON | NON | ACK | RST

  // Codes: (class << 5) | detail
  const EMPTY: byte := 0
  const GET: byte := 1
  const POST: byte := 2
  const PUT: byte := 3
  const DELETE: byte := 4
  const CONTENT: byte := 69
  const CONTINUE: byte := 95
  const BAD_REQUEST: byte := 128
  const BAD_OPTION: byte := 130
  const NOT_FOUND: byte := 132
  const METHOD_NOT_ALLOWED: byte := 133
  const REQUEST_ENTITY_INCOMPLETE: byte := 136
  const REQUEST_ENTITY_TOO_LARGE: byte := 141
  const NOT_IMPLEMENTED: byte := 161
  const SERVICE_UNAVAILABLE: byte := 163

  predicate IsMethodCode(code: byte) {
    code / 32 == 0 && code != 0
  }

  // Option numbers
  const OBSERVE: u16 := 6
  const URI_PATH: u16 := 11
  const CONTENT_FORMAT: u16 := 12
  const BLOCK2: u16 := 23
  const BLOCK1: u16 := 27

  /** Index of the first element at or after `i` that satisfies `p`, or -1. */
  function First<T>(s: seq<T>, p: T -> bool, i: nat := 0): (r: int)
    requires i <= |s|
    ensures r == -1 || (i <= r < |s| && p(s[r]))
    ensures forall j :: i <= j < (if r >= 0 then r else |s|) ==> !p(s[j])
    decreases |s| - i
  {
    if i == |s| then -1 else if p(s[i]) then i else First(s, p, i + 1)
  }

  lemma FirstAgrees<A, B>(s: seq<A>, p: A -> bool, t: seq<B>, q: B -> bool)
    requires |s| == |t| && forall j :: 0 <= j < |s| ==> p(s[j]) == q(t[j])
    ensures First(s, p) == First(t, q)
  {
    var r := First(t, q);
    assert forall j :: 0 <= j < (if r >= 0 then r else |t|) ==> !q(t[j]) && !p(s[j]);
  }

  /** `First` is determined by its contract. */
  lemma FirstIs<T>(s: seq<T>, p: T -> bool, r: nat)
    requires r < |s| && p(s[r]) && forall j :: 0 <= j < r ==> !p(s[j])
    ensures First(s, p) == r
  {
  }

  function IsFree<T>(): Maybe<T> -> bool {
    (x: Maybe<T>) => x.Nothing?
  }

  function FreeSlots<T>(n: nat): (s: seq<Maybe<T>>)
    ensures |s| == n && forall i :: 0 <= i < n ==> s[i] == Nothing
  {
    seq(n, (i: nat) => Nothing)
  }

  /** The scan of every `allocate...` function: lowest free slot, or -1. */
  method AllocateSlot<T>(s: seq<Maybe<T>>) returns (r: int)
    ensures r == First(s, IsFree<T>())
  {
    for i := 0 to |s|
      invariant First(s, IsFree<T>()) == First(s, IsFree<T>(), i)
    {
      if s[i].Nothing? { return i; }
    }
    return -1;
  }
}

/** Compile-time sizes. They carry no value here, only the limits the library puts on them,
    so everything proved holds for every configuration. The timing constants are those of
    section 4.8 of RFC 7252, which the library uses as defaults. */
module Config {
  import opened Types

  type Size = x: nat | 0 < x < 0xFF witness 1
  /** A reply of the library carries up to three options, a block request two besides its path. */
  type OptionLimit = x: nat | 4 <= x < 0xFF witness 16
  type BlockExponent = x: nat | x <= 6 witness 4

  const MAX_MSG_SIZE: nat
  const MAX_OPTIONS: OptionLimit
  const MAX_TRANSACTIONS: Size
  const MAX_RESOURCES: Size
  const MAX_OBSERVERS: Size
  const MAX_DEFERRED: Size
  const MAX_URI_PATH_LEN: nat
  const MAX_BLOCK1_SESSIONS: Size
  const MAX_DISCOVERS: Size
  const MAX_PATH_PARAMS: Size
  const MAX_PATH_PARAM_LEN: Size
  const BLOCK_SZX: BlockExponent
  const BLOCK1_MAX_BODY: nat
  const BLOCK2_MAX_BODY: nat

  const ACK_TIMEOUT_MS: nat := 2000
  const ACK_RANDOM_FACTOR_NUM: nat := 3
  const ACK_RANDOM_FACTOR_DEN: nat := 2
  const MAX_RETRANSMIT: nat := 4
  const DISCOVER_TIMEOUT_MS: nat := 5000
}
