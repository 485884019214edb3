/** Integer option values (section 3.2 of RFC 7252) and the Block option (section 2.2 of RFC 7959). */
module OptionValues {
  import opened Types
  import opened Codec

  /** Big-endian bytes of `v` with leading zeros stripped; zero is the empty string. */
  function UintBytes(v: nat): seq<byte> {
    if v == 0 then [] else UintBytes(v / 256) + [v % 256]
  }

  function BigEndian(s: seq<byte>): nat {
    if s == [] then 0 else 256 * BigEndian(s[..|s| - 1]) + s[|s| - 1] as int
  }

  /** `optionAsUint`: at most the first four bytes are read. */
  function ReadUint(s: seq<byte>): nat {
    BigEndian(s[..if |s| > 4 then 4 else |s|])
  }

  lemma {:induction false} BigEndianOfUint(v: nat)
    ensures BigEndian(UintBytes(v)) == v
  {
    if v != 0 {
      BigEndianOfUint(v / 256);
      assert UintBytes(v)[..|UintBytes(v)| - 1] == UintBytes(v / 256);
    }
  }

  lemma UintLength(v: u32)
    ensures |UintBytes(v)| <= 4
    ensures v < 0x100_0000 <==> |UintBytes(v)| <= 3
    ensures v < 0x1_0000 <==> |UintBytes(v)| <= 2
  {
    assert UintBytes(v / 256 / 256 / 256 / 256) == [];
    assert |UintBytes(v / 256 / 256 / 256)| <= 1;
    assert |UintBytes(v / 256 / 256)| <= 2;
    assert |UintBytes(v / 256)| <= 3;
  }

  /** Every 32-bit value reads back unchanged. */
  lemma UintRoundTrip(v: u32)
    ensures |UintBytes(v)| <= 4 && ReadUint(UintBytes(v)) == v
  {
    UintLength(v);
    BigEndianOfUint(v);
    assert UintBytes(v)[..|UintBytes(v)|] == UintBytes(v);
  }

  /** The stripped form is minimal: no shorter byte string of an option reads as the same value. */
  lemma {:induction false} UintMinimal(v: nat, s: seq<byte>)
    requires BigEndian(s) == v
    ensures |UintBytes(v)| <= |s|
  {
    if v != 0 {
      assert v / 256 == BigEndian(s[..|s| - 1]);
      UintMinimal(v / 256, s[..|s| - 1]);
    }
  }

  datatype Block = Block(num: nat, more: bool, szx: nat) {
    function Size(): nat { BlockSize(szx) }
  }

  /** 2^(szx + 4), for the eight exponents the three SZX bits can hold. */
  function BlockSize(szx: nat): (n: nat)
    ensures 16 <= n <= 2048
  {
    if szx == 0 then 16 else if szx == 1 then 32 else if szx == 2 then 64 else if szx == 3 then 128
    else if szx == 4 then 256 else if szx == 5 then 512 else if szx == 6 then 1024 else 2048
  }

  /** `toOptionValue`: NUM is shifted left by four in 32 bits. */
  function BlockValue(num: nat, more: bool, szx: nat): u32 {
    num * 16 % 0x1_0000_0000 + (if more then 8 else 0) + szx % 8
  }

  function BlockBytes(num: nat, more: bool, szx: nat): seq<byte> {
    UintBytes(BlockValue(num, more, szx))
  }

  /** `fromOption`: more than three bytes is malformed. */
  function ReadBlock(value: seq<byte>): Maybe<Block> {
    if |value| > 3 then Nothing
    else var v := ReadUint(value); Just(Block(v / 16, v / 8 % 2 == 1, v % 8))
  }

  /** A Block option carries NUM, M and SZX faithfully for every NUM below 2^20; from there up to 2^28 the
      reader rejects it. */
  lemma BlockRoundTrip(num: nat, more: bool, szx: nat)
    requires num < 0x1000_0000 && szx < 8
    ensures ReadBlock(BlockBytes(num, more, szx)) == (if num < 0x10_0000 then Just(Block(num, more, szx)) else Nothing)
  {
    hide UintBytes, ReadUint;
    var v := BlockValue(num, more, szx);
    UintRoundTrip(v);
    UintLength(v);
    assert num * 16 % 0x1_0000_0000 == num * 16;
    assert v / 16 == num && v / 8 % 2 == (if more then 1 else 0) && v % 8 == szx;
  }

  /** The value of a Block option is NUM in the high bits, then M, then SZX (section 2.2 of RFC 7959). */
  lemma BlockWire(num: nat, more: bool, szx: nat)
    requires num < 0x1000_0000 && szx < 8
    ensures BigEndian(BlockBytes(num, more, szx)) == 16 * num + (if more then 8 else 0) + szx
  {
    hide UintBytes, BigEndian;
    BigEndianOfUint(BlockValue(num, more, szx));
  }

  /** A block size is 2^(SZX + 4). */
  lemma {:induction false} BlockSizeIs(szx: nat)
    requires szx <= 7
    ensures BlockSize(szx) == Power(szx + 4)
  {
    if szx > 0 {
      BlockSizeIs(szx - 1);
    } else {
      assert Power(4) == 2 * Power(3) && Power(3) == 2 * Power(2) && Power(2) == 2 * Power(1)
          && Power(1) == 2 * Power(0);
    }
  }

  /** 2^n */
  function Power(n: nat): nat {
    if n == 0 then 1 else 2 * Power(n - 1)
  }

  /** From 2^28 on the label itself wraps: block `num + 2^28` goes out labelled as block `num`. */
  lemma BlockLabelWraps(num: nat, more: bool, szx: nat)
    ensures BlockBytes(num + 0x1000_0000, more, szx) == BlockBytes(num, more, szx)
  {
    hide UintBytes;
    WrapsOnce(num * 16);
    assert (num + 0x1000_0000) * 16 == num * 16 + 0x1_0000_0000;
  }

  lemma WrapsOnce(a: nat)
    ensures (a + 0x1_0000_0000) % 0x1_0000_0000 == a % 0x1_0000_0000
  {
  }

  // ------------------------------------------------------------------ options of a message

  function HasNumber(number: u16): Opt -> bool {
    (o: Opt) => o.number == number
  }

  /** `findOption`: the value of the first option with this number. */
  function FindOption(os: seq<Opt>, number: u16): Maybe<seq<byte>> {
    var i := First(os, HasNumber(number));
    if i < 0 then Nothing else Just(os[i].value)
  }

  /** The value of the first option with this number, read as an integer. */
  function FindUint(os: seq<Opt>, number: u16): Maybe<nat> {
    var o := FindOption(os, number);
    if o.Nothing? then Nothing else Just(ReadUint(o.value))
  }

  function UintOpt(number: u16, v: u32): (o: Opt)
    ensures |o.value| <= 4
  {
    UintLength(v);
    Opt(number, UintBytes(v))
  }

  /** An integer option reads back if no option before it has its number. */
  lemma FindsUint(os: seq<Opt>, i: nat, v: u32)
    requires i < |os| && os[i] == UintOpt(os[i].number, v)
    requires forall j :: 0 <= j < i ==> os[j].number != os[i].number
    ensures FindUint(os, os[i].number) == Just(v)
  {
    hide UintBytes, ReadUint;
    UintRoundTrip(v);
    FirstIs(os, HasNumber(os[i].number), i);
  }

  lemma FindsNone(os: seq<Opt>, number: u16)
    requires forall j :: 0 <= j < |os| ==> os[j].number != number
    ensures FindUint(os, number) == Nothing && FindOption(os, number) == Nothing
  {
  }

  function BlockOpt(number: u16, num: nat, more: bool, szx: nat): (o: Opt)
    ensures |o.value| <= 4
  {
    UintOpt(number, BlockValue(num, more, szx))
  }
}
