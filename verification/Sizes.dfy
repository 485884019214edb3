/** How long an encoded message is. */
module Sizes {
  import opened Types
  import opened Config
  import opened Codec
  import opened OptionValues

  /** Exactly: header, token, options and payload with its marker. */
  lemma MessageSize(m: Msg)
    requires ValidMsg(m)
    ensures |EncodeMsg(m)| == 4 + |m.token| + |EncodeOptions(m.options, 0)| + if m.payload == [] then 0
            else 1 + |m.payload|
  {
    hide EncodeOptions;
  }

  lemma SmallOption(o: Opt, last: u16)
    requires |o.value| <= 4
    ensures |EncodeOption(o, last)| <= 3 + |o.value|
  {
  }

  predicate Short(os: seq<Opt>) {
    forall i :: 0 <= i < |os| ==> |os[i].value| <= 4
  }

  function ShortSize(os: seq<Opt>): nat {
    if os == [] then 0 else 3 + |os[0].value| + ShortSize(os[1..])
  }

  lemma {:induction false} ShortLength(os: seq<Opt>, last: u16)
    requires Short(os)
    ensures |EncodeOptions(os, last)| <= ShortSize(os)
  {
    hide EncodeOption;
    if os != [] {
      SmallOption(os[0], last);
      ShortLength(os[1..], os[0].number);
    }
  }

  lemma {:induction false} OptionsLength(a: seq<Opt>, b: seq<Opt>, last: u16)
    requires ValidOptions(a) && Short(b)
    ensures forall i :: 0 <= i < |a + b| ==> |(a + b)[i].value| < 0x1_0000
    ensures |EncodeOptions(a + b, last)| <= |EncodeOptions(a, last)| + ShortSize(b)
    decreases |a|
  {
    hide EncodeOption, ShortSize;
    if a == [] {
      assert a + b == b;
      ShortLength(b, last);
    } else {
      assert (a + b)[1..] == a[1..] + b;
      OptionsLength(a[1..], b, a[0].number);
    }
  }

  /** Header, token, options and payload with its marker. */
  lemma MessageLength(m: Msg, a: seq<Opt>, b: seq<Opt>)
    requires ValidMsg(m) && ValidOptions(a) && Short(b) && m.options == a + b
    ensures |EncodeMsg(m)| <= 4 + |m.token| + |EncodeOptions(a, 0)| + ShortSize(b) + 1 + |m.payload|
  {
    hide EncodeOptions, ShortSize;
    OptionsLength(a, b, 0);
  }

  lemma FormatLength(v: u16)
    ensures |UintBytes(v)| <= 2
  {
    UintLength(v);
  }

  lemma ShortPair(a: Opt, b: Opt)
    ensures ShortSize([a, b]) == 6 + |a.value| + |b.value|
  {
    var s := [a, b];
    assert s[1..] == [b] && s[1..][1..] == [];
    assert ShortSize(s[1..]) == 3 + |s[1..][0].value| + ShortSize(s[1..][1..]);
    assert ShortSize([]) == 0;
  }

  lemma ShortOne(a: Opt)
    ensures ShortSize([a]) == 3 + |a.value|
  {
    assert [a][1..] == [];
    assert ShortSize([]) == 0;
  }

  lemma NoOptionsLength()
    ensures |EncodeOptions([], 0)| == 0
  {
  }
}
