/** The CoAP wire format (sections 3, 3.1 and 3.2 of RFC 7252) as functions on byte sequences. */
module Codec {
  import opened Types
  import opened Config

  datatype Opt = Opt(number: u16, value: seq<byte>)

  datatype Msg = Msg(typ: MsgType, code: byte, mid: u16, token: Token, options: seq<Opt>, payload: seq<byte>)

  datatype DecodeError = TooShort | BadVersion | BadTokenLength | BadOption | TooManyOptions | EmptyPayloadMarker

  /** The limits the builder methods enforce: `setToken`, `addOption` and 16-bit lengths. */
  predicate ValidOptions(os: seq<Opt>) {
    |os| <= MAX_OPTIONS && forall i :: 0 <= i < |os| ==> |os[i].value| < 0x1_0000
  }

  predicate ValidMsg(m: Msg) {
    ValidOptions(m.options)
  }

  // ------------------------------------------------------------------ encoding

  function FieldNibble(v: u16): byte {
    if v < 13 then v else if v < 269 then 13 else 14
  }

  function FieldExtra(v: u16): seq<byte> {
    if v < 13 then [] else if v < 269 then [v - 13] else [(v - 269) / 256, (v - 269) % 256]
  }

  function OptionHead(delta: u16, len: u16): seq<byte> {
    [16 * FieldNibble(delta) + FieldNibble(len)] + FieldExtra(delta) + FieldExtra(len)
  }

  function Delta(number: u16, last: u16): u16 {
    (number - last) % 0x1_0000
  }

  function EncodeOption(o: Opt, last: u16): (w: seq<byte>)
    requires |o.value| < 0x1_0000
    ensures |w| > |o.value|
  {
    OptionHead(Delta(o.number, last), |o.value|) + o.value
  }

  function EncodeOptions(os: seq<Opt>, last: u16): seq<byte>
    requires forall i :: 0 <= i < |os| ==> |os[i].value| < 0x1_0000
  {
    if os == [] then [] else
      EncodeOption(os[0], last) + EncodeOptions(os[1..], os[0].number)
  }

  function EncodePayload(payload: seq<byte>): seq<byte> {
    if payload == [] then [] else [0xFF] + payload
  }

  function TypeBits(t: MsgType): byte {
    match t case CON => 0 case NON => 1 case ACK => 2 case RST => 3
  }

  function BitsType(b: byte): MsgType {
    if b == 0 then CON else if b == 1 then NON else if b == 2 then ACK else RST
  }

  function EncodeHeader(m: Msg): seq<byte>
  {
    [64 + 16 * TypeBits(m.typ) + |m.token|, m.code, m.mid / 256, m.mid % 256] + m.token
  }

  function EncodeMsg(m: Msg): (w: seq<byte>)
    requires ValidMsg(m)
    ensures |w| >= 4 + |m.token| + |m.payload|
  {
    EncodeHeader(m) + EncodeOptions(m.options, 0) + EncodePayload(m.payload)
  }

  // ------------------------------------------------------------------ decoding

  datatype Field = FieldOk(value: u16, used: nat) | FieldShort

  /** Reads the extended part of a delta or length whose nibble is `nib`; 16-bit wrap-around included. */
  function ReadField(nib: nat, w: seq<byte>): (f: Field)
    requires nib < 15
    ensures f.FieldOk? ==> f.used <= |w|
  {
    if nib < 13 then FieldOk(nib, 0)
    else if nib == 13 then (if |w| < 1 then FieldShort else FieldOk(13 + w[0] as int, 1))
    else if |w| < 2 then FieldShort else FieldOk((269 + 256 * (w[0] as int) + w[1] as int) % 0x1_0000, 2)
  }

  datatype ParsedOption = Parsed(delta: u16, value: seq<byte>, used: nat) | ParseError(error: DecodeError)

  /** One option at the front of `w`, which does not start with the payload marker. */
  function ParseOption(w: seq<byte>): (r: ParsedOption)
    requires w != [] && w[0] != 0xFF
    ensures r.Parsed? ==> 0 < r.used <= |w| && |r.value| < 0x1_0000
    ensures r.ParseError? ==> r.error != BadTokenLength
  {
    var d, l := w[0] / 16, w[0] % 16;
    if d == 15 || l == 15 then ParseError(BadOption) else
    var fd := ReadField(d, w[1..]);
    if fd.FieldShort? then ParseError(TooShort) else
    var fl := ReadField(l, w[1 + fd.used..]);
    if fl.FieldShort? then ParseError(TooShort) else
    var start := 1 + fd.used + fl.used;
    if start + fl.value > |w| then ParseError(TooShort) else
    Parsed(fd.value, w[start..start + fl.value], start + fl.value)
  }

  datatype OptionsResult = OptionsOk(options: seq<Opt>, payload: seq<byte>) | OptionsError(error: DecodeError)

  /** The option loop of `decode`: `acc` are the options read so far. */
  function DecodeOptions(w: seq<byte>, last: u16, acc: seq<Opt>): OptionsResult
    decreases |w|
  {
    if w == [] then OptionsOk(acc, [])
    else if w[0] == 0xFF then (if |w| == 1 then OptionsError(EmptyPayloadMarker) else OptionsOk(acc, w[1..]))
    else
      match ParseOption(w)
      case ParseError(e) => OptionsError(e)
      case Parsed(delta, value, used) =>
        if |acc| >= MAX_OPTIONS then OptionsError(TooManyOptions) else
        var number := (last + delta) % 0x1_0000;
        DecodeOptions(w[used..], number, acc + [Opt(number, value)])
  }

  datatype DecodeResult = Decoded(msg: Msg) | Rejected(error: DecodeError)

  function DecodeMsg(w: seq<byte>): DecodeResult {
    if |w| < 4 then Rejected(TooShort)
    else if w[0] / 64 != 1 then Rejected(BadVersion)
    else
      var tkl := w[0] % 16;
      if tkl > MAX_TOKEN_LEN then Rejected(BadTokenLength)
      else if 4 + tkl > |w| then Rejected(TooShort)
      else
        match DecodeOptions(w[4 + tkl..], 0, [])
        case OptionsError(e) => Rejected(e)
        case OptionsOk(os, payload) =>
          Decoded(Msg(BitsType(w[0] / 16 % 4), w[1], 256 * (w[2] as int) + w[3] as int, w[4..4 + tkl], os, payload))
  }

  // ------------------------------------------------------------------ decode after encode

  lemma ReadWrittenField(v: u16, rest: seq<byte>)
    ensures ReadField(FieldNibble(v), FieldExtra(v) + rest) == FieldOk(v, |FieldExtra(v)|)
  {
  }

  lemma ParseWrittenOption(o: Opt, last: u16, rest: seq<byte>)
    requires |o.value| < 0x1_0000
    ensures var w := EncodeOption(o, last) + rest;
            && w[0] != 0xFF
            && ParseOption(w) == Parsed(Delta(o.number, last), o.value, |EncodeOption(o, last)|)
  {
    hide ReadField, ParseOption, FieldExtra;
    var delta, len: u16 := Delta(o.number, last), |o.value|;
    ParseSpliced(FieldNibble(delta), FieldNibble(len), FieldExtra(delta), FieldExtra(len), delta, o.value, rest) by {
      ReadWrittenField(delta, FieldExtra(len) + (o.value + rest));
      ReadWrittenField(len, o.value + rest);
    }
  }

  lemma ParseSpliced(nd: byte, nl: byte, x: seq<byte>, y: seq<byte>, delta: u16, v: seq<byte>, rest: seq<byte>)
    requires nd < 15 && nl < 15 && |v| < 0x1_0000
    requires ReadField(nd, x + (y + (v + rest))) == FieldOk(delta, |x|)
    requires ReadField(nl, y + (v + rest)) == FieldOk(|v|, |y|)
    ensures var w := [16 * nd + nl] + x + y + v + rest;
            w[0] != 0xFF && ParseOption(w) == Parsed(delta, v, 1 + |x| + |y| + |v|)
  {
    hide ReadField, ParseOption;
    var w := [16 * nd + nl] + x + y + v + rest;
    Splice(16 * nd + nl, x, y, v, rest);
    ParseParts(w, nd, nl, FieldOk(delta, |x|), FieldOk(|v|, |y|));
  }

  lemma ParseParts(w: seq<byte>, nd: nat, nl: nat, fd: Field, fl: Field)
    requires nd < 15 && nl < 15 && w != [] && w[0] == 16 * nd + nl
    requires ReadField(nd, w[1..]) == fd && fd.FieldOk?
    requires 1 + fd.used <= |w| && ReadField(nl, w[1 + fd.used..]) == fl && fl.FieldOk?
    requires 1 + fd.used + fl.used + fl.value <= |w|
    ensures var start := 1 + fd.used + fl.used;
            ParseOption(w) == Parsed(fd.value, w[start..start + fl.value], start + fl.value)
  {
    hide ReadField;
  }

  lemma Splice(b: byte, x: seq<byte>, y: seq<byte>, v: seq<byte>, rest: seq<byte>)
    ensures var w := [b] + x + y + v + rest;
            && w[0] == b
            && w[1..] == x + (y + (v + rest))
            && w[1 + |x|..] == y + (v + rest)
            && w[1 + |x| + |y|..1 + |x| + |y| + |v|] == v
  {
  }

  lemma Assoc(a: seq<byte>, b: seq<byte>, c: seq<byte>)
    ensures a + b + c == a + (b + c)
    ensures (a + b)[|a|..] == b
  {
  }

  lemma DecodeOneOption(w: seq<byte>, o: Opt, used: nat, last: u16, acc: seq<Opt>)
    requires w != [] && w[0] != 0xFF && |acc| < MAX_OPTIONS
    requires var p := ParseOption(w);
             p.Parsed? && p.value == o.value && p.used == used && (last + p.delta) % 0x1_0000 == o.number
    ensures used <= |w| && DecodeOptions(w, last, acc) == DecodeOptions(w[used..], o.number, acc + [o])
  {
    hide ParseOption;
  }

  lemma DecodeStop(w: seq<byte>, last: u16, acc: seq<Opt>)
    requires w == [] || w[0] == 0xFF || ParseOption(w).ParseError? || |acc| >= MAX_OPTIONS
    ensures DecodeOptions(w, last, acc) ==
            if w == [] then OptionsOk(acc, [])
            else if w[0] == 0xFF then (if |w| == 1 then OptionsError(EmptyPayloadMarker) else OptionsOk(acc, w[1..]))
            else if ParseOption(w).ParseError? then OptionsError(ParseOption(w).error)
            else OptionsError(TooManyOptions)
  {
    hide ParseOption;
  }

  lemma {:induction false} DecodeWrittenOptions(os: seq<Opt>, last: u16, acc: seq<Opt>, payload: seq<byte>)
    requires ValidOptions(os) && |acc| + |os| <= MAX_OPTIONS
    ensures DecodeOptions(EncodeOptions(os, last) + EncodePayload(payload), last, acc) == OptionsOk(acc + os, payload)
    decreases |os|
  {
    hide ParseOption, EncodeOption, DecodeOptions, EncodePayload;
    if os == [] {
      assert EncodeOptions(os, last) + EncodePayload(payload) == EncodePayload(payload);
      assert acc + os == acc;
      DecodePayload(last, acc, payload);
    } else {
      var o := os[0];
      var head, tail := EncodeOption(o, last), EncodeOptions(os[1..], o.number);
      var rest := tail + EncodePayload(payload);
      Assoc(head, tail, EncodePayload(payload));
      Assoc(head, rest, []);
      ParseWrittenOption(o, last, rest);
      DecodeOneOption(head + rest, o, |head|, last, acc);
      DecodeWrittenOptions(os[1..], o.number, acc + [o], payload);
      assert (acc + [o]) + os[1..] == acc + os;
    }
  }

  lemma DecodePayload(last: u16, acc: seq<Opt>, payload: seq<byte>)
    ensures DecodeOptions(EncodePayload(payload), last, acc) == OptionsOk(acc, payload)
  {
  }

  lemma DecodeHeader(m: Msg, body: seq<byte>)
    ensures var w := EncodeHeader(m) + body;
            && |w| >= 4 + |m.token| && w[0] / 64 == 1 && w[0] % 16 == |m.token|
            && BitsType(w[0] / 16 % 4) == m.typ && w[1] == m.code && 256 * (w[2] as int) + w[3] as int == m.mid
            && w[4..4 + |m.token|] == m.token && w[4 + |m.token|..] == body
  {
  }

  /** Round trip: every message within the limits comes back unchanged, whatever the order of its option numbers. */
  lemma DecodeEncode(m: Msg)
    requires ValidMsg(m)
    ensures DecodeMsg(EncodeMsg(m)) == Decoded(m)
  {
    hide DecodeOptions, EncodeOptions, EncodePayload;
    var body := EncodeOptions(m.options, 0) + EncodePayload(m.payload);
    Assoc(EncodeHeader(m), EncodeOptions(m.options, 0), EncodePayload(m.payload));
    DecodeHeader(m, body);
    assert [] + m.options == m.options;
    DecodeWrittenOptions(m.options, 0, [], m.payload);
  }

  // ------------------------------------------------------------------ encode after decode

  /** The extended field with nibble `nib` at the front of `w` stands for a value of at most 65535. */
  predicate FieldInRange(nib: nat, w: seq<byte>) {
    nib == 14 && |w| >= 2 ==> 269 + 256 * (w[0] as int) + (w[1] as int) < 0x1_0000
  }

  predicate OptionInRange(w: seq<byte>)
    requires w != [] && w[0] != 0xFF && ParseOption(w).Parsed?
  {
    var fd := ReadField(w[0] / 16, w[1..]);
    FieldInRange(w[0] / 16, w[1..]) && FieldInRange(w[0] % 16, w[1 + fd.used..])
  }

  predicate OptionsInRange(w: seq<byte>)
    decreases |w|
  {
    w != [] && w[0] != 0xFF && ParseOption(w).Parsed? ==>
      OptionInRange(w) && OptionsInRange(w[ParseOption(w).used..])
  }

  /** Every extended delta and length of the datagram stands for a value of at most 65535. */
  predicate WireInRange(w: seq<byte>) {
    |w| >= 4 && 4 + w[0] % 16 <= |w| ==> OptionsInRange(w[4 + w[0] % 16..])
  }

  lemma WriteReadField(nib: nat, w: seq<byte>)
    requires nib < 15 && ReadField(nib, w).FieldOk?
    ensures var f := ReadField(nib, w);
            && |FieldExtra(f.value)| <= f.used
            && (FieldInRange(nib, w) <==> FieldNibble(f.value) == nib && FieldExtra(f.value) == w[..f.used])
            && (!FieldInRange(nib, w) ==> |FieldExtra(f.value)| < f.used)
  {
    if nib == 14 {
      LongField(w);
    } else if nib == 13 {
      assert w[..1] == [w[0]];
    } else {
      assert w[..0] == [];
    }
  }

  lemma LongField(w: seq<byte>)
    requires |w| >= 2
    ensures var v: u16 := (269 + 256 * (w[0] as int) + w[1] as int) % 0x1_0000;
            && (FieldInRange(14, w) <==> FieldNibble(v) == 14 && FieldExtra(v) == w[..2])
            && |FieldExtra(v)| <= 2 && (!FieldInRange(14, w) ==> |FieldExtra(v)| < 2)
  {
    assert w[..2] == [w[0], w[1]];
    if FieldInRange(14, w) { TwoByteField(w[0], w[1]); } else { WrappedField(w[0], w[1]); }
  }

  lemma WrappedField(a: byte, b: byte)
    requires 269 + 256 * (a as int) + (b as int) >= 0x1_0000
    ensures (269 + 256 * (a as int) + (b as int)) % 0x1_0000 < 269
  {
  }

  lemma TwoByteField(a: byte, b: byte)
    requires 269 + 256 * (a as int) + (b as int) < 0x1_0000
    ensures FieldExtra(269 + 256 * (a as int) + (b as int)) == [a, b]
  {
  }

  lemma WriteParsedOption(w: seq<byte>, o: Opt, last: u16)
    requires w != [] && w[0] != 0xFF && ParseOption(w).Parsed?
    requires o == Opt((last + ParseOption(w).delta) % 0x1_0000, ParseOption(w).value)
    ensures var used := ParseOption(w).used;
            if OptionInRange(w) then EncodeOption(o, last) == w[..used] else |EncodeOption(o, last)| < used
  {
    hide ReadField, FieldNibble, FieldExtra, FieldInRange;
    var p, fd := ParseOption(w), ReadField(w[0] / 16, w[1..]);
    var fl := ReadField(w[0] % 16, w[1 + fd.used..]);
    WriteReadField(w[0] / 16, w[1..]);
    WriteReadField(w[0] % 16, w[1 + fd.used..]);
    assert p == Parsed(fd.value, w[1 + fd.used + fl.used..][..fl.value], 1 + fd.used + fl.used + fl.value);
    hide ParseOption;
    assert Delta(o.number, last) == fd.value;
    Unsplice(w, fd.used, fl.used, fl.value);
  }

  lemma Unsplice(w: seq<byte>, i: nat, j: nat, k: nat)
    requires 1 + i + j + k <= |w|
    ensures [w[0]] + w[1..][..i] + w[1 + i..][..j] + w[1 + i + j..][..k] == w[..1 + i + j + k]
  {
  }

  lemma RangeOfRest(w: seq<byte>)
    requires w != [] && w[0] != 0xFF && ParseOption(w).Parsed?
    ensures OptionsInRange(w) <==> OptionInRange(w) && OptionsInRange(w[ParseOption(w).used..])
  {
    hide ParseOption, OptionInRange;
  }

  /** What the option loop adds to `acc`, and how its re-encoding compares with what was read. */
  lemma {:induction false} WriteDecodedOptions(w: seq<byte>, last: u16, acc: seq<Opt>) returns (added: seq<Opt>)
    requires DecodeOptions(w, last, acc).OptionsOk? && |acc| <= MAX_OPTIONS
    ensures DecodeOptions(w, last, acc).options == acc + added && ValidOptions(added) && |acc| + |added| <= MAX_OPTIONS
    ensures var again := EncodeOptions(added, last) + EncodePayload(DecodeOptions(w, last, acc).payload);
            if OptionsInRange(w) then again == w else |again| < |w|
    decreases |w|
  {
    hide ParseOption, EncodeOption, EncodePayload, OptionsInRange, DecodeOptions;
    var r := DecodeOptions(w, last, acc);
    if w == [] || w[0] == 0xFF {
      added := [];
      assert acc + [] == acc;
      WriteDecodedPayload(w, last, acc);
    } else {
      DecodeGoesOn(w, last, acc);
      var p := ParseOption(w);
      var o := Opt((last + p.delta) % 0x1_0000, p.value);
      DecodeOneOption(w, o, p.used, last, acc);
      var tail := WriteDecodedOptions(w[p.used..], o.number, acc + [o]);
      added := [o] + tail;
      assert acc + [o] + tail == acc + added;
      WriteParsedOption(w, o, last);
      RangeOfRest(w);
      assert added[1..] == tail;
      Assoc(EncodeOption(o, last), EncodeOptions(tail, o.number), EncodePayload(r.payload));
      assert w == w[..p.used] + w[p.used..];
    }
  }

  lemma DecodeGoesOn(w: seq<byte>, last: u16, acc: seq<Opt>)
    requires DecodeOptions(w, last, acc).OptionsOk? && w != [] && w[0] != 0xFF
    ensures ParseOption(w).Parsed? && |acc| < MAX_OPTIONS
  {
    hide ParseOption;
  }

  lemma WriteDecodedPayload(w: seq<byte>, last: u16, acc: seq<Opt>)
    requires DecodeOptions(w, last, acc).OptionsOk? && (w == [] || w[0] == 0xFF)
    ensures DecodeOptions(w, last, acc).options == acc
    ensures OptionsInRange(w)
    ensures EncodeOptions([], last) + EncodePayload(DecodeOptions(w, last, acc).payload) == w
  {
    if w != [] { assert w == [0xFF] + w[1..]; }
  }

  lemma WriteHeader(w: seq<byte>)
    requires DecodeMsg(w).Decoded?
    ensures |DecodeMsg(w).msg.token| == w[0] % 16
    ensures EncodeHeader(DecodeMsg(w).msg) == w[..4 + w[0] % 16]
  {
    hide DecodeOptions;
    var m, n := DecodeMsg(w).msg, w[0] % 16;
    assert TypeBits(m.typ) == w[0] / 16 % 4;
    assert w[0] == 64 + 16 * TypeBits(m.typ) + n;
    assert m.mid / 256 == w[2] && m.mid % 256 == w[3];
    assert m.token == w[4..4 + n];
  }

  /** Canonical form: re-encoding an accepted datagram gives the datagram back exactly when no
      extended field overflows 16 bits; otherwise the result is strictly shorter. */
  lemma EncodeDecode(w: seq<byte>)
    requires DecodeMsg(w).Decoded?
    ensures ValidMsg(DecodeMsg(w).msg)
    ensures WireInRange(w) <==> EncodeMsg(DecodeMsg(w).msg) == w
    ensures !WireInRange(w) ==> |EncodeMsg(DecodeMsg(w).msg)| < |w|
  {
    hide DecodeOptions, EncodeOptions, EncodePayload, OptionsInRange, EncodeHeader;
    var m := DecodeMsg(w).msg;
    var n := w[0] % 16;
    var added := WriteDecodedOptions(w[4 + n..], 0, []);
    assert [] + added == added;
    Assoc(EncodeHeader(m), EncodeOptions(m.options, 0), EncodePayload(m.payload));
    WriteHeader(w);
    assert w == w[..4 + n] + w[4 + n..];
  }

  /** Two different datagrams without overflowing fields never decode to the same message. */
  lemma DecodeInjective(w1: seq<byte>, w2: seq<byte>)
    requires DecodeMsg(w1).Decoded? && DecodeMsg(w1) == DecodeMsg(w2)
    requires WireInRange(w1) && WireInRange(w2)
    ensures w1 == w2
  {
    EncodeDecode(w1);
    EncodeDecode(w2);
  }

  // ------------------------------------------------------------------ the bytes themselves

  /** The header of section 3 of RFC 7252: version 1, type, token length, code, message ID, token. */
  lemma HeaderBytes(m: Msg)
    requires ValidMsg(m)
    ensures var w := EncodeMsg(m);
            && w[0] / 64 == 1 && w[0] % 16 == |m.token| && w[1] == m.code && 256 * (w[2] as int) + w[3] as int == m.mid
            && w[0] / 16 % 4 == (match m.typ case CON => 0 case NON => 1 case ACK => 2 case RST => 3)
            && w[4..4 + |m.token|] == m.token
  {
    hide EncodeOptions, EncodePayload;
    Assoc(EncodeHeader(m), EncodeOptions(m.options, 0), EncodePayload(m.payload));
    DecodeHeader(m, EncodeOptions(m.options, 0) + EncodePayload(m.payload));
  }

  /** What a nibble and its extension bytes stand for (section 3.1 of RFC 7252). */
  function FieldValue(nib: byte, extra: seq<byte>): int {
    if nib < 13 && extra == [] then nib
    else if nib == 13 && |extra| == 1 then 13 + extra[0] as int
    else if nib == 14 && |extra| == 2 then 269 + 256 * (extra[0] as int) + extra[1] as int
    else -1
  }

  /** An option starts with a byte of two nibbles, each with its extension, that stand for the delta from the last
      option number and the length of the value, and ends with the value. */
  lemma OptionBytes(o: Opt, last: u16)
    requires |o.value| < 0x1_0000 && last <= o.number
    ensures var w := EncodeOption(o, last);
            exists i: nat, j: nat :: 1 <= i <= j <= |w| && w[j..] == o.value
              && FieldValue(w[0] / 16, w[1..i]) == o.number - last && FieldValue(w[0] % 16, w[i..j]) == |o.value|
  {
    hide FieldValue;
    var delta, len: u16 := Delta(o.number, last), |o.value|;
    var x, y, w := FieldExtra(delta), FieldExtra(len), EncodeOption(o, last);
    FieldStands(delta);
    FieldStands(len);
    var i, j := 1 + |x|, 1 + |x| + |y|;
    assert w[1..i] == x && w[i..j] == y && w[j..] == o.value;
    assert w[0] / 16 == FieldNibble(delta) && w[0] % 16 == FieldNibble(len);
  }

  lemma FieldStands(v: u16)
    ensures FieldValue(FieldNibble(v), FieldExtra(v)) == v
  {
  }

  /** The overflow family is real: a delta written as 65542 reads as 6, so these two datagrams decode alike. */
  lemma OverflowAliases()
    ensures var header: seq<byte> := [0x40, GET, 0, 1];
            var plain, wrapped := header + [0x60], header + [0xE0, 0xFE, 0xF9];
            && DecodeMsg(plain).Decoded? && DecodeMsg(plain) == DecodeMsg(wrapped)
            && WireInRange(plain) && !WireInRange(wrapped)
  {
    hide DecodeOptions, OptionsInRange, ParseOption;
    OverflowingOption();
    var header: seq<byte> := [0x40, GET, 0, 1];
    var plain, wrapped := header + [0x60], header + [0xE0, 0xFE, 0xF9];
    Assoc(header, [0x60], []);
    Assoc(header, [0xE0, 0xFE, 0xF9], []);
    assert plain[4..4] == wrapped[4..4] == [];
  }

  lemma OverflowingOption()
    ensures DecodeOptions([0x60], 0, []) == DecodeOptions([0xE0, 0xFE, 0xF9], 0, []) == OptionsOk([Opt(6, [])], [])
    ensures OptionsInRange([0x60]) && !OptionsInRange([0xE0, 0xFE, 0xF9])
  {
    var plain: seq<byte>, wrapped: seq<byte> := [0x60], [0xE0, 0xFE, 0xF9];
    assert ParseOption(plain) == Parsed(6, [], 1) && plain[1..] == [];
    assert ParseOption(wrapped) == Parsed(6, [], 3) && wrapped[3..] == [];
    assert [] + [Opt(6, [])] == [Opt(6, [])];
  }
}
