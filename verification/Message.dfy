/** The `Message` object: a fixed option table filled in place, an encoder that advances over an
    output buffer and a decoder that loops over an input buffer. */
module MessageObject {
  import opened Types
  import opened Config
  import opened Codec
  import opened OptionValues

  /** Where an option's value pointer points: nowhere, at bytes the caller owns, or at a row of the scratch table. */
  datatype ValueRef = Null | External(bytes: seq<byte>) | Scratch(slot: nat)

  datatype OptionRef = OptionRef(number: u16, length: u16, value: ValueRef)

  function Resolve(o: OptionRef, scratch: seq<seq<byte>>): (r: Opt) {
    Opt(o.number,
        if o.value.External? then o.value.bytes
        else if o.value.Scratch? && o.value.slot < |scratch| && o.length <= |scratch[o.value.slot]|
        then scratch[o.value.slot][..o.length] else [])
  }

  function ResolveAll(os: seq<OptionRef>, scratch: seq<seq<byte>>): (r: seq<Opt>)
    ensures |r| == |os|
    ensures forall i :: 0 <= i < |os| ==> r[i] == Resolve(os[i], scratch)
  {
    seq(|os|, i requires 0 <= i < |os| => Resolve(os[i], scratch))
  }

  /** Writes `data` at `pos` if it fits below `cap`; `rest` is what is still to be written of `total`. */
  method Emit(out: array<byte>, pos: nat, cap: nat, data: seq<byte>, ghost rest: seq<byte>, ghost total: seq<byte>)
    returns (ok: bool, end: nat)
    requires pos <= cap <= out.Length
    requires total == out[..pos] + (data + rest)
    modifies out
    ensures ok <==> pos + |data| <= cap
    ensures ok ==> end == pos + |data| && total == out[..end] + rest
    ensures !ok ==> |total| > cap
    ensures forall k :: cap <= k < out.Length ==> out[k] == old(out[k])
  {
    if pos + |data| > cap { return false, pos; }
    ghost var before := out[..pos];
    for i := 0 to |data|
      invariant out[..pos] == before
      invariant forall j :: 0 <= j < i ==> out[pos + j] == data[j]
      invariant forall k :: cap <= k < out.Length ==> out[k] == old(out[k])
    {
      out[pos + i] := data[i];
    }
    ok, end := true, pos + |data|;
    assert out[..end] == before + data;
    assert before + (data + rest) == before + data + rest;
  }

  /** The digits of `value`, least significant first, with no leading zero digit. */
  method LittleEndian(value: u32) returns (little: seq<byte>)
    ensures |little| <= 4 && |Reverse(little)| == |little| && Reverse(little) == UintBytes(value)
  {
    little := [];
    var v: nat := value;
    UintLength(value);
    assert UintBytes(v) + Reverse(little) == UintBytes(value);
    while v > 0 && |little| < 4
      invariant |little| <= 4
      invariant UintBytes(v) + Reverse(little) == UintBytes(value)
    {
      ReverseSnoc(little, v % 256);
      assert UintBytes(v / 256) + ([v % 256] + Reverse(little)) == UintBytes(v / 256) + [v % 256] + Reverse(little);
      little := little + [v % 256];
      v := v / 256;
    }
    ReverseLength(little);
    assert v > 0 ==> |UintBytes(v)| > 0;
    assert v == 0;
  }

  /** Stores the digits in `row`, most significant first. */
  method FillRow(row: seq<byte>, little: seq<byte>) returns (r: seq<byte>)
    requires |row| == 4 && |little| <= 4
    ensures |r| == 4 && r[..|little|] == Reverse(little)
  {
    r := row;
    ReverseLength(little);
    for i := 0 to |little|
      invariant |r| == 4
      invariant r[..i] == Reverse(little)[..i]
    {
      ReverseAt(little, i);
      r := r[i := little[|little| - 1 - i]];
    }
  }

  class Message {
    var typ: MsgType
    var code: byte
    var mid: u16
    var token: Token
    var options: seq<OptionRef>
    var lastNumber: u16
    var scratch: seq<seq<byte>>
    var payload: seq<byte>

    ghost predicate Valid()
      reads this
    {
      && |options| <= MAX_OPTIONS
      && |scratch| == MAX_OPTIONS
      && (forall k :: 0 <= k < |scratch| ==> |scratch[k]| == 4)
      && (forall i :: 0 <= i < |options| ==> ValidRef(i))
    }

    /** An option's value lives in the caller's memory or in the scratch row of its own index. */
    ghost predicate ValidRef(i: nat)
      requires i < |options|
      reads `options
    {
      match options[i].value
      case Null => true
      case External(bytes) => |bytes| == options[i].length
      case Scratch(slot) => slot == i && options[i].length <= 4
    }

    ghost predicate HasNull()
      reads `options
    {
      exists i :: 0 <= i < |options| && options[i].length > 0 && options[i].value.Null?
    }

    function Options(): (os: seq<Opt>)
      requires Valid()
      reads this
      ensures ValidOptions(os)
    {
      assert forall i :: 0 <= i < |options| ==> ValidRef(i) && |Resolve(options[i], scratch).value| < 0x1_0000;
      ResolveAll(options, scratch)
    }

    function Value(): (m: Msg)
      requires Valid()
      reads this
      ensures ValidMsg(m)
    {
      Msg(typ, code, mid, token, Options(), payload)
    }

    ghost predicate Cleared()
      reads this
    {
      code == EMPTY && mid == 0 && token == [] && options == [] && lastNumber == 0 && payload == []
    }

    constructor ()
      ensures Valid() && typ == CON && Cleared()
    {
      typ, code, mid, token, options, lastNumber, payload := CON, EMPTY, 0, [], [], 0, [];
      scratch := seq(MAX_OPTIONS, _ => [0, 0, 0, 0]);
    }

    method Reset()
      requires Valid()
      modifies this
      ensures Valid() && typ == CON && Cleared() && scratch == old(scratch)
    {
      typ, code, mid, token, options, lastNumber, payload := CON, EMPTY, 0, [], [], 0, [];
    }

    method SetToken(t: seq<byte>) returns (ok: bool)
      requires Valid()
      modifies `token
      ensures Valid()
      ensures ok <==> |t| <= MAX_TOKEN_LEN
      ensures token == if ok then t else old(token)
    {
      ok := |t| <= MAX_TOKEN_LEN;
      if ok { token := t; }
    }

    /** `value` must point at `length` bytes, as in the source; a null pointer with a length is accepted here
        and refused by `Encode`. */
    method AddOption(number: u16, value: ValueRef, length: u16) returns (ok: bool)
      requires Valid()
      requires value.External? ==> |value.bytes| == length
      requires value.Scratch? ==> value.slot == |options| && length <= 4
      modifies `options, `lastNumber
      ensures Valid()
      ensures ok <==> |old(options)| < MAX_OPTIONS && (old(options) == [] || number >= old(lastNumber))
      ensures !ok ==> options == old(options) && lastNumber == old(lastNumber)
      ensures ok ==> lastNumber == number
      ensures ok ==> options == old(options) + [OptionRef(number, length, if length > 0 then value else Null)]
      ensures ok && (length > 0 ==> !value.Null?) ==> Options() == old(Options()) + [Options()[|old(options)|]]
      ensures ok ==> Options()[..|old(options)|] == old(Options())
      ensures ok && length > 0 && value.External? ==> Options()[|old(options)|] == Opt(number, value.bytes)
      ensures ok && length == 0 ==> Options()[|old(options)|] == Opt(number, [])
      ensures (length > 0 ==> !value.Null?) && !old(HasNull()) ==> !HasNull()
    {
      if |options| >= MAX_OPTIONS { return false; }
      if |options| > 0 && number < lastNumber { return false; }
      options := options + [OptionRef(number, length, if length > 0 then value else Null)];
      lastNumber := number;
      ok := true;
      forall i | 0 <= i < |options| ensures ValidRef(i) {
        if i < |old(options)| { assert old(ValidRef(i)); }
      }
      assert Options()[..|old(options)|] == old(Options());
    }

    /** Appends an integer option through the scratch row of its own index: earlier options keep their bytes
        even when the call fails. */
    method AddOptionUint(number: u16, value: u32) returns (ok: bool)
      requires Valid()
      modifies `options, `lastNumber, `scratch
      ensures Valid()
      ensures ok <==> |old(options)| < MAX_OPTIONS && (old(options) == [] || number >= old(lastNumber))
      ensures ok ==> Options() == old(Options()) + [Opt(number, UintBytes(value))] && lastNumber == number
      ensures !ok ==> Options() == old(Options()) && lastNumber == old(lastNumber)
      ensures |options| == |old(options)| + (if ok then 1 else 0) && (!old(HasNull()) ==> !HasNull())
    {
      hide UintBytes, Reverse;
      if |options| >= MAX_OPTIONS { return false; }
      var little := LittleEndian(value);
      var slot, n := |options|, |little|;
      var row := FillRow(scratch[slot], little);
      scratch := scratch[slot := row];
      assert Valid() by {
        forall i | 0 <= i < |options| ensures ValidRef(i) { assert old(ValidRef(i)); }
      }
      assert Options() == old(Options()) by {
        forall i | 0 <= i < |options| ensures Options()[i] == old(Options())[i] { assert old(ValidRef(i)); }
      }
      ok := AddOption(number, if n > 0 then Scratch(slot) else Null, n);
    }

    /** Writes the wire form below `cap` and returns its length, or 0 when it does not fit or an option
        value is missing. */
    method Encode(out: array<byte>, cap: nat) returns (n: nat)
      requires Valid() && cap <= out.Length
      modifies out
      ensures n == if HasNull() || |EncodeMsg(Value())| > cap then 0 else |EncodeMsg(Value())|
      ensures n > 0 ==> n <= cap && out[..n] == EncodeMsg(Value())
      ensures forall k :: cap <= k < out.Length ==> out[k] == old(out[k])
    {
      hide EncodeOptions, EncodePayload;
      ghost var os, m := Options(), Value();
      ghost var total := EncodeMsg(m);
      if cap < 4 { return 0; }
      ghost var rest := EncodeOptions(os, 0) + EncodePayload(payload);
      assert total == out[..0] + (EncodeHeader(m) + rest) by {
        Assoc(EncodeHeader(m), EncodeOptions(os, 0), EncodePayload(payload));
        assert out[..0] == [];
      }
      var ok, pos := Emit(out, 0, cap, EncodeHeader(Msg(typ, code, mid, token, [], payload)), rest, total);
      if !ok { return 0; }
      ok, pos := EmitOptions(out, pos, cap, EncodePayload(payload), total);
      if !ok { return 0; }
      assert EncodePayload(payload) + [] == EncodePayload(payload);
      ok, pos := Emit(out, pos, cap, EncodePayload(payload), [], total);
      if !ok { return 0; }
      assert total == out[..pos];
      n := pos;
    }

    /** Encodes into a buffer of the largest message size, as every sender does. */
    method ToBytes() returns (bytes: Maybe<seq<byte>>)
      requires Valid() && !HasNull()
      ensures bytes == if |EncodeMsg(Value())| <= MAX_MSG_SIZE then Just(EncodeMsg(Value())) else Nothing
    {
      var buf := new byte[MAX_MSG_SIZE];
      var n := Encode(buf, MAX_MSG_SIZE);
      bytes := if n == 0 then Nothing else Just(buf[..n]);
    }

    method EmitOptions(out: array<byte>, start: nat, cap: nat, ghost after: seq<byte>, ghost total: seq<byte>)
      returns (ok: bool, pos: nat)
      requires Valid() && start <= cap <= out.Length
      requires total == out[..start] + (EncodeOptions(Options(), 0) + after)
      modifies out
      ensures ok ==> !HasNull() && pos <= cap && total == out[..pos] + after
      ensures !ok ==> HasNull() || |total| > cap
      ensures forall k :: cap <= k < out.Length ==> out[k] == old(out[k])
    {
      hide EncodeOptions, OptionHead;
      ghost var os := Options();
      var last: u16 := 0;
      pos := start;
      assert os[0..] == os;
      for i := 0 to |options|
        invariant 0 <= pos <= cap
        invariant total == out[..pos] + (EncodeOptions(os[i..], last) + after)
        invariant forall j :: 0 <= j < i ==> options[j].length == 0 || !options[j].value.Null?
        invariant forall k :: cap <= k < out.Length ==> out[k] == old(out[k])
      {
        var opt := options[i];
        var value := Resolve(opt, scratch).value;
        assert ValidRef(i);
        var head := OptionHead(Delta(opt.number, last), opt.length);
        if opt.length > 0 && opt.value.Null? { return false, pos; }
        ghost var rest := EncodeOptions(os[i + 1..], opt.number) + after;
        NextOption(os, i, last, after);
        ok, pos := Emit(out, pos, cap, head, value + rest, total);
        if !ok { return; }
        ok, pos := Emit(out, pos, cap, value, rest, total);
        if !ok { return; }
        last := opt.number;
      }
      ok := true;
      assert os[|options|..] == [];
      NoOptions(last, after);
    }

    /** Replaces the contents by the decoded datagram; every rejection leaves the message reset, except that
        BadTokenLength keeps the type it has already stored. */
    method Decode(input: array<byte>, n: nat) returns (error: Maybe<DecodeError>)
      requires Valid() && n <= input.Length
      modifies this
      ensures Valid()
      ensures var r := DecodeMsg(input[..n]);
              && (r.Decoded? ==> error == Nothing && Value() == r.msg && !HasNull())
              && (r.Rejected? ==> error == Just(r.error) && Cleared())
              && (r.Rejected? ==> typ == if r.error == BadTokenLength then BitsType(input[0] / 16 % 4) else CON)
    {
      hide DecodeOptions;
      ghost var w := input[..n];
      Reset();
      if n < 4 { return Just(TooShort); }
      if input[0] / 64 != 1 { return Just(BadVersion); }
      typ := BitsType(input[0] / 16 % 4);
      var tkl := input[0] % 16;
      if tkl > MAX_TOKEN_LEN { return Just(BadTokenLength); }
      code := input[1];
      mid := 256 * (input[2] as int) + input[3] as int;
      if 4 + tkl > n { Reset(); return Just(TooShort); }
      token := input[4..4 + tkl];
      assert w == input[..n];
      assert w[4..4 + tkl] == input[4..4 + tkl];
      assert w[4 + tkl..] == input[4 + tkl..n];
      error := DecodeBody(input, 4 + tkl, n);
    }

    /** The option and payload part of `decode`, from `start` on. */
    method DecodeBody(input: array<byte>, start: nat, n: nat) returns (error: Maybe<DecodeError>)
      requires Valid() && options == [] && payload == [] && lastNumber == 0 && start <= n <= input.Length
      modifies this
      ensures Valid()
      ensures var r := DecodeOptions(input[start..n], 0, []);
              && (r.OptionsOk? ==>
                  error == Nothing && !HasNull()
                      && Value() == old(Value()).(options := r.options, payload := r.payload))
              && (r.OptionsError? ==> error == Just(r.error) && r.error != BadTokenLength && Cleared() && typ == CON)
    {
      hide ParseOption, DecodeOptions;
      ghost var w, header := input[start..n], Value();
      var pos := start;
      var last: u16 := 0;
      while pos < n
        invariant start <= pos <= n && lastNumber == 0
        invariant Valid() && !HasNull() && Value() == header.(options := Options())
        invariant DecodeOptions(w, 0, []) == DecodeOptions(input[pos..n], last, Options())
        decreases n - pos
      {
        if input[pos] == 0xFF {
          DecodeStop(input[pos..n], last, Options());
          pos := pos + 1;
          if pos >= n { Reset(); return Just(EmptyPayloadMarker); }
          assert input[pos - 1..n][1..] == input[pos..n];
          StorePayload(input[pos..n]);
          return Nothing;
        }
        var p := ReadOption(input, pos, n);
        if p.ParseError? || |options| >= MAX_OPTIONS { DecodeStop(input[pos..n], last, Options()); }
        if p.ParseError? { Reset(); return Just(p.error); }
        if |options| >= MAX_OPTIONS { Reset(); return Just(TooManyOptions); }
        var number := (last + p.delta) % 0x1_0000;
        DecodeOneOption(input[pos..n], Opt(number, p.value), p.used, last, Options());
        assert input[pos..n][p.used..] == input[pos + p.used..n];
        StoreOption(number, p.value);
        last := number;
        pos := pos + p.used;
      }
      DecodeStop(input[pos..n], last, Options());
      return Nothing;
    }

    method StoreOption(number: u16, value: seq<byte>)
      requires Valid() && !HasNull() && |options| < MAX_OPTIONS && |value| < 0x1_0000
      modifies `options
      ensures Valid() && !HasNull() && Options() == old(Options()) + [Opt(number, value)]
    {
      options := options + [OptionRef(number, |value|, if |value| > 0 then External(value) else Null)];
      forall i | 0 <= i < |options| ensures ValidRef(i) {
        if i < |old(options)| { assert old(ValidRef(i)); }
      }
    }

    method StorePayload(data: seq<byte>)
      requires Valid()
      modifies `payload
      ensures Valid() && Value() == old(Value()).(payload := data) && (!old(HasNull()) ==> !HasNull())
    {
      payload := data;
      forall i | 0 <= i < |options| ensures ValidRef(i) { assert old(ValidRef(i)); }
    }

    /** The body of the option loop: one delta/length/value triple starting at `pos`. */
    static method ReadOption(input: array<byte>, pos: nat, n: nat) returns (p: ParsedOption)
      requires pos < n <= input.Length && input[pos] != 0xFF
      ensures p == ParseOption(input[pos..n])
    {
      hide ReadField;
      ghost var w := input[pos..n];
      var d, l := input[pos] / 16, input[pos] % 16;
      var at := pos + 1;
      if d == 15 || l == 15 { return ParseError(BadOption); }
      var fd := ReadExtended(input, at, n, d);
      assert w[1..] == input[at..n];
      if fd.FieldShort? { return ParseError(TooShort); }
      at := at + fd.used;
      var fl := ReadExtended(input, at, n, l);
      assert w[1 + fd.used..] == input[at..n];
      if fl.FieldShort? { return ParseError(TooShort); }
      at := at + fl.used;
      if at + fl.value > n { return ParseError(TooShort); }
      assert w[at - pos..at - pos + fl.value] == input[at..at + fl.value];
      return Parsed(fd.value, input[at..at + fl.value], at + fl.value - pos);
    }

    static method ReadExtended(input: array<byte>, pos: nat, n: nat, nib: nat) returns (f: Field)
      requires pos <= n <= input.Length && nib < 15
      ensures f == ReadField(nib, input[pos..n])
    {
      if nib < 13 { return FieldOk(nib, 0); }
      if nib == 13 {
        if pos >= n { return FieldShort; }
        return FieldOk(13 + input[pos] as int, 1);
      }
      if pos + 1 >= n { return FieldShort; }
      return FieldOk((269 + 256 * (input[pos] as int) + input[pos + 1] as int) % 0x1_0000, 2);
    }
  }

  /** A message with its header and token set, ready for options. */
  method NewMessage(typ: MsgType, code: byte, mid: u16, token: Token) returns (msg: Message)
    ensures fresh(msg) && msg.Valid() && !msg.HasNull() && msg.options == []
    ensures msg.Value() == Msg(typ, code, mid, token, [], [])
  {
    msg := new Message();
    msg.typ, msg.code, msg.mid := typ, code, mid;
    var _ := msg.SetToken(token);
    assert msg.Options() == [];
  }

  /** Decodes a received datagram into a fresh message. */
  method Parse(bytes: seq<byte>) returns (d: DecodeResult)
    ensures d == DecodeMsg(bytes)
  {
    hide DecodeMsg;
    var input := new byte[|bytes|](i requires 0 <= i < |bytes| => bytes[i]);
    assert input[..|bytes|] == bytes;
    var msg := new Message();
    var error := msg.Decode(input, |bytes|);
    d := if error.Nothing? then Decoded(msg.Value()) else Rejected(error.value);
  }

  lemma NextOption(os: seq<Opt>, i: nat, last: u16, after: seq<byte>)
    requires ValidOptions(os) && i < |os|
    ensures EncodeOptions(os[i..], last) + after
         == OptionHead(Delta(os[i].number, last), |os[i].value|) + (os[i].value + (EncodeOptions(os[i + 1..], os[i].number) + after))
  {
    hide OptionHead;
    assert os[i..][1..] == os[i + 1..];
    var head, tail := OptionHead(Delta(os[i].number, last), |os[i].value|), EncodeOptions(os[i + 1..], os[i].number);
    assert EncodeOptions(os[i..], last) == head + os[i].value + tail;
    assert head + os[i].value + tail + after == head + (os[i].value + (tail + after));
  }

  lemma NoOptions(last: u16, after: seq<byte>)
    ensures EncodeOptions([], last) + after == after
  {
  }

  ghost function Reverse(s: seq<byte>): seq<byte> {
    if s == [] then [] else Reverse(s[1..]) + [s[0]]
  }

  lemma {:induction false} ReverseSnoc(s: seq<byte>, b: byte)
    ensures Reverse(s + [b]) == [b] + Reverse(s)
  {
    if s != [] {
      assert (s + [b])[1..] == s[1..] + [b];
      ReverseSnoc(s[1..], b);
    }
  }

  lemma ReverseLength(s: seq<byte>)
    ensures |Reverse(s)| == |s|
  {
  }

  lemma {:induction false} ReverseAt(s: seq<byte>, k: nat)
    requires k < |s|
    ensures |Reverse(s)| == |s| && Reverse(s)[k] == s[|s| - 1 - k]
  {
    ReverseLength(s[1..]);
    if k < |s| - 1 { ReverseAt(s[1..], k); }
  }
}
