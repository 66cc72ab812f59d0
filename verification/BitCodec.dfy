/**
 The bit stream and its variable-length integers (`shared/serde/src/number.rs`,
 `bit_writer.rs`, `bit_reader.rs`). A number is cut into chunks of `bits` bits,
 least significant first, each preceded by a "more chunks follow" bit.
 */
module BitCodec {

  type Bits = seq<bool>

  datatype Decoded<+T> = Ok(value: T, rest: Bits) | Err

  function ShiftLeft(v: nat, n: nat): nat {
    if n == 0 then v else 2 * ShiftLeft(v, n - 1)
  }

  function ShiftRight(v: nat, n: nat): nat {
    if n == 0 then v else ShiftRight(v / 2, n - 1)
  }

  /** The `n` low bits of `value`, least significant first. */
  function LowBits(value: nat, n: nat): (b: Bits)
    ensures |b| == n
  {
    if n == 0 then [] else [value % 2 == 1] + LowBits(value / 2, n - 1)
  }

  function FromBits(b: Bits): nat {
    if b == [] then 0 else (if b[0] then 1 else 0) + 2 * FromBits(b[1..])
  }

  /** Cutting off the low bits loses nothing. */
  lemma {:induction false} LowPlusHigh(v: nat, n: nat)
    ensures FromBits(LowBits(v, n)) + ShiftLeft(ShiftRight(v, n), n) == v
  {
    if n != 0 {
      assert LowBits(v, n)[1..] == LowBits(v / 2, n - 1);
      LowPlusHigh(v / 2, n - 1);
    }
  }

  /** `value >= 1 << bits` is the test for "something is left above this chunk". */
  lemma {:induction false} ThresholdTest(v: nat, n: nat)
    ensures v < ShiftLeft(1, n) <==> ShiftRight(v, n) == 0
    ensures ShiftRight(v, n) <= v && (n > 0 && v > 0 ==> ShiftRight(v, n) < v)
  {
    if n != 0 { ThresholdTest(v / 2, n - 1); }
  }

  lemma {:induction false} ShiftLeftSum(v: nat, w: nat, n: nat)
    ensures ShiftLeft(v + w, n) == ShiftLeft(v, n) + ShiftLeft(w, n)
  {
    if n != 0 { ShiftLeftSum(v, w, n - 1); }
  }

  lemma {:induction false} ShiftLeftTwice(v: nat, m: nat, n: nat)
    ensures ShiftLeft(ShiftLeft(v, n), m) == ShiftLeft(v, m + n)
  {
    if m != 0 { ShiftLeftTwice(v, m - 1, n); }
  }

  lemma {:induction false} ShiftRightSnoc(v: nat, n: nat)
    ensures ShiftRight(v, n) / 2 == ShiftRight(v, n + 1)
  {
    if n != 0 { ShiftRightSnoc(v / 2, n - 1); }
  }

  lemma {:induction false} ZeroShifted(n: nat)
    ensures ShiftLeft(0, n) == 0
  {
    if n != 0 { ZeroShifted(n - 1); }
  }

  lemma {:induction false} SnocBit(b: Bits, bit: bool)
    ensures FromBits(b + [bit]) == FromBits(b) + (if bit then ShiftLeft(1, |b|) else 0)
  {
    if b == [] {
      assert ([bit])[1..] == [];
    } else {
      assert (b + [bit])[1..] == b[1..] + [bit];
      SnocBit(b[1..], bit);
    }
  }

  // ----- UnsignedVariableInteger -----

  function Encode(value: nat, bits: nat): (b: Bits)
    requires bits > 0
    ensures |b| > 0
    decreases value
  {
    if value < ShiftLeft(1, bits) then [false] + LowBits(value, bits)
    else
      ThresholdTest(value, bits);
      assert value != 0 by { ZeroIsSmall(bits); }
      [true] + LowBits(value, bits) + Encode(ShiftRight(value, bits), bits)
  }

  lemma {:induction false} ZeroIsSmall(n: nat)
    ensures 0 < ShiftLeft(1, n)
  {
    if n != 0 { ZeroIsSmall(n - 1); }
  }

  /** A decoded high part placed `shift` bits above the `output` accumulated so far. */
  function Above(output: nat, shift: nat, d: Decoded<nat>): Decoded<nat> {
    match d
    case Err => Err
    case Ok(v, rest) => Ok(output + ShiftLeft(v, shift), rest)
  }

  function Decode(s: Bits, bits: nat): (d: Decoded<nat>)
    requires bits > 0
    ensures d.Ok? ==> |d.rest| < |s|
    decreases |s|
  {
    if |s| < 1 + bits then Err
    else
      var chunk := FromBits(s[1..1 + bits]);
      if s[0] then Above(chunk, bits, Decode(s[1 + bits..], bits))
      else Ok(chunk, s[1 + bits..])
  }

  lemma {:induction false} DecodeChunk(proceed: bool, chunk: Bits, tail: Bits)
    requires chunk != []
    ensures Decode([proceed] + chunk + tail, |chunk|) ==
            if proceed then Above(FromBits(chunk), |chunk|, Decode(tail, |chunk|))
            else Ok(FromBits(chunk), tail)
  {
    var s := [proceed] + chunk + tail;
    assert s[1..1 + |chunk|] == chunk;
    assert s[1 + |chunk|..] == tail;
  }

  /** Reading back what was written yields the number and leaves exactly what followed it. */
  lemma {:induction false} DecodeEncode(value: nat, bits: nat, rest: Bits)
    requires bits > 0
    ensures Decode(Encode(value, bits) + rest, bits) == Ok(value, rest)
    decreases value
  {
    var low, high := LowBits(value, bits), ShiftRight(value, bits);
    LowPlusHigh(value, bits);
    ThresholdTest(value, bits);
    ZeroShifted(bits);
    if value < ShiftLeft(1, bits) {
      assert Encode(value, bits) + rest == [false] + low + rest;
      DecodeChunk(false, low, rest);
    } else {
      ZeroIsSmall(bits);
      assert Encode(value, bits) + rest == [true] + low + (Encode(high, bits) + rest);
      DecodeChunk(true, low, Encode(high, bits) + rest);
      DecodeEncode(high, bits, rest);
    }
  }

  /** No encoding is a prefix of another: a reader can never stop early or run on. */
  lemma {:induction false} PrefixFree(v: nat, w: nat, bits: nat, rest: Bits)
    requires bits > 0
    requires Encode(v, bits) + rest == Encode(w, bits)
    ensures v == w && rest == []
  {
    DecodeEncode(v, bits, rest);
    DecodeEncode(w, bits, []);
    assert Encode(w, bits) + [] == Encode(w, bits);
  }

  // ----- the stream objects -----

  /** `current_bits` is `|bits|`; writing past `maxBits` panics in the source. */
  class BitWriter {
    var bits: Bits
    var maxBits: nat

    constructor (capacity: nat)
      ensures Valid() && bits == [] && maxBits == capacity
    {
      bits, maxBits := [], capacity;
    }

    ghost predicate Fits(b: Bits)
      reads this
    {
      |bits| + |b| <= maxBits
    }

    ghost predicate Valid()
      reads this
    {
      |bits| <= maxBits
    }

    method WriteBit(bit: bool) returns (panicked: bool)
      modifies this`bits
      ensures panicked == !old(Fits([bit]))
      ensures bits == if panicked then old(bits) else old(bits) + [bit]
    {
      if |bits| >= maxBits {
        return true;
      }
      bits := bits + [bit];
      return false;
    }

    /** A payload whose own encoding is not modelled is appended as a block. */
    method WriteBits(b: Bits) returns (panicked: bool)
      modifies this`bits
      ensures panicked == !old(Fits(b))
      ensures !panicked ==> bits == old(bits) + b
    {
      if |bits| + |b| > maxBits {
        return true;
      }
      bits := bits + b;
      return false;
    }

    /** The inner loop of `ser`: emit the low bits, returning what is left above them. */
    method WriteLowBits(number: nat, width: nat) returns (panicked: bool, value: nat)
      requires Valid()
      modifies this`bits
      ensures panicked == !old(Fits(LowBits(number, width)))
      ensures !panicked ==> bits == old(bits) + LowBits(number, width) && value == ShiftRight(number, width)
    {
      value := number;
      for i := 0 to width
        invariant bits + LowBits(value, width - i) == old(bits) + LowBits(number, width)
        invariant value == ShiftRight(number, i) && |bits| == |old(bits)| + i && Valid()
      {
        assert LowBits(value, width - i) == [value % 2 == 1] + LowBits(value / 2, width - i - 1);
        panicked := WriteBit(value % 2 != 0);
        if panicked {
          return;
        }
        ShiftRightSnoc(number, i);
        value := value / 2;
      }
      panicked := false;
    }

    /** `SerdeNumberInner::ser` for an unsigned variable-length number. */
    method WriteVariable(number: nat, width: nat) returns (panicked: bool)
      requires Valid() && width > 0
      modifies this`bits
      ensures panicked == !old(Fits(Encode(number, width)))
      ensures !panicked ==> bits == old(bits) + Encode(number, width)
    {
      var value: nat := number;
      ghost var target := bits + Encode(number, width);
      while true
        invariant bits + Encode(value, width) == target && Valid()
        decreases value
      {
        var proceed := value >= ShiftLeft(1, width);
        ghost var low, high := EncodeStep(bits, value, width);
        assert |bits| + 1 + width <= |target|;
        panicked := WriteBit(proceed);
        if panicked {
          return;
        }
        panicked, value := WriteLowBits(value, width);
        if panicked {
          return;
        }
        if !proceed {
          return false;
        }
      }
    }
  }

  /** One turn of the writing loop: `w` is what has been written before it. */
  lemma {:induction false} EncodeStep(w: Bits, value: nat, bits: nat) returns (low: Bits, high: nat)
    requires bits > 0
    ensures low == LowBits(value, bits) && high == ShiftRight(value, bits)
    ensures value >= ShiftLeft(1, bits) ==>
              high < value && w + [true] + low + Encode(high, bits) == w + Encode(value, bits)
    ensures value < ShiftLeft(1, bits) ==> w + [false] + low == w + Encode(value, bits)
  {
    low, high := LowBits(value, bits), ShiftRight(value, bits);
    ThresholdTest(value, bits);
    ZeroIsSmall(bits);
    if value >= ShiftLeft(1, bits) {
      assert w + [true] + low + Encode(high, bits) == w + ([true] + low + Encode(high, bits));
    } else {
      assert w + [false] + low == w + ([false] + low);
    }
  }

  class BitReader {
    var rest: Bits

    constructor (buffer: Bits)
      ensures rest == buffer
    {
      rest := buffer;
    }

    method ReadBit() returns (d: Decoded<bool>)
      modifies this
      ensures old(rest) == [] ==> d == Err && rest == []
      ensures old(rest) != [] ==> d == Ok(old(rest)[0], rest) && rest == old(rest)[1..]
    {
      if rest == [] {
        d := Err;
      } else {
        var bit := rest[0];
        rest := rest[1..];
        d := Ok(bit, rest);
      }
    }

    /** The counterpart of `WriteBits`: a payload reader takes what it needs off the front. */
    method ReadWith<M>(read: Bits -> Decoded<M>) returns (d: Decoded<M>)
      modifies this
      ensures d == read(old(rest))
      ensures d.Ok? ==> rest == d.rest
    {
      d := read(rest);
      if d.Ok? { rest := d.rest; }
    }

    /** The inner loop of `de`: one chunk, least significant bit first. */
    method ReadLowBits(width: nat) returns (ok: bool, chunk: nat, ghost field: Bits)
      modifies this
      ensures ok <==> |old(rest)| >= width
      ensures ok ==> |field| == width && chunk == FromBits(field) && old(rest) == field + rest
    {
      chunk, field := 0, [];
      ghost var start := rest;
      for i := 0 to width
        invariant |field| == i && start == field + rest
        invariant chunk == FromBits(field)
      {
        var b := ReadBit();
        if b.Err? { return false, 0, []; }
        SnocBit(field, b.value);
        assert field + ([b.value] + rest) == (field + [b.value]) + rest;
        field := field + [b.value];
        if b.value { chunk := chunk + ShiftLeft(1, i); }
      }
      ok := true;
    }

    /** `SerdeNumberInner::de`: chunks are accumulated low to high, each shifted past the last. */
    method ReadVariable(width: nat) returns (d: Decoded<nat>)
      requires width > 0
      modifies this
      ensures d == Decode(old(rest), width)
      ensures d.Ok? ==> rest == d.rest
    {
      var output: nat, shift: nat := 0, 0;
      ghost var whole := Decode(rest, width);
      while true
        invariant whole == Above(output, shift, Decode(rest, width))
        decreases |rest|
      {
        ghost var before := rest;
        var more := ReadBit();
        if more.Err? { return Err; }
        var ok, chunk, field := ReadLowBits(width);
        if !ok { return Err; }
        AboveStep(output, shift, before, more.value, field, rest);
        output := output + ShiftLeft(chunk, shift);
        shift := shift + width;
        if !more.value {
          return Ok(output, rest);
        }
      }
    }
  }

  /** One turn of the reading loop, seen from the value it accumulates. */
  lemma {:induction false} AboveStep(output: nat, shift: nat, s: Bits, proceed: bool, field: Bits, rest: Bits)
    requires field != [] && s == [proceed] + (field + rest)
    ensures Above(output, shift, Decode(s, |field|)) ==
            var output' := output + ShiftLeft(FromBits(field), shift);
            if proceed then Above(output', shift + |field|, Decode(rest, |field|)) else Ok(output', rest)
  {
    assert s == [proceed] + field + rest;
    DecodeChunk(proceed, field, rest);
    var d := Decode(rest, |field|);
    if d.Ok? {
      ShiftLeftSum(FromBits(field), ShiftLeft(d.value, |field|), shift);
      ShiftLeftTwice(d.value, shift, |field|);
    }
  }
}
