/**
 The serializer as it runs: encoders that append to a growing buffer and decoders that advance an
 offset, each proved to compute what module Codec defines.
 */
module Serializer {
  import opened Wire
  import opened Codec

  /** The Bytes& body every encoder appends to. */
  class Buffer {
    var body: Bytes

    constructor ()
      ensures body == []
    {
      body := [];
    }

    method PackU32(n: nat)
      modifies this
      ensures body == old(body) + PutU32(n)
    {
      body := body + PutU32(n);
    }

    method Pack(data: Bytes)
      modifies this
      ensures body == old(body) + Chunk(data)
    {
      PackU32(|data|);
      body := body + data;
    }

    /** Appends (value >> 8i) & 0xFF for i from 7 down to 0; the shift of a signed value rounds down. */
    method PackI64(value: I64)
      modifies this
      ensures body == old(body) + PutI64(value)
    {
      var i := 7;
      assert Digits(value / Pow256(8), 0) == [];
      while i >= 0
        invariant -1 <= i <= 7
        invariant body == old(body) + Digits(value / Pow256(i + 1), 7 - i)
      {
        DivStep(value, Pow256(i));
        body := body + [(value / Pow256(i)) % 256];
        i := i - 1;
      }
      assert value / Pow256(0) == value;
    }

    method Serialize(value: Value)
      modifies this
      ensures body == old(body) + Encode(value)
      decreases value
    {
      hide PutU32, PutI64, Fits;
      match value
      case TextV(t) => Pack(t);
      case BlobV(d) => Pack(d);
      case BooleanV(b) => Pack(if b then TRUE_TEXT else FALSE_TEXT);
      case Int64V(i) => PackI64(i);
      case CodeV(c) => PackU32(c);
      case RecordV(vs) =>
        var nested := new Buffer();
        nested.SerializeTuple(vs);
        Pack(nested.body);
      case VectorV(vs) =>
        PackU32(|vs|);
        SerializeTuple(vs);
        assert body == old(body) + (PutU32(|vs|) + EncodeAll(vs));
    }

    /** The fields of a tuple, or the elements of a vector, in order. */
    method SerializeTuple(values: seq<Value>)
      modifies this
      ensures body == old(body) + EncodeAll(values)
      decreases values
    {
      hide Encode, Fits, AllFit;
      assert values[..0] == [];
      for i := 0 to |values|
        invariant body == old(body) + EncodeAll(values[..i])
      {
        Serialize(values[i]);
        EncodeAllNext(values, i);
      }
      assert values[..|values|] == values;
    }
  }

  datatype Outcome<+T> = Got(value: T) | Thrown | Undefined

  /** What a decoder method reports when the specification says r. */
  function Reported<T>(r: Decoded<T>): Outcome<T>
  {
    match r
    case Ok(v, _) => Got(v)
    case OutOfBounds => Thrown
    case UncheckedCount => Undefined
  }

  function Prepend<T>(done: seq<T>, r: Decoded<seq<T>>): Decoded<seq<T>>
  {
    if r.Ok? then Ok(done + r.value, r.next) else r
  }

  lemma PrependNothing<T>(done: seq<T>, at: nat, r: Decoded<seq<T>>)
    ensures Prepend([], r) == r
    ensures Prepend(done, Ok([], at)) == Ok(done, at)
  {
    if r.Ok? {
      assert [] + r.value == r.value;
    }
    assert done + [] == done;
  }

  lemma PrependOne<T>(done: seq<T>, v: T, r: Decoded<seq<T>>)
    requires r.Ok?
    ensures Prepend(done, Ok([v] + r.value, r.next)) == Prepend(done + [v], r)
  {
    assert done + ([v] + r.value) == done + [v] + r.value;
  }

  /** The const Bytes& body and size_t& offset every decoder works on. */
  class Cursor {
    const body: Bytes
    var offset: nat

    constructor (body: Bytes)
      ensures this.body == body && offset == 0
    {
      this.body := body;
      offset := 0;
    }

    method UnpackU32() returns (r: Outcome<U32>)
      modifies this
      ensures old(offset) + 4 <= |body| ==> r == Got(GetU32(body, old(offset))) && offset == old(offset) + 4
      ensures old(offset) + 4 > |body| ==> r == Thrown
    {
      if offset + 4 > |body| {
        return Thrown;
      }
      r := Got(GetU32(body, offset));
      offset := offset + 4;
    }

    method Unpack() returns (r: Outcome<Bytes>)
      modifies this
      ensures r == Reported(TakeChunk(body, old(offset)))
      ensures r.Got? ==> offset == TakeChunk(body, old(offset)).next
    {
      if offset + 4 > |body| {
        return Thrown;
      }
      var length := GetU32(body, offset);
      offset := offset + 4;
      if offset + length > |body| {
        return Thrown;
      }
      r := Got(body[offset..offset + length]);
      offset := offset + length;
    }

    /** value = (value << 8) | byte, eight times; the shift wraps modulo 2^64. */
    method UnpackI64() returns (r: Outcome<I64>)
      modifies this
      ensures old(offset) + 8 <= |body| ==> r == Got(GetI64(body, old(offset))) && offset == old(offset) + 8
      ensures old(offset) + 8 > |body| ==> r == Thrown
    {
      if offset + 8 > |body| {
        return Thrown;
      }
      var value: I64 := 0;
      for i := 0 to 8
        invariant offset == old(offset)
        invariant value == Signed(Number(body[offset..offset + i]))
      {
        ShiftIn(body[offset..offset + i], body[offset + i]);
        assert body[offset..offset + i] + [body[offset + i]] == body[offset..offset + i + 1];
        value := Signed(value * 256) + body[offset + i];
      }
      r := Got(value);
      offset := offset + 8;
    }

    method Deserialize(s: Schema) returns (r: Outcome<Value>)
      modifies this
      ensures r == Reported(Decode(s, body, old(offset)))
      ensures r.Got? ==> offset == Decode(s, body, old(offset)).next
      decreases s, 0
    {
      match s
      case Int64 =>
        var n := UnpackI64();
        r := if n.Got? then Got(Int64V(n.value)) else Thrown;
      case Code =>
        var c := UnpackU32();
        r := if c.Got? then Got(CodeV(c.value)) else Thrown;
      case Record(ss) =>
        var nested := Unpack();
        if !nested.Got? {
          return Thrown;
        }
        var inner := new Cursor(nested.value);
        var fields := inner.DeserializeTuple(ss);
        r := if fields.Got? then Got(RecordV(fields.value)) else if fields.Thrown? then Thrown else Undefined;
      case Vector(e) =>
        if offset + 4 > |body| {
          return Undefined;
        }
        var size := GetU32(body, offset);
        offset := offset + 4;
        var items := DeserializeItems(e, size);
        r := if items.Got? then Got(VectorV(items.value)) else if items.Thrown? then Thrown else Undefined;
      case Text =>
        var chunk := Unpack();
        r := if chunk.Got? then Got(TextV(chunk.value)) else Thrown;
      case Blob =>
        var chunk := Unpack();
        r := if chunk.Got? then Got(BlobV(chunk.value)) else Thrown;
      case Boolean =>
        var chunk := Unpack();
        r := if chunk.Got? then Got(BooleanV(chunk.value == TRUE_TEXT)) else Thrown;
    }

    method DeserializeTuple(ss: seq<Schema>) returns (r: Outcome<seq<Value>>)
      modifies this
      ensures r == Reported(DecodeAll(ss, body, old(offset)))
      ensures r.Got? ==> offset == DecodeAll(ss, body, old(offset)).next
      decreases ss, 0
    {
      var values: seq<Value> := [];
      assert ss[0..] == ss;
      PrependNothing(values, offset, DecodeAll(ss, body, offset));
      for i := 0 to |ss|
        invariant DecodeAll(ss, body, old(offset)) == Prepend(values, DecodeAll(ss[i..], body, offset))
      {
        assert ss[i..][0] == ss[i] && ss[i..][1..] == ss[i + 1..];
        var v := Deserialize(ss[i]);
        if !v.Got? {
          return if v.Thrown? then Thrown else Undefined;
        }
        var rest := DecodeAll(ss[i + 1..], body, offset);
        if rest.Ok? {
          PrependOne(values, v.value, rest);
        }
        values := values + [v.value];
      }
      PrependNothing(values, offset, Ok([], offset));
      r := Got(values);
    }

    method DeserializeItems(e: Schema, size: nat) returns (r: Outcome<seq<Value>>)
      modifies this
      ensures r == Reported(DecodeItems(e, size, body, old(offset)))
      ensures r.Got? ==> offset == DecodeItems(e, size, body, old(offset)).next
      decreases e, 1
    {
      var values: seq<Value> := [];
      PrependNothing(values, offset, DecodeItems(e, size, body, offset));
      for i := 0 to size
        invariant DecodeItems(e, size, body, old(offset)) == Prepend(values, DecodeItems(e, size - i, body, offset))
      {
        var v := Deserialize(e);
        if !v.Got? {
          return if v.Thrown? then Thrown else Undefined;
        }
        var rest := DecodeItems(e, size - i - 1, body, offset);
        if rest.Ok? {
          PrependOne(values, v.value, rest);
        }
        values := values + [v.value];
      }
      PrependNothing(values, offset, Ok([], offset));
      r := Got(values);
    }
  }

  /** One step of the decoding loop: shifting a partial value left by eight and adding the next byte. */
  lemma ShiftIn(s: Bytes, b: Byte)
    requires |s| < 8
    ensures -I64_HALF <= Signed(Signed(Number(s)) * 256) + b < I64_HALF
    ensures Signed(Signed(Number(s)) * 256) + b == Signed(Number(s + [b]))
  {
    hide *;
    NumberBelow56Bits(s);
    NumberSnoc(s, b);
    SignedShift(Number(s), b);
  }

  lemma SignedShift(n: nat, b: Byte)
    requires n < 0x100_0000_0000_0000
    ensures Signed(n) == n
    ensures Signed(n * 256) + b == Signed(256 * n + b)
    ensures -I64_HALF <= Signed(n * 256) + b < I64_HALF
  {
  }

  lemma NumberBelow56Bits(s: Bytes)
    requires |s| < 8
    ensures Number(s) < 0x100_0000_0000_0000
  {
    PowMonotone(|s|, 7);
    assert Pow256(4) == 0x1_0000_0000 by { Widths(); }
    assert Pow256(7) == 0x100_0000 * Pow256(4);
  }

  lemma {:induction false} PowMonotone(j: nat, k: nat)
    requires j <= k
    ensures Pow256(j) <= Pow256(k)
    decreases k
  {
    if j < k {
      PowMonotone(j, k - 1);
    }
  }
}
