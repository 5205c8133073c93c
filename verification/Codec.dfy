/**
 The schema-driven serializer: what a value's encoding is, and what the offset-passing decoder
 returns at any offset of any body. A schema stands for the C++ field type that selects the template
 branch; a record is a nested Serializable struct.
 */
module Codec {
  import opened Wire

  datatype Schema =
    | Text
    | Blob
    | Boolean
    | Int64
    | Code
    | Record(fields: seq<Schema>)
    | Vector(elem: Schema)

  datatype Value =
    | TextV(text: Bytes)
    | BlobV(data: Bytes)
    | BooleanV(flag: bool)
    | Int64V(number: I64)
    | CodeV(code: U32)
    | RecordV(fields: seq<Value>)
    | VectorV(items: seq<Value>)

  /** OutOfBounds is the runtime_error the decoder throws. UncheckedCount is a vector whose four count
      bytes do not all lie in the body: the source reads them without a check, so what happens is undefined. */
  datatype Decoded<+T> = Ok(value: T, next: nat) | OutOfBounds | UncheckedCount

  const TRUE_TEXT: Bytes := [116, 114, 117, 101]
  const FALSE_TEXT: Bytes := [102, 97, 108, 115, 101]

  predicate HasSchema(v: Value, s: Schema)
    decreases s, 0
  {
    match s
    case Text => v.TextV?
    case Blob => v.BlobV?
    case Boolean => v.BooleanV?
    case Int64 => v.Int64V?
    case Code => v.CodeV?
    case Record(ss) => v.RecordV? && HaveSchemas(v.fields, ss)
    case Vector(e) => v.VectorV? && AllHaveSchema(v.items, e)
  }

  predicate HaveSchemas(vs: seq<Value>, ss: seq<Schema>)
    decreases ss, 0
  {
    if ss == [] then vs == []
    else vs != [] && HasSchema(vs[0], ss[0]) && HaveSchemas(vs[1..], ss[1..])
  }

  predicate AllHaveSchema(vs: seq<Value>, s: Schema)
    decreases s, 1, |vs|
  {
    vs != [] ==> HasSchema(vs[0], s) && AllHaveSchema(vs[1..], s)
  }

  // ---- encoding ------------------------------------------------------------------------------

  /** pack: a 32-bit length (cut to 32 bits) and the bytes. */
  function Chunk(data: Bytes): (s: Bytes)
    ensures |s| == 4 + |data|
  {
    PutU32(|data|) + data
  }

  function Encode(v: Value): (s: Bytes)
    ensures !v.RecordV? ==> |s| >= 4
    decreases v
  {
    match v
    case TextV(t) => Chunk(t)
    case BlobV(d) => Chunk(d)
    case BooleanV(b) => Chunk(if b then TRUE_TEXT else FALSE_TEXT)
    case Int64V(i) => PutI64(i)
    case CodeV(c) => PutU32(c)
    case RecordV(vs) => Chunk(EncodeAll(vs))
    case VectorV(vs) => PutU32(|vs|) + EncodeAll(vs)
  }

  function EncodeAll(vs: seq<Value>): (s: Bytes)
    decreases vs
  {
    if vs == [] then [] else Encode(vs[0]) + EncodeAll(vs[1..])
  }

  /** Every length and count in the value fits the 32-bit field that carries it. */
  predicate Fits(v: Value)
    decreases v
  {
    match v
    case TextV(t) => |t| < U32_LIMIT
    case BlobV(d) => |d| < U32_LIMIT
    case BooleanV(_) => true
    case Int64V(_) => true
    case CodeV(_) => true
    case RecordV(vs) => |EncodeAll(vs)| < U32_LIMIT && AllFit(vs)
    case VectorV(vs) => |vs| < U32_LIMIT && AllFit(vs)
  }

  predicate AllFit(vs: seq<Value>)
    decreases vs
  {
    vs != [] ==> Fits(vs[0]) && AllFit(vs[1..])
  }

  /** Whatever is encoded in fewer than 2^32 bytes has no length or count that does not fit. */
  lemma {:induction false} ShortFits(v: Value)
    requires |Encode(v)| < U32_LIMIT
    ensures Fits(v) && |Encode(v)| >= 4
    decreases v
  {
    match v
    case RecordV(vs) => ShortAllFit(vs);
    case VectorV(vs) => ShortAllFit(vs);
    case _ =>
  }

  lemma {:induction false} ShortAllFit(vs: seq<Value>)
    requires |EncodeAll(vs)| < U32_LIMIT
    ensures AllFit(vs) && |vs| <= |EncodeAll(vs)|
    decreases vs
  {
    if vs != [] {
      ShortFits(vs[0]);
      ShortAllFit(vs[1..]);
    }
  }

  /** How each kind of value stands in the body, told by reading it: a length that counts the rest, the items or
      nothing, in front of the data. */
  lemma Layout(v: Value)
    ensures var s := Encode(v);
            match v
            case TextV(t) => |s| == 4 + |t| && GetU32(s, 0) == |t| % U32_LIMIT && s[4..] == t
            case BlobV(d) => |s| == 4 + |d| && GetU32(s, 0) == |d| % U32_LIMIT && s[4..] == d
            case BooleanV(b) =>
              GetU32(s, 0) == |s| - 4 && s[4..] == if b then [116, 114, 117, 101] else [102, 97, 108, 115, 101]
            case Int64V(i) => |s| == 8 && GetI64(s, 0) == i
            case CodeV(c) => |s| == 4 && GetU32(s, 0) == c
            case RecordV(vs) => GetU32(s, 0) == (|s| - 4) % U32_LIMIT && s[4..] == EncodeAll(vs)
            case VectorV(vs) => |s| >= 4 && GetU32(s, 0) == |vs| % U32_LIMIT && s[4..] == EncodeAll(vs)
  {
    hide PutU32, GetU32, PutI64, GetI64;
    var s := Encode(v);
    match v
    case TextV(t) => ChunkLayout(t);
    case BlobV(d) => ChunkLayout(d);
    case BooleanV(b) => ChunkLayout(if b then TRUE_TEXT else FALSE_TEXT);
    case Int64V(i) =>
      assert s[0..8] == PutI64(i);
      GetPutI64(i, s, 0);
    case CodeV(c) =>
      assert s[0..4] == PutU32(c);
      GetPutU32(c, s, 0);
    case RecordV(vs) => ChunkLayout(EncodeAll(vs));
    case VectorV(vs) =>
      assert s[0..4] == PutU32(|vs|);
      GetPutU32(|vs|, s, 0);
  }

  lemma ChunkLayout(data: Bytes)
    ensures GetU32(Chunk(data), 0) == |data| % U32_LIMIT && Chunk(data)[4..] == data
  {
    hide PutU32, GetU32;
    assert Chunk(data)[0..4] == PutU32(|data|);
    GetPutU32(|data|, Chunk(data), 0);
  }

  // ---- decoding ------------------------------------------------------------------------------

  /** unpack and unpackBytes: both bounds checks, in the source's order. */
  function TakeChunk(body: Bytes, at: nat): (r: Decoded<Bytes>)
    ensures r.Ok? ==> at + 4 <= r.next <= |body| && r.value == body[at + 4..r.next]
    ensures r.Ok? ==> |r.value| == GetU32(body, at)
    ensures !r.UncheckedCount?
  {
    if at + 4 > |body| then OutOfBounds
    else
      var n := GetU32(body, at);
      if at + 4 + n > |body| then OutOfBounds else Ok(body[at + 4..at + 4 + n], at + 4 + n)
  }

  function Decode(s: Schema, body: Bytes, at: nat): Decoded<Value>
    decreases s, 0
  {
    match s
    case Text =>
      (match TakeChunk(body, at)
       case Ok(t, n) => Ok(TextV(t), n)
       case OutOfBounds => OutOfBounds
       case UncheckedCount => UncheckedCount)
    case Blob =>
      (match TakeChunk(body, at)
       case Ok(d, n) => Ok(BlobV(d), n)
       case OutOfBounds => OutOfBounds
       case UncheckedCount => UncheckedCount)
    case Boolean =>
      (match TakeChunk(body, at)
       case Ok(t, n) => Ok(BooleanV(t == TRUE_TEXT), n)
       case OutOfBounds => OutOfBounds
       case UncheckedCount => UncheckedCount)
    case Int64 => if at + 8 > |body| then OutOfBounds else Ok(Int64V(GetI64(body, at)), at + 8)
    case Code => if at + 4 > |body| then OutOfBounds else Ok(CodeV(GetU32(body, at)), at + 4)
    case Record(ss) =>
      (match TakeChunk(body, at)
       case Ok(chunk, n) =>
         (match DecodeAll(ss, chunk, 0)
          case Ok(vs, _) => Ok(RecordV(vs), n)
          case OutOfBounds => OutOfBounds
          case UncheckedCount => UncheckedCount)
       case OutOfBounds => OutOfBounds
       case UncheckedCount => UncheckedCount)
    case Vector(e) =>
      if at + 4 > |body| then UncheckedCount
      else
        match DecodeItems(e, GetU32(body, at), body, at + 4)
        case Ok(vs, n) => Ok(VectorV(vs), n)
        case OutOfBounds => OutOfBounds
        case UncheckedCount => UncheckedCount
  }

  /** deserialize_tuple: the fields one after another. */
  function DecodeAll(ss: seq<Schema>, body: Bytes, at: nat): Decoded<seq<Value>>
    decreases ss, 0
  {
    if ss == [] then Ok([], at)
    else
      match Decode(ss[0], body, at)
      case Ok(v, n) =>
        (match DecodeAll(ss[1..], body, n)
         case Ok(vs, m) => Ok([v] + vs, m)
         case OutOfBounds => OutOfBounds
         case UncheckedCount => UncheckedCount)
      case OutOfBounds => OutOfBounds
      case UncheckedCount => UncheckedCount
  }

  function DecodeItems(e: Schema, count: nat, body: Bytes, at: nat): Decoded<seq<Value>>
    decreases e, 1, count
  {
    if count == 0 then Ok([], at)
    else
      match Decode(e, body, at)
      case Ok(v, n) =>
        (match DecodeItems(e, count - 1, body, n)
         case Ok(vs, m) => Ok([v] + vs, m)
         case OutOfBounds => OutOfBounds
         case UncheckedCount => UncheckedCount)
      case OutOfBounds => OutOfBounds
      case UncheckedCount => UncheckedCount
  }

  /** A Serializable struct at top level: its fields with no length in front. Trailing bytes are ignored. */
  function DecodeMessage(ss: seq<Schema>, body: Bytes): Decoded<seq<Value>>
  {
    DecodeAll(ss, body, 0)
  }

  /** The bytes of s stand in body at the given offset. */
  predicate At(body: Bytes, at: nat, s: Bytes)
  {
    at + |s| <= |body| && body[at..at + |s|] == s
  }

  lemma AtSplit(body: Bytes, at: nat, a: Bytes, b: Bytes)
    requires At(body, at, a + b)
    ensures At(body, at, a) && At(body, at + |a|, b)
  {
    assert a == (a + b)[..|a|];
    assert b == (a + b)[|a|..];
  }

  lemma TakeChunkAt(body: Bytes, at: nat, data: Bytes)
    requires At(body, at, Chunk(data)) && |data| < U32_LIMIT
    ensures TakeChunk(body, at) == Ok(data, at + 4 + |data|)
  {
    AtSplit(body, at, PutU32(|data|), data);
    GetPutU32(|data|, body, at);
  }

  // ---- round trip ----------------------------------------------------------------------------

  lemma {:induction false} RoundTripAt(v: Value, s: Schema, body: Bytes, at: nat)
    requires HasSchema(v, s) && Fits(v) && At(body, at, Encode(v))
    ensures Decode(s, body, at) == Ok(v, at + |Encode(v)|)
    decreases s, 0
  {
    hide PutU32, GetU32, PutI64, GetI64;
    match s
    case Text => TakeChunkAt(body, at, v.text);
    case Blob => TakeChunkAt(body, at, v.data);
    case Boolean => TakeChunkAt(body, at, if v.flag then TRUE_TEXT else FALSE_TEXT);
    case Int64 => GetPutI64(v.number, body, at);
    case Code => GetPutU32(v.code, body, at);
    case Record(ss) =>
      var chunk := EncodeAll(v.fields);
      TakeChunkAt(body, at, chunk);
      assert At(chunk, 0, chunk);
      RoundTripAll(v.fields, ss, chunk, 0);
    case Vector(e) => RoundTripVector(v.items, e, body, at);
  }

  lemma {:induction false} RoundTripVector(vs: seq<Value>, e: Schema, body: Bytes, at: nat)
    requires AllHaveSchema(vs, e) && |vs| < U32_LIMIT && AllFit(vs)
    requires At(body, at, PutU32(|vs|) + EncodeAll(vs))
    ensures Decode(Vector(e), body, at) == Ok(VectorV(vs), at + 4 + |EncodeAll(vs)|)
    decreases e, 2
  {
    hide PutU32, GetU32, PutI64, GetI64;
    AtSplit(body, at, PutU32(|vs|), EncodeAll(vs));
    GetPutU32(|vs|, body, at);
    RoundTripItems(vs, e, body, at + 4);
  }

  lemma {:induction false} RoundTripAll(vs: seq<Value>, ss: seq<Schema>, body: Bytes, at: nat)
    requires HaveSchemas(vs, ss) && AllFit(vs) && At(body, at, EncodeAll(vs))
    ensures DecodeAll(ss, body, at) == Ok(vs, at + |EncodeAll(vs)|)
    decreases ss, 0
  {
    hide PutU32, GetU32, PutI64, GetI64;
    if ss != [] {
      AtSplit(body, at, Encode(vs[0]), EncodeAll(vs[1..]));
      RoundTripAt(vs[0], ss[0], body, at);
      RoundTripAll(vs[1..], ss[1..], body, at + |Encode(vs[0])|);
      assert [vs[0]] + vs[1..] == vs;
    }
  }

  lemma {:induction false} RoundTripItems(vs: seq<Value>, e: Schema, body: Bytes, at: nat)
    requires AllHaveSchema(vs, e) && AllFit(vs) && At(body, at, EncodeAll(vs))
    ensures DecodeItems(e, |vs|, body, at) == Ok(vs, at + |EncodeAll(vs)|)
    decreases e, 1, |vs|
  {
    hide PutU32, GetU32, PutI64, GetI64, At;
    if vs != [] {
      AtSplit(body, at, Encode(vs[0]), EncodeAll(vs[1..]));
      RoundTripAt(vs[0], e, body, at);
      RoundTripItems(vs[1..], e, body, at + |Encode(vs[0])|);
      assert [vs[0]] + vs[1..] == vs;
    }
  }

  /** Decoding after any prefix and before any suffix gives the value back and consumes exactly its encoding. */
  lemma RoundTrip(v: Value, s: Schema, before: Bytes, after: Bytes)
    requires HasSchema(v, s) && Fits(v)
    ensures Decode(s, before + Encode(v) + after, |before|) == Ok(v, |before| + |Encode(v)|)
  {
    var body := before + Encode(v) + after;
    assert body[|before|..|before| + |Encode(v)|] == Encode(v);
    RoundTripAt(v, s, body, |before|);
  }

  lemma MessageRoundTrip(vs: seq<Value>, ss: seq<Schema>)
    requires HaveSchemas(vs, ss) && AllFit(vs)
    ensures DecodeMessage(ss, EncodeAll(vs)) == Ok(vs, |EncodeAll(vs)|)
  {
    assert At(EncodeAll(vs), 0, EncodeAll(vs));
    RoundTripAll(vs, ss, EncodeAll(vs), 0);
  }

  // ---- the round trip fails exactly when a length does not fit -------------------------------

  /** A successful decode never looks past the offset it returns. */
  lemma {:induction false} DecodePrefix(s: Schema, body: Bytes, longer: Bytes, at: nat)
    requires body <= longer && Decode(s, body, at).Ok?
    ensures Decode(s, longer, at) == Decode(s, body, at)
    decreases s, 0
  {
    if s.Text? || s.Blob? || s.Boolean? || s.Record? {
      TakeChunkPrefix(body, longer, at);
    } else {
      assert body[at..at + 4] == longer[at..at + 4];
      if s.Int64? {
        assert body[at..at + 8] == longer[at..at + 8];
      } else if s.Vector? {
        DecodeItemsPrefix(s.elem, GetU32(body, at), body, longer, at + 4);
      }
    }
  }

  lemma TakeChunkPrefix(body: Bytes, longer: Bytes, at: nat)
    requires body <= longer && TakeChunk(body, at).Ok?
    ensures TakeChunk(longer, at) == TakeChunk(body, at)
  {
    assert body[at..at + 4] == longer[at..at + 4];
    var n := GetU32(body, at);
    assert body[at + 4..at + 4 + n] == longer[at + 4..at + 4 + n];
  }

  lemma {:induction false} DecodeAllPrefix(ss: seq<Schema>, body: Bytes, longer: Bytes, at: nat)
    requires body <= longer && DecodeAll(ss, body, at).Ok?
    ensures DecodeAll(ss, longer, at) == DecodeAll(ss, body, at)
    decreases ss, 0
  {
    if ss != [] {
      DecodePrefix(ss[0], body, longer, at);
      DecodeAllPrefix(ss[1..], body, longer, Decode(ss[0], body, at).next);
    }
  }

  lemma {:induction false} DecodeItemsPrefix(e: Schema, count: nat, body: Bytes, longer: Bytes, at: nat)
    requires body <= longer && DecodeItems(e, count, body, at).Ok?
    ensures DecodeItems(e, count, longer, at) == DecodeItems(e, count, body, at)
    decreases e, 1, count
  {
    if count > 0 {
      DecodePrefix(e, body, longer, at);
      DecodeItemsPrefix(e, count - 1, body, longer, Decode(e, body, at).next);
    }
  }

  /** On success the offset moves forward, stays inside the body, and the value has the schema. */
  lemma {:induction false} DecodeBounds(s: Schema, body: Bytes, at: nat)
    requires at <= |body| && Decode(s, body, at).Ok?
    ensures at + 4 <= Decode(s, body, at).next <= |body|
    ensures HasSchema(Decode(s, body, at).value, s)
    decreases s, 0
  {
    match s
    case Record(ss) => DecodeAllBounds(ss, TakeChunk(body, at).value, 0);
    case Vector(e) => DecodeItemsBounds(e, GetU32(body, at), body, at + 4);
    case _ =>
  }

  lemma {:induction false} DecodeAllBounds(ss: seq<Schema>, body: Bytes, at: nat)
    requires at <= |body| && DecodeAll(ss, body, at).Ok?
    ensures at <= DecodeAll(ss, body, at).next <= |body|
    ensures HaveSchemas(DecodeAll(ss, body, at).value, ss)
    decreases ss, 0
  {
    if ss != [] {
      DecodeBounds(ss[0], body, at);
      DecodeAllBounds(ss[1..], body, Decode(ss[0], body, at).next);
    }
  }

  lemma {:induction false} DecodeItemsBounds(e: Schema, count: nat, body: Bytes, at: nat)
    requires at <= |body| && DecodeItems(e, count, body, at).Ok?
    ensures at <= DecodeItems(e, count, body, at).next <= |body|
    ensures |DecodeItems(e, count, body, at).value| == count
    ensures AllHaveSchema(DecodeItems(e, count, body, at).value, e)
    decreases e, 1, count
  {
    if count > 0 {
      DecodeBounds(e, body, at);
      DecodeItemsBounds(e, count - 1, body, Decode(e, body, at).next);
    }
  }

  lemma {:induction false} DecodedBackFits(v: Value, s: Schema, body: Bytes, at: nat)
    requires HasSchema(v, s) && At(body, at, Encode(v))
    requires Decode(s, body, at).Ok? && Decode(s, body, at).value == v
    ensures Fits(v)
    decreases s, 0
  {
    hide PutU32, GetU32, PutI64, GetI64;
    match s
    case Record(ss) =>
      var whole := EncodeAll(v.fields);
      var chunk := TakeChunk(body, at).value;
      AtSplit(body, at, PutU32(|whole|), whole);
      GetPutU32(|whole|, body, at);
      ChunkIsPrefix(body, at, whole);
      DecodeAllPrefix(ss, chunk, whole, 0);
      assert At(whole, 0, whole);
      DecodedBackAllFit(v.fields, ss, whole, 0);
      RoundTripAll(v.fields, ss, whole, 0);
      DecodeAllBounds(ss, chunk, 0);
    case Vector(e) =>
      AtSplit(body, at, PutU32(|v.items|), EncodeAll(v.items));
      DecodeItemsBounds(e, GetU32(body, at), body, at + 4);
      DecodedBackItemsFit(v.items, e, body, at + 4);
    case _ =>
  }

  /** A chunk whose length field was cut to 32 bits holds the first bytes of the data. */
  lemma ChunkIsPrefix(body: Bytes, at: nat, data: Bytes)
    requires At(body, at, Chunk(data))
    ensures TakeChunk(body, at).Ok? && TakeChunk(body, at).value == data[..|data| % U32_LIMIT]
  {
    AtSplit(body, at, PutU32(|data|), data);
    GetPutU32(|data|, body, at);
    var n := |data| % U32_LIMIT;
    assert n <= |data|;
    assert body[at + 4..at + 4 + |data|][..n] == body[at + 4..at + 4 + n];
  }

  lemma {:induction false} DecodedBackAllFit(vs: seq<Value>, ss: seq<Schema>, body: Bytes, at: nat)
    requires HaveSchemas(vs, ss) && At(body, at, EncodeAll(vs))
    requires DecodeAll(ss, body, at).Ok? && DecodeAll(ss, body, at).value == vs
    ensures AllFit(vs)
    decreases ss, 0
  {
    hide PutU32, GetU32, PutI64, GetI64;
    if ss != [] {
      AtSplit(body, at, Encode(vs[0]), EncodeAll(vs[1..]));
      DecodedBackFits(vs[0], ss[0], body, at);
      RoundTripAt(vs[0], ss[0], body, at);
      DecodedBackAllFit(vs[1..], ss[1..], body, at + |Encode(vs[0])|);
    }
  }

  lemma {:induction false} DecodedBackItemsFit(vs: seq<Value>, e: Schema, body: Bytes, at: nat)
    requires AllHaveSchema(vs, e) && At(body, at, EncodeAll(vs))
    requires DecodeItems(e, |vs|, body, at).Ok? && DecodeItems(e, |vs|, body, at).value == vs
    ensures AllFit(vs)
    decreases e, 1, |vs|
  {
    hide PutU32, GetU32, PutI64, GetI64;
    if vs != [] {
      var head := Decode(e, body, at);
      var rest := DecodeItems(e, |vs| - 1, body, head.next);
      assert vs == [head.value] + rest.value;
      AtSplit(body, at, Encode(vs[0]), EncodeAll(vs[1..]));
      DecodedBackFits(vs[0], e, body, at);
      RoundTripAt(vs[0], e, body, at);
      DecodedBackItemsFit(vs[1..], e, body, head.next);
    }
  }

  /** The exact condition: wherever a value's encoding stands, decoding gives the value back
      if and only if all its lengths fit in 32 bits. */
  lemma RoundTripExactly(v: Value, s: Schema, body: Bytes, at: nat)
    requires HasSchema(v, s) && At(body, at, Encode(v))
    ensures Fits(v) <==> (Decode(s, body, at).Ok? && Decode(s, body, at).value == v)
  {
    if Fits(v) {
      RoundTripAt(v, s, body, at);
    } else if Decode(s, body, at).Ok? && Decode(s, body, at).value == v {
      DecodedBackFits(v, s, body, at);
    }
  }

  // ---- unique decodability -------------------------------------------------------------------

  /** Encodings of one schema are prefix-free; with empty remainders this is injectivity. */
  lemma PrefixFree(v: Value, w: Value, s: Schema, x: Bytes, y: Bytes)
    requires HasSchema(v, s) && HasSchema(w, s) && Fits(v) && Fits(w)
    requires Encode(v) + x == Encode(w) + y
    ensures v == w && x == y
  {
    hide *;
    RoundTrip(v, s, [], x);
    RoundTrip(w, s, [], y);
    assert [] + Encode(v) + x == Encode(v) + x;
    assert [] + Encode(w) + y == Encode(w) + y;
    assert x == (Encode(v) + x)[|Encode(v)|..];
    assert y == (Encode(w) + y)[|Encode(w)|..];
  }

  /** No nested record and no boolean, so that nothing in the body is skipped or read loosely. */
  predicate Plain(s: Schema)
  {
    match s
    case Boolean => false
    case Record(_) => false
    case Vector(e) => Plain(e)
    case _ => true
  }

  predicate AllPlain(ss: seq<Schema>)
  {
    ss != [] ==> Plain(ss[0]) && AllPlain(ss[1..])
  }

  /** For plain schemas, re-encoding the decoded value gives exactly the bytes that were consumed. */
  lemma {:induction false} Reencode(s: Schema, body: Bytes, at: nat)
    requires Plain(s) && at <= |body| && Decode(s, body, at).Ok?
    ensures var r := Decode(s, body, at);
            at <= r.next <= |body| && Encode(r.value) == body[at..r.next]
    decreases s, 0
  {
    hide PutU32, GetU32, PutI64, GetI64;
    DecodeBounds(s, body, at);
    var r := Decode(s, body, at);
    if s.Int64? {
      PutGetI64(body, at);
    } else {
      PutGetU32(body, at);
      assert body[at..r.next] == body[at..at + 4] + body[at + 4..r.next];
      if s.Vector? {
        ReencodeItems(s.elem, GetU32(body, at), body, at + 4);
        DecodeItemsBounds(s.elem, GetU32(body, at), body, at + 4);
      }
    }
  }

  /** What decodes, for plain schemas: exactly the bodies that hold the encoding of some value at the offset, and then
      that value is the result. */
  lemma DecodesExactly(s: Schema, body: Bytes, at: nat)
    requires Plain(s) && at <= |body|
    ensures Decode(s, body, at).Ok? <==> exists v :: HasSchema(v, s) && Fits(v) && At(body, at, Encode(v))
    ensures forall v :: HasSchema(v, s) && Fits(v) && At(body, at, Encode(v)) ==>
              Decode(s, body, at) == Ok(v, at + |Encode(v)|)
  {
    forall v | HasSchema(v, s) && Fits(v) && At(body, at, Encode(v))
      ensures Decode(s, body, at) == Ok(v, at + |Encode(v)|)
    {
      RoundTripAt(v, s, body, at);
    }
    var r := Decode(s, body, at);
    if r.Ok? {
      Reencode(s, body, at);
      DecodeBounds(s, body, at);
      assert At(body, at, Encode(r.value));
      DecodedBackFits(r.value, s, body, at);
    }
  }

  /** A body that ends before a length, a number or a count is out of bounds, but for the count of a vector, which is
      read unchecked. */
  lemma ShortBodies(s: Schema, body: Bytes, at: nat)
    requires at + 4 > |body|
    ensures Decode(s, body, at) == if s.Vector? then UncheckedCount else OutOfBounds
  {
  }

  /** Loosely read: whatever follows the last field of a message or of a nested record is ignored, and a boolean is
      true for exactly one text. */
  lemma LooselyRead(vs: seq<Value>, ss: seq<Schema>, junk: Bytes, text: Bytes)
    requires HaveSchemas(vs, ss) && AllFit(vs)
    ensures DecodeMessage(ss, EncodeAll(vs) + junk) == Ok(vs, |EncodeAll(vs)|)
    ensures |EncodeAll(vs) + junk| < U32_LIMIT ==>
              Decode(Record(ss), Chunk(EncodeAll(vs) + junk), 0) == Ok(RecordV(vs), 4 + |EncodeAll(vs) + junk|)
    ensures |text| < U32_LIMIT ==>
              Decode(Boolean, Chunk(text), 0) == Ok(BooleanV(text == [116, 114, 117, 101]), 4 + |text|)
  {
    hide PutU32, GetU32;
    var body := EncodeAll(vs) + junk;
    assert At(body, 0, EncodeAll(vs));
    RoundTripAll(vs, ss, body, 0);
    assert At(Chunk(body), 0, Chunk(body)) && At(Chunk(text), 0, Chunk(text));
    if |body| < U32_LIMIT {
      TakeChunkAt(Chunk(body), 0, body);
    }
    if |text| < U32_LIMIT {
      TakeChunkAt(Chunk(text), 0, text);
    }
  }

  lemma {:induction false} ReencodeItems(e: Schema, count: nat, body: Bytes, at: nat)
    requires Plain(e) && at <= |body| && DecodeItems(e, count, body, at).Ok?
    ensures var r := DecodeItems(e, count, body, at);
            at <= r.next <= |body| && EncodeAll(r.value) == body[at..r.next]
    decreases e, 1, count
  {
    hide PutU32, GetU32, PutI64, GetI64;
    if count > 0 {
      Reencode(e, body, at);
      var n := Decode(e, body, at).next;
      ReencodeItems(e, count - 1, body, n);
      var m := DecodeItems(e, count - 1, body, n).next;
      assert body[at..m] == body[at..n] + body[n..m];
    }
  }

  lemma {:induction false} ReencodeMessage(ss: seq<Schema>, body: Bytes, at: nat)
    requires AllPlain(ss) && at <= |body| && DecodeAll(ss, body, at).Ok?
    ensures var r := DecodeAll(ss, body, at);
            at <= r.next <= |body| && EncodeAll(r.value) == body[at..r.next]
    decreases ss, 0
  {
    hide PutU32, GetU32, PutI64, GetI64;
    if ss != [] {
      Reencode(ss[0], body, at);
      var n := Decode(ss[0], body, at).next;
      ReencodeMessage(ss[1..], body, n);
      var m := DecodeAll(ss[1..], body, n).next;
      assert body[at..m] == body[at..n] + body[n..m];
    }
  }

  lemma EncodeAllSplit(vs: seq<Value>, ws: seq<Value>)
    ensures EncodeAll(vs + ws) == EncodeAll(vs) + EncodeAll(ws)
  {
    if vs == [] {
      assert vs + ws == ws;
    } else {
      assert (vs + ws)[1..] == vs[1..] + ws;
      EncodeAllSplit(vs[1..], ws);
    }
  }

  lemma EncodeAllNext(vs: seq<Value>, i: nat)
    requires i < |vs|
    ensures EncodeAll(vs[..i + 1]) == EncodeAll(vs[..i]) + Encode(vs[i])
  {
    hide Encode, Fits, AllFit;
    assert vs[..i + 1] == vs[..i] + [vs[i]];
    EncodeAllSplit(vs[..i], [vs[i]]);
    assert EncodeAll([vs[i]]) == Encode(vs[i]) + EncodeAll([]);
  }
}
