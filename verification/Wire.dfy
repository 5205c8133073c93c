/** Bytes and the fixed-width big-endian integers of the wire format. */
module Wire {

  type Byte = b: int | 0 <= b < 256

  /** The source's std::string and std::vector<uint8_t> are both byte strings. */
  type Bytes = seq<Byte>

  const U32_LIMIT: int := 0x1_0000_0000
  const I64_MODULUS: int := 0x1_0000_0000_0000_0000
  const I64_HALF: int := 0x8000_0000_0000_0000

  type U32 = n: int | 0 <= n < U32_LIMIT
  type I64 = v: int | -I64_HALF <= v < I64_HALF

  function Pow256(k: nat): (p: int)
    ensures p > 0
  {
    if k == 0 then 1 else 256 * Pow256(k - 1)
  }

  /** The k lowest base-256 digits of n, most significant first. A negative n is read in two's complement. */
  function Digits(n: int, k: nat): (s: Bytes)
    ensures |s| == k
    decreases k
  {
    if k == 0 then [] else Digits(n / 256, k - 1) + [n % 256]
  }

  /** The number a big-endian byte string denotes. */
  function Number(s: Bytes): (n: int)
    ensures 0 <= n < Pow256(|s|)
  {
    if s == [] then 0 else 256 * Number(s[..|s| - 1]) + s[|s| - 1]
  }

  lemma NumberSnoc(s: Bytes, b: Byte)
    ensures Number(s + [b]) == 256 * Number(s) + b
  {
    var t := s + [b];
    assert t[..|t| - 1] == s;
  }

  /** A value reduced to the signed 64-bit range, as a C++20 shift or conversion reduces it. */
  function Signed(n: int): (v: I64)
  {
    var r := n % I64_MODULUS;
    if r < I64_HALF then r else r - I64_MODULUS
  }

  lemma ModStep(n: int, p: int)
    requires p > 0
    ensures n % (256 * p) == 256 * ((n / 256) % p) + n % 256
  {
    var q, r := n / 256, n % 256;
    var q1, r1 := q / p, q % p;
    assert n == 256 * (p * q1 + r1) + r;
    assert 256 * (p * q1) == (256 * p) * q1;
    assert n == (256 * p) * q1 + (256 * r1 + r);
    ModUnique(n, 256 * p, q1, 256 * r1 + r);
  }

  lemma Multiples(m: int, d: int)
    requires m > 0
    ensures d >= 1 ==> m * d >= m
    ensures d <= -1 ==> m * d <= -m
  {
  }

  lemma ModUnique(n: int, m: int, q: int, r: int)
    requires m > 0 && 0 <= r < m && n == m * q + r
    ensures n / m == q && n % m == r
  {
    var d := n / m - q;
    assert m * d == m * (n / m) - m * q;
    assert n == m * (n / m) + n % m;
    Multiples(m, d);
  }

  lemma Spread(p: int, q: int, r: int)
    requires p > 0 && 0 <= r <= 255
    ensures p * (256 * q + r) == (256 * p) * q + p * r
    ensures 0 <= p * r <= 255 * p
  {
  }

  lemma DivStep(n: int, p: int)
    requires p > 0
    ensures (n / p) / 256 == n / (256 * p)
  {
    var q, rest := n / p, n % p;
    var q1, r1 := q / 256, q % 256;
    assert n == p * q + rest;
    assert q == 256 * q1 + r1;
    Spread(p, q1, r1);
    ModUnique(n, 256 * p, q1, p * r1 + rest);
  }

  /** Reading back k digits gives the number reduced modulo 256^k, whatever its sign. */
  lemma {:induction false} NumberOfDigits(n: int, k: nat)
    ensures Number(Digits(n, k)) == n % Pow256(k)
    decreases k
  {
    if k > 0 {
      NumberOfDigits(n / 256, k - 1);
      var s := Digits(n, k);
      assert s[..k - 1] == Digits(n / 256, k - 1);
      ModStep(n, Pow256(k - 1));
    }
  }

  lemma {:induction false} DigitsOfNumber(s: Bytes)
    ensures Digits(Number(s), |s|) == s
  {
    if s != [] {
      var init := s[..|s| - 1];
      DigitsOfNumber(init);
      assert Number(s) / 256 == Number(init) && Number(s) % 256 == s[|s| - 1];
      assert init + [s[|s| - 1]] == s;
    }
  }

  /** Most significant byte first: byte i of k has the weight 256^(k - 1 - i). */
  lemma {:induction false} BigEndian(n: int, k: nat, i: nat)
    requires i < k
    ensures Digits(n, k)[i] == (n / Pow256(k - 1 - i)) % 256
    decreases k
  {
    if i < k - 1 {
      BigEndian(n / 256, k - 1, i);
      DivTwice(n, Pow256(k - 2 - i));
    }
  }

  lemma DivTwice(n: int, p: int)
    requires p > 0
    ensures (n / 256) / p == n / (256 * p)
  {
    var q, r := n / 256, n % 256;
    var a, b := q / p, q % p;
    assert n == 256 * q + r && q == p * a + b;
    assert n == 256 * (p * a + b) + r;
    assert 256 * (p * a + b) == (256 * p) * a + 256 * b;
    assert 0 <= 256 * b + r < 256 * p;
    ModUnique(n, 256 * p, a, 256 * b + r);
  }

  lemma Widths()
    ensures Pow256(4) == U32_LIMIT && Pow256(8) == I64_MODULUS
  {
    assert Pow256(2) == 0x1_0000;
    assert Pow256(4) == 0x1_0000 * Pow256(2);
    assert Pow256(6) == 0x1_0000 * Pow256(4);
    assert Pow256(8) == 0x1_0000 * Pow256(6);
  }

  // ---- unsigned 32-bit integers -------------------------------------------------------------

  /** htonl(static_cast<uint32_t>(n)): sizes that do not fit are cut to their low 32 bits. */
  function PutU32(n: nat): (s: Bytes)
    ensures |s| == 4
  {
    Digits(n, 4)
  }

  function GetU32(s: Bytes, at: nat): (n: U32)
    requires at + 4 <= |s|
  {
    Widths();
    Number(s[at..at + 4])
  }

  lemma GetPutU32(n: nat, s: Bytes, at: nat)
    requires at + 4 <= |s| && s[at..at + 4] == PutU32(n)
    ensures GetU32(s, at) == n % U32_LIMIT
  {
    Widths();
    NumberOfDigits(n, 4);
  }

  lemma PutGetU32(s: Bytes, at: nat)
    requires at + 4 <= |s|
    ensures PutU32(GetU32(s, at)) == s[at..at + 4]
  {
    DigitsOfNumber(s[at..at + 4]);
  }

  // ---- signed 64-bit integers ---------------------------------------------------------------

  function PutI64(v: I64): (s: Bytes)
    ensures |s| == 8
  {
    Digits(v, 8)
  }

  function GetI64(s: Bytes, at: nat): (v: I64)
    requires at + 8 <= |s|
  {
    Signed(Number(s[at..at + 8]))
  }

  /** Every signed 64-bit value, negatives included, survives the eight bytes. */
  lemma GetPutI64(v: I64, s: Bytes, at: nat)
    requires at + 8 <= |s| && s[at..at + 8] == PutI64(v)
    ensures GetI64(s, at) == v
  {
    Widths();
    NumberOfDigits(v, 8);
    SignedInverse(v);
  }

  lemma SignedInverse(v: I64)
    ensures Signed(v % I64_MODULUS) == v
  {
    if v < 0 {
      ModUnique(v, I64_MODULUS, -1, v + I64_MODULUS);
    }
  }

  /** Every string of eight bytes is the image of the value it decodes to. */
  lemma PutGetI64(s: Bytes, at: nat)
    requires at + 8 <= |s|
    ensures PutI64(GetI64(s, at)) == s[at..at + 8]
  {
    var x := Number(s[at..at + 8]);
    Widths();
    SignedResidue(x);
    DigitsOfResidue(Signed(x), 8);
    DigitsOfNumber(s[at..at + 8]);
  }

  lemma DigitsOfResidue(n: int, k: nat)
    ensures Digits(n, k) == Digits(n % Pow256(k), k)
  {
    NumberOfDigits(n, k);
    DigitsOfNumber(Digits(n, k));
  }

  lemma SignedResidue(x: int)
    requires 0 <= x < I64_MODULUS
    ensures Signed(x) % I64_MODULUS == x
  {
    ModUnique(Signed(x), I64_MODULUS, if x < I64_HALF then 0 else -1, x);
  }

  /** What std::string makes of a text column: getText() hands over a C string, so a zero byte ends it. */
  function CString(s: Bytes): (t: Bytes)
    ensures t <= s && 0 !in t
    ensures |t| < |s| ==> s[|t|] == 0
  {
    if s == [] || s[0] == 0 then [] else [s[0]] + CString(s[1..])
  }

  /** UUIDs and hexadecimal digests. */
  type ZeroFree = s: Bytes | 0 !in s

  /** A text survives being stored and read back exactly when it has no zero byte. */
  lemma CStringExactly(s: Bytes)
    ensures CString(s) == s <==> 0 !in s
  {
  }

  lemma Regroup<T>(a: seq<T>, b: seq<T>, c: seq<T>)
    ensures a + (b + c) == a + b + c
  {
  }

  /** Concatenation of a list of byte strings. */
  function Flat(parts: seq<Bytes>): (s: Bytes)
  {
    if parts == [] then [] else parts[0] + Flat(parts[1..])
  }

  lemma {:induction false} FlatAppend(a: seq<Bytes>, b: seq<Bytes>)
    ensures Flat(a + b) == Flat(a) + Flat(b)
  {
    if a == [] {
      assert a + b == b;
    } else {
      assert (a + b)[1..] == a[1..] + b;
      FlatAppend(a[1..], b);
    }
  }
}
