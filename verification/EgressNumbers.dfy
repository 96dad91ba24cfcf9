/**
 The arithmetic behind the egress payload.

 A payload is a sequence of bytes read as one big-endian integer.  The fields (the bit vectors
 of the features, most significant bit first) are the digits of that integer in a mixed radix:
 the first field is the least significant one and field i has radix 2 to the power of its width.
 Everything here is independent of how the bidding service packs the bits.

 Bit streams are least significant bit first.
 */
module EgressNumbers {

  type byte = x: nat | x < 256

  function Pow2(n: nat): (p: nat)
    ensures p >= 1
  {
    if n == 0 then 1 else 2 * Pow2(n - 1)
  }

  lemma {:induction false} Pow2Byte(n: nat)
    ensures Pow2(n + 8) == 256 * Pow2(n)
  {
    assert Pow2(n + 8) == 4 * Pow2(n + 6) && Pow2(n + 6) == 4 * Pow2(n + 4);
    assert Pow2(n + 4) == 4 * Pow2(n + 2) && Pow2(n + 2) == 4 * Pow2(n);
  }

  // ----- bit streams -----

  function Bit(b: bool): nat {
    if b then 1 else 0
  }

  /** The number a bit stream stands for. */
  function StreamValue(bits: seq<bool>): (v: nat)
    ensures v < Pow2(|bits|)
  {
    if bits == [] then 0 else Bit(bits[0]) + 2 * StreamValue(bits[1..])
  }

  /** The bit stream of length `w` that stands for `v` modulo 2^w. */
  function StreamOf(v: nat, w: nat): (bits: seq<bool>)
    ensures |bits| == w
    decreases w
  {
    if w == 0 then [] else [v % 2 == 1] + StreamOf(v / 2, w - 1)
  }

  function Falses(n: nat): seq<bool> {
    seq(n, i => false)
  }

  lemma {:induction false} StreamOfZero(n: nat)
    ensures StreamOf(0, n) == Falses(n)
  {
    if n > 0 {
      StreamOfZero(n - 1);
    }
  }

  /** Reading the value back gives the stream, padded with zeros. */
  lemma {:induction false} StreamOfValue(bits: seq<bool>, w: nat)
    requires |bits| <= w
    ensures StreamOf(StreamValue(bits), w) == bits + Falses(w - |bits|)
    decreases |bits|
  {
    if bits == [] {
      StreamOfZero(w);
    } else {
      StreamOfValue(bits[1..], w - 1);
      assert StreamValue(bits) / 2 == StreamValue(bits[1..]);
      assert bits == [bits[0]] + bits[1..];
    }
  }

  lemma {:induction false} StreamValueAppendBit(bits: seq<bool>, b: bool)
    ensures StreamValue(bits + [b]) == StreamValue(bits) + if b then Pow2(|bits|) else 0
  {
    if bits == [] {
      assert ([] + [b])[1..] == [];
    } else {
      assert (bits + [b])[1..] == bits[1..] + [b];
      StreamValueAppendBit(bits[1..], b);
    }
  }

  /** The second stream is weighted by 2 to the length of the first. */
  lemma {:induction false} StreamValueConcat(a: seq<bool>, b: seq<bool>)
    ensures StreamValue(a + b) == StreamValue(a) + Pow2(|a|) * StreamValue(b)
  {
    if a == [] {
      assert a + b == b;
    } else {
      assert (a + b)[1..] == a[1..] + b;
      StreamValueConcat(a[1..], b);
      DoubleProduct(Pow2(|a[1..]|), StreamValue(b));
      assert StreamValue(a + b) == Bit(a[0]) + 2 * StreamValue(a[1..] + b);
    }
  }

  lemma DoubleProduct(p: nat, v: nat)
    ensures 2 * (p * v) == (2 * p) * v
  {
  }

  // ----- fields -----

  function Reverse(s: seq<bool>): (r: seq<bool>)
    ensures |r| == |s|
  {
    if s == [] then [] else Reverse(s[1..]) + [s[0]]
  }

  lemma {:induction false} ReverseConcat(a: seq<bool>, b: seq<bool>)
    ensures Reverse(a + b) == Reverse(b) + Reverse(a)
  {
    if a == [] {
      assert a + b == b;
    } else {
      assert (a + b)[1..] == a[1..] + b;
      ReverseConcat(a[1..], b);
    }
  }

  lemma {:induction false} ReverseReverse(s: seq<bool>)
    ensures Reverse(Reverse(s)) == s
  {
    if s != [] {
      ReverseConcat(Reverse(s[1..]), [s[0]]);
      assert Reverse([s[0]]) == [s[0]];
      ReverseReverse(s[1..]);
      assert s == [s[0]] + s[1..];
    }
  }

  /** The number a field stands for; its first bit is the most significant one. */
  function FieldValue(field: seq<bool>): nat {
    if field == [] then 0 else 2 * FieldValue(field[..|field| - 1]) + Bit(field[|field| - 1])
  }

  lemma {:induction false} FieldValueOfStream(field: seq<bool>)
    ensures FieldValue(field) == StreamValue(Reverse(field))
  {
    if field != [] {
      var front, last := field[..|field| - 1], field[|field| - 1];
      assert field == front + [last];
      ReverseConcat(front, [last]);
      assert Reverse([last]) == [last];
      FieldValueOfStream(front);
      assert ([last] + Reverse(front))[1..] == Reverse(front);
    }
  }

  function TotalBits(fields: seq<seq<bool>>): nat {
    if fields == [] then 0 else |fields[0]| + TotalBits(fields[1..])
  }

  /** The fields one after the other, each with its own last bit first. */
  function StreamOfFields(fields: seq<seq<bool>>): (bits: seq<bool>)
    ensures |bits| == TotalBits(fields)
  {
    if fields == [] then [] else Reverse(fields[0]) + StreamOfFields(fields[1..])
  }

  lemma {:induction false} StreamOfFieldsAppend(fields: seq<seq<bool>>, f: seq<bool>)
    ensures StreamOfFields(fields + [f]) == StreamOfFields(fields) + Reverse(f)
    ensures TotalBits(fields + [f]) == TotalBits(fields) + |f|
  {
    if fields == [] {
      assert (fields + [f])[1..] == [];
    } else {
      assert (fields + [f])[1..] == fields[1..] + [f];
      StreamOfFieldsAppend(fields[1..], f);
    }
  }

  /** The sum over the fields of value(f_i) * 2^(total width of the fields before f_i). */
  function MixedRadix(fields: seq<seq<bool>>): nat {
    if fields == [] then 0
    else
      var last := |fields| - 1;
      MixedRadix(fields[..last]) + Pow2(TotalBits(fields[..last])) * FieldValue(fields[last])
  }

  lemma {:induction false} MixedRadixOfStream(fields: seq<seq<bool>>)
    ensures MixedRadix(fields) == StreamValue(StreamOfFields(fields))
  {
    if fields != [] {
      var front, last := fields[..|fields| - 1], fields[|fields| - 1];
      assert fields == front + [last];
      StreamOfFieldsAppend(front, last);
      StreamValueConcat(StreamOfFields(front), Reverse(last));
      FieldValueOfStream(last);
      MixedRadixOfStream(front);
    }
  }

  // ----- bytes -----

  /** The bytes read as one integer, most significant byte first. */
  function BigEndian(bytes: seq<byte>): nat {
    if bytes == [] then 0 else 256 * BigEndian(bytes[..|bytes| - 1]) + bytes[|bytes| - 1]
  }

  /** The last `n` bytes of `v`. */
  function BytesOf(v: nat, n: nat): (bytes: seq<byte>)
    ensures |bytes| == n
    decreases n
  {
    if n == 0 then [] else BytesOf(v / 256, n - 1) + [v % 256]
  }

  lemma {:induction false} BigEndianOfBytes(v: nat, n: nat)
    requires v < Pow2(8 * n)
    ensures BigEndian(BytesOf(v, n)) == v
    decreases n
  {
    if n > 0 {
      Pow2Byte(8 * (n - 1));
      BigEndianOfBytes(v / 256, n - 1);
      assert BytesOf(v, n)[..n - 1] == BytesOf(v / 256, n - 1);
    }
  }

  lemma {:induction false} BytesOfBigEndian(bytes: seq<byte>)
    ensures BytesOf(BigEndian(bytes), |bytes|) == bytes
  {
    if bytes != [] {
      var front, last := bytes[..|bytes| - 1], bytes[|bytes| - 1];
      assert BigEndian(bytes) / 256 == BigEndian(front);
      BytesOfBigEndian(front);
      assert bytes == front + [last];
    }
  }

  lemma {:induction false} BigEndianOfZeros(bytes: seq<byte>)
    requires forall i :: 0 <= i < |bytes| ==> bytes[i] == 0
    ensures BigEndian(bytes) == 0
  {
    if bytes != [] {
      BigEndianOfZeros(bytes[..|bytes| - 1]);
    }
  }

  /** Setting a clear bit of byte i adds the weight that bit has in the whole integer. */
  lemma {:induction false} BigEndianSetBit(bytes: seq<byte>, i: nat, pos: nat)
    requires i < |bytes| && bytes[i] + Pow2(pos) < 256
    ensures BigEndian(bytes[i := bytes[i] + Pow2(pos)]) == BigEndian(bytes) + Pow2(8 * (|bytes| - 1 - i) + pos)
  {
    var updated, last := bytes[i := bytes[i] + Pow2(pos)], |bytes| - 1;
    if i == last {
      assert updated[..last] == bytes[..last];
    } else {
      assert updated[..last] == bytes[..last][i := bytes[..last][i] + Pow2(pos)];
      BigEndianSetBit(bytes[..last], i, pos);
      Pow2Byte(8 * (last - 1 - i) + pos);
    }
  }

  /** Bit `pos` of a number. */
  predicate BitAt(v: nat, pos: nat) {
    if pos == 0 then v % 2 == 1 else BitAt(v / 2, pos - 1)
  }

  /** `v | (1 << pos)`. */
  function OrBit(v: nat, pos: nat): (r: nat)
    ensures v < Pow2(pos) ==> r == v + Pow2(pos)
    decreases pos
  {
    if pos == 0 then (if v % 2 == 1 then v else v + 1) else 2 * OrBit(v / 2, pos - 1) + v % 2
  }

  /** Or-ing in bit `pos` sets that bit and leaves every other one alone. */
  lemma {:induction false} OrBitMeaning(v: nat, pos: nat, q: nat)
    ensures BitAt(OrBit(v, pos), q) <==> q == pos || BitAt(v, q)
    decreases pos
  {
    if pos == 0 {
      if q > 0 {
        assert OrBit(v, 0) / 2 == v / 2;
      }
    } else if q > 0 {
      assert OrBit(v, pos) / 2 == OrBit(v / 2, pos - 1);
      OrBitMeaning(v / 2, pos - 1, q - 1);
    }
  }

  // ----- whole payloads -----

  const DEFAULT_PROTOCOL := 0

  /** The header byte: the version shifted past the protocol bits, cut to eight bits. */
  function Header(schemaVersion: nat): byte {
    (schemaVersion * 32 + DEFAULT_PROTOCOL) % 256
  }

  /** The wire form: `byteCount` payload bytes followed by the header. */
  function Encode(schemaVersion: nat, byteCount: nat, fields: seq<seq<bool>>): seq<byte> {
    BytesOf(StreamValue(StreamOfFields(fields)), byteCount) + [Header(schemaVersion)]
  }

  function Widths(fields: seq<seq<bool>>): (ws: seq<nat>)
    ensures |ws| == |fields|
  {
    if fields == [] then [] else [|fields[0]|] + Widths(fields[1..])
  }

  function CutFields(stream: seq<bool>, widths: seq<nat>): seq<seq<bool>> {
    if widths == [] || widths[0] > |stream| then []
    else [Reverse(stream[..widths[0]])] + CutFields(stream[widths[0]..], widths[1..])
  }

  datatype Decoded = Decoded(schemaVersion: nat, fields: seq<seq<bool>>)

  /** A decoder that is told nothing but the field widths of the schema. */
  function Decode(bytes: seq<byte>, widths: seq<nat>): Decoded
    requires bytes != []
  {
    var last := |bytes| - 1;
    Decoded(bytes[last] / 32, CutFields(StreamOf(BigEndian(bytes[..last]), 8 * last), widths))
  }

  lemma SplitOff(front: seq<bool>, rest: seq<bool>, padding: seq<bool>)
    ensures ((front + rest) + padding)[..|front|] == front
    ensures ((front + rest) + padding)[|front|..] == rest + padding
  {
  }

  lemma {:induction false} CutFieldsOfStream(fields: seq<seq<bool>>, padding: seq<bool>)
    ensures CutFields(StreamOfFields(fields) + padding, Widths(fields)) == fields
  {
    if fields != [] {
      hide Reverse;
      var stream, w := StreamOfFields(fields) + padding, |fields[0]|;
      SplitOff(Reverse(fields[0]), StreamOfFields(fields[1..]), padding);
      ReverseReverse(fields[0]);
      CutFieldsOfStream(fields[1..], padding);
      CutFirst(stream, w, Widths(fields[1..]));
      assert Widths(fields) == [w] + Widths(fields[1..]);
      assert fields == [fields[0]] + fields[1..];
    }
  }

  lemma CutFirst(stream: seq<bool>, w: nat, widths: seq<nat>)
    requires w <= |stream|
    ensures CutFields(stream, [w] + widths) == [Reverse(stream[..w])] + CutFields(stream[w..], widths)
  {
    hide Reverse;
    assert ([w] + widths)[1..] == widths;
  }

  lemma {:induction false} Pow2Monotonic(a: nat, b: nat)
    requires a <= b
    ensures Pow2(a) <= Pow2(b)
  {
    if a < b {
      Pow2Monotonic(a, b - 1);
    }
  }

  /**
   The payload bytes are the mixed-radix number of the fields, so every bit above the last field
   is zero.
   */
  lemma PayloadNumber(schemaVersion: nat, byteCount: nat, fields: seq<seq<bool>>)
    requires TotalBits(fields) <= 8 * byteCount
    ensures var bytes := Encode(schemaVersion, byteCount, fields);
            && |bytes| == byteCount + 1
            && BigEndian(bytes[..byteCount]) == MixedRadix(fields) < Pow2(TotalBits(fields))
  {
    var bytes := Encode(schemaVersion, byteCount, fields);
    assert bytes[..byteCount] == BytesOf(StreamValue(StreamOfFields(fields)), byteCount);
    Pow2Monotonic(TotalBits(fields), 8 * byteCount);
    BigEndianOfBytes(StreamValue(StreamOfFields(fields)), byteCount);
    MixedRadixOfStream(fields);
  }

  /** The header keeps the version modulo 8. */
  lemma HeaderVersion(schemaVersion: nat)
    ensures Header(schemaVersion) / 32 == schemaVersion % 8
    ensures Header(schemaVersion) % 32 == 0
  {
    var q, r := schemaVersion / 8, schemaVersion % 8;
    assert schemaVersion * 32 == 256 * q + 32 * r;
    LowByte(q, 32 * r);
  }

  lemma LowByte(q: nat, r: byte)
    ensures (256 * q + r) % 256 == r
  {
  }

  lemma DecodeParts(schemaVersion: nat, byteCount: nat, fields: seq<seq<bool>>, widths: seq<nat>)
    ensures var bytes := Encode(schemaVersion, byteCount, fields);
            Decode(bytes, widths) ==
            Decoded(Header(schemaVersion) / 32, CutFields(StreamOf(BigEndian(bytes[..byteCount]), 8 * byteCount), widths))
  {
    hide Header, CutFields, StreamOf, BigEndian, BytesOf, StreamValue, StreamOfFields;
  }

  /** Round trip: every field comes back, and the version comes back exactly when it fits in three bits. */
  lemma {:induction false} RoundTrip(schemaVersion: nat, byteCount: nat, fields: seq<seq<bool>>)
    requires TotalBits(fields) <= 8 * byteCount
    ensures var bytes := Encode(schemaVersion, byteCount, fields);
            && Decode(bytes, Widths(fields)).fields == fields
            && (Decode(bytes, Widths(fields)).schemaVersion == schemaVersion <==> schemaVersion <= 7)
  {
    hide Encode, Decode, Header, CutFields, StreamOf, BigEndian, StreamValue, StreamOfFields, MixedRadix, Widths;
    var stream := StreamOfFields(fields);
    DecodeParts(schemaVersion, byteCount, fields, Widths(fields));
    PayloadNumber(schemaVersion, byteCount, fields);
    MixedRadixOfStream(fields);
    StreamOfValue(stream, 8 * byteCount);
    CutFieldsOfStream(fields, Falses(8 * byteCount - |stream|));
    HeaderVersion(schemaVersion);
  }

  /** No two payloads of one layout collide while the versions are supported ones. */
  lemma {:induction false} EncodeInjective(v1: nat, v2: nat, byteCount: nat, f1: seq<seq<bool>>, f2: seq<seq<bool>>)
    requires TotalBits(f1) <= 8 * byteCount && TotalBits(f2) <= 8 * byteCount
    requires Widths(f1) == Widths(f2) && v1 <= 7 && v2 <= 7
    requires Encode(v1, byteCount, f1) == Encode(v2, byteCount, f2)
    ensures v1 == v2 && f1 == f2
  {
    hide Encode, Decode, Widths;
    RoundTrip(v1, byteCount, f1);
    RoundTrip(v2, byteCount, f2);
  }
}
