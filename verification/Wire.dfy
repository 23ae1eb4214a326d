/** Byte-level building blocks of the KCM wire protocol (internal/kcmproto/wire.go).

A Go string and a Go byte slice are both sequences of bytes here. Go's
conversions to `uint32` and `int32` are written out, because the decoder's
bounds checks compare a *converted* length.
*/
module Wire {

  type byte = b: int | 0 <= b < 0x100
  type uint16 = v: int | 0 <= v < 0x1_0000
  type uint32 = v: int | 0 <= v < 0x1_0000_0000
  type int32 = v: int | -0x8000_0000 <= v < 0x8000_0000
  type Bytes = seq<byte>

  const TWO_32: int := 0x1_0000_0000

  datatype Option<+T> = None | Some(value: T)

  /** A decoder's answer: a value and the bytes after it, or ErrTruncated. */
  datatype Read<+T> = Truncated | Got(value: T, rest: Bytes) {
    predicate IsFailure() { Truncated? }
    function PropagateFailure<U>(): Read<U> requires Truncated? { Truncated }
    function Extract(): (T, Bytes) requires Got? { (value, rest) }
  }

  /** Go's `uint32(n)`: the low 32 bits. */
  function ToUint32(n: int): (v: uint32) {
    if 0 <= n < 0x1_0000_0000 then n else n % 0x1_0000_0000
  }

  /** Go's `int32(v)`: two's complement reinterpretation. */
  function ToInt32(v: uint32): (n: int32) { if v < 0x8000_0000 then v else v - 0x1_0000_0000 }

  /** The big-endian value of four bytes. */
  function BigEndian(w: Bytes): (v: uint32)
    requires |w| == 4
  {
    var a: int, b: int, c: int, d: int := w[0], w[1], w[2], w[3];
    a * 0x100_0000 + b * 0x1_0000 + c * 0x100 + d
  }

  function PutUint32(v: uint32): (out: Bytes)
    ensures |out| == 4 && BigEndian(out) == v
  {
    var hi3 := v / 0x100;
    var hi2 := hi3 / 0x100;
    [hi2 / 0x100, hi2 % 0x100, hi3 % 0x100, v % 0x100]
  }

  function ReadUint32(body: Bytes): (r: Read<uint32>)
    ensures r.Got? <==> |body| >= 4
    ensures r.Got? ==> r.rest == body[4..]
  {
    if |body| < 4 then Truncated else Got(BigEndian(body[..4]), body[4..])
  }

  function PutUint16(v: uint16): (out: Bytes)
    ensures |out| == 2
  {
    [v / 0x100, v % 0x100]
  }

  function ReadUint16(body: Bytes): (r: Read<uint16>)
    ensures r.Got? <==> |body| >= 2
    ensures r.Got? ==> r.rest == body[2..]
  {
    if |body| < 2 then Truncated else
    var hi: int, lo: int := body[0], body[1];
    Got(hi * 0x100 + lo, body[2..])
  }

  /** A byte string behind its 32-bit length; the length wraps as Go's conversion does. */
  function PutCounted(data: Bytes): (out: Bytes) { PutUint32(ToUint32(|data|)) + data }

  /** Reads a counted byte string with the source's check `uint32(len(rest)) < n`. */
  function ReadCounted(body: Bytes): (r: Read<Bytes>)
    ensures r.Got? ==> |r.rest| <= |body|
  {
    var (n, rest) :- ReadUint32(body);
    if ToUint32(|rest|) < n then Truncated else Got(rest[..n], rest[n..])
  }

  /** Words go most significant byte first, both ways. */
  lemma NetworkOrder(w: Bytes, rest: Bytes)
    requires |w| == 4
    ensures var a: int, b: int, c: int, d: int := w[0], w[1], w[2], w[3];
            && ReadUint32(w + rest) == Got(a * 0x100_0000 + b * 0x1_0000 + c * 0x100 + d, rest)
            && PutUint32(a * 0x100_0000 + b * 0x1_0000 + c * 0x100 + d) == w
            && ReadUint16(w + rest).value == a * 0x100 + b
            && PutUint16(a * 0x100 + b) == w[..2]
  {
    assert (w + rest)[..4] == w && (w + rest)[4..] == rest;
    BigEndianDigits(w);
  }

  // ---- Round trips ----

  /** The conversions keep the low 32 bits. */
  lemma LowBits(n: int, v: uint32)
    ensures (n - ToUint32(n)) % 0x1_0000_0000 == 0
    ensures (v - ToInt32(v)) % 0x1_0000_0000 == 0
  {
  }

  lemma Int32RoundTrip(n: int32)
    ensures ToInt32(ToUint32(n)) == n
  {
  }

  lemma Assoc(a: Bytes, b: Bytes, c: Bytes)
    ensures (a + b) + c == a + (b + c)
  {
  }

  lemma BigEndianDigits(w: Bytes)
    requires |w| == 4
    ensures PutUint32(BigEndian(w)) == w
  {
    var v, a: int, b: int, c: int := BigEndian(w), w[0], w[1], w[2];
    assert v / 0x100 == a * 0x1_0000 + b * 0x100 + c;
    assert v / 0x100 / 0x100 == a * 0x100 + b;
  }

  lemma ReadAfterPut32(v: uint32, suffix: Bytes)
    ensures ReadUint32(PutUint32(v) + suffix) == Got(v, suffix)
  {
    assert (PutUint32(v) + suffix)[..4] == PutUint32(v);
    assert (PutUint32(v) + suffix)[4..] == suffix;
  }

  lemma PutAfterRead32(body: Bytes)
    requires ReadUint32(body).Got?
    ensures body == PutUint32(ReadUint32(body).value) + ReadUint32(body).rest
  {
    BigEndianDigits(body[..4]);
    assert body == body[..4] + body[4..];
  }

  lemma ReadAfterPut16(v: uint16, suffix: Bytes)
    ensures ReadUint16(PutUint16(v) + suffix) == Got(v, suffix)
  {
    assert (PutUint16(v) + suffix)[2..] == suffix;
  }

  /** The two reads a counted string takes, as the decoders write them out. */
  lemma CountedParts(body: Bytes)
    ensures ReadCounted(body) ==
            var w := ReadUint32(body);
            if w.Truncated? || ToUint32(|w.rest|) < w.value then Truncated
            else Got(w.rest[..w.value], w.rest[w.value..])
  {
  }

  lemma CountedLength(data: Bytes)
    ensures |PutCounted(data)| == 4 + |data|
  {
  }

  lemma CountedRoundTrip(data: Bytes, suffix: Bytes)
    requires |data| + |suffix| < TWO_32
    ensures ReadCounted(PutCounted(data) + suffix) == Got(data, suffix)
  {
    hide PutUint32, BigEndian;
    Assoc(PutUint32(|data|), data, suffix);
    ReadAfterPut32(|data|, data + suffix);
    assert (data + suffix)[..|data|] == data && (data + suffix)[|data|..] == suffix;
  }

  lemma CountedConverse(body: Bytes)
    requires ReadCounted(body).Got?
    ensures body == PutCounted(ReadCounted(body).value) + ReadCounted(body).rest
    ensures |ReadCounted(body).value| < TWO_32
  {
    hide PutUint32, BigEndian;
    PutAfterRead32(body);
    var n, rest := ReadUint32(body).value, ReadUint32(body).rest;
    var data, after := rest[..n], rest[n..];
    assert ToUint32(|data|) == n && rest == data + after;
    Assoc(PutUint32(n), data, after);
  }

  // ---- More input never changes what was already decoded ----

  lemma Uint32Extends(body: Bytes, more: Bytes)
    requires ReadUint32(body).Got?
    ensures ReadUint32(body + more) == Got(ReadUint32(body).value, ReadUint32(body).rest + more)
  {
    assert (body + more)[..4] == body[..4] && (body + more)[4..] == body[4..] + more;
  }

  lemma Uint16Extends(body: Bytes, more: Bytes)
    requires ReadUint16(body).Got?
    ensures ReadUint16(body + more) == Got(ReadUint16(body).value, ReadUint16(body).rest + more)
  {
    assert (body + more)[2..] == body[2..] + more;
  }

  lemma CountedExtends(body: Bytes, more: Bytes)
    requires ReadCounted(body).Got? && |body| + |more| < TWO_32
    ensures ReadCounted(body + more) == Got(ReadCounted(body).value, ReadCounted(body).rest + more)
  {
    hide PutUint32, BigEndian;
    Uint32Extends(body, more);
    var n, rest := ReadUint32(body).value, ReadUint32(body).rest;
    assert (rest + more)[..n] == rest[..n] && (rest + more)[n..] == rest[n..] + more;
  }
}
