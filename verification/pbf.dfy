/**
 * The binary wire reader `llmr::pbf`: a cursor over the byte range [data, end)
 * that decodes the Protocol Buffers wire encoding (base-128 varints, ZigZag
 * varints, length-delimited runs and fixed-width values).
 *
 * The pure functions below say, for the bytes `s` of the range and a cursor
 * position `p`, what each reader returns and where it leaves the cursor, also
 * when it fails: the source throws an exception after it has moved the cursor,
 * so a failure carries a cursor too.  The class `Pbf` is the reader itself and
 * each of its methods is proved against one of these functions.
 */
module Pbf {

  /** The four exceptions the reader throws, one variant each. */
  datatype Error = UnterminatedVarint | VarintTooLong | UnknownFieldType | EndOfBuffer

  datatype Result<T> = Ok(value: T) | Fail(error: Error)

  /** What a reader returns, and where it leaves the cursor. */
  datatype Step<T> = Step(result: Result<T>, cursor: nat)

  const TwoTo32: nat := 0x1_0000_0000

  /** An octet of the wire.  `b & 0x80` is tested as b >= 128 and `b & 0x7F` taken as b % 128. */
  type byte = b: int | 0 <= b < 256

  /** The C++ `uint32_t` of the `value` and `tag` fields. */
  type uint32 = x: int | 0 <= x < 0x1_0000_0000

  /** The C++ conversion of a 64-bit unsigned value into a `uint32_t`: the low 32 bits. */
  function ToUint32(x: nat): uint32 {
    x % 0x1_0000_0000
  }

  /** At most ten groups of seven bits make up one varint. */
  const MaxVarintBytes: nat := 10

  // ---------------------------------------------------------------------------
  // Base-128 varints
  // ---------------------------------------------------------------------------

  function Pow2(n: nat): (r: nat)
    ensures r >= 1
  {
    if n == 0 then 1 else 2 * Pow2(n - 1)
  }

  lemma {:induction false} Pow2Add(a: nat, b: nat)
    ensures Pow2(a + b) == Pow2(a) * Pow2(b)
  {
    if a > 0 {
      Pow2Add(a - 1, b);
    }
  }

  /** The seven payload bits of a varint byte, `b & 0x7F`. */
  function Low7(b: byte): nat {
    b % 128
  }

  /** The continuation bit, `b & 0x80`: another byte of the same varint follows. */
  predicate Continues(b: byte) {
    b >= 128
  }

  /** Σ (bs[i] & 0x7F) · 2^(7i): the value a run of varint bytes denotes. */
  function Groups(bs: seq<byte>): nat {
    if bs == [] then 0 else Low7(bs[0]) + 128 * Groups(bs[1..])
  }

  lemma MulShift(x: int, y: int)
    ensures x * (128 * y) == 128 * (x * y)
  {
  }

  lemma {:induction false} GroupsSnoc(bs: seq<byte>, b: byte)
    ensures Groups(bs + [b]) == Groups(bs) + Low7(b) * Pow2(7 * |bs|)
  {
    if bs == [] {
      assert [b][1..] == [];
    } else {
      var rest := bs[1..];
      assert (bs + [b])[1..] == rest + [b];
      GroupsSnoc(rest, b);
      var w := Pow2(7 * |rest|);
      var q := Low7(b) * w;
      Pow2Add(7, 7 * |rest|);
      assert Pow2(7) == 128;
      assert Pow2(7 * |bs|) == 128 * w;
      MulShift(Low7(b), w);
      assert Groups(bs + [b]) == Low7(bs[0]) + 128 * (Groups(rest) + q);
    }
  }

  /** No byte at positions lo .. hi - 1 lies past `s` or is a terminator. */
  ghost predicate ContinuationRun(s: seq<byte>, lo: nat, hi: nat) {
    && (lo < hi ==> hi <= |s|)
    && forall i :: lo <= i < hi ==> Continues(s[i])
  }

  /**
   * Where the varint that starts at `p` ends, having already passed `k`
   * continuation bytes: Ok(q) when s[q - 1] is its terminating byte, or the
   * failure, with the cursor where the source's loop stops.
   */
  function VarintExtent(s: seq<byte>, p: nat, k: nat): (st: Step<nat>)
    requires k <= MaxVarintBytes
    decreases MaxVarintBytes - k
  {
    if k == MaxVarintBytes then Step(Fail(VarintTooLong), p + k)
    else if p + k >= |s| then Step(Fail(UnterminatedVarint), p + k)
    else if !Continues(s[p + k]) then Step(Ok(p + k + 1), p + k + 1)
    else VarintExtent(s, p, k + 1)
  }

  /**
   * The varint ends within ten bytes of p; when it ends well, the cursor is
   * just past its terminating byte, and every byte before that continues it.
   */
  lemma {:induction false} ExtentBounds(s: seq<byte>, p: nat, k: nat)
    requires k <= MaxVarintBytes
    ensures var st := VarintExtent(s, p, k);
      && p + k <= st.cursor <= p + MaxVarintBytes
      && (st.result.Ok? ==>
            && st.result.value == st.cursor && p + k < st.cursor <= |s|
            && !Continues(s[st.cursor - 1])
            && ContinuationRun(s, p + k, st.cursor - 1))
    decreases MaxVarintBytes - k
  {
    if k < MaxVarintBytes && p + k < |s| && Continues(s[p + k]) {
      ExtentBounds(s, p, k + 1);
    }
  }

  /** `varint()`: the value of the varint at `p`, and the cursor after it. */
  function ReadVarint(s: seq<byte>, p: nat): (st: Step<nat>) {
    var e := VarintExtent(s, p, 0);
    if e.result.Fail? then Step(Fail(e.result.error), e.cursor)
    else Step(Ok(Groups(s[p..e.cursor])), e.cursor)
  }

  /** The standard base-128 encoding of `n`, least significant group first. */
  function EncodeVarint(n: nat): (e: seq<byte>)
    ensures |e| >= 1
  {
    if n < 128 then [n] else [n % 128 + 128] + EncodeVarint(n / 128)
  }

  // ---------------------------------------------------------------------------
  // Facts about VarintExtent, by induction on the number of bytes passed
  // ---------------------------------------------------------------------------

  lemma {:induction false} ExtentTooLong(s: seq<byte>, p: nat, k: nat)
    requires k <= MaxVarintBytes && ContinuationRun(s, p, p + k)
    ensures VarintExtent(s, p, k).result == Fail(VarintTooLong)
      <==> ContinuationRun(s, p, p + MaxVarintBytes)
    decreases MaxVarintBytes - k
  {
    if k < MaxVarintBytes && p + k < |s| && Continues(s[p + k]) {
      ExtentTooLong(s, p, k + 1);
    } else if k < MaxVarintBytes && p + k >= |s| {
    }
  }

  lemma {:induction false} ExtentUnterminated(s: seq<byte>, p: nat, k: nat)
    requires k <= MaxVarintBytes && ContinuationRun(s, p, p + k)
    ensures VarintExtent(s, p, k).result == Fail(UnterminatedVarint)
      <==> |s| < p + MaxVarintBytes && ContinuationRun(s, p, |s|)
    decreases MaxVarintBytes - k
  {
    if k < MaxVarintBytes && p + k < |s| && Continues(s[p + k]) {
      ExtentUnterminated(s, p, k + 1);
    } else if k < MaxVarintBytes && p + k < |s| {
      assert !ContinuationRun(s, p, |s|) by {
        assert p <= p + k < |s| && !Continues(s[p + k]);
      }
    }
  }

  /** One turn of the decoding loop: the byte at p + k either ends the varint or continues it. */
  lemma ExtentStep(s: seq<byte>, p: nat, k: nat)
    requires k < MaxVarintBytes && p + k < |s|
    ensures VarintExtent(s, p, k) ==
      if Continues(s[p + k]) then VarintExtent(s, p, k + 1) else Step(Ok(p + (k + 1)), p + (k + 1))
  {
  }

  /**
   * A successful `varint()` consumes the bytes up to and including the first
   * one whose high bit is clear, at most ten of them, and returns
   * Σ (bᵢ & 0x7F)·2^(7i) over them.
   */
  lemma VarintSuccess(s: seq<byte>, p: nat)
    ensures var st := ReadVarint(s, p);
      st.result.Ok? ==>
        && p < st.cursor <= p + MaxVarintBytes && st.cursor <= |s|
        && !Continues(s[st.cursor - 1])
        && (forall i :: p <= i < st.cursor - 1 ==> Continues(s[i]))
        && st.result.value == Groups(s[p..st.cursor])
  {
    ExtentBounds(s, p, 0);
  }

  /** `varint()` fails with varint_too_long exactly when ten bytes in a row carry 0x80. */
  lemma VarintTooLongIff(s: seq<byte>, p: nat)
    ensures ReadVarint(s, p).result == Fail(VarintTooLong)
      <==> p + MaxVarintBytes <= |s| && forall i :: p <= i < p + MaxVarintBytes ==> Continues(s[i])
  {
    ExtentTooLong(s, p, 0);
  }

  /**
   * `varint()` fails with unterminated_varint exactly when the range ends,
   * fewer than ten bytes on, before any terminating byte.
   */
  lemma VarintUnterminatedIff(s: seq<byte>, p: nat)
    ensures ReadVarint(s, p).result == Fail(UnterminatedVarint)
      <==> |s| < p + MaxVarintBytes && forall i :: p <= i < |s| ==> Continues(s[i])
  {
    ExtentUnterminated(s, p, 0);
  }

  /** The cursor never moves backwards, and never more than ten bytes on. */
  lemma VarintCursor(s: seq<byte>, p: nat)
    ensures p <= ReadVarint(s, p).cursor <= p + MaxVarintBytes
  {
    ExtentBounds(s, p, 0);
  }

  /** One turn of the decoding loop: the byte at q joins the groups read from p. */
  lemma AccumulateGroup(s: seq<byte>, p: nat, n: nat, acc: nat, b: byte, bitpos: nat)
    requires p + n < |s| && acc == (if n == 0 then 0 else Groups(s[p..p + n]))
    requires b == s[p + n] && bitpos == 7 * n
    ensures Groups(s[p..p + (n + 1)]) == acc + Low7(b) * Pow2(bitpos)
  {
    assert s[p..p + (n + 1)] == s[p..p + n] + [s[p + n]];
    GroupsSnoc(s[p..p + n], s[p + n]);
  }

  // ---------------------------------------------------------------------------
  // Round trip with the standard encoding
  // ---------------------------------------------------------------------------

  lemma Pow2Facts()
    ensures Pow2(7) == 128 && Pow2(32) == TwoTo32 && Pow2(70) > TwoTo32
  {
    assert Pow2(4) == 16;
    Pow2Add(3, 4);
    Pow2Add(4, 4);
    assert Pow2(8) == 256;
    Pow2Add(8, 8);
    assert Pow2(16) == 65536;
    Pow2Add(16, 16);
    assert Pow2(32) == TwoTo32;
    Pow2Add(32, 38);
    assert Pow2(38) >= 2;
  }

  lemma {:induction false} EncodeShape(n: nat)
    ensures !Continues(EncodeVarint(n)[|EncodeVarint(n)| - 1])
    ensures forall i :: 0 <= i < |EncodeVarint(n)| - 1 ==> Continues(EncodeVarint(n)[i])
  {
    var e := EncodeVarint(n);
    if n >= 128 {
      EncodeShape(n / 128);
      assert e == [n % 128 + 128] + EncodeVarint(n / 128);
    }
  }

  lemma {:induction false} EncodeValue(n: nat)
    ensures Groups(EncodeVarint(n)) == n
  {
    var e := EncodeVarint(n);
    if n >= 128 {
      EncodeValue(n / 128);
      assert e[1..] == EncodeVarint(n / 128);
      assert Low7(e[0]) == n % 128;
    } else {
      assert e[1..] == [];
    }
  }

  /** The encoding of n is at most k bytes long whenever n < 2^(7k). */
  lemma {:induction false} EncodeLength(n: nat, k: nat)
    requires k >= 1 && n < Pow2(7 * k)
    ensures |EncodeVarint(n)| <= k
  {
    if n >= 128 {
      Pow2Add(7, 7 * (k - 1));
      assert Pow2(7) == 128;
      assert k > 1;
      EncodeLength(n / 128, k - 1);
    }
  }

  lemma {:induction false} ExtentOfEncoding(s: seq<byte>, p: nat, k: nat, n: nat)
    requires k + |EncodeVarint(n)| <= MaxVarintBytes
    requires p + k + |EncodeVarint(n)| <= |s|
    requires s[p + k .. p + k + |EncodeVarint(n)|] == EncodeVarint(n)
    ensures VarintExtent(s, p, k) == Step(Ok(p + k + |EncodeVarint(n)|), p + k + |EncodeVarint(n)|)
    decreases n
  {
    var e := EncodeVarint(n);
    assert s[p + k] == e[0];
    if n >= 128 {
      var e' := EncodeVarint(n / 128);
      assert e == [e[0]] + e';
      assert s[p + k + 1 .. p + k + 1 + |e'|] == e' by {
        assert s[p + k + 1 .. p + k + 1 + |e'|] == s[p + k .. p + k + |e|][1..];
      }
      ExtentOfEncoding(s, p, k + 1, n / 128);
    }
  }

  /**
   * Decoding the standard encoding of any n below 2^70, wherever it sits in
   * the range, returns n and advances by exactly the encoding's length.
   */
  lemma VarintRoundTrip(pre: seq<byte>, n: nat, post: seq<byte>)
    requires n < Pow2(70)
    ensures ReadVarint(pre + EncodeVarint(n) + post, |pre|)
      == Step(Ok(n), |pre| + |EncodeVarint(n)|)
  {
    var e := EncodeVarint(n);
    var s := pre + e + post;
    EncodeLength(n, 10);
    assert s[|pre| .. |pre| + |e|] == e;
    ExtentOfEncoding(s, |pre|, 0, n);
    EncodeValue(n);
  }

  // ---------------------------------------------------------------------------
  // ZigZag
  // ---------------------------------------------------------------------------

  /** `svarint()` on the decoded varint n: even n ↦ n/2, odd n ↦ −(n+1)/2. */
  function ZigZagDecode(n: nat): int {
    if n % 2 == 0 then n / 2 else -((n + 1) / 2)
  }

  /** ZigZag encoding: 0, -1, 1, -2, 2, ... ↦ 0, 1, 2, 3, 4, ... */
  function ZigZagEncode(i: int): nat {
    if i >= 0 then 2 * i else -2 * i - 1
  }

  lemma ZigZagRoundTrip(i: int)
    ensures ZigZagDecode(ZigZagEncode(i)) == i
  {
  }

  lemma ZigZagOnto(n: nat)
    ensures ZigZagEncode(ZigZagDecode(n)) == n
  {
  }

  /**
   * The source's formula `(n >> 1) ^ -(n & 1)` in 64-bit arithmetic: for even
   * n it is n >> 1, for odd n the bitwise complement of n >> 1, which is how
   * two's complement writes n/2 and -(n/2) - 1, the two cases of ZigZagDecode.
   * The step from these bit patterns to the integers is not proved here.
   */
  lemma ZigZagBits(n: bv64)
    ensures var r := (n >> 1) ^ (0 - (n & 1));
      (if n & 1 == 0 then r == n >> 1 else r == !(n >> 1))
  {
  }

  // ---------------------------------------------------------------------------
  // Length-delimited and fixed-width reads, skipping
  // ---------------------------------------------------------------------------

  /**
   * `skipBytes(n)`: the source moves the cursor first and then throws
   * end_of_buffer if it has passed the end.
   */
  function SkipBytesAt(s: seq<byte>, p: nat, n: nat): (st: Step<()>) {
    Step(if p + n > |s| then Fail(EndOfBuffer) else Ok(()), p + n)
  }

  /** `float32`/`float64`/`boolean`: skip n bytes and return the bytes skipped. */
  function ReadFixed(s: seq<byte>, p: nat, n: nat): (st: Step<seq<byte>>) {
    var sk := SkipBytesAt(s, p, n);
    if sk.result.Fail? then Step(Fail(sk.result.error), sk.cursor)
    else Step(Ok(s[p..p + n]), sk.cursor)
  }

  /** `string()`: a varint length L (kept in a uint32), then the next L bytes. */
  function ReadString(s: seq<byte>, p: nat): (st: Step<seq<byte>>) {
    var len := ReadVarint(s, p);
    if len.result.Fail? then Step(Fail(len.result.error), len.cursor)
    else
      var n := ToUint32(len.result.value);
      var sk := SkipBytesAt(s, len.cursor, n);
      if sk.result.Fail? then Step(Fail(sk.result.error), sk.cursor)
      else Step(Ok(s[len.cursor..len.cursor + n]), sk.cursor)
  }

  /** `skipValue(v)`: skip one field value of wire type v & 7. */
  function SkipValueAt(s: seq<byte>, p: nat, v: uint32): (st: Step<()>) {
    match v % 8
    case 0 =>
      var r := ReadVarint(s, p);
      Step(if r.result.Fail? then Fail(r.result.error) else Ok(()), r.cursor)
    case 1 => SkipBytesAt(s, p, 8)
    case 2 =>
      var len := ReadVarint(s, p);
      if len.result.Fail? then Step(Fail(len.result.error), len.cursor)
      else SkipBytesAt(s, len.cursor, ToUint32(len.result.value))
    case 5 => SkipBytesAt(s, p, 4)
    case _ => Step(Fail(UnknownFieldType), p)
  }

  /** `skipBytes`, `float32`, `float64`, `boolean` advance by exactly n, 4, 8, 1 bytes. */
  lemma FixedAdvance(s: seq<byte>, p: nat, n: nat)
    ensures SkipBytesAt(s, p, n).cursor == p + n
    ensures ReadFixed(s, p, n).cursor == p + n
    ensures ReadFixed(s, p, n).result.Ok? <==> p + n <= |s|
    ensures ReadFixed(s, p, n).result.Fail? ==> ReadFixed(s, p, n).result.error == EndOfBuffer
    ensures ReadFixed(s, p, n).result.Ok? ==> |ReadFixed(s, p, n).result.value| == n
  {
  }

  /** `string()` returns exactly the L bytes after the length, or fails with end_of_buffer. */
  lemma StringSuccess(s: seq<byte>, p: nat)
    ensures var st := ReadString(s, p); var len := ReadVarint(s, p);
      && (len.result.Fail? ==> st.result == Fail(len.result.error))
      && (len.result.Ok? ==>
            var n := ToUint32(len.result.value);
            && st.cursor == len.cursor + n
            && (st.result.Ok? <==> len.cursor + n <= |s|)
            && (st.result.Ok? ==> st.result.value == s[len.cursor..st.cursor])
            && (st.result.Fail? ==> st.result.error == EndOfBuffer))
  {
  }

  /**
   * A length-delimited string written as its varint length followed by its
   * bytes reads back as those bytes, and the cursor lands just past them.
   */
  lemma StringRoundTrip(pre: seq<byte>, b: seq<byte>, post: seq<byte>)
    requires |b| < TwoTo32
    ensures ReadString(pre + EncodeVarint(|b|) + b + post, |pre|)
      == Step(Ok(b), |pre| + |EncodeVarint(|b|)| + |b|)
  {
    var e := EncodeVarint(|b|);
    var s := pre + e + b + post;
    assert s == pre + e + (b + post);
    Pow2Facts();
    VarintRoundTrip(pre, |b|, b + post);
    assert s[|pre| + |e| .. |pre| + |e| + |b|] == b;
    StringAfterLength(s, |pre|, |b|, |pre| + |e|);
  }

  /** Once the length varint has been read, `string()` takes the next L bytes. */
  lemma StringAfterLength(s: seq<byte>, p: nat, n: nat, q: nat)
    requires ReadVarint(s, p) == Step(Ok(n), q) && n < TwoTo32 && q + n <= |s|
    ensures ReadString(s, p) == Step(Ok(s[q..q + n]), q + n)
  {
  }

  /** Every reader: the cursor never moves backwards; success never leaves it past the end. */
  lemma SkipValueCursor(s: seq<byte>, p: nat, v: uint32)
    ensures var st := SkipValueAt(s, p, v);
      && p <= st.cursor
      && (st.result.Ok? ==> st.cursor <= |s|)
  {
    VarintCursor(s, p);
    VarintSuccess(s, p);
  }

  lemma StringCursor(s: seq<byte>, p: nat)
    ensures var st := ReadString(s, p);
      && p <= st.cursor
      && (st.result.Ok? ==> st.cursor <= |s|)
  {
    VarintCursor(s, p);
  }

  /** `skipValue` by wire type: which types are known, and what each consumes. */
  lemma SkipValueDispatch(s: seq<byte>, p: nat, v: uint32)
    ensures var st := SkipValueAt(s, p, v);
      && (v % 8 !in {0, 1, 2, 5} <==> st.result == Fail(UnknownFieldType))
      && (v % 8 == 0 ==> st.cursor == ReadVarint(s, p).cursor
                         && (st.result.Ok? <==> ReadVarint(s, p).result.Ok?))
      && (v % 8 == 1 ==> st == SkipBytesAt(s, p, 8))
      && (v % 8 == 5 ==> st == SkipBytesAt(s, p, 4))
      && (v % 8 == 2 ==> (st.result.Ok? <==> ReadString(s, p).result.Ok?)
                         && st.cursor == ReadString(s, p).cursor)
  {
  }

  /** A field key written as (field << 3) | wire type decodes to that tag and wire type. */
  lemma KeyRoundTrip(pre: seq<byte>, field: nat, wireType: nat, post: seq<byte>)
    requires wireType < 8 && field * 8 + wireType < TwoTo32
    ensures var st := ReadVarint(pre + EncodeVarint(field * 8 + wireType) + post, |pre|);
      && st.result.Ok?
      && ToUint32(st.result.value) / 8 == field
      && ToUint32(st.result.value) % 8 == wireType
  {
    var key := field * 8 + wireType;
    Pow2Facts();
    VarintRoundTrip(pre, key, post);
    KeySplit(field, wireType);
  }

  /** The arithmetic of a key that fits 32 bits: truncation keeps it, and it splits back. */
  lemma KeySplit(field: nat, wireType: nat)
    requires wireType < 8 && field * 8 + wireType < TwoTo32
    ensures ToUint32(field * 8 + wireType) / 8 == field && ToUint32(field * 8 + wireType) % 8 == wireType
  {
  }

  // ---------------------------------------------------------------------------
  // The reader
  // ---------------------------------------------------------------------------

  class Pbf {
    /** The memory the caller's pointer refers to; the reader may use [0, end). */
    const buffer: seq<byte>
    /** The cursor, `data` in the source, as an offset from where it started. */
    var data: nat
    const end: nat
    var value: uint32
    var tag: uint32

    ghost predicate Valid() {
      end <= |buffer|
    }

    /** The bytes the reader may look at; nothing past `end` is ever read. */
    function Bytes(): (s: seq<byte>)
      requires Valid()
      ensures |s| == end
    {
      buffer[..end]
    }

    /** `pbf(data, length)`: the caller's buffer must hold `length` bytes. */
    constructor (bytes: seq<byte>, length: nat)
      requires length <= |bytes|
      ensures Valid() && buffer == bytes && end == length && data == 0
    {
      buffer := bytes;
      end := length;
      data := 0;
    }

    method Varint() returns (r: Result<nat>)
      requires Valid()
      modifies this`data
      ensures ReadVarint(Bytes(), old(data)) == Step(r, data)
    {
      ghost var s := Bytes();
      ghost var p := data;
      ghost var n: nat := 0;  // the bytes read so far
      var current: byte := 0x80;
      var result: nat := 0;
      var bitpos: nat := 0;
      while bitpos < 70 && Continues(current)
        invariant n <= MaxVarintBytes && data == p + n && bitpos == 7 * n
        invariant n > 0 ==> p + n <= end && current == s[p + n - 1]
        invariant n == 0 ==> current == 0x80
        invariant result == if n == 0 then 0 else Groups(s[p..p + n])
        invariant VarintExtent(s, p, 0) ==
          if Continues(current) then VarintExtent(s, p, n) else Step(Ok(p + n), p + n)
      {
        if data >= end {
          return Fail(UnterminatedVarint);
        }
        var b := buffer[data];
        assert b == s[p + n] == s[p + (n + 1) - 1];
        ExtentStep(s, p, n);
        // The seven new bits lie above every bit set so far, so or-ing them
        // into `result` adds them.
        AccumulateGroup(s, p, n, result, b, bitpos);
        result := result + Low7(b) * Pow2(bitpos);
        current := b;
        data := data + 1;
        bitpos := bitpos + 7;
        n := n + 1;
      }
      if bitpos == 70 && Continues(current) {
        return Fail(VarintTooLong);
      }
      return Ok(result);
    }

    /** `svarint()`: a varint, ZigZag-decoded. */
    method Svarint() returns (r: Result<int>)
      requires Valid()
      modifies this`data
      ensures var st := ReadVarint(Bytes(), old(data));
        && data == st.cursor
        && r == if st.result.Ok? then Ok(ZigZagDecode(st.result.value)) else Fail(st.result.error)
    {
      var n := Varint();
      if n.Fail? {
        return Fail(n.error);
      }
      r := Ok(ZigZagDecode(n.value));
    }

    /**
     * `next()`: false at the end of the range, touching nothing; otherwise
     * one varint key into `value` and its field number into `tag`.
     */
    method Next() returns (r: Result<bool>)
      requires Valid()
      modifies this`data, this`value, this`tag
      ensures old(data) >= end ==>
        r == Ok(false) && data == old(data) && value == old(value) && tag == old(tag)
      ensures old(data) < end ==>
        var st := ReadVarint(Bytes(), old(data));
        && data == st.cursor
        && (st.result.Ok? ==>
              r == Ok(true) && value == ToUint32(st.result.value) && tag == value / 8)
        && (st.result.Fail? ==>
              r == Fail(st.result.error) && value == old(value) && tag == old(tag))
    {
      if data < end {
        var v := Varint();
        if v.Fail? {
          return Fail(v.error);
        }
        value := ToUint32(v.value);
        tag := value / 8;
        return Ok(true);
      }
      return Ok(false);
    }

    method SkipBytes(bytes: uint32) returns (r: Result<()>)
      requires Valid()
      modifies this`data
      ensures SkipBytesAt(Bytes(), old(data), bytes) == Step(r, data)
    {
      data := data + bytes;
      if data > end {
        return Fail(EndOfBuffer);
      }
      return Ok(());
    }

    method String() returns (r: Result<seq<byte>>)
      requires Valid()
      modifies this`data
      ensures ReadString(Bytes(), old(data)) == Step(r, data)
    {
      var len := Varint();
      if len.Fail? {
        return Fail(len.error);
      }
      var bytes := ToUint32(len.value);
      var start := data;
      var sk := SkipBytes(bytes);
      if sk.Fail? {
        return Fail(sk.error);
      }
      assert buffer[start..start + bytes] == Bytes()[start..start + bytes];
      return Ok(buffer[start..start + bytes]);
    }

    /** Shared by float32, float64 and boolean: skip n bytes, yield them raw. */
    method Fixed(n: uint32) returns (r: Result<seq<byte>>)
      requires Valid()
      modifies this`data
      ensures ReadFixed(Bytes(), old(data), n) == Step(r, data)
    {
      var sk := SkipBytes(n);
      if sk.Fail? {
        return Fail(sk.error);
      }
      assert buffer[data - n..data] == Bytes()[data - n..data];
      return Ok(buffer[data - n..data]);
    }

    method Float32() returns (r: Result<seq<byte>>)
      requires Valid()
      modifies this`data
      ensures ReadFixed(Bytes(), old(data), 4) == Step(r, data)
    {
      r := Fixed(4);
    }

    method Float64() returns (r: Result<seq<byte>>)
      requires Valid()
      modifies this`data
      ensures ReadFixed(Bytes(), old(data), 8) == Step(r, data)
    {
      r := Fixed(8);
    }

    method Boolean() returns (r: Result<seq<byte>>)
      requires Valid()
      modifies this`data
      ensures ReadFixed(Bytes(), old(data), 1) == Step(r, data)
    {
      r := Fixed(1);
    }

    method SkipValue(val: uint32) returns (r: Result<()>)
      requires Valid()
      modifies this`data
      ensures SkipValueAt(Bytes(), old(data), val) == Step(r, data)
    {
      match val % 8
      case 0 =>
        var v := Varint();
        r := if v.Fail? then Fail(v.error) else Ok(());
      case 1 =>
        r := SkipBytes(8);
      case 2 =>
        var len := Varint();
        if len.Fail? {
          return Fail(len.error);
        }
        r := SkipBytes(ToUint32(len.value));
      case 5 =>
        r := SkipBytes(4);
      case _ =>
        r := Fail(UnknownFieldType);
    }

    /** `skip()`: skip the value of the field whose key `next()` last read. */
    method Skip() returns (r: Result<()>)
      requires Valid()
      modifies this`data
      ensures SkipValueAt(Bytes(), old(data), value) == Step(r, data)
    {
      r := SkipValue(value);
    }
  }
}
