/**
 * Network byte order ("big-endian", Appendix B of RFC 791): the 16- and
 * 32-bit wrappers of the IP stack and the iterator that reads them out of a
 * byte buffer. Integer widths are subset types of `int`; every truncation
 * and wrap-around of the C++ is written out.
 */
module NetTypes {
  type byte = x: int | 0 <= x < 0x100
  type u16 = x: int | 0 <= x < 0x1_0000
  type u32 = x: int | 0 <= x < 0x1_0000_0000

  // ---------------------------------------------------------------------------
  // ns16_t
  // ---------------------------------------------------------------------------

  /** A 16-bit value stored as two bytes, the most significant first. */
  datatype NS16 = NS16(b0: byte, b1: byte)

  /** `operator u16_t`: the value the two bytes stand for. */
  function ToU16(h: NS16): u16 {
    h.b0 * 0x100 + h.b1
  }

  /** The high byte and the low byte are read back from the value. */
  lemma ToU16Bytes(h: NS16)
    ensures ToU16(h) / 0x100 == h.b0 && ToU16(h) % 0x100 == h.b1
  {
  }

  /** `operator= (u16_t)` and `convert`: the high byte first, then the low byte. */
  function FromU16(i: u16): (h: NS16)
    ensures h.b0 * 0x100 + h.b1 == i
  {
    NS16((i / 0x100) % 0x100, i % 0x100)
  }

  /** `operator[]`: the index is cut to a byte, then to its lowest bit. */
  function At(h: NS16, i: int): (r: byte)
    ensures i % 2 == 0 ==> r == h.b0
    ensures i % 2 == 1 ==> r == h.b1
  {
    if (i % 0x100) % 2 == 0 then h.b0 else h.b1
  }

  /** Writing through `operator[]`. */
  function WithAt(h: NS16, i: int, b: byte): (r: NS16)
    ensures At(r, i) == b && At(r, i + 1) == At(h, i + 1)
  {
    if (i % 0x100) % 2 == 0 then h.(b0 := b) else h.(b1 := b)
  }

  /** `compare (ns16_t)`: the two bytes compared as one stored 16-bit word. */
  function SameBytes(a: NS16, b: NS16): (r: bool)
    ensures r <==> ToU16(a) == ToU16(b)
  {
    ToU16Bytes(a);
    ToU16Bytes(b);
    a == b
  }

  /** `compare (u16_t)`: each byte against the matching byte of `i`. */
  function MatchesU16(h: NS16, i: u16): (r: bool)
    ensures r <==> ToU16(h) == i
  {
    ToU16Bytes(h);
    h.b0 == (i / 0x100) % 0x100 && h.b1 == i % 0x100
  }

  lemma NS16RoundTrip(i: u16, h: NS16)
    ensures ToU16(FromU16(i)) == i
    ensures FromU16(ToU16(h)) == h
  {
    ToU16Bytes(h);
  }

  // ---------------------------------------------------------------------------
  // ns32_t, on its four bytes
  // ---------------------------------------------------------------------------

  const TwoTo32: int := 0x1_0000_0000

  /** `operator u32_t`: the four bytes, most significant first. */
  function BigEndian32(bs: seq<byte>): (r: u32)
    requires |bs| == 4
  {
    var b0: int, b1: int, b2: int, b3: int := bs[0], bs[1], bs[2], bs[3];
    ((b0 * 0x100 + b1) * 0x100 + b2) * 0x100 + b3
  }

  /**
   * `operator= (u32_t)` as written: the value is shifted LEFT between the
   * byte stores, so every byte but the last is stored as zero.
   */
  function ShiftedBytes(i: u32): (r: seq<byte>)
    ensures r == [0, 0, 0, i % 0x100]
  {
    var i1 := (i * 0x100) % TwoTo32;
    var i2 := (i1 * 0x100) % TwoTo32;
    var i3 := (i2 * 0x100) % TwoTo32;
    ShiftClearsLowByte(i);
    ShiftClearsLowByte(i1);
    ShiftClearsLowByte(i2);
    [i3 % 0x100, i2 % 0x100, i1 % 0x100, i % 0x100]
  }

  /** A left shift by one byte, cut to 32 bits, leaves a zero low byte. */
  lemma ShiftClearsLowByte(x: int)
    ensures ((x * 0x100) % TwoTo32) % 0x100 == 0
  {
    var q := (x * 0x100) / TwoTo32;
    var m := (x * 0x100) % TwoTo32;
    assert x * 0x100 == q * TwoTo32 + m;
    var z := x - q * 0x100_0000;
    assert m == z * 0x100;
  }

  /** The assignment loses every value of two or more bytes: 0x01020304 reads back as 4. */
  lemma ShiftedAssignLosesHighBytes()
    ensures BigEndian32(ShiftedBytes(0x0102_0304)) == 4
    ensures exists i: u32 :: BigEndian32(ShiftedBytes(i)) != i
  {
    assert BigEndian32(ShiftedBytes(0x0102_0304)) != 0x0102_0304;
  }

  /** `operator= (u32_t)` as evidently intended: shifts to the RIGHT. */
  function BigEndianBytes(i: u32): (r: seq<byte>)
    ensures |r| == 4
  {
    var v1 := i / 0x100;
    var v2 := v1 / 0x100;
    var v3 := v2 / 0x100;
    [v3 % 0x100, v2 % 0x100, v1 % 0x100, i % 0x100]
  }

  /** The corrected assignment and `operator u32_t` are inverse to each other. */
  lemma BigEndianRoundTrip(i: u32, bs: seq<byte>)
    requires |bs| == 4
    ensures BigEndian32(BigEndianBytes(i)) == i
    ensures BigEndianBytes(BigEndian32(bs)) == bs
  {
    var v1 := i / 0x100;
    var v2 := v1 / 0x100;
    var v3 := v2 / 0x100;
    assert i == v1 * 0x100 + i % 0x100;
    assert v1 == v2 * 0x100 + v1 % 0x100;
    assert v2 == v3 * 0x100 + v2 % 0x100;
    assert v3 < 0x100;
    var b0: int, b1: int, b2: int, b3: int := bs[0], bs[1], bs[2], bs[3];
    var w1 := (b0 * 0x100 + b1) * 0x100 + b2;
    var w := w1 * 0x100 + b3;
    assert w / 0x100 == w1 && w % 0x100 == b3;
    assert w1 / 0x100 == b0 * 0x100 + b1 && w1 % 0x100 == b2;
    assert (b0 * 0x100 + b1) / 0x100 == b0 && (b0 * 0x100 + b1) % 0x100 == b1;
  }

  /** Two byte sequences are equal exactly when their values are. */
  lemma BigEndianInjective(a: seq<byte>, b: seq<byte>)
    requires |a| == 4 && |b| == 4
    ensures a == b <==> BigEndian32(a) == BigEndian32(b)
  {
    BigEndianRoundTrip(0, a);
    BigEndianRoundTrip(0, b);
  }

  /** `operator++`: the carry ripples from the last byte; a carry out of the first is lost. */
  function Incremented(bs: seq<byte>): (r: seq<byte>)
    requires |bs| == 4
    ensures |r| == 4 && BigEndian32(r) == (BigEndian32(bs) + 1) % TwoTo32
  {
    if bs[3] < 0xFF then [bs[0], bs[1], bs[2], bs[3] + 1]
    else if bs[2] < 0xFF then [bs[0], bs[1], bs[2] + 1, 0]
    else if bs[1] < 0xFF then [bs[0], bs[1] + 1, 0, 0]
    else [(bs[0] as int + 1) % 0x100, 0, 0, 0]
  }

  /** `operator+=`: byte-wise addition from the last byte with carry; the final carry is lost. */
  function AddBytes(a: seq<byte>, b: seq<byte>): (r: seq<byte>)
    requires |a| == 4 && |b| == 4
    ensures |r| == 4
  {
    var s3: int := a[3] as int + b[3];
    var s2: int := s3 / 0x100 + a[2] + b[2];
    var s1: int := s2 / 0x100 + a[1] + b[1];
    var s0: int := s1 / 0x100 + a[0] + b[0];
    [s0 % 0x100, s1 % 0x100, s2 % 0x100, s3 % 0x100]
  }

  /** The byte-wise addition is addition modulo 2^32. */
  lemma AddBytesIsModularSum(a: seq<byte>, b: seq<byte>)
    requires |a| == 4 && |b| == 4
    ensures BigEndian32(AddBytes(a, b)) == (BigEndian32(a) + BigEndian32(b)) % TwoTo32
  {
    var s3: int := a[3] as int + b[3];
    SmallCarry(s3);
    var c3, r3 := s3 / 0x100, s3 % 0x100;
    var s2: int := c3 + a[2] + b[2];
    SmallCarry(s2);
    var c2, r2 := s2 / 0x100, s2 % 0x100;
    var s1: int := c2 + a[1] + b[1];
    SmallCarry(s1);
    var c1, r1 := s1 / 0x100, s1 % 0x100;
    var s0: int := c1 + a[0] + b[0];
    SmallCarry(s0);
    var c0, r0 := s0 / 0x100, s0 % 0x100;
    assert AddBytes(a, b) == [r0, r1, r2, r3];
    CarryChain(a[0], a[1], a[2], a[3], b[0], b[1], b[2], b[3], c0, c1, c2, c3, r0, r1, r2, r3);
  }

  /** A digit sum with carry in is below 0x200: its carry out is 0 or 1. */
  lemma SmallCarry(s: int)
    requires 0 <= s < 0x200
    ensures s == (s / 0x100) * 0x100 + s % 0x100 && 0 <= s / 0x100 <= 1 && 0 <= s % 0x100 < 0x100
  {
  }

  /** The carry equations of a four-digit base-256 addition. */
  lemma CarryChain(a0: int, a1: int, a2: int, a3: int, b0: int, b1: int, b2: int, b3: int,
                   c0: int, c1: int, c2: int, c3: int, r0: byte, r1: byte, r2: byte, r3: byte)
    requires 0 <= a0 < 0x100 && 0 <= b0 < 0x100 && 0 <= c1 <= 1
    requires a3 + b3 == c3 * 0x100 + r3
    requires c3 + a2 + b2 == c2 * 0x100 + r2
    requires c2 + a1 + b1 == c1 * 0x100 + r1
    requires c1 + a0 + b0 == c0 * 0x100 + r0
    ensures ((((a0 * 0x100 + a1) * 0x100 + a2) * 0x100 + a3) + (((b0 * 0x100 + b1) * 0x100 + b2) * 0x100 + b3)) % TwoTo32
         == ((r0 * 0x100 + r1) * 0x100 + r2) * 0x100 + r3
  {
    var low := ((r0 * 0x100 + r1) * 0x100 + r2) * 0x100 + r3;
    var total := (((a0 * 0x100 + a1) * 0x100 + a2) * 0x100 + a3) + (((b0 * 0x100 + b1) * 0x100 + b2) * 0x100 + b3);
    assert total == c0 * TwoTo32 + low;
    assert 0 <= low < TwoTo32;
    assert 0 <= c0 <= 1;
    if c0 == 1 {
      assert total - TwoTo32 == low;
    }
  }

  /** `operator<`: lexicographic on the bytes, most significant first. */
  function LessBytes(a: seq<byte>, b: seq<byte>): (r: bool)
    requires |a| == 4 && |b| == 4
    ensures r <==> BigEndian32(a) < BigEndian32(b)
  {
    a[0] < b[0] || (a[0] == b[0] && (a[1] < b[1] || (a[1] == b[1] && (a[2] < b[2] || (a[2] == b[2] && a[3] < b[3])))))
  }

  /** `hi()` and `lo()` are the two halves of the value. */
  lemma HalvesMakeTheWhole(bs: seq<byte>)
    requires |bs| == 4
    ensures BigEndian32(bs) == ToU16(NS16(bs[0], bs[1])) * 0x1_0000 + ToU16(NS16(bs[2], bs[3]))
  {
  }

  // ---------------------------------------------------------------------------
  // BufferIterator (with the field readers of IP_BufferIterator)
  // ---------------------------------------------------------------------------

  /**
   * A read position in the memory `data` and the end of the readable part.
   * Nothing stops the position from passing the end; bytes are read from
   * the memory wherever the position is, as the C++ does.
   */
  class BufferIterator {
    const data: seq<byte>
    const end: u16
    var ptr: nat

    /** `BufferIterator (buffer, length)`: at the start, `length` bytes readable. */
    constructor (data: seq<byte>, length: u16)
      ensures this.data == data && end == length && ptr == 0
    {
      this.data := data;
      end := length;
      ptr := 0;
    }

    /** `remaining ()`: the pointer difference cut to 16 bits. */
    function Remaining(): (r: u16)
      reads this
      ensures ptr <= end ==> r == end - ptr
      ensures end < ptr && ptr - end <= 0x1_0000 ==> r == 0x1_0000 - (ptr - end)
    {
      (end - ptr) % 0x1_0000
    }

    /** `operator*`: the byte at the position. */
    function Current(): byte
      reads this
      requires ptr < |data|
    {
      data[ptr]
    }

    /** `operator++`. */
    method Next()
      modifies this
      ensures ptr == old(ptr) + 1
    {
      ptr := ptr + 1;
    }

    /** `operator+= (count)`. */
    method Advance(count: u16)
      modifies this
      ensures ptr == old(ptr) + count
    {
      ptr := ptr + count;
    }

    /** `IP_BufferIterator::ns16`: copy two bytes into a 16-bit value and step over them. */
    method ReadNS16() returns (value: NS16)
      requires ptr + 2 <= |data|
      modifies this
      ensures value == NS16(data[old(ptr)], data[old(ptr) + 1]) && ptr == old(ptr) + 2
    {
      value := NS16(data[ptr], data[ptr + 1]);
      Next();
      Next();
    }
  }

  // ---------------------------------------------------------------------------
  // ns32_t
  // ---------------------------------------------------------------------------

  /** A 32-bit value stored as four bytes, most significant first. */
  class NS32 {
    var bytes: array<byte>

    ghost predicate Valid()
      reads this
    {
      bytes.Length == 4
    }

    /** `ns32_t ()`: zero. */
    constructor ()
      ensures Valid() && fresh(bytes) && bytes[..] == [0, 0, 0, 0]
    {
      bytes := new byte[4](_ => 0);
      new;
      assert bytes[..] == [0, 0, 0, 0];
    }

    /** `ns32_t (int)`: the integer cut to 32 bits, then stored by the assignment as written. */
    constructor FromInt(i: int)
      ensures Valid() && fresh(bytes) && bytes[..] == ShiftedBytes(i % TwoTo32)
    {
      bytes := new byte[4](_ => 0);
      new;
      AssignAsWritten(i % TwoTo32);
    }

    /** `operator u32_t`. */
    function Value(): u32
      reads this, bytes
      requires Valid()
    {
      BigEndian32(bytes[..])
    }

    /** `operator= (u32_t)` as written. */
    method AssignAsWritten(i: u32)
      requires Valid()
      modifies bytes
      ensures bytes[..] == ShiftedBytes(i)
    {
      var v := i;
      bytes[3] := v % 0x100;
      v := (v * 0x100) % TwoTo32;
      bytes[2] := v % 0x100;
      v := (v * 0x100) % TwoTo32;
      bytes[1] := v % 0x100;
      v := (v * 0x100) % TwoTo32;
      bytes[0] := v % 0x100;
    }

    /** `operator= (u32_t)` as evidently intended. */
    method Assign(i: u32)
      requires Valid()
      modifies bytes
      ensures bytes[..] == BigEndianBytes(i) && Value() == i
    {
      var v := i;
      bytes[3] := v % 0x100;
      v := v / 0x100;
      bytes[2] := v % 0x100;
      v := v / 0x100;
      bytes[1] := v % 0x100;
      v := v / 0x100;
      bytes[0] := v % 0x100;
      BigEndianRoundTrip(i, bytes[..]);
    }

    /** `operator= (BufferIterator)`: the four bytes at the iterator's position. */
    method AssignFrom(it: BufferIterator)
      requires Valid() && it.ptr + 4 <= |it.data|
      modifies bytes
      ensures bytes[..] == it.data[it.ptr..it.ptr + 4]
    {
      var p := it.ptr;
      bytes[0] := it.data[p];
      bytes[1] := it.data[p + 1];
      bytes[2] := it.data[p + 2];
      bytes[3] := it.data[p + 3];
    }

    /** `operator[] (u8_t)`: the index is masked to two bits. */
    function At(i: byte): (r: byte)
      reads this, bytes
      requires Valid()
      ensures r == bytes[i % 4]
    {
      bytes[i % 4]  // `i & 0x03`
    }

    /** Writing through `operator[]`. */
    method SetAt(i: byte, b: byte)
      requires Valid()
      modifies bytes
      ensures bytes[..] == old(bytes[..])[i % 4 := b]
    {
      bytes[i % 4] := b;  // `i & 0x03`
    }

    /** `hi ()`: the most significant half. */
    function Hi(): NS16
      reads this, bytes
      requires Valid()
    {
      NS16(bytes[0], bytes[1])
    }

    /** `lo ()`: the least significant half. */
    function Lo(): NS16
      reads this, bytes
      requires Valid()
    {
      NS16(bytes[2], bytes[3])
    }

    /** `operator++`. */
    method Increment()
      requires Valid()
      modifies bytes
      ensures bytes[..] == Incremented(old(bytes[..]))
      ensures Value() == (old(Value()) + 1) % TwoTo32
    {
      bytes[3] := (bytes[3] as int + 1) % 0x100;
      if bytes[3] == 0 {
        bytes[2] := (bytes[2] as int + 1) % 0x100;
        if bytes[2] == 0 {
          bytes[1] := (bytes[1] as int + 1) % 0x100;
          if bytes[1] == 0 {
            bytes[0] := (bytes[0] as int + 1) % 0x100;  // carry loss
          }
        }
      }
    }

    /**
     * `operator+=`: `rhs` may be this very value; every byte of it is read
     * before the same byte is written, so `x += x` doubles `x`.
     */
    method AddAssign(rhs: NS32)
      requires Valid() && rhs.Valid()
      modifies bytes
      ensures bytes[..] == AddBytes(old(bytes[..]), old(rhs.bytes[..]))
      ensures Value() == (old(Value()) + old(rhs.Value())) % TwoTo32
    {
      ghost var a, b := bytes[..], rhs.bytes[..];
      ghost var s3: int := a[3] as int + b[3];
      ghost var s2: int := s3 / 0x100 + a[2] + b[2];
      ghost var s1: int := s2 / 0x100 + a[1] + b[1];
      ghost var s0: int := s1 / 0x100 + a[0] + b[0];
      assert AddBytes(a, b) == [s0 % 0x100, s1 % 0x100, s2 % 0x100, s3 % 0x100];
      var sum: int := bytes[3] as int + rhs.bytes[3];
      bytes[3] := sum % 0x100;
      assert bytes[2] == a[2] && rhs.bytes[2] == b[2];
      sum := sum / 0x100 + bytes[2] + rhs.bytes[2];
      assert sum == s2;
      bytes[2] := sum % 0x100;
      assert bytes[1] == a[1] && rhs.bytes[1] == b[1];
      sum := sum / 0x100 + bytes[1] + rhs.bytes[1];
      assert sum == s1;
      bytes[1] := sum % 0x100;
      assert bytes[0] == a[0] && rhs.bytes[0] == b[0];
      sum := sum / 0x100 + bytes[0] + rhs.bytes[0];
      assert sum == s0;
      bytes[0] := sum % 0x100;  // carry loss
      assert bytes[..] == [s0 % 0x100, s1 % 0x100, s2 % 0x100, s3 % 0x100];
      AddBytesIsModularSum(a, b);
    }

    /** `operator==`: the four bytes compared as one stored word. */
    function Equals(rhs: NS32): (r: bool)
      reads this, bytes, rhs, rhs.bytes
      requires Valid() && rhs.Valid()
      ensures r <==> Value() == rhs.Value()
    {
      BigEndianInjective(bytes[..], rhs.bytes[..]);
      bytes[..] == rhs.bytes[..]
    }

    /** `operator<`. */
    function Less(rhs: NS32): (r: bool)
      reads this, bytes, rhs, rhs.bytes
      requires Valid() && rhs.Valid()
      ensures r <==> Value() < rhs.Value()
    {
      LessBytes(bytes[..], rhs.bytes[..])
    }
  }
}
