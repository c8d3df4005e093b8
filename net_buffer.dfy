/**
 * `IP_Buffer`: a fixed-capacity byte array with a fill length, filled by
 * all-or-nothing appends, read back through an iterator, and summed into a
 * `Check16` as 16-bit big-endian words by `check`.
 */
module NetBuffer {
  import opened Options
  import opened NetTypes
  import opened NetCheck

  // ---------------------------------------------------------------------------
  // The words fed to the checksum
  // ---------------------------------------------------------------------------

  /** The big-endian word at byte `i`. */
  function WordAt(mem: seq<byte>, i: nat): u16
    requires i + 1 < |mem|
  {
    ToU16(NS16(mem[i], mem[i + 1]))
  }

  /** `n` consecutive words from byte `from`. */
  function Words(mem: seq<byte>, from: nat, n: nat): (r: seq<u16>)
    requires from + 2 * n <= |mem|
    ensures |r| == n && forall k :: 0 <= k < n ==> r[k] == WordAt(mem, from + 2 * k)
    decreases n
  {
    if n == 0 then [] else Words(mem, from, n - 1) + [WordAt(mem, from + 2 * (n - 1))]
  }

  /**
   * Section 4.1 of RFC 1071: adjacent bytes are paired into big-endian
   * words, and an odd last byte is padded with a zero byte.
   */
  function Rfc1071Words(bs: seq<byte>): (r: seq<u16>)
    ensures |r| == (|bs| + 1) / 2
    ensures forall k :: 0 <= k < |r| ==>
      r[k] == if 2 * k + 1 < |bs| then ToU16(NS16(bs[2 * k], bs[2 * k + 1])) else ToU16(NS16(bs[2 * k], 0))
    decreases |bs|
  {
    if |bs| == 0 then []
    else if |bs| == 1 then [ToU16(NS16(bs[0], 0))]
    else [ToU16(NS16(bs[0], bs[1]))] + Rfc1071Words(bs[2..])
  }

  /** The guards of `check`: the range must fit the data, and offset and length must be even. */
  predicate CheckGuards(len: u16, offset: u16, length: u16) {
    offset + length <= len && offset % 2 == 0 && length % 2 == 0
  }

  /** What `check` as written reads stays inside the array of `cap` bytes. */
  predicate ReadsStayInArray(cap: nat, len: u16, offset: u16, length: u16) {
    CheckGuards(len, offset, length) && length != 0 ==> offset + 2 * length <= cap
  }

  /**
   * The words `check` feeds, as written: `length` is guarded as a byte
   * count but the loop runs `length` times, taking two bytes each time.
   * With `length == 0` the words run to the end of the data, an odd last
   * byte padded.
   */
  function CheckedWordsAsWritten(mem: seq<byte>, len: u16, offset: u16, length: u16): (r: seq<u16>)
    requires len <= |mem| && ReadsStayInArray(|mem|, len, offset, length)
    ensures !CheckGuards(len, offset, length) ==> r == []
    ensures CheckGuards(len, offset, length) && length != 0 ==>
      |r| == length && forall k :: 0 <= k < length ==> r[k] == WordAt(mem, offset + 2 * k)
    ensures CheckGuards(len, offset, length) && length == 0 ==> |r| == (len - offset + 1) / 2
  {
    if !CheckGuards(len, offset, length) then []
    else if length != 0 then Words(mem, offset, length)
    else RemainingWords(mem, offset, len)
  }

  /** The words `check` evidently means to feed: `length` bytes, that is `length / 2` words. */
  function CheckedWords(mem: seq<byte>, len: u16, offset: u16, length: u16): (r: seq<u16>)
    requires len <= |mem|
    ensures !CheckGuards(len, offset, length) ==> r == []
    ensures CheckGuards(len, offset, length) && length != 0 ==>
      |r| == length / 2 && forall k :: 0 <= k < length / 2 ==> r[k] == WordAt(mem, offset + 2 * k)
    ensures CheckGuards(len, offset, length) && length == 0 ==> |r| == (len - offset + 1) / 2
  {
    if !CheckGuards(len, offset, length) then []
    else if length != 0 then Words(mem, offset, length / 2)
    else RemainingWords(mem, offset, len)
  }

  /**
   * The corrected words are those of RFC 1071 for the requested range of
   * the data: `length` bytes from `offset`, or everything from `offset`
   * when `length` is zero.
   */
  lemma CheckedWordsAreRfc1071(mem: seq<byte>, len: u16, offset: u16, length: u16)
    requires len <= |mem| && CheckGuards(len, offset, length)
    ensures var stop := if length == 0 then len as int else offset + length;
      CheckedWords(mem, len, offset, length) == Rfc1071Words(mem[offset..stop])
  {
    if length == 0 {
      RangeIsRfc1071(mem, offset, len);
    } else {
      HalfOf(length, length / 2, 0);
      RangeIsRfc1071(mem, offset, offset + length);
      assert RemainingWords(mem, offset, offset + length) == Words(mem, offset, length / 2) + [];
    }
  }

  /** The words of the byte range `from` to `stop`, an odd last byte padded with zero. */
  function RemainingWords(mem: seq<byte>, from: nat, stop: nat): seq<u16>
    requires from <= stop <= |mem|
  {
    Words(mem, from, (stop - from) / 2) + (if (stop - from) % 2 == 1 then [ToU16(NS16(mem[stop - 1], 0))] else [])
  }

  lemma RangeIsRfc1071(mem: seq<byte>, from: nat, stop: nat)
    requires from <= stop <= |mem|
    ensures RemainingWords(mem, from, stop) == Rfc1071Words(mem[from..stop])
  {
    var bs := mem[from..stop];
    var h := (stop - from) / 2;
    HalfOf(stop - from, h, (stop - from) % 2);
    var ws := Words(mem, from, h);
    var r := RemainingWords(mem, from, stop);
    var e := Rfc1071Words(bs);
    assert |r| == |e|;
    forall k | 0 <= k < |r|
      ensures r[k] == e[k]
    {
      if k < h {
        assert r[k] == ws[k] == WordAt(mem, from + 2 * k);
        assert bs[2 * k] == mem[from + 2 * k] && bs[2 * k + 1] == mem[from + 2 * k + 1];
      } else {
        assert bs[2 * k] == mem[stop - 1];
      }
    }
  }

  /** So the corrected `check` sees only the filled part of the buffer. */
  lemma CheckedWordsSeeOnlyTheData(m1: seq<byte>, m2: seq<byte>, len: u16, offset: u16, length: u16)
    requires len <= |m1| && len <= |m2| && m1[..len] == m2[..len]
    ensures CheckedWords(m1, len, offset, length) == CheckedWords(m2, len, offset, length)
  {
    if CheckGuards(len, offset, length) {
      var n := if length != 0 then length / 2 else (len - offset) / 2;
      WordsAgree(m1, m2, len, offset, n);
      if length == 0 && (len - offset) % 2 == 1 {
        assert m1[len - 1] == m1[..len][len - 1] == m2[..len][len - 1] == m2[len - 1];
      }
    }
  }

  lemma WordsAgree(m1: seq<byte>, m2: seq<byte>, len: nat, from: nat, n: nat)
    requires len <= |m1| && len <= |m2| && m1[..len] == m2[..len] && from + 2 * n <= len
    ensures Words(m1, from, n) == Words(m2, from, n)
  {
    forall k | 0 <= k < n
      ensures Words(m1, from, n)[k] == Words(m2, from, n)[k]
    {
      var i := from + 2 * k;
      assert m1[i] == m1[..len][i] == m2[..len][i] == m2[i];
      assert m1[i + 1] == m1[..len][i + 1] == m2[..len][i + 1] == m2[i + 1];
    }
  }

  /**
   * As written, `check (c, 0, 4)` on four bytes of data reads eight: two
   * buffers holding the same data but different stale bytes beyond it give
   * different words, while the corrected words agree.
   */
  lemma CheckReadsPastTheData()
    ensures var m1: seq<byte> := [1, 2, 3, 4, 5, 6, 7, 8];
            var m2: seq<byte> := [1, 2, 3, 4, 0, 0, 0, 0];
      && m1[..4] == m2[..4]
      && CheckedWordsAsWritten(m1, 4, 0, 4) == [0x0102, 0x0304, 0x0506, 0x0708]
      && CheckedWordsAsWritten(m2, 4, 0, 4) == [0x0102, 0x0304, 0, 0]
      && CheckedWords(m1, 4, 0, 4) == CheckedWords(m2, 4, 0, 4) == [0x0102, 0x0304]
  {
    var m1: seq<byte> := [1, 2, 3, 4, 5, 6, 7, 8];
    var m2: seq<byte> := [1, 2, 3, 4, 0, 0, 0, 0];
    WordsOfEight(m1);
    WordsOfEight(m2);
  }

  lemma WordsOfEight(m: seq<byte>)
    requires |m| == 8
    ensures CheckedWordsAsWritten(m, 4, 0, 4) == Words(m, 0, 4)
    ensures CheckedWords(m, 4, 0, 4) == Words(m, 0, 2)
    ensures Words(m, 0, 4) == [WordAt(m, 0), WordAt(m, 2), WordAt(m, 4), WordAt(m, 6)]
    ensures Words(m, 0, 2) == [WordAt(m, 0), WordAt(m, 2)]
  {
  }

  // ---------------------------------------------------------------------------
  // Accumulating words
  // ---------------------------------------------------------------------------

  /** The accumulator after adding the words one by one, each addition wrapping at 32 bits. */
  function AddAll(s: u32, ws: seq<u16>): u32
    decreases |ws|
  {
    if ws == [] then s else (AddAll(s, ws[..|ws| - 1]) + ws[|ws| - 1]) % TwoTo32
  }

  lemma AddAllSnoc(s: u32, ws: seq<u16>, w: u16)
    ensures AddAll(s, ws + [w]) == (AddAll(s, ws) + w) % TwoTo32
  {
    assert (ws + [w])[..|ws|] == ws;
  }

  /** One more word read and added keeps the accumulator at the sum of the words read so far. */
  lemma FedOneWord(s0: u32, mem: seq<byte>, p0: nat, k: nat, before: u32, w: u16, after: u32)
    requires p0 + 2 * (k + 1) <= |mem| && w == ToU16(NS16(mem[p0 + 2 * k], mem[p0 + 2 * k + 1]))
    requires before == AddAll(s0, Words(mem, p0, k)) && after == (before + w) % TwoTo32
    ensures after == AddAll(s0, Words(mem, p0, k + 1))
  {
    WordsSnoc(mem, p0, k);
    AddAllSnoc(s0, Words(mem, p0, k), w);
  }

  lemma WordsSnoc(mem: seq<byte>, from: nat, n: nat)
    requires from + 2 * (n + 1) <= |mem|
    ensures Words(mem, from, n + 1) == Words(mem, from, n) + [WordAt(mem, from + 2 * n)]
  {
  }

  function Sum(ws: seq<u16>): nat
    decreases |ws|
  {
    if ws == [] then 0 else Sum(ws[..|ws| - 1]) + ws[|ws| - 1]
  }

  /** Wrapping at every step is wrapping once at the end. */
  lemma {:induction false} AddAllIsSumModulo(s: u32, ws: seq<u16>)
    ensures AddAll(s, ws) == (s + Sum(ws)) % TwoTo32
    decreases |ws|
  {
    if ws != [] {
      var p := ws[..|ws| - 1];
      AddAllIsSumModulo(s, p);
      var x := s + Sum(p);
      var w := ws[|ws| - 1];
      assert x == (x / TwoTo32) * TwoTo32 + x % TwoTo32;
      ModOfShift(x / TwoTo32, x % TwoTo32 + w);
    }
  }

  lemma ModOfShift(q: nat, y: nat)
    ensures (q * TwoTo32 + y) % TwoTo32 == y % TwoTo32
  {
    var n := q * TwoTo32 + y;
    assert n == (q + y / TwoTo32) * TwoTo32 + y % TwoTo32;
  }

  /**
   * Ones-complement addition with end-around carry, word by word: the sum
   * section 4.1 of RFC 1071 defines.
   */
  function OnesComplementSum(ws: seq<u16>): u16
    decreases |ws|
  {
    if ws == [] then 0
    else
      var x: int := OnesComplementSum(ws[..|ws| - 1]) + ws[|ws| - 1];
      if x > 0xFFFF then x - 0xFFFF else x
  }

  /** The fold of `checksum` over the plain sum is ones-complement addition. */
  lemma {:induction false} FoldIsOnesComplementSum(ws: seq<u16>)
    ensures Fold(Sum(ws)) == OnesComplementSum(ws)
    decreases |ws|
  {
    if ws != [] {
      var p := ws[..|ws| - 1];
      FoldIsOnesComplementSum(p);
      OnesComplementStep(Sum(p), ws[|ws| - 1]);
    }
  }

  /** One end-around-carry addition onto the folded form of `a` gives the folded form of `a + w`. */
  lemma OnesComplementStep(a: nat, w: u16)
    ensures var x: int := Fold(a) as int + w;
      (if x > 0xFFFF then x - 0xFFFF else x) == Fold(a + w)
  {
    var r := a % 0xFFFF;
    assert a == (a / 0xFFFF) * 0xFFFF + r;
    ModAddMultiple(a / 0xFFFF, r + w);
    var x: int := Fold(a) as int + w;
    if r + w >= 0xFFFF {
      DivModUnique(r + w, 1, r + w - 0xFFFF);
    } else {
      DivModUnique(r + w, 0, r + w);
    }
    if a != 0 && r == 0 && w != 0 {
      assert x == 0xFFFF + w;
    }
  }

  /**
   * With a cleared accumulator and fewer than 0x10001 words (so no 32-bit
   * wrap), `checksum` yields the complement of the ones-complement sum.
   */
  lemma ChecksumOfWords(ws: seq<u16>)
    requires |ws| <= 0x1_0001
    ensures 0xFFFF - Fold(AddAll(0, ws)) == 0xFFFF - OnesComplementSum(ws)
  {
    AddAllIsSumModulo(0, ws);
    SumBound(ws);
    assert 0xFFFF * |ws| <= 0xFFFF * 0x1_0001;
    assert Sum(ws) < TwoTo32;
    assert AddAll(0, ws) == Sum(ws);
    FoldIsOnesComplementSum(ws);
  }

  lemma {:induction false} SumBound(ws: seq<u16>)
    ensures Sum(ws) <= 0xFFFF * |ws|
    decreases |ws|
  {
    if ws != [] {
      SumBound(ws[..|ws| - 1]);
    }
  }

  // ---------------------------------------------------------------------------
  // The buffer
  // ---------------------------------------------------------------------------

  class IPBuffer {
    /** `IP_Buffer_WordCount << 1`. */
    const capacity: nat
    var buffer: array<byte>
    var bufferLength: u16

    ghost predicate Valid()
      reads this
    {
      buffer.Length == capacity && bufferLength <= capacity <= 0xFFFF
    }

    /** The filled part. */
    function Contents(): seq<byte>
      reads this, buffer
      requires Valid()
    {
      buffer[..bufferLength]
    }

    /** `IP_Buffer ()` for a configured word count; the array's bytes are unspecified. */
    constructor (wordCount: nat, initial: seq<byte>)
      requires 2 * wordCount <= 0xFFFF && |initial| == 2 * wordCount
      ensures Valid() && capacity == 2 * wordCount && bufferLength == 0
      ensures fresh(buffer) && buffer[..] == initial
    {
      capacity := 2 * wordCount;
      buffer := new byte[2 * wordCount](k requires 0 <= k < 2 * wordCount => initial[k]);
      bufferLength := 0;
    }

    /** `clear`: the length drops to zero; the bytes stay. */
    method Clear()
      requires Valid()
      modifies this
      ensures Valid() && bufferLength == 0 && buffer == old(buffer)
    {
      bufferLength := 0;
    }

    /**
     * `append (ptr, length)`: with a non-null source, a non-zero length and
     * room for all of it, the bytes are copied after the data; otherwise
     * nothing changes. `None` is the null pointer.
     */
    method Append(src: Option<seq<byte>>, length: u16)
      requires Valid() && (src.Some? ==> length <= |src.value|)
      modifies this, buffer
      ensures Valid() && buffer == old(buffer)
      ensures src.Some? && length != 0 && old(bufferLength) + length <= capacity ==>
        && bufferLength == old(bufferLength) + length
        && buffer[..] == old(buffer[..])[..old(bufferLength)] + src.value[..length] + old(buffer[..])[old(bufferLength) + length..]
      ensures !(src.Some? && length != 0 && old(bufferLength) + length <= capacity) ==>
        bufferLength == old(bufferLength) && buffer[..] == old(buffer[..])
      ensures Contents() == if src.Some? && length != 0 && old(bufferLength) + length <= capacity
        then old(Contents()) + src.value[..length] else old(Contents())
    {
      if src.Some? && length != 0 {
        if bufferLength + length <= capacity {
          var at := bufferLength;
          for k := 0 to length
            invariant buffer == old(buffer) && bufferLength == at
            invariant buffer[..] == old(buffer[..])[..at] + src.value[..k] + old(buffer[..])[at + k..]
          {
            buffer[at + k] := src.value[k];
            assert src.value[..k + 1] == src.value[..k] + [src.value[k]];
          }
          bufferLength := bufferLength + length;
        }
      }
    }

    /** `IP_BufferIterator (B)`: over the array, with the data length as its end. */
    method Iterator() returns (it: BufferIterator)
      requires Valid()
      ensures fresh(it) && it.data == buffer[..] && it.end == bufferLength && it.ptr == 0
    {
      it := new BufferIterator(buffer[..], bufferLength);
    }

    /** `check (check, byte_offset, length)` as written. */
    method CheckAsWritten(c: Check16, offset: u16, length: u16)
      requires Valid() && ReadsStayInArray(capacity, bufferLength, offset, length)
      modifies c
      ensures c.sum == AddAll(old(c.sum), CheckedWordsAsWritten(buffer[..], bufferLength, offset, length))
    {
      ghost var mem := buffer[..];
      if offset + length > bufferLength || offset % 2 == 1 || length % 2 == 1 {
        assert CheckedWordsAsWritten(mem, bufferLength, offset, length) == [];
        return;
      }
      var it := Iterator();
      it.Advance(offset);
      if length != 0 {
        assert CheckedWordsAsWritten(mem, bufferLength, offset, length) == Words(mem, offset, length);
        FeedWords(c, it, mem, length);
      } else {
        assert CheckedWordsAsWritten(mem, bufferLength, offset, length) == RemainingWords(mem, offset, bufferLength);
        Remainder(c, it, mem, offset);
      }
    }

    /** `check (check, byte_offset, length)` as evidently intended: `length` counts bytes. */
    method Check(c: Check16, offset: u16, length: u16)
      requires Valid()
      modifies c
      ensures c.sum == AddAll(old(c.sum), CheckedWords(buffer[..], bufferLength, offset, length))
    {
      ghost var mem := buffer[..];
      if offset + length > bufferLength || offset % 2 == 1 || length % 2 == 1 {
        assert CheckedWords(mem, bufferLength, offset, length) == [];
        return;
      }
      var it := Iterator();
      it.Advance(offset);
      if length != 0 {
        HalfOf(length, length / 2, 0);
        assert CheckedWords(mem, bufferLength, offset, length) == Words(mem, offset, length / 2);
        FeedWords(c, it, mem, length / 2);
      } else {
        assert CheckedWords(mem, bufferLength, offset, length) == RemainingWords(mem, offset, bufferLength);
        Remainder(c, it, mem, offset);
      }
    }
  }

  /** The counted loop of `check`: `n` words read through the iterator and added. */
  method FeedWords(c: Check16, it: BufferIterator, ghost mem: seq<byte>, n: u16)
    requires it.data == mem && it.ptr + 2 * n <= |mem|
    modifies c, it
    ensures c.sum == AddAll(old(c.sum), Words(mem, old(it.ptr), n)) && it.ptr == old(it.ptr) + 2 * n
  {
    ghost var s0 := c.sum;
    ghost var p0 := it.ptr;
    var left := n;
    ghost var k: nat := 0;
    while left > 0
      invariant k + left == n && it.data == mem && it.ptr == p0 + 2 * k
      invariant c.sum == AddAll(s0, Words(mem, p0, k))
      decreases left
    {
      var h := it.ReadNS16();
      ghost var before := c.sum;
      c.Add(ToU16(h));
      FedOneWord(s0, mem, p0, k, before, ToU16(h), c.sum);
      k := k + 1;
      left := left - 1;
    }
  }

  /**
   * The `length == 0` branch of `check`: words up to the end of the data,
   * then an odd last byte with a zero low byte.
   */
  method Remainder(c: Check16, it: BufferIterator, ghost mem: seq<byte>, offset: u16)
    requires it.data == mem && it.end <= |mem| && it.ptr == offset && offset <= it.end
    modifies c, it
    ensures c.sum == AddAll(old(c.sum), RemainingWords(mem, offset, it.end))
  {
    ghost var s0 := c.sum;
    ghost var k := FeedPairs(c, it, mem);
    HalfOf(it.end - offset, k, it.end - it.ptr);
    ghost var ws := Words(mem, offset, k);
    if it.Remaining() != 0 {
      var h := NS16(0, 0);  // the bytes left over from the last word are overwritten
      h := WithAt(h, 0, it.Current());
      h := WithAt(h, 1, 0);
      assert h == NS16(mem[it.end - 1], 0);
      c.Add(ToU16(h));
      AddAllSnoc(s0, ws, ToU16(h));
    } else {
      assert ws + [] == ws;
    }
  }

  /** The loop of the `length == 0` branch: whole words while two or more bytes remain. */
  method FeedPairs(c: Check16, it: BufferIterator, ghost mem: seq<byte>) returns (ghost k: nat)
    requires it.data == mem && it.end <= |mem| && it.ptr <= it.end
    modifies c, it
    ensures it.ptr == old(it.ptr) + 2 * k && it.end - it.ptr < 2 && it.Remaining() == it.end - it.ptr
    ensures c.sum == AddAll(old(c.sum), Words(mem, old(it.ptr), k))
  {
    ghost var s0 := c.sum;
    ghost var p0 := it.ptr;
    k := 0;
    while it.Remaining() > 1
      invariant it.data == mem && it.ptr == p0 + 2 * k && it.ptr <= it.end && it.Remaining() == it.end - it.ptr
      invariant c.sum == AddAll(s0, Words(mem, p0, k))
      decreases it.end - it.ptr
    {
      var h := it.ReadNS16();
      ghost var before := c.sum;
      c.Add(ToU16(h));
      FedOneWord(s0, mem, p0, k, before, ToU16(h), c.sum);
      k := k + 1;
    }
  }

  lemma HalfOf(n: int, k: int, r: int)
    requires n == 2 * k + r && 0 <= r < 2
    ensures n / 2 == k && n % 2 == r
  {
  }

  /** `IP_BufferIterator::ns32`: copy four bytes into a 32-bit value and step over them. */
  method ReadNS32(it: BufferIterator, value: NS32)
    requires value.Valid() && it.ptr + 4 <= |it.data|
    modifies it, value.bytes
    ensures value.bytes[..] == it.data[old(it.ptr)..old(it.ptr) + 4] && it.ptr == old(it.ptr) + 4
  {
    value.AssignFrom(it);
    it.Advance(4);
  }
}
