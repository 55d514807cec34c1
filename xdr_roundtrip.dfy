/** Round trips: what Packer writes, the matching Unpacker read at the same
    offset gives back, whatever surrounds it in the buffer. */
module XdrRoundTrip {
  import opened XdrTypes
  import opened XdrLayout
  import opened XdrDecode

  /** The bytes `w` sit in `data` from position p on. */
  predicate At(data: seq<Byte>, p: nat, w: seq<Byte>) {
    p + |w| <= |data| && data[p..p + |w|] == w
  }

  /** The two halves of a unit that sits in a buffer sit there one after
      the other. */
  lemma AtSplit(data: seq<Byte>, p: nat, a: seq<Byte>, b: seq<Byte>)
    requires At(data, p, a + b)
    ensures At(data, p, a) && At(data, p + |a|, b)
  {
    assert data[p..p + |a|] == (a + b)[..|a|];
    assert data[p + |a|..p + |a| + |b|] == (a + b)[|a|..];
  }

  /** `reader` reads back exactly what `enc` writes, wherever it sits: an
      item codec in the sense of pack_item and unpack_item. */
  ghost predicate ReadsBack<T(!new)>(enc: T -> seq<Byte>, reader: Reader<T>) {
    forall x: T, data: seq<Byte>, p: nat :: At(data, p, enc(x)) ==> reader(data, p) == Step(Ok(x), p + |enc(x)|)
  }

  /** pack_uint then unpack_uint: the same number, cursor moved by 4. */
  lemma UintRoundTrip(x: Uint32, data: seq<Byte>, p: nat)
    requires At(data, p, BE32(x))
    ensures UintAt(data, p) == Step(Ok(x), p + 4)
  {
    var v := UintAt(data, p).result.value;
    assert BE32(v) == BE32(x);
    assert v == FromBE(BE32(v)) == FromBE(BE32(x)) == x;
  }

  /** pack_int (which is pack_uint) then unpack_int: values from 2^31 on
      come back reduced by 2^32, the two's-complement reading. */
  lemma IntRoundTrip(x: Uint32, data: seq<Byte>, p: nat)
    requires At(data, p, BE32(x))
    ensures IntAt(data, p) == Step(Ok(if x < TWO_31 then x else x - TWO_32), p + 4)
  {
    UintRoundTrip(x, data, p);
  }

  /** Every signed 32-bit value v is read back by unpack_int from the four
      bytes of v mod 2^32. */
  lemma IntSignedRoundTrip(v: int, data: seq<Byte>, p: nat)
    requires -TWO_31 <= v < TWO_31
    requires At(data, p, BE32(v % TWO_32))
    ensures IntAt(data, p) == Step(Ok(v), p + 4)
  {
    IntRoundTrip(v % TWO_32, data, p);
  }

  /** Every signed 64-bit value v is read back by unpack_hyper from the
      eight bytes of v mod 2^64. */
  lemma HyperSignedRoundTrip(v: int, data: seq<Byte>, p: nat)
    requires -TWO_63 <= v < TWO_63
    requires At(data, p, BE64(v % TWO_64))
    ensures HyperAt(data, p) == Step(Ok(v), p + 8)
  {
    HyperRoundTrip(v % TWO_64, data, p);
  }

  /** The bytes FF FF FF FF, which unpack_int reads as -1, cannot be
      written by pack_int as written: it rejects -1. */
  lemma PackIntRejectsMinusOne()
    ensures PackUintAsWritten(-1) == Err(OutOfRange)
    ensures IntAt(BE32(TWO_32 - 1), 0) == Step(Ok(-1), 4)
  {
    IntRoundTrip(TWO_32 - 1, BE32(TWO_32 - 1), 0);
  }

  /** Likewise for eight FF bytes, which unpack_hyper reads as -1 and
      pack_hyper as written rejects. */
  lemma PackHyperRejectsMinusOne()
    ensures PackUhyperAsWritten(-1) == Err(OutOfRange)
    ensures HyperAt(BE64(TWO_64 - 1), 0) == Step(Ok(-1), 8)
  {
    HyperRoundTrip(TWO_64 - 1, BE64(TWO_64 - 1), 0);
  }

  /** pack_bool then unpack_bool (which is unpack_int): 1 for a nonzero
      value, 0 for zero. */
  lemma BoolRoundTrip(x: int, data: seq<Byte>, p: nat)
    requires At(data, p, BE32(if x != 0 then 1 else 0))
    ensures IntAt(data, p) == Step(Ok(if x != 0 then 1 else 0), p + 4)
  {
    IntRoundTrip(if x != 0 then 1 else 0, data, p);
  }

  /** pack_uhyper then unpack_uhyper: the same number, cursor moved by 8. */
  lemma UhyperRoundTrip(x: Uint64, data: seq<Byte>, p: nat)
    requires At(data, p, BE64(x))
    ensures UhyperAt(data, p) == Step(Ok(x), p + 8)
  {
    var v := UhyperAt(data, p).result.value;
    assert BE64(v) == BE64(x);
    assert v == FromBE(BE64(v)) == FromBE(BE64(x)) == x;
  }

  /** pack_hyper (which is pack_uhyper) then unpack_hyper: values from 2^63
      on come back reduced by 2^64. */
  lemma HyperRoundTrip(x: Uint64, data: seq<Byte>, p: nat)
    requires At(data, p, BE64(x))
    ensures HyperAt(data, p) == Step(Ok(if x < TWO_63 then x else x - TWO_64), p + 8)
  {
    UhyperRoundTrip(x, data, p);
  }

  /** pack_fopaque(n, s) then unpack_fopaque(n): the first n bytes of s,
      zero-filled when s is shorter; the cursor moves by RoundUp4(n). */
  lemma FOpaqueRoundTrip(n: nat, s: seq<Byte>, data: seq<Byte>, p: nat)
    requires At(data, p, FOpaque(n, s))
    ensures FOpaqueAt(data, p, n).next == p + RoundUp4(n)
    ensures |FOpaqueAt(data, p, n).result.value| == n
    ensures forall k :: 0 <= k < n ==>
      FOpaqueAt(data, p, n).result.value[k] == if k < |s| then s[k] else 0
    ensures |s| == n ==> FOpaqueAt(data, p, n) == Step(Ok(s), p + RoundUp4(n))
  {
    var w := FOpaque(n, s);
    assert forall k :: 0 <= k < |w| ==> data[p + k] == w[k] by {
      forall k | 0 <= k < |w| ensures data[p + k] == w[k] {
        assert data[p..p + |w|][k] == w[k];
      }
    }
    var v := FOpaqueAt(data, p, n).result.value;
    assert forall k :: 0 <= k < n ==> v[k] == Window(data, p, n)[k];
    if |s| == n {
      assert v == s;
    }
  }

  /** pack_bytes then unpack_bytes: the same bytes, the cursor just past the
      padding. */
  lemma BytesRoundTrip(s: seq<Byte>, data: seq<Byte>, p: nat)
    requires |s| < TWO_32
    requires At(data, p, EncBytes(s))
    ensures BytesAt(data, p) == Step(Ok(s), p + |EncBytes(s)|)
  {
    AtSplit(data, p, BE32(|s|), FOpaque(|s|, s));
    UintRoundTrip(|s|, data, p);
    FOpaqueRoundTrip(|s|, s, data, p + 4);
  }

  /** pack_string then unpack_string: the same text. */
  lemma StringRoundTrip(s: XdrString, data: seq<Byte>, p: nat)
    requires At(data, p, EncString(s))
    ensures StringAt(data, p) == Step(Ok(s), p + |EncString(s)|)
  {
    var b := EncodeLatin1(s);
    AtSplit(data, p, BE32(|b|), FOpaque(|b|, b));
    UintRoundTrip(|b|, data, p);
    FOpaqueRoundTrip(|b|, b, data, p + 4);
    Latin1RoundTrip(s, b);
  }

  /** pack_fstring(n, s) then unpack_fstring(n), for text of exactly n
      characters: the same text. */
  lemma FStringRoundTrip(n: nat, s: string, data: seq<Byte>, p: nat)
    requires IsLatin1(s) && |s| == n
    requires At(data, p, FOpaque(n, EncodeLatin1(s)))
    ensures FStringAt(data, p, n) == Step(Ok(s), p + RoundUp4(n))
  {
    FOpaqueRoundTrip(n, EncodeLatin1(s), data, p);
    Latin1RoundTrip(s, []);
  }

  /** Unsigned integers as list and array items. */
  lemma UintCodec()
    ensures ReadsBack(BE32, UintAt) && Progresses(UintAt)
  {
    forall x: Uint32, data, p: nat | At(data, p, BE32(x))
      ensures UintAt(data, p) == Step(Ok(x), p + |BE32(x)|)
    {
      UintRoundTrip(x, data, p);
    }
  }

  /** Strings as list and array items. */
  lemma StringCodec()
    ensures ReadsBack(EncString, StringAt) && Progresses(StringAt)
  {
    forall x: XdrString, data, p: nat | At(data, p, EncString(x))
      ensures StringAt(data, p) == Step(Ok(x), p + |EncString(x)|)
    {
      StringRoundTrip(x, data, p);
    }
  }

  /** One round of unpack_list's loop: marker 1, then one item. */
  lemma ListMore<T>(reader: Reader<T>, data: seq<Byte>, p: nat, x: T, q: nat)
    requires Progresses(reader)
    requires UintAt(data, p) == Step(Ok(1), p + 4)
    requires reader(data, p + 4) == Step(Ok(x), q)
    ensures ListAt(reader, data, p) == Prepend([x], ListAt(reader, data, q))
  {
  }

  /** The end of unpack_list's loop: marker 0. */
  lemma ListEnd<T>(reader: Reader<T>, data: seq<Byte>, p: nat)
    requires Progresses(reader)
    requires UintAt(data, p) == Step(Ok(0), p + 4)
    ensures ListAt(reader, data, p) == Step(Ok([]), p + 4)
  {
  }

  lemma ListEncCons<T>(items: seq<T>, enc: T -> seq<Byte>)
    requires items != []
    ensures ListEnc(items, enc) == BE32(1) + (enc(items[0]) + ListEnc(items[1..], enc))
  {
  }

  /** pack_list then unpack_list: the same items in the same order, the
      cursor just past the terminating marker. */
  lemma {:induction false} ListRoundTrip<T(!new)>(enc: T -> seq<Byte>, reader: Reader<T>, items: seq<T>,
                                                  data: seq<Byte>, p: nat)
    requires ReadsBack(enc, reader) && Progresses(reader)
    requires At(data, p, ListEnc(items, enc))
    ensures ListAt(reader, data, p) == Step(Ok(items), p + |ListEnc(items, enc)|)
  {
    if items == [] {
      assert ListEnc(items, enc) == BE32(0);
      UintRoundTrip(0, data, p);
      ListEnd(reader, data, p);
    } else {
      var x, rest := items[0], items[1..];
      var tail := ListEnc(rest, enc);
      ListEncCons(items, enc);
      AtSplit(data, p, BE32(1), enc(x) + tail);
      AtSplit(data, p + 4, enc(x), tail);
      UintRoundTrip(1, data, p);
      var q := p + 4 + |enc(x)|;
      assert reader(data, p + 4) == Step(Ok(x), q);
      ListMore(reader, data, p, x, q);
      ListRoundTrip(enc, reader, rest, data, q);
      assert [x] + rest == items;
    }
  }

  /** pack_farray(n, items) then unpack_farray(n): the same n items in
      order. */
  lemma {:induction false} FArrayRoundTrip<T(!new)>(enc: T -> seq<Byte>, reader: Reader<T>, items: seq<T>,
                                              data: seq<Byte>, p: nat)
    requires ReadsBack(enc, reader)
    requires At(data, p, FArrayEnc(items, enc))
    ensures FArrayAt(reader, data, p, |items|) == Step(Ok(items), p + |FArrayEnc(items, enc)|)
  {
    if items != [] {
      var x, rest := items[0], items[1..];
      AtSplit(data, p, enc(x), FArrayEnc(rest, enc));
      var q := p + |enc(x)|;
      assert reader(data, p) == Step(Ok(x), q);
      FArrayRoundTrip(enc, reader, rest, data, q);
      assert [x] + rest == items;
    }
  }

  /** pack_array then unpack_array: the same items in order. */
  lemma ArrayRoundTrip<T(!new)>(enc: T -> seq<Byte>, reader: Reader<T>, items: seq<T>,
                          data: seq<Byte>, p: nat)
    requires ReadsBack(enc, reader)
    requires |items| < TWO_32
    requires At(data, p, ArrayEnc(items, enc))
    ensures ArrayAt(reader, data, p) == Step(Ok(items), p + |ArrayEnc(items, enc)|)
  {
    AtSplit(data, p, BE32(|items|), FArrayEnc(items, enc));
    UintRoundTrip(|items|, data, p);
    FArrayRoundTrip(enc, reader, items, data, p + 4);
  }

  /** unpack_list rejects a continuation marker other than 0 and 1, after
      moving the cursor past it. */
  lemma ListBadMarker<T>(reader: Reader<T>, m: Uint32, data: seq<Byte>, p: nat)
    requires Progresses(reader)
    requires m > 1 && At(data, p, BE32(m))
    ensures ListAt(reader, data, p) == Step(Err(BadMarker(m)), p + 4)
  {
    UintRoundTrip(m, data, p);
  }
}
