/** The byte layouts that Packer writes (RFC 1014, sections 3.1-3.18 as far
    as rpckit/xdrlib.py implements them), as pure functions. */
module XdrLayout {
  import opened XdrTypes

  /** 256 to the power n: the number of values n big-endian bytes hold. */
  function Pow256(n: nat): (r: nat)
    ensures r >= 1
  {
    if n == 0 then 1 else 256 * Pow256(n - 1)
  }

  lemma Pow256Widths()
    ensures Pow256(4) == TWO_32 && Pow256(8) == TWO_64
  {
    assert Pow256(4) == 256 * 256 * 256 * 256;
    assert Pow256(8) == Pow256(4) * Pow256(4) by {
      assert Pow256(8) == 256 * 256 * 256 * 256 * Pow256(4);
    }
  }

  /** The big-endian representation of x in exactly `width` bytes. */
  function ToBE(x: nat, width: nat): (r: seq<Byte>)
    requires x < Pow256(width)
    ensures |r| == width
  {
    if width == 0 then [] else ToBE(x / 256, width - 1) + [x % 256]
  }

  /** The number that a big-endian byte string denotes. */
  function FromBE(s: seq<Byte>): (r: nat)
    ensures r < Pow256(|s|)
  {
    if s == [] then 0
    else
      var hi := FromBE(s[..|s| - 1]);
      assert hi <= Pow256(|s| - 1) - 1;
      hi * 256 + s[|s| - 1]
  }

  /** Decoding an encoded number gives the number back. */
  lemma {:induction false} FromToBE(x: nat, width: nat)
    requires x < Pow256(width)
    ensures FromBE(ToBE(x, width)) == x
  {
    if width > 0 {
      FromToBE(x / 256, width - 1);
      var r := ToBE(x, width);
      assert r[..|r| - 1] == ToBE(x / 256, width - 1);
    }
  }

  /** Every byte string of a given width is the encoding of what it denotes,
      so the encoding is one-to-one onto strings of that width. */
  lemma {:induction false} ToFromBE(s: seq<Byte>)
    ensures ToBE(FromBE(s), |s|) == s
  {
    if s != [] {
      var init := s[..|s| - 1];
      ToFromBE(init);
      var x := FromBE(s);
      assert x / 256 == FromBE(init) && x % 256 == s[|s| - 1];
      assert s == init + [s[|s| - 1]];
    }
  }

  /** struct.pack('>L', x): the four big-endian bytes of x (section 3.1). */
  function BE32(x: Uint32): (r: seq<Byte>)
    ensures |r| == 4 && FromBE(r) == x
  {
    Pow256Widths();
    FromToBE(x, 4);
    ToBE(x, 4)
  }

  /** struct.pack('>Q', x): the eight big-endian bytes of x (section 3.5). */
  function BE64(x: Uint64): (r: seq<Byte>)
    ensures |r| == 8 && FromBE(r) == x
  {
    Pow256Widths();
    FromToBE(x, 8);
    ToBE(x, 8)
  }

  /** A negative number above -m is stored modulo m as itself plus m. */
  lemma TwosComplement(x: int, m: int)
    requires 0 < m && -m <= x < 0
    ensures x % m == x + m
  {
  }

  /** pack_uint (and pack_int) as written, for any integer x: struct format
      '>L' takes only 0 <= x < 2^32 and raises struct.error otherwise, which
      is not the OverflowError the fallback to '>l' waits for, so that
      fallback is never reached and every negative x fails. */
  function PackUintAsWritten(x: int): (r: Result<seq<Byte>>)
    ensures r.Ok? <==> 0 <= x < TWO_32
    ensures r.Ok? ==> |r.value| == 4 && FromBE(r.value) == x
    ensures r.Err? ==> r.error == OutOfRange
  {
    if 0 <= x < TWO_32 then Ok(BE32(x)) else Err(OutOfRange)
  }

  /** pack_uhyper (and pack_hyper) as written, for any integer x: struct
      format '>Q' takes only 0 <= x < 2^64, so every negative x fails. */
  function PackUhyperAsWritten(x: int): (r: Result<seq<Byte>>)
    ensures r.Ok? <==> 0 <= x < TWO_64
    ensures r.Ok? ==> |r.value| == 8 && FromBE(r.value) == x
    ensures r.Err? ==> r.error == OutOfRange
  {
    if 0 <= x < TWO_64 then Ok(BE64(x)) else Err(OutOfRange)
  }

  /** The signed reading of four bytes, struct format '>l'. */
  function ToInt32(u: Uint32): (v: int)
    ensures -TWO_31 <= v < TWO_31
    ensures (v - u) % TWO_32 == 0
  {
    if u >= TWO_31 then u - TWO_32 else u
  }

  /** The sign adjustment of unpack_hyper. */
  function ToInt64(u: Uint64): (v: int)
    ensures -TWO_63 <= v < TWO_63
    ensures (v - u) % TWO_64 == 0
  {
    if u >= TWO_63 then u - TWO_64 else u
  }

  /** The size of an opaque unit on the wire: n rounded up to a multiple of
      four (section 3.9). */
  function RoundUp4(n: nat): (r: nat)
    ensures r % 4 == 0 && n <= r < n + 4
  {
    (n + 3) / 4 * 4
  }

  function Zeros(k: nat): (r: seq<Byte>)
    ensures |r| == k
  {
    seq(k, _ => 0)
  }

  /** What pack_fopaque(n, s) writes for n >= 0: the input truncated to the
      PADDED length RoundUp4(n), then zero bytes up to that length. So when
      s is longer than n the bytes between n and RoundUp4(n) come from s. */
  function FOpaque(n: nat, s: seq<Byte>): (r: seq<Byte>)
    ensures |r| == RoundUp4(n)
    ensures forall k :: 0 <= k < |r| ==> r[k] == if k < |s| then s[k] else 0
  {
    var m := RoundUp4(n);
    var data := if |s| <= m then s else s[..m];
    data + Zeros(m - |data|)
  }

  /** What pack_bytes(s) writes: the 32-bit length, then the fixed opaque
      of that length (section 3.9). */
  function EncBytes(s: seq<Byte>): (r: seq<Byte>)
    requires |s| < TWO_32
    ensures |r| == 4 + RoundUp4(|s|)
  {
    BE32(|s|) + FOpaque(|s|, s)
  }

  /** pack_bytes(s) writes the length of s, then s itself, then zero bytes
      up to the next multiple of four. */
  lemma EncBytesLayout(s: seq<Byte>)
    requires |s| < TWO_32
    ensures EncBytes(s)[..4] == BE32(|s|)
    ensures EncBytes(s)[4..4 + |s|] == s
    ensures forall k :: 4 + |s| <= k < |EncBytes(s)| ==> EncBytes(s)[k] == 0
  {
    var r := EncBytes(s);
    assert forall k :: 0 <= k < |s| ==> r[4..4 + |s|][k] == s[k];
  }

  /** What pack_string(s) writes: the Latin-1 bytes of s as variable opaque
      (section 3.10). */
  function EncString(s: XdrString): (r: seq<Byte>)
    ensures |r| == 4 + RoundUp4(|s|)
  {
    EncBytes(EncodeLatin1(s))
  }

  /** The encodings of items, back to back: what pack_farray writes
      (section 3.11). */
  function FArrayEnc<T>(items: seq<T>, enc: T -> seq<Byte>): (r: seq<Byte>)
    ensures items == [] ==> r == []
    ensures |items| == 1 ==> r == enc(items[0])
  {
    if items == [] then [] else enc(items[0]) + FArrayEnc(items[1..], enc)
  }

  /** Appending one item to the array appends its encoding. */
  lemma {:induction false} FArrayEncSnoc<T>(items: seq<T>, x: T, enc: T -> seq<Byte>)
    ensures FArrayEnc(items + [x], enc) == FArrayEnc(items, enc) + enc(x)
  {
    if items != [] {
      assert (items + [x])[1..] == items[1..] + [x];
      FArrayEncSnoc(items[1..], x, enc);
    }
  }

  /** What pack_array writes: the 32-bit count, then the fixed array
      (section 3.12). */
  function ArrayEnc<T>(items: seq<T>, enc: T -> seq<Byte>): (r: seq<Byte>)
    requires |items| < TWO_32
    ensures |r| >= 4
  {
    BE32(|items|) + FArrayEnc(items, enc)
  }

  /** The items of a list, each preceded by the continuation marker 1. */
  function Marked<T>(items: seq<T>, enc: T -> seq<Byte>): (r: seq<Byte>)
    ensures |r| >= 4 * |items|
  {
    if items == [] then [] else BE32(1) + enc(items[0]) + Marked(items[1..], enc)
  }

  lemma {:induction false} MarkedSnoc<T>(items: seq<T>, x: T, enc: T -> seq<Byte>)
    ensures Marked(items + [x], enc) == Marked(items, enc) + BE32(1) + enc(x)
  {
    if items != [] {
      assert (items + [x])[1..] == items[1..] + [x];
      MarkedSnoc(items[1..], x, enc);
    }
  }

  /** What pack_list writes: a marker 1 before each item and a final
      marker 0, the optional-data chain of section 3.18. */
  function ListEnc<T>(items: seq<T>, enc: T -> seq<Byte>): (r: seq<Byte>)
    ensures items == [] ==> r == BE32(0)
  {
    Marked(items, enc) + BE32(0)
  }

  /** With four-byte items (uint, int, enum, bool) a list of n items takes
      8n + 4 bytes and a fixed array 4n bytes. */
  lemma {:induction false} FourByteItemSizes<T>(items: seq<T>, enc: T -> seq<Byte>)
    requires forall x :: |enc(x)| == 4
    ensures |ListEnc(items, enc)| == 8 * |items| + 4
    ensures |FArrayEnc(items, enc)| == 4 * |items|
  {
    if items != [] {
      FourByteItemSizes(items[1..], enc);
    }
  }
}
