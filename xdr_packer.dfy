/** Packer (rpckit/xdrlib.py): an append-only buffer that each pack_*
    call extends by the layout XdrLayout gives for its arguments. */
module XdrPacker {
  import opened XdrTypes
  import opened XdrLayout

  class Packer {
    /** The bytes written so far (the source's private BytesIO __buf). */
    var buf: seq<Byte>

    constructor ()
      ensures buf == []
    {
      buf := [];
    }

    /** reset: start a new, empty buffer. */
    method Reset()
      modifies this
      ensures buf == []
    {
      buf := [];
    }

    /** get_buffer (get_buf): the bytes written so far; the buffer is kept. */
    method GetBuffer() returns (b: seq<Byte>)
      ensures b == buf
    {
      b := buf;
    }

    /** pack_uint, and its aliases pack_int and pack_enum: four big-endian
        bytes (sections 3.1-3.3). */
    method PackUint(x: Uint32)
      modifies this
      ensures buf == old(buf) + BE32(x)
    {
      buf := buf + BE32(x);
    }

    /** pack_int as its fallback to struct format '>l' intends: any value
        from -2^31 to 2^32 - 1, a negative one as its 32-bit two's
        complement. */
    method PackInt(x: int)
      requires -TWO_31 <= x < TWO_32
      modifies this
      ensures buf == old(buf) + BE32(x % TWO_32)
    {
      if x >= 0 {
        buf := buf + BE32(x);
      } else {
        TwosComplement(x, TWO_32);
        buf := buf + BE32(x + TWO_32);
      }
    }

    /** pack_bool: 00 00 00 01 for a nonzero value, 00 00 00 00 for zero
        (section 3.4). */
    method PackBool(x: int)
      modifies this
      ensures buf == old(buf) + BE32(if x != 0 then 1 else 0)
    {
      if x != 0 {
        buf := buf + [0, 0, 0, 1];
      } else {
        buf := buf + [0, 0, 0, 0];
      }
    }

    /** pack_uhyper, and its alias pack_hyper: eight big-endian bytes
        (section 3.5). */
    method PackUhyper(x: Uint64)
      modifies this
      ensures buf == old(buf) + BE64(x)
    {
      buf := buf + BE64(x);
    }

    /** pack_hyper as the signed unpack_hyper calls for: any value from
        -2^63 to 2^64 - 1, a negative one as its 64-bit two's complement. */
    method PackHyper(x: int)
      requires -TWO_63 <= x < TWO_64
      modifies this
      ensures buf == old(buf) + BE64(x % TWO_64)
    {
      if x >= 0 {
        buf := buf + BE64(x);
      } else {
        TwosComplement(x, TWO_64);
        buf := buf + BE64(x + TWO_64);
      }
    }

    /** pack_float, given the IEEE single-precision bit pattern (section 3.6). */
    method PackFloat(bits: Uint32)
      modifies this
      ensures buf == old(buf) + BE32(bits)
    {
      buf := buf + BE32(bits);
    }

    /** pack_double, given the IEEE double-precision bit pattern (section 3.7). */
    method PackDouble(bits: Uint64)
      modifies this
      ensures buf == old(buf) + BE64(bits)
    {
      buf := buf + BE64(bits);
    }

    /** pack_fopaque(n, s): fails for n < 0 and writes nothing; otherwise
        writes s cut to RoundUp4(n) bytes and zero-filled up to that length
        (section 3.8). */
    method PackFOpaque(n: int, s: seq<Byte>) returns (r: Result<()>)
      modifies this
      ensures r.Err? <==> n < 0
      ensures r.Err? ==> r.error == NegativeSize && buf == old(buf)
      ensures r.Ok? ==> buf == old(buf) + FOpaque(n, s)
    {
      if n < 0 {
        return Err(NegativeSize);
      }
      var m := (n + 3) / 4 * 4;
      var data := if |s| <= m then s else s[..m];
      var fill := m - |data|;
      var i := 0;
      while i < fill
        invariant 0 <= i <= fill
        invariant |data| == m - fill + i
        invariant forall k :: 0 <= k < |data| ==> data[k] == if k < |s| then s[k] else 0
      {
        data := data + [0];
        i := i + 1;
      }
      buf := buf + data;
      r := Ok(());
    }

    /** pack_fstring(n, s): the Latin-1 bytes of s as fixed opaque. */
    method PackFString(n: int, s: string) returns (r: Result<()>)
      requires IsLatin1(s)
      modifies this
      ensures r.Err? <==> n < 0
      ensures r.Err? ==> r.error == NegativeSize && buf == old(buf)
      ensures r.Ok? ==> buf == old(buf) + FOpaque(n, EncodeLatin1(s))
    {
      r := PackFOpaque(n, EncodeLatin1(s));
    }

    /** pack_bytes, and its alias pack_opaque: the length, then the bytes
        as fixed opaque of that length (section 3.9). */
    method PackBytes(s: seq<Byte>)
      requires |s| < TWO_32
      modifies this
      ensures buf == old(buf) + EncBytes(s)
    {
      var n := |s|;
      PackUint(n);
      var ok := PackFOpaque(n, s);
    }

    /** pack_string: the Latin-1 bytes of s as variable opaque
        (section 3.10). */
    method PackString(s: XdrString)
      modifies this
      ensures buf == old(buf) + EncString(s)
    {
      PackBytes(EncodeLatin1(s));
    }

    /** pack_list: marker 1 and the item for each item in order, then
        marker 0. `enc` gives the bytes the item writer appends. */
    method PackList<T>(items: seq<T>, enc: T -> seq<Byte>)
      modifies this
      ensures buf == old(buf) + ListEnc(items, enc)
    {
      for i := 0 to |items|
        invariant buf == old(buf) + Marked(items[..i], enc)
      {
        PackUint(1);
        buf := buf + enc(items[i]);
        MarkedSnoc(items[..i], items[i], enc);
        assert items[..i + 1] == items[..i] + [items[i]];
      }
      assert items[..|items|] == items;
      PackUint(0);
    }

    /** pack_farray(n, items): fails and writes nothing unless there are
        exactly n items; otherwise writes the items back to back
        (section 3.11). */
    method PackFArray<T>(n: int, items: seq<T>, enc: T -> seq<Byte>) returns (r: Result<()>)
      modifies this
      ensures r.Err? <==> |items| != n
      ensures r.Err? ==> r.error == WrongArraySize && buf == old(buf)
      ensures r.Ok? ==> buf == old(buf) + FArrayEnc(items, enc)
    {
      if |items| != n {
        return Err(WrongArraySize);
      }
      for i := 0 to |items|
        invariant buf == old(buf) + FArrayEnc(items[..i], enc)
      {
        buf := buf + enc(items[i]);
        FArrayEncSnoc(items[..i], items[i], enc);
        assert items[..i + 1] == items[..i] + [items[i]];
      }
      assert items[..|items|] == items;
      r := Ok(());
    }

    /** pack_array: the item count, then the items as a fixed array
        (section 3.12). */
    method PackArray<T>(items: seq<T>, enc: T -> seq<Byte>)
      requires |items| < TWO_32
      modifies this
      ensures buf == old(buf) + ArrayEnc(items, enc)
    {
      var n := |items|;
      PackUint(n);
      var ok := PackFArray(n, items, enc);
    }

    /** pack_void: writes nothing (section 3.15). */
    method PackVoid()
      ensures buf == old(buf)
    {
    }
  }
}
