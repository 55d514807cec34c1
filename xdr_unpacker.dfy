/** Unpacker (rpckit/xdrlib.py): a source buffer and a cursor. Each
    unpack_* call reads at the cursor and moves it; each is proved to do
    what the matching read of XdrDecode describes. */
module XdrUnpacker {
  import opened XdrTypes
  import opened XdrLayout
  import opened XdrDecode

  /** buf[i:j] in Python for 0 <= i <= j: clamped to the end of buf, so it
      is shorter than j - i (possibly empty) near or past the end. */
  function Slice(buf: seq<Byte>, i: nat, j: nat): (r: seq<Byte>)
    requires i <= j
    ensures |r| == Available(buf, i, j - i)
    ensures i + |r| <= |buf| || r == []
    ensures forall k :: 0 <= k < |r| ==> r[k] == buf[i + k]
  {
    if |buf| <= i then [] else if j <= |buf| then buf[i..j] else buf[i..]
  }

  class Unpacker {
    /** The source buffer (the source's __buf). */
    var data: seq<Byte>
    /** The cursor (the source's __pos); it may lie past the end. */
    var pos: nat

    constructor (data: seq<Byte>)
      ensures this.data == data && pos == 0
    {
      this.data := data;
      pos := 0;
    }

    /** reset(data): a new source buffer, cursor back to 0. */
    method Reset(data: seq<Byte>)
      modifies this
      ensures this.data == data && pos == 0
    {
      this.data := data;
      pos := 0;
    }

    /** get_position. */
    method GetPosition() returns (p: nat)
      ensures p == pos
    {
      p := pos;
    }

    /** set_position: stores the cursor unchecked; a bad one shows only at
        the next read. */
    method SetPosition(p: nat)
      modifies this`pos
      ensures pos == p
    {
      pos := p;
    }

    /** get_buffer: the source buffer. */
    method GetBuffer() returns (b: seq<Byte>)
      ensures b == data
    {
      b := data;
    }

    /** done: fails exactly when bytes remain after the cursor; a cursor at
        or past the end is accepted. */
    method Done() returns (r: Result<()>)
      ensures r == if pos < |data| then Err(UnextractedData) else Ok(())
    {
      if pos < |data| {
        return Err(UnextractedData);
      }
      r := Ok(());
    }

    /** The shared shape of unpack_uint, unpack_int, unpack_uhyper,
        unpack_float and unpack_double: the cursor moves by `width` BEFORE
        the length check, so a short read still moves it. */
    method ReadWord(width: nat) returns (r: Result<nat>)
      requires width > 0
      modifies this`pos
      ensures Step(r, pos) == WordAt(data, old(pos), width)
    {
      var i := pos;
      var j := i + width;
      pos := j;
      var chunk := Slice(data, i, j);
      if |chunk| < width {
        return Err(ShortRead(|chunk|, width));
      }
      assert chunk == data[i..j];
      r := Ok(FromBE(chunk));
    }

    /** unpack_uint. */
    method UnpackUint() returns (r: Result<Uint32>)
      modifies this`pos
      ensures Step(r, pos) == UintAt(data, old(pos))
    {
      var w := ReadWord(4);
      Pow256Widths();
      match w
      case Ok(x) => r := Ok(x);
      case Err(e) => r := Err(e);
    }

    /** unpack_int, and its aliases unpack_enum and unpack_bool. */
    method UnpackInt() returns (r: Result<int>)
      modifies this`pos
      ensures Step(r, pos) == IntAt(data, old(pos))
    {
      var w := ReadWord(4);
      Pow256Widths();
      match w
      case Ok(x) => r := Ok(if x >= TWO_31 then x - TWO_32 else x);
      case Err(e) => r := Err(e);
    }

    /** unpack_void: reads nothing. */
    method UnpackVoid() returns (r: ())
      ensures r == ()
    {
      r := ();
    }

    /** unpack_uhyper. */
    method UnpackUhyper() returns (r: Result<Uint64>)
      modifies this`pos
      ensures Step(r, pos) == UhyperAt(data, old(pos))
    {
      var w := ReadWord(8);
      Pow256Widths();
      match w
      case Ok(x) => r := Ok(x);
      case Err(e) => r := Err(e);
    }

    /** unpack_hyper: unpack_uhyper, minus 2^64 from 2^63 on. */
    method UnpackHyper() returns (r: Result<int>)
      modifies this`pos
      ensures Step(r, pos) == HyperAt(data, old(pos))
    {
      var u := UnpackUhyper();
      if u.Err? {
        return Err(u.error);
      }
      var x := u.value;
      if x >= TWO_63 {
        x := x - TWO_64;
      }
      r := Ok(x);
    }

    /** unpack_float, as the IEEE single-precision bit pattern. */
    method UnpackFloat() returns (r: Result<Uint32>)
      modifies this`pos
      ensures Step(r, pos) == UintAt(data, old(pos))
    {
      var w := ReadWord(4);
      Pow256Widths();
      match w
      case Ok(x) => r := Ok(x);
      case Err(e) => r := Err(e);
    }

    /** unpack_double, as the IEEE double-precision bit pattern. */
    method UnpackDouble() returns (r: Result<Uint64>)
      modifies this`pos
      ensures Step(r, pos) == UhyperAt(data, old(pos))
    {
      var w := ReadWord(8);
      Pow256Widths();
      match w
      case Ok(x) => r := Ok(x);
      case Err(e) => r := Err(e);
    }

    /** unpack_fopaque(n): the buffer is extended by the zero bytes the
        padded region lacks, and n bytes are cut from it. */
    method UnpackFOpaque(n: int) returns (r: Result<seq<Byte>>)
      modifies this`pos
      ensures Step(r, pos) == FOpaqueAt(data, old(pos), n)
    {
      if n < 0 {
        return Err(NegativeSize);
      }
      var i := pos;
      var j := i + (n + 3) / 4 * 4;
      var padLen := 0;
      if j > |data| {
        padLen := j - |data|;
      }
      pos := j;
      var ext := data + Zeros(padLen);
      assert j == i + RoundUp4(n) && |ext| >= j;
      assert ext[i..i + n] == Window(data, i, n) by {
        assert forall k :: 0 <= k < n ==> ext[i + k] == Window(data, i, n)[k];
      }
      r := Ok(ext[i..i + n]);
    }

    /** unpack_fstring(n): unpack_fopaque(n) decoded as Latin-1. */
    method UnpackFString(n: int) returns (r: Result<string>)
      modifies this`pos
      ensures Step(r, pos) == FStringAt(data, old(pos), n)
    {
      var b := UnpackFOpaque(n);
      match b
      case Ok(v) => r := Ok(DecodeLatin1(v));
      case Err(e) => r := Err(e);
    }

    /** unpack_string: the length, then unpack_fstring of that length. */
    method UnpackString() returns (r: Result<XdrString>)
      modifies this`pos
      ensures Step(r, pos) == StringAt(data, old(pos))
    {
      var n := UnpackUint();
      if n.Err? {
        return Err(n.error);
      }
      var s := UnpackFString(n.value);
      var text: XdrString := s.value;
      r := Ok(text);
    }

    /** unpack_bytes, and its alias unpack_opaque: the length, then
        unpack_fopaque of that length. */
    method UnpackBytes() returns (r: Result<seq<Byte>>)
      modifies this`pos
      ensures Step(r, pos) == BytesAt(data, old(pos))
    {
      var n := UnpackUint();
      if n.Err? {
        return Err(n.error);
      }
      r := UnpackFOpaque(n.value);
    }

    /** unpack_list: read markers until 0; after each 1 read one item with
        `reader` at the cursor; any other marker fails. */
    method UnpackList<T>(reader: Reader<T>) returns (r: Result<seq<T>>)
      requires Progresses(reader)
      modifies this`pos
      ensures Step(r, pos) == ListAt(reader, data, old(pos))
    {
      var items: seq<T> := [];
      PrependNothing(ListAt(reader, data, pos));
      while true
        invariant ListAt(reader, data, old(pos)) == Prepend(items, ListAt(reader, data, pos))
        decreases if pos <= |data| then |data| - pos + 1 else 0
      {
        ghost var start := pos;
        var x := UnpackUint();
        if x.Err? {
          assert ListAt(reader, data, start) == Step(Err(x.error), pos);
          return Err(x.error);
        }
        if x.value == 0 {
          assert ListAt(reader, data, start) == Step(Ok([]), pos);
          assert items + [] == items;
          break;
        }
        if x.value != 1 {
          assert ListAt(reader, data, start) == Step(Err(BadMarker(x.value)), pos);
          return Err(BadMarker(x.value));
        }
        var item := reader(data, pos);
        pos := item.next;
        if item.result.Err? {
          assert ListAt(reader, data, start) == Step(Err(item.result.error), pos);
          return Err(item.result.error);
        }
        assert ListAt(reader, data, start) == Prepend([item.result.value], ListAt(reader, data, pos));
        PrependTwice(items, [item.result.value], ListAt(reader, data, pos));
        items := items + [item.result.value];
      }
      r := Ok(items);
    }

    /** unpack_farray(n): n items read with `reader`, in order (none when
        n <= 0). */
    method UnpackFArray<T>(n: int, reader: Reader<T>) returns (r: Result<seq<T>>)
      modifies this`pos
      ensures Step(r, pos) == FArrayAt(reader, data, old(pos), n)
    {
      var items: seq<T> := [];
      var i := 0;
      PrependNothing(FArrayAt(reader, data, pos, n));
      while i < n
        invariant 0 <= i && (n >= 0 ==> i <= n)
        invariant FArrayAt(reader, data, old(pos), n) == Prepend(items, FArrayAt(reader, data, pos, n - i))
      {
        ghost var start := pos;
        var item := reader(data, pos);
        pos := item.next;
        if item.result.Err? {
          assert FArrayAt(reader, data, start, n - i) == Step(Err(item.result.error), pos);
          return Err(item.result.error);
        }
        PrependTwice(items, [item.result.value], FArrayAt(reader, data, pos, n - i - 1));
        items := items + [item.result.value];
        i := i + 1;
      }
      assert FArrayAt(reader, data, pos, n - i) == Step(Ok([]), pos);
      assert items + [] == items;
      r := Ok(items);
    }

    /** unpack_array: the count, then unpack_farray of that count. */
    method UnpackArray<T>(reader: Reader<T>) returns (r: Result<seq<T>>)
      modifies this`pos
      ensures Step(r, pos) == ArrayAt(reader, data, old(pos))
    {
      var n := UnpackUint();
      if n.Err? {
        return Err(n.error);
      }
      r := UnpackFArray(n.value, reader);
    }
  }
}
