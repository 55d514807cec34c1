/** What each unpack_* operation of rpckit/xdrlib.py reads from a buffer at
    a cursor position, as pure functions returning the outcome and the new
    cursor. The Unpacker class is proved to behave exactly like these. */
module XdrDecode {
  import opened XdrTypes
  import opened XdrLayout

  /** An item reader: reads one item of a list or array at a cursor position
      in a buffer, like the unpack_item callables the source passes around. */
  type Reader<T> = (seq<Byte>, nat) -> Step<T>

  /** A reader never moves the cursor backwards; every reader of this module
      has this property, and unpack_list needs it to end. */
  ghost predicate Progresses<T>(reader: Reader<T>) {
    forall data, pos :: reader(data, pos).next >= pos
  }

  /** How many of the `need` bytes from pos on the buffer holds: the length
      of the Python slice buf[pos:pos + need]. */
  function Available(data: seq<Byte>, pos: nat, need: nat): (k: nat)
    ensures k <= need
    ensures pos + need <= |data| ==> k == need
    ensures pos + need > |data| ==> pos + k == |data| || (|data| <= pos && k == 0)
  {
    if |data| <= pos then 0
    else if pos + need <= |data| then need
    else |data| - pos
  }

  /** A fixed-width big-endian read of `width` bytes. The cursor moves by
      `width` whether or not the bytes are there; with fewer than `width`
      bytes left the read fails and reports how many were left. */
  function WordAt(data: seq<Byte>, pos: nat, width: nat): (st: Step<nat>)
    ensures st.next == pos + width
    ensures st.result.Ok? <==> pos + width <= |data|
    ensures st.result.Ok? ==>
      st.result.value < Pow256(width) && ToBE(st.result.value, width) == data[pos..pos + width]
    ensures st.result.Err? ==> st.result.error == ShortRead(Available(data, pos, width), width)
  {
    if pos + width <= |data| then
      ToFromBE(data[pos..pos + width]);
      Step(Ok(FromBE(data[pos..pos + width])), pos + width)
    else
      Step(Err(ShortRead(Available(data, pos, width), width)), pos + width)
  }

  /** unpack_uint: the four bytes at pos as an unsigned number. */
  function UintAt(data: seq<Byte>, pos: nat): (st: Step<Uint32>)
    ensures st.next == pos + 4
    ensures st.result.Ok? <==> pos + 4 <= |data|
    ensures st.result.Ok? ==> BE32(st.result.value) == data[pos..pos + 4]
  {
    var w := WordAt(data, pos, 4);
    Pow256Widths();
    match w.result
    case Ok(x) => Step(Ok(x), w.next)
    case Err(e) => Step(Err(e), w.next)
  }

  /** unpack_int, unpack_enum and unpack_bool: the four bytes at pos read
      as a two's-complement number. */
  function IntAt(data: seq<Byte>, pos: nat): (st: Step<int>)
    ensures st.next == pos + 4
    ensures st.result.Ok? <==> pos + 4 <= |data|
    ensures st.result.Ok? ==>
      -TWO_31 <= st.result.value < TWO_31 &&
      BE32(st.result.value % TWO_32) == data[pos..pos + 4]
  {
    var u := UintAt(data, pos);
    match u.result
    case Ok(x) => Step(Ok(ToInt32(x)), u.next)
    case Err(e) => Step(Err(e), u.next)
  }

  /** unpack_uhyper: the eight bytes at pos as an unsigned number. */
  function UhyperAt(data: seq<Byte>, pos: nat): (st: Step<Uint64>)
    ensures st.next == pos + 8
    ensures st.result.Ok? <==> pos + 8 <= |data|
    ensures st.result.Ok? ==> BE64(st.result.value) == data[pos..pos + 8]
  {
    var w := WordAt(data, pos, 8);
    Pow256Widths();
    match w.result
    case Ok(x) => Step(Ok(x), w.next)
    case Err(e) => Step(Err(e), w.next)
  }

  /** unpack_hyper: unpack_uhyper, then values from 2^63 on taken as
      negative. */
  function HyperAt(data: seq<Byte>, pos: nat): (st: Step<int>)
    ensures st.next == pos + 8
    ensures st.result.Ok? <==> pos + 8 <= |data|
    ensures st.result.Ok? ==>
      -TWO_63 <= st.result.value < TWO_63 &&
      BE64(st.result.value % TWO_64) == data[pos..pos + 8]
  {
    var u := UhyperAt(data, pos);
    match u.result
    case Ok(x) => Step(Ok(ToInt64(x)), u.next)
    case Err(e) => Step(Err(e), u.next)
  }

  /** The n bytes from pos on in the buffer extended by zero bytes: a byte
      past the end of the buffer reads as 0. */
  function Window(data: seq<Byte>, pos: nat, n: nat): (r: seq<Byte>)
    ensures |r| == n
    ensures pos + n <= |data| ==> r == data[pos..pos + n]
  {
    var w := seq(n, k requires 0 <= k < n => if pos + k < |data| then data[pos + k] else 0);
    assert pos + n <= |data| ==> w == data[pos..pos + n];
    w
  }

  /** unpack_fopaque(n): fails for n < 0 without moving the cursor; otherwise
      returns exactly n bytes, zero-extending past the end of the buffer
      instead of failing, and moves the cursor by RoundUp4(n) even past
      the end. */
  function FOpaqueAt(data: seq<Byte>, pos: nat, n: int): (st: Step<seq<Byte>>)
    ensures st.result.Err? <==> n < 0
    ensures n < 0 ==> st == Step(Err(NegativeSize), pos)
    ensures n >= 0 ==> st.next == pos + RoundUp4(n) && |st.result.value| == n
    ensures n >= 0 && pos + n <= |data| ==> st.result.value == data[pos..pos + n]
  {
    if n < 0 then Step(Err(NegativeSize), pos)
    else
      Step(Ok(Window(data, pos, n)), pos + RoundUp4(n))
  }

  /** unpack_fopaque(n) for n >= 0 returns byte k of the buffer from the
      cursor on while the buffer lasts, and a zero byte after its end. */
  lemma FOpaqueZeroExtends(data: seq<Byte>, pos: nat, n: nat)
    ensures forall k :: 0 <= k < n ==>
      FOpaqueAt(data, pos, n).result.value[k] == if pos + k < |data| then data[pos + k] else 0
  {
  }

  /** unpack_fstring(n): unpack_fopaque(n) decoded as Latin-1. */
  function FStringAt(data: seq<Byte>, pos: nat, n: int): (st: Step<string>)
    ensures st.next == FOpaqueAt(data, pos, n).next
    ensures st.result.Err? <==> n < 0
    ensures st.result.Ok? ==> st.result.value == DecodeLatin1(FOpaqueAt(data, pos, n).result.value)
  {
    var b := FOpaqueAt(data, pos, n);
    match b.result
    case Ok(v) => Step(Ok(DecodeLatin1(v)), b.next)
    case Err(e) => Step(Err(e), b.next)
  }

  /** unpack_bytes (unpack_opaque): a 32-bit length L, then
      unpack_fopaque(L). Fails only when the length itself is cut short. */
  function BytesAt(data: seq<Byte>, pos: nat): (st: Step<seq<Byte>>)
    ensures st.result.Err? <==> pos + 4 > |data|
    ensures st.result.Err? ==> st.next == pos + 4
    ensures st.result.Ok? ==>
      var n := |st.result.value|;
      n < TWO_32 && data[pos..pos + 4] == BE32(n) && st.next == pos + 4 + RoundUp4(n)
  {
    var len := UintAt(data, pos);
    match len.result
    case Err(e) => Step(Err(e), len.next)
    case Ok(n) => FOpaqueAt(data, len.next, n)
  }

  /** unpack_string: unpack_bytes decoded as Latin-1. */
  function StringAt(data: seq<Byte>, pos: nat): (st: Step<XdrString>)
    ensures st.next == BytesAt(data, pos).next && st.next >= pos + 4
    ensures st.result.Err? <==> pos + 4 > |data|
    ensures st.result.Ok? ==> EncodeLatin1(st.result.value) == BytesAt(data, pos).result.value
  {
    var len := UintAt(data, pos);
    match len.result
    case Err(e) => Step(Err(e), len.next)
    case Ok(n) =>
      var s := FStringAt(data, len.next, n);
      var text: XdrString := s.result.value;
      Latin1RoundTrip("", FOpaqueAt(data, len.next, n).result.value);
      Step(Ok(text), s.next)
  }

  /** Puts `items` in front of the items a successful read returns; a failed
      read stays failed. */
  function Prepend<T>(items: seq<T>, st: Step<seq<T>>): (r: Step<seq<T>>)
    ensures r.next == st.next && r.result.Ok? == st.result.Ok?
  {
    match st.result
    case Ok(rest) => Step(Ok(items + rest), st.next)
    case Err(_) => st
  }

  lemma PrependNothing<T>(st: Step<seq<T>>)
    ensures Prepend([], st) == st
  {
    if st.result.Ok? {
      assert [] + st.result.value == st.result.value;
    }
  }

  lemma PrependTwice<T>(a: seq<T>, b: seq<T>, st: Step<seq<T>>)
    ensures Prepend(a, Prepend(b, st)) == Prepend(a + b, st)
  {
    if st.result.Ok? {
      assert a + (b + st.result.value) == (a + b) + st.result.value;
    }
  }

  /** unpack_list: reads a marker; 0 ends the list, 1 is followed by one
      item, anything else fails. A failed marker or item read ends the
      list with that failure. */
  function ListAt<T>(reader: Reader<T>, data: seq<Byte>, pos: nat): (st: Step<seq<T>>)
    requires Progresses(reader)
    ensures st.next >= pos + 4
    decreases if pos <= |data| then |data| - pos + 1 else 0
  {
    var m := UintAt(data, pos);
    match m.result
    case Err(e) => Step(Err(e), m.next)
    case Ok(marker) =>
      if marker == 0 then Step(Ok([]), m.next)
      else if marker != 1 then Step(Err(BadMarker(marker)), m.next)
      else
        var item := reader(data, m.next);
        match item.result
        case Err(e) => Step(Err(e), item.next)
        case Ok(x) => Prepend([x], ListAt(reader, data, item.next))
  }

  /** unpack_farray(n): n items read one after the other (none when n <= 0);
      the first failed item read ends it with that failure. */
  function FArrayAt<T>(reader: Reader<T>, data: seq<Byte>, pos: nat, n: int): (st: Step<seq<T>>)
    ensures st.result.Ok? ==> |st.result.value| == if n <= 0 then 0 else n
    decreases n
  {
    if n <= 0 then Step(Ok([]), pos)
    else
      var item := reader(data, pos);
      match item.result
      case Err(e) => Step(Err(e), item.next)
      case Ok(x) => Prepend([x], FArrayAt(reader, data, item.next, n - 1))
  }

  /** unpack_array: a 32-bit count, then unpack_farray of that count. */
  function ArrayAt<T>(reader: Reader<T>, data: seq<Byte>, pos: nat): (st: Step<seq<T>>)
    ensures st.result.Ok? ==>
      pos + 4 <= |data| && |st.result.value| < TWO_32 &&
      data[pos..pos + 4] == BE32(|st.result.value|)
  {
    var count := UintAt(data, pos);
    match count.result
    case Err(e) => Step(Err(e), count.next)
    case Ok(n) => FArrayAt(reader, data, count.next, n)
  }
}
