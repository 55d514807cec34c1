/** The scenarios of the source's own test code (rpckit/xdrlib.py, _test and
    UnpackerTestCase), as client methods whose expected results are proved
    from the Packer and Unpacker contracts and the round-trip lemmas. */
module XdrSelfTest {
  import opened XdrTypes
  import opened XdrLayout
  import opened XdrDecode
  import opened XdrRoundTrip
  import opened XdrPacker
  import opened XdrUnpacker

  /** A unit written between a prefix and a suffix sits right after the
      prefix. */
  lemma AtMiddle(pre: seq<Byte>, w: seq<Byte>, post: seq<Byte>)
    ensures At(pre + w + post, |pre|, w)
  {
    assert (pre + w + post)[|pre|..|pre| + |w|] == w;
  }

  /** In a buffer made of seven units, the first five start at 0, 4, 8, 12
      and 20, and the last two make up the rest of the buffer. */
  lemma HeadUnits(e0: seq<Byte>, e1: seq<Byte>, e2: seq<Byte>, e3: seq<Byte>, e4: seq<Byte>,
                  e5: seq<Byte>, e6: seq<Byte>, buf: seq<Byte>)
    requires |e0| == 4 && |e1| == 4 && |e2| == 4 && |e3| == 8
    requires buf == e0 + e1 + e2 + e3 + e4 + e5 + e6
    ensures At(buf, 0, e0) && At(buf, 4, e1) && At(buf, 8, e2) && At(buf, 12, e3) && At(buf, 20, e4)
    ensures buf[20 + |e4|..] == e5 + e6
  {
    var rest := e5 + e6;
    assert buf == e0 + e1 + e2 + e3 + e4 + rest;
    AtMiddle([], e0, e1 + e2 + e3 + e4 + rest);
    assert [] + e0 + (e1 + e2 + e3 + e4 + rest) == buf;
    AtMiddle(e0, e1, e2 + e3 + e4 + rest);
    AtMiddle(e0 + e1, e2, e3 + e4 + rest);
    AtMiddle(e0 + e1 + e2, e3, e4 + rest);
    AtMiddle(e0 + e1 + e2 + e3, e4, rest);
  }

  /** Two units that make up the rest of a buffer sit one after the other
      and end with it. */
  lemma RestUnits(data: seq<Byte>, p: nat, a: seq<Byte>, b: seq<Byte>)
    requires p <= |data| && data[p..] == a + b
    ensures At(data, p, a) && At(data, p + |a|, b) && |data| == p + |a| + |b|
  {
    AtSplit(data, p, a, b);
  }

  /** ListRoundTrip for a list of uints. */
  lemma UintListRoundTrip(ints: seq<Uint32>, data: seq<Byte>, p: nat)
    requires At(data, p, ListEnc(ints, BE32))
    ensures Progresses(UintAt)
    ensures ListAt(UintAt, data, p) == Step(Ok(ints), p + |ListEnc(ints, BE32)|)
  {
    UintCodec();
    ListRoundTrip(BE32, UintAt, ints, data, p);
  }

  /** ArrayRoundTrip for an array of strings. */
  lemma StringArrayRoundTrip(words: seq<XdrString>, data: seq<Byte>, p: nat)
    requires |words| < TWO_32
    requires At(data, p, ArrayEnc(words, EncString))
    ensures ArrayAt(StringAt, data, p) == Step(Ok(words), p + |ArrayEnc(words, EncString)|)
  {
    StringCodec();
    ArrayRoundTrip(EncString, StringAt, words, data, p);
  }

  /** The packing half of _test: a uint, two bools, a uhyper, a string, a
      list of uints and an array of strings, one after the other and
      nothing else (the buffer is their concatenation). */
  method PackMessage(x: Uint32, flag0: int, flag1: int, big: Uint64, text: XdrString, ints: seq<Uint32>,
                     words: seq<XdrString>) returns (buf: seq<Byte>)
    requires |words| < TWO_32
    ensures buf == BE32(x) + BE32(if flag0 != 0 then 1 else 0) + BE32(if flag1 != 0 then 1 else 0) +
                   BE64(big) + EncString(text) + ListEnc(ints, BE32) + ArrayEnc(words, EncString)
  {
    ghost var e0, e1, e2 := BE32(x), BE32(if flag0 != 0 then 1 else 0), BE32(if flag1 != 0 then 1 else 0);
    ghost var e3, e4, e5, e6 := BE64(big), EncString(text), ListEnc(ints, BE32), ArrayEnc(words, EncString);
    var p := new Packer();
    p.PackUint(x);
    assert p.buf == e0;
    p.PackBool(flag0);
    assert p.buf == e0 + e1;
    p.PackBool(flag1);
    assert p.buf == e0 + e1 + e2;
    p.PackUhyper(big);
    assert p.buf == e0 + e1 + e2 + e3;
    p.PackString(text);
    assert p.buf == e0 + e1 + e2 + e3 + e4;
    p.PackList(ints, BE32);
    assert p.buf == e0 + e1 + e2 + e3 + e4 + e5;
    p.PackArray(words, EncString);
    buf := p.GetBuffer();
  }

  /** The first five reads of _test: the uint, the two bools, the uhyper
      and the string come back, and the cursor ends just past the string. */
  method UnpackHead(up: Unpacker, x: Uint32, flag0: int, flag1: int, big: Uint64, text: XdrString)
    returns (u: Result<Uint32>, b0: Result<int>, b1: Result<int>, h: Result<Uint64>, s: Result<XdrString>)
    requires up.pos == 0
    requires At(up.data, 0, BE32(x)) && At(up.data, 4, BE32(if flag0 != 0 then 1 else 0))
    requires At(up.data, 8, BE32(if flag1 != 0 then 1 else 0))
    requires At(up.data, 12, BE64(big)) && At(up.data, 20, EncString(text))
    modifies up`pos
    ensures u == Ok(x) && b0 == Ok(if flag0 != 0 then 1 else 0) && b1 == Ok(if flag1 != 0 then 1 else 0)
    ensures h == Ok(big) && s == Ok(text)
    ensures up.pos == 20 + |EncString(text)|
  {
    UintRoundTrip(x, up.data, 0);
    u := up.UnpackUint();
    BoolRoundTrip(flag0, up.data, 4);
    b0 := up.UnpackInt();
    BoolRoundTrip(flag1, up.data, 8);
    b1 := up.UnpackInt();
    UhyperRoundTrip(big, up.data, 12);
    h := up.UnpackUhyper();
    StringRoundTrip(text, up.data, 20);
    s := up.UnpackString();
  }

  /** The list read of _test, and done() while the array is still unread. */
  method UnpackListPart(up: Unpacker, ints: seq<Uint32>) returns (l: Result<seq<Uint32>>, early: Result<()>)
    requires At(up.data, up.pos, ListEnc(ints, BE32))
    requires up.pos + |ListEnc(ints, BE32)| < |up.data|
    modifies up`pos
    ensures l == Ok(ints) && early == Err(UnextractedData)
    ensures up.pos == old(up.pos) + |ListEnc(ints, BE32)|
  {
    UintListRoundTrip(ints, up.data, up.pos);
    l := up.UnpackList(UintAt);
    early := up.Done();
  }

  /** The array read of _test at the end of the buffer, then done(). */
  method UnpackArrayPart(up: Unpacker, words: seq<XdrString>) returns (a: Result<seq<XdrString>>, d: Result<()>)
    requires |words| < TWO_32
    requires At(up.data, up.pos, ArrayEnc(words, EncString))
    requires |up.data| == up.pos + |ArrayEnc(words, EncString)|
    modifies up`pos
    ensures a == Ok(words) && d == Ok(())
  {
    StringArrayRoundTrip(words, up.data, up.pos);
    a := up.UnpackArray(StringAt);
    d := up.Done();
  }

  /** The message of _test for any values, packed and then unpacked in the
      same order from the packed buffer. Each value comes back, a bool as 1
      or 0; done() fails before the last read and succeeds after it. */
  method PackUnpackMessage(x: Uint32, flag0: int, flag1: int, big: Uint64, text: XdrString,
                           ints: seq<Uint32>, words: seq<XdrString>)
    returns (size: nat, u: Result<Uint32>, b0: Result<int>, b1: Result<int>, h: Result<Uint64>,
             s: Result<XdrString>, l: Result<seq<Uint32>>, early: Result<()>, a: Result<seq<XdrString>>,
             d: Result<()>)
    requires |words| < TWO_32
    ensures size == 20 + |EncString(text)| + 8 * |ints| + 4 + |ArrayEnc(words, EncString)|
    ensures u == Ok(x) && b0 == Ok(if flag0 != 0 then 1 else 0) && b1 == Ok(if flag1 != 0 then 1 else 0)
    ensures h == Ok(big) && s == Ok(text) && l == Ok(ints) && a == Ok(words)
    ensures early == Err(UnextractedData) && d == Ok(())
  {
    var buf := PackMessage(x, flag0, flag1, big, text, ints, words);
    size := |buf|;
    FourByteItemSizes(ints, BE32);
    HeadUnits(BE32(x), BE32(if flag0 != 0 then 1 else 0), BE32(if flag1 != 0 then 1 else 0), BE64(big),
              EncString(text), ListEnc(ints, BE32), ArrayEnc(words, EncString), buf);
    u, b0, b1, h, s, l, early, a, d := UnpackMessage(buf, x, flag0, flag1, big, text, ints, words);
  }

  /** The unpacking half of _test, on the buffer PackMessage gives. */
  method UnpackMessage(buf: seq<Byte>, x: Uint32, flag0: int, flag1: int, big: Uint64, text: XdrString,
                       ints: seq<Uint32>, words: seq<XdrString>)
    returns (u: Result<Uint32>, b0: Result<int>, b1: Result<int>, h: Result<Uint64>, s: Result<XdrString>,
             l: Result<seq<Uint32>>, early: Result<()>, a: Result<seq<XdrString>>, d: Result<()>)
    requires |words| < TWO_32
    requires At(buf, 0, BE32(x)) && At(buf, 4, BE32(if flag0 != 0 then 1 else 0))
    requires At(buf, 8, BE32(if flag1 != 0 then 1 else 0))
    requires At(buf, 12, BE64(big)) && At(buf, 20, EncString(text))
    requires buf[20 + |EncString(text)|..] == ListEnc(ints, BE32) + ArrayEnc(words, EncString)
    ensures u == Ok(x) && b0 == Ok(if flag0 != 0 then 1 else 0) && b1 == Ok(if flag1 != 0 then 1 else 0)
    ensures h == Ok(big) && s == Ok(text) && l == Ok(ints) && a == Ok(words)
    ensures early == Err(UnextractedData) && d == Ok(())
  {
    var up := new Unpacker(buf);
    u, b0, b1, h, s := UnpackHead(up, x, flag0, flag1, big, text);
    assert up.data == buf && up.pos == 20 + |EncString(text)|;
    l, early, a, d := UnpackTail(up, ints, words);
  }

  /** The last reads of _test, on the rest of the buffer: the list, done()
      too early, the array, and done() at the end. */
  method UnpackTail(up: Unpacker, ints: seq<Uint32>, words: seq<XdrString>)
    returns (l: Result<seq<Uint32>>, early: Result<()>, a: Result<seq<XdrString>>, d: Result<()>)
    requires |words| < TWO_32
    requires up.pos <= |up.data| && up.data[up.pos..] == ListEnc(ints, BE32) + ArrayEnc(words, EncString)
    modifies up`pos
    ensures l == Ok(ints) && a == Ok(words)
    ensures early == Err(UnextractedData) && d == Ok(())
  {
    ghost var data := up.data;
    RestUnits(data, up.pos, ListEnc(ints, BE32), ArrayEnc(words, EncString));
    assert |ArrayEnc(words, EncString)| >= 4;
    l, early := UnpackListPart(up, ints);
    assert up.data == data;
    a, d := UnpackArrayPart(up, words);
  }

  /** The array of strings _test packs. */
  const Words: seq<XdrString> := ["what", "is", "hapnin", "doctor"]

  /** In _test's message the string "hello world" takes 16 bytes and the
      array of Words 44. */
  lemma TestSizes()
    ensures |EncString("hello world")| == 16
    ensures |ArrayEnc(Words, EncString)| == 44
  {
    assert |EncodeLatin1("hello world")| == 11 && RoundUp4(11) == 12;
    assert FArrayEnc(Words, EncString) ==
      EncString(Words[0]) + (EncString(Words[1]) + (EncString(Words[2]) + (EncString(Words[3]) + [])));
  }

  /** _test's own values, without the float and the double: 9, a falsy
      bool (0), a truthy bool (7), 45, "hello world", range(5) and Words.
      The whole buffer takes 124 bytes, and everything comes back, the
      first bool false and the second true. */
  method SelfTest() returns (size: nat, u: Result<Uint32>, b0: Result<int>, b1: Result<int>,
                             h: Result<Uint64>, s: Result<XdrString>, l: Result<seq<Uint32>>,
                             a: Result<seq<XdrString>>, d: Result<()>)
    ensures size == 124
    ensures u == Ok(9) && b0 == Ok(0) && b1 == Ok(1) && h == Ok(45) && s == Ok("hello world")
    ensures l == Ok([0, 1, 2, 3, 4]) && a == Ok(Words)
    ensures d == Ok(())
  {
    var early;
    TestSizes();
    size, u, b0, b1, h, s, l, early, a, d :=
      PackUnpackMessage(9, 0, 7, 45, "hello world", [0, 1, 2, 3, 4], Words);
  }

  /** UnpackerTestCase.testUnpack_fstring: from the 8-byte buffer
      "01234\0\0\0", unpack_fstring(6) gives "01234\0" and leaves the cursor
      at 8; unpack_fstring(10) reads past the end, gives the 8 bytes and two
      zero bytes, and leaves the cursor at 12, past the end, where done()
      accepts it. */
  method ZeroExtendedFStringTest() returns (s6: Result<string>, pos6: nat, s10: Result<string>, pos10: nat,
                                            d: Result<()>)
    ensures s6 == Ok("01234\0") && pos6 == 8
    ensures s10 == Ok("01234\0\0\0\0\0") && pos10 == 12
    ensures d == Ok(())
  {
    var data: seq<Byte> := [48, 49, 50, 51, 52, 0, 0, 0];
    var up := new Unpacker(data);
    s6 := up.UnpackFString(6);
    pos6 := up.GetPosition();
    assert DecodeLatin1(Window(data, 0, 6)) == "01234\0";
    up.Reset(data);
    s10 := up.UnpackFString(10);
    assert RoundUp4(10) == 12;
    pos10 := up.GetPosition();
    assert DecodeLatin1(Window(data, 0, 10)) == "01234\0\0\0\0\0";
    d := up.Done();
  }

  /** pack_farray with a declared length of 3 and four items fails and
      leaves the buffer as it was. */
  method WrongArraySizeTest() returns (r: Result<()>, buf: seq<Byte>)
    ensures r == Err(WrongArraySize) && buf == BE32(1)
  {
    var p := new Packer();
    p.PackUint(1);
    r := p.PackFArray<Uint32>(3, [10, 20, 30, 40], BE32);
    buf := p.GetBuffer();
  }

  /** A list whose first marker is 2 is rejected. */
  method BadMarkerTest() returns (r: Result<seq<Uint32>>, pos: nat)
    ensures r == Err(BadMarker(2)) && pos == 4
  {
    var p := new Packer();
    p.PackUint(2);
    p.PackUint(0);
    var buf := p.GetBuffer();
    var up := new Unpacker(buf);
    UintCodec();
    AtMiddle([], BE32(2), BE32(0));
    ListBadMarker(UintAt, 2, buf, 0);
    r := up.UnpackList(UintAt);
    pos := up.GetPosition();
  }
}
