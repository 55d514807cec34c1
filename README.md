# XDR codec (rpckit/xdrlib.py) in Dafny

This project models the XDR codec of `rpckit/xdrlib.py`, a Python
implementation of part of RFC 1014 (Sun's External Data Representation). The
codec has two stateful classes:

- `Packer` holds an append-only byte buffer. Every `pack_*` call appends the
  layout of its argument: 4 big-endian bytes for uint, int, enum and bool; 8
  for uhyper and hyper; fixed opaque zero-padded to a multiple of four; a
  32-bit length before variable opaque and strings; fixed and counted arrays;
  and lists written as a `1` marker before every item plus a final `0`.
- `Unpacker` holds a source buffer and a cursor. Every `unpack_*` call reads
  at the cursor and moves it. `done()` checks that nothing is left.

The Dafny model has seven modules:

- `XdrTypes` (`xdr_types.dfy`): bytes, the 32- and 64-bit ranges, the error
  kinds, `Result`, and `Step`, which pairs a read's outcome with the new
  cursor. It also holds the Latin-1 text encoding.
- `XdrLayout` (`xdr_layout.dfy`): the byte layouts `Packer` writes, as pure
  functions (`BE32`, `RoundUp4`, `FOpaque`, `EncBytes`, `ListEnc`, ...).
- `XdrDecode` (`xdr_decode.dfy`): what every `unpack_*` reads at a cursor
  position, as pure functions returning a `Step` (`UintAt`, `FOpaqueAt`,
  `ListAt`, ...).
- `XdrPacker` (`xdr_packer.dfy`): class `Packer` with `var buf: seq<Byte>`.
  Every method ensures `buf == old(buf) + <layout of its arguments>`, and
  `pack_list` and `pack_farray` are loops with invariants.
- `XdrUnpacker` (`xdr_unpacker.dfy`): class `Unpacker` with the buffer and
  `var pos: nat`. Every method is proved to return what the matching
  `XdrDecode` function returns and to leave the cursor where it says.
  `unpack_list` (a `while true` loop) and `unpack_farray` are loops with
  invariants.
- `XdrRoundTrip` (`xdr_roundtrip.dfy`): what `Packer` writes, the matching
  read at the same offset gives back, whatever surrounds it in the buffer.
  This holds for numbers, opaque data, strings, lists, fixed arrays and
  counted arrays. Lists and arrays are generic in the item codec.
- `XdrSelfTest` (`xdr_selftest.dfy`): the scenarios of `_test` and of
  `UnpackerTestCase`, as methods whose expected results follow from the
  contracts above.

The code departs from RFC 1014 in three places, and the model keeps all
three exactly as the code behaves:

- **Truncation to the padded length.** `pack_fopaque(n, s)` cuts `s` to
  `RoundUp4(n)` bytes, not to `n`. So when `s` is longer than `n`, the
  padding bytes come from `s` rather than being zeros (`FOpaque`).
- **Zero-extended reads.** `unpack_fopaque(n)` reads bytes past the end of
  the buffer as zeros instead of failing, and moves the cursor past the end
  (`Window`, `FOpaqueAt`). `done()` accepts such a cursor.
- **Cursor moves before the check.** Fixed-width reads move the cursor
  before they check the length, so a failed read still advances it
  (`WordAt`, `Unpacker.ReadWord`). A list or array read that fails leaves
  the cursor where the failing read left it.

Item callbacks are modelled as pure functions:

- `pack_item` becomes an encoder `T -> seq<Byte>`, whose bytes are appended.
- `unpack_item` becomes a reader `(seq<Byte>, nat) -> Step<T>`.
- `unpack_list` needs a reader that never moves the cursor backwards
  (`Progresses`). Every reader of this model has that property.

## Model

| member | source | states |
|---|---|---|
| `XdrTypes.EncodeLatin1` | rpckit/xdrlib.py:213 | `s.encode('latin1')` gives one byte per character, so the byte count is the character count |
| `XdrTypes.DecodeLatin1` | rpckit/xdrlib.py:346 | `data.decode('latin1')` never fails, gives one character per byte, and every character is below 256 |
| `XdrTypes.Latin1RoundTrip` | rpckit/xdrlib.py:16 | Latin-1 is a bijection: decoding the encoding of a Latin-1 text gives the text, and encoding the decoding of any bytes gives the bytes |
| `XdrLayout.FromToBE` | rpckit/xdrlib.py:275 | reading the big-endian bytes of x (as `struct.unpack` does) gives x back |
| `XdrLayout.FromBE` | rpckit/xdrlib.py:275 | `struct.unpack('>L')` (and `'>Q'` at line 302) reads n big-endian bytes as a number below 256^n |
| `XdrLayout.ToFromBE` | rpckit/xdrlib.py:275 | every byte string is the big-endian encoding of the number it denotes, so the encoding of a width is one-to-one and onto |
| `XdrLayout.BE32` | rpckit/xdrlib.py:131 | `struct.pack('>L', x)` is 4 bytes that denote x |
| `XdrLayout.BE64` | rpckit/xdrlib.py:153 | `struct.pack('>Q', x)` is 8 bytes that denote x |
| `XdrLayout.PackUintAsWritten` | rpckit/xdrlib.py:128-135 | pack_uint/pack_int for every integer: succeeds exactly for 0 <= x < 2^32, with 4 bytes that denote x; anything else is `struct.error` |
| `XdrLayout.PackUhyperAsWritten` | rpckit/xdrlib.py:148-155 | pack_uhyper/pack_hyper for every integer: succeeds exactly for 0 <= x < 2^64, with 8 bytes that denote x; anything else is `struct.error` |
| `XdrLayout.ToInt32` | rpckit/xdrlib.py:287 | the signed reading `'>l'` of an unsigned 32-bit value lies in [-2^31, 2^31) and agrees with it modulo 2^32 |
| `XdrLayout.ToInt64` | rpckit/xdrlib.py:310-311 | unpack_hyper's sign adjustment lies in [-2^63, 2^63) and agrees with its input modulo 2^64 |
| `XdrLayout.RoundUp4` | rpckit/xdrlib.py:182 | `(n + 3) // 4 * 4` is the least multiple of four that is at least n |
| `XdrLayout.FOpaque` | rpckit/xdrlib.py:180-185 | pack_fopaque writes RoundUp4(n) bytes; byte k is `s[k]` while s lasts and 0 after, so bytes of s between n and RoundUp4(n) are kept |
| `XdrLayout.EncBytes` | rpckit/xdrlib.py:195-208 | pack_bytes writes 4 + RoundUp4(len(s)) bytes |
| `XdrLayout.EncBytesLayout` | rpckit/xdrlib.py:200-206 | those bytes are the 4-byte length of s, then s itself, then zeros to the end |
| `XdrLayout.EncString` | rpckit/xdrlib.py:210-216 | pack_string writes 4 + RoundUp4(len(s)) bytes (pack_bytes of the Latin-1 encoding) |
| `XdrLayout.FArrayEnc` | rpckit/xdrlib.py:227-233 | pack_farray writes the items' encodings back to back: nothing for no items and exactly the item's encoding for one; `FArrayEncSnoc` and `FArrayRoundTrip` state the general case |
| `XdrLayout.FArrayEncSnoc` | rpckit/xdrlib.py:232-233 | one more pass of pack_farray's loop appends that item's encoding |
| `XdrLayout.Marked` | rpckit/xdrlib.py:222-224 | pack_list's loop writes at least a 4-byte marker per item |
| `XdrLayout.MarkedSnoc` | rpckit/xdrlib.py:222-224 | one more pass of pack_list's loop appends marker 1 and that item's encoding |
| `XdrLayout.ListEnc` | rpckit/xdrlib.py:220-225 | pack_list of an empty list writes the end marker 0 alone; `ListEncCons` (marker 1, the item, the rest) and `ListRoundTrip` state the general case |
| `XdrLayout.ArrayEnc` | rpckit/xdrlib.py:235-239 | pack_array writes at least the 4-byte count |
| `XdrLayout.FourByteItemSizes` | rpckit/xdrlib.py:220-233 | with 4-byte items a list of n items takes 8n + 4 bytes and a fixed array 4n bytes |
| `XdrDecode.Available` | rpckit/xdrlib.py:272-274 | the length of the slice `buf[pos:pos+need]`: `need` when the bytes are there, what is left (or 0 past the end) otherwise |
| `XdrDecode.WordAt` | rpckit/xdrlib.py:269-274 | a fixed-width read always moves the cursor by its width; it succeeds exactly when the bytes are there, with the number they denote, and otherwise fails reporting how many bytes were left |
| `XdrDecode.UintAt` | rpckit/xdrlib.py:269-279 | unpack_uint: cursor +4 always; Ok exactly when 4 bytes remain, with the value whose `'>L'` bytes are those |
| `XdrDecode.IntAt` | rpckit/xdrlib.py:281-290 | unpack_int/enum/bool: cursor +4 always; Ok exactly when 4 bytes remain, with a value in [-2^31, 2^31) whose two's-complement bytes are those |
| `XdrDecode.UhyperAt` | rpckit/xdrlib.py:295-306 | unpack_uhyper: cursor +8 always; Ok exactly when 8 bytes remain, with the value whose `'>Q'` bytes are those |
| `XdrDecode.HyperAt` | rpckit/xdrlib.py:308-312 | unpack_hyper: cursor +8 always; Ok exactly when 8 bytes remain, with a value in [-2^63, 2^63) whose two's-complement bytes are those |
| `XdrDecode.Window` | rpckit/xdrlib.py:336-341 | the slice `(buf + b'\x00' * pad_len)[i:i+n]` has n bytes, and is the plain slice `buf[i:i+n]` when the buffer holds all n bytes |
| `XdrDecode.FOpaqueAt` | rpckit/xdrlib.py:331-342 | unpack_fopaque: fails exactly for n < 0, then without moving the cursor; otherwise returns exactly n bytes (the buffer's own bytes when they are there) and moves the cursor by RoundUp4(n), even past the end |
| `XdrDecode.FOpaqueZeroExtends` | rpckit/xdrlib.py:336-341 | byte k that unpack_fopaque returns is the buffer's byte at cursor + k while the buffer lasts, and 0 past its end |
| `XdrDecode.FStringAt` | rpckit/xdrlib.py:344-347 | unpack_fstring: the cursor moves as for unpack_fopaque, it fails exactly for n < 0, and the text is the Latin-1 decoding of the bytes |
| `XdrDecode.BytesAt` | rpckit/xdrlib.py:357-364 | unpack_bytes fails exactly when the length word is cut short; on success the buffer holds the 4-byte length of the result and the cursor moves past the padded data |
| `XdrDecode.StringAt` | rpckit/xdrlib.py:349-355 | unpack_string fails exactly when the length word is cut short, leaves the cursor exactly where unpack_bytes does (past the length word and the padded data), and its text encodes to what unpack_bytes reads there |
| `XdrDecode.ListAt` | rpckit/xdrlib.py:366-381 | unpack_list moves the cursor by at least one marker |
| `XdrDecode.FArrayAt` | rpckit/xdrlib.py:383-387 | unpack_farray(n) returns exactly n items (none for n <= 0) when it succeeds |
| `XdrDecode.ArrayAt` | rpckit/xdrlib.py:389-391 | unpack_array succeeds only on a buffer whose count word is the number of items returned |
| `XdrPacker.Packer.constructor` | rpckit/xdrlib.py:117-118 | a new Packer has an empty buffer |
| `XdrPacker.Packer.Reset` | rpckit/xdrlib.py:120-121 | reset empties the buffer |
| `XdrPacker.Packer.GetBuffer` | rpckit/xdrlib.py:123-126 | get_buffer returns the bytes written so far and keeps them |
| `XdrPacker.Packer.PackUint` | rpckit/xdrlib.py:128-136 | pack_uint/int/enum append the 4 bytes of x |
| `XdrPacker.Packer.PackInt` | rpckit/xdrlib.py:128-135 | corrected pack_int: any x in [-2^31, 2^32) appends the 4 bytes of x mod 2^32 |
| `XdrPacker.Packer.PackBool` | rpckit/xdrlib.py:138-146 | pack_bool appends 00 00 00 01 for a nonzero value and 00 00 00 00 for zero |
| `XdrPacker.Packer.PackUhyper` | rpckit/xdrlib.py:148-155 | pack_uhyper/hyper append the 8 bytes of x |
| `XdrPacker.Packer.PackHyper` | rpckit/xdrlib.py:148-155 | corrected pack_hyper: any x in [-2^63, 2^64) appends the 8 bytes of x mod 2^64 |
| `XdrPacker.Packer.PackFloat` | rpckit/xdrlib.py:157-162 | pack_float appends the 4 bytes of the single-precision bit pattern |
| `XdrPacker.Packer.PackDouble` | rpckit/xdrlib.py:164-169 | pack_double appends the 8 bytes of the double-precision bit pattern |
| `XdrPacker.Packer.PackFOpaque` | rpckit/xdrlib.py:171-185 | fails exactly for n < 0 and then leaves the buffer unchanged; otherwise appends `FOpaque(n, s)` (loop with invariant over the zero fill) |
| `XdrPacker.Packer.PackFString` | rpckit/xdrlib.py:187-193 | as PackFOpaque, on the Latin-1 bytes of s |
| `XdrPacker.Packer.PackBytes` | rpckit/xdrlib.py:195-208 | pack_bytes/opaque append `EncBytes(s)` |
| `XdrPacker.Packer.PackString` | rpckit/xdrlib.py:210-216 | pack_string appends `EncString(s)` |
| `XdrPacker.Packer.PackList` | rpckit/xdrlib.py:220-225 | pack_list appends marker 1 and the item before every item, in order, then marker 0 (loop invariant: the items so far) |
| `XdrPacker.Packer.PackFArray` | rpckit/xdrlib.py:227-233 | fails exactly when there are not n items and then leaves the buffer unchanged; otherwise appends the encodings back to back (loop invariant) |
| `XdrPacker.Packer.PackArray` | rpckit/xdrlib.py:235-239 | pack_array appends the count, then the fixed array |
| `XdrPacker.Packer.PackVoid` | rpckit/xdrlib.py:241-242 | pack_void leaves the buffer unchanged |
| `XdrUnpacker.Slice` | rpckit/xdrlib.py:272 | Python's clamped slice `buf[i:j]`: `Available` bytes long, each the buffer's own byte |
| `XdrUnpacker.Unpacker.constructor` | rpckit/xdrlib.py:247-248 | a new Unpacker reads the given buffer from position 0 |
| `XdrUnpacker.Unpacker.Reset` | rpckit/xdrlib.py:250-254 | reset installs a new buffer and sets the cursor to 0 |
| `XdrUnpacker.Unpacker.GetPosition` | rpckit/xdrlib.py:256-257 | get_position returns the cursor |
| `XdrUnpacker.Unpacker.SetPosition` | rpckit/xdrlib.py:259-260 | set_position stores its argument unchecked |
| `XdrUnpacker.Unpacker.GetBuffer` | rpckit/xdrlib.py:262-263 | get_buffer returns the source buffer |
| `XdrUnpacker.Unpacker.Done` | rpckit/xdrlib.py:265-267 | done fails exactly when the cursor is before the end of the buffer |
| `XdrUnpacker.Unpacker.ReadWord` | rpckit/xdrlib.py:269-274 | the shared read of unpack_uint/int/uhyper/float/double moves the cursor first, then slices, and behaves as `WordAt` |
| `XdrUnpacker.Unpacker.UnpackUint` | rpckit/xdrlib.py:269-279 | returns what `UintAt` reads and leaves the cursor where it says |
| `XdrUnpacker.Unpacker.UnpackInt` | rpckit/xdrlib.py:281-290 | unpack_int/enum/bool behave as `IntAt` |
| `XdrUnpacker.Unpacker.UnpackVoid` | rpckit/xdrlib.py:292-293 | unpack_void returns nothing and reads nothing |
| `XdrUnpacker.Unpacker.UnpackUhyper` | rpckit/xdrlib.py:295-306 | behaves as `UhyperAt` |
| `XdrUnpacker.Unpacker.UnpackHyper` | rpckit/xdrlib.py:308-312 | behaves as `HyperAt` |
| `XdrUnpacker.Unpacker.UnpackFloat` | rpckit/xdrlib.py:314-320 | reads the 4-byte bit pattern as `UintAt` does, with the same cursor move and short-read error |
| `XdrUnpacker.Unpacker.UnpackDouble` | rpckit/xdrlib.py:322-329 | reads the 8-byte bit pattern as `UhyperAt` does |
| `XdrUnpacker.Unpacker.UnpackFOpaque` | rpckit/xdrlib.py:331-342 | the padded slice of the zero-extended buffer is exactly `FOpaqueAt` |
| `XdrUnpacker.Unpacker.UnpackFString` | rpckit/xdrlib.py:344-347 | behaves as `FStringAt` |
| `XdrUnpacker.Unpacker.UnpackString` | rpckit/xdrlib.py:349-355 | behaves as `StringAt` |
| `XdrUnpacker.Unpacker.UnpackBytes` | rpckit/xdrlib.py:357-364 | unpack_bytes/opaque behave as `BytesAt` |
| `XdrUnpacker.Unpacker.UnpackList` | rpckit/xdrlib.py:366-381 | the `while 1` loop returns what `ListAt` reads and leaves the cursor where it says (invariant: items so far, prepended to what is left) |
| `XdrUnpacker.Unpacker.UnpackFArray` | rpckit/xdrlib.py:383-387 | the loop behaves as `FArrayAt` (same invariant shape) |
| `XdrUnpacker.Unpacker.UnpackArray` | rpckit/xdrlib.py:389-391 | behaves as `ArrayAt` |
| `XdrRoundTrip.UintRoundTrip` | rpckit/xdrlib.py:269-279 | unpack_uint at the offset of a packed uint returns it and moves the cursor by 4 |
| `XdrRoundTrip.IntRoundTrip` | rpckit/xdrlib.py:281-287 | unpack_int on a packed x returns x below 2^31 and x - 2^32 from 2^31 on |
| `XdrRoundTrip.IntSignedRoundTrip` | rpckit/xdrlib.py:281-287 | unpack_int reads back every signed 32-bit value from the bytes of its value mod 2^32 |
| `XdrRoundTrip.HyperSignedRoundTrip` | rpckit/xdrlib.py:308-312 | unpack_hyper reads back every signed 64-bit value from the bytes of its value mod 2^64 |
| `XdrRoundTrip.PackIntRejectsMinusOne` | rpckit/xdrlib.py:130-133 | unpack_int reads FF FF FF FF as -1, but pack_int as written rejects -1 |
| `XdrRoundTrip.PackHyperRejectsMinusOne` | rpckit/xdrlib.py:153-155 | unpack_hyper reads eight FF bytes as -1, but pack_hyper as written rejects -1 |
| `XdrRoundTrip.BoolRoundTrip` | rpckit/xdrlib.py:138-146 | unpack_bool after pack_bool gives 1 for a nonzero value and 0 for zero |
| `XdrRoundTrip.UhyperRoundTrip` | rpckit/xdrlib.py:295-306 | unpack_uhyper at the offset of a packed uhyper returns it and moves the cursor by 8 |
| `XdrRoundTrip.HyperRoundTrip` | rpckit/xdrlib.py:308-312 | unpack_hyper on a packed x returns x below 2^63 and x - 2^64 from 2^63 on |
| `XdrRoundTrip.FOpaqueRoundTrip` | rpckit/xdrlib.py:331-342 | unpack_fopaque(n) after pack_fopaque(n, s) returns n bytes, `s[k]` while s lasts and 0 after, moves the cursor by RoundUp4(n), and returns s exactly when len(s) = n |
| `XdrRoundTrip.BytesRoundTrip` | rpckit/xdrlib.py:357-364 | unpack_bytes after pack_bytes returns the same bytes and ends past the padding |
| `XdrRoundTrip.StringRoundTrip` | rpckit/xdrlib.py:349-355 | unpack_string after pack_string returns the same text |
| `XdrRoundTrip.FStringRoundTrip` | rpckit/xdrlib.py:344-347 | unpack_fstring(n) after pack_fstring(n, s) with len(s) = n returns s |
| `XdrRoundTrip.UintCodec` | rpckit/xdrlib.py:433 | unpack_uint reads back what pack_uint writes wherever it sits, and never moves the cursor backwards: it is a valid list item codec |
| `XdrRoundTrip.StringCodec` | rpckit/xdrlib.py:434-435 | the same for unpack_string and pack_string |
| `XdrRoundTrip.ListMore` | rpckit/xdrlib.py:370-380 | one pass of unpack_list's loop: after marker 1 and an item x, the list read is x in front of the list read from where the item ended |
| `XdrRoundTrip.ListEnd` | rpckit/xdrlib.py:370-374 | unpack_list's loop leaves at marker 0 with no items, the cursor just past the marker |
| `XdrRoundTrip.ListEncCons` | rpckit/xdrlib.py:222-225 | a nonempty list is written as marker 1, its first item, then the list of the rest |
| `XdrRoundTrip.ListRoundTrip` | rpckit/xdrlib.py:366-381 | for any item codec, unpack_list after pack_list returns the same items in order and ends just past marker 0 |
| `XdrRoundTrip.FArrayRoundTrip` | rpckit/xdrlib.py:383-387 | unpack_farray(len(items)) after pack_farray returns the same items in order |
| `XdrRoundTrip.ArrayRoundTrip` | rpckit/xdrlib.py:389-391 | unpack_array after pack_array returns the same items in order |
| `XdrRoundTrip.ListBadMarker` | rpckit/xdrlib.py:374-375 | a list marker other than 0 and 1 fails with that marker, after the cursor has moved past it |
| `XdrSelfTest.PackMessage` | rpckit/xdrlib.py:396-407 | _test's packing of a uint, two bools, a uhyper, a string, a uint list and a string array gives their layouts back to back |
| `XdrSelfTest.UnpackHead` | rpckit/xdrlib.py:424-432 | the first reads of _test return the uint, each bool as 1 or 0, the uhyper and the string |
| `XdrSelfTest.UnpackListPart` | rpckit/xdrlib.py:433 | the list read returns the packed uints, and done() fails while the array is still unread |
| `XdrSelfTest.UnpackArrayPart` | rpckit/xdrlib.py:434-435 | the array read returns the words, after which done() succeeds |
| `XdrSelfTest.UnpackMessage` | rpckit/xdrlib.py:423-446 | on a buffer with the uint, the two bools, the uhyper and the string at 0, 4, 8, 12 and 20, and the list and array making up the rest, every value comes back, both bools included |
| `XdrSelfTest.UnpackTail` | rpckit/xdrlib.py:433-435 | when the list and the array make up the rest of the buffer, both come back, done() fails between them and succeeds after |
| `XdrSelfTest.PackUnpackMessage` | rpckit/xdrlib.py:395-450 | for any values, pack then unpack of _test's message (a uint, two bools, a uhyper, a string, a list, an array) returns every value and the buffer takes 20 bytes plus the string, list and array |
| `XdrSelfTest.TestSizes` | rpckit/xdrlib.py:404-406 | "hello world" packs to 16 bytes and the four words to 44 |
| `XdrSelfTest.SelfTest` | rpckit/xdrlib.py:397-435 | _test's values (floats aside, the bools falsy then truthy) take 124 bytes; every value comes back, the first bool as 0 (`not x`) and the second as 1 |
| `XdrSelfTest.ZeroExtendedFStringTest` | rpckit/xdrlib.py:455-467 | from "01234\0\0\0", unpack_fstring(6) gives "01234\0" (cursor 8) and unpack_fstring(10) gives the 8 bytes and two zeros (cursor 12, accepted by done()) |
| `XdrSelfTest.WrongArraySizeTest` | rpckit/xdrlib.py:230-231 | pack_farray with a wrong count fails and leaves the buffer as it was |
| `XdrSelfTest.BadMarkerTest` | rpckit/xdrlib.py:373-375 | a list whose first marker is 2 fails with BadMarker(2), cursor at 4 |

## Left out

- The `assert_*` coercion helpers (rpckit/xdrlib.py:42-110) and every message text: parameters are typed (`int`, `seq<Byte>`, `string`), and errors are the kinds of `XdrTypes.Error` without text. Inputs that Python would coerce or reject by type are not modelled.
- XdrPacker.Packer.PackUint: takes only 0 <= x < 2^32, standing for the `struct.error` that pack_uint, pack_int and pack_enum raise outside that range; `PackUintAsWritten` states the failing case.
- XdrPacker.Packer.PackUhyper: takes only 0 <= x < 2^64, for the same reason with `'>Q'`; `PackUhyperAsWritten` states the failing case.
- XdrPacker.Packer.PackBytes: requires len(s) < 2^32, where the length word's `struct.error` would be raised after nothing was written.
- XdrPacker.Packer.PackArray: requires fewer than 2^32 items, for the same reason.
- XdrPacker.Packer.PackString: takes only Latin-1 text shorter than 2^32 characters (`XdrString`); text with other characters fails to encode in the source, and that failure is not modelled.
- XdrPacker.Packer.PackFString: requires Latin-1 text, for the same reason.
- XdrPacker.Packer.PackBool: takes an `int` and tests it for zero, as `int(x)` then `if val:` does. The bools of _test, `None` and `'hello'`, make `int()` fail in Python 3, so both of those packs fail and _test skips their reads. The self-test keeps both bools with the values _test's checks expect, 0 for the falsy one and 7 for the truthy one, so its buffer is 124 bytes rather than the 116 that Python 3 would write.
- XdrPacker.Packer.PackFloat and XdrPacker.Packer.PackDouble, XdrUnpacker.Unpacker.UnpackFloat and XdrUnpacker.Unpacker.UnpackDouble: IEEE floating point is not modelled. These operations carry the raw 4- or 8-byte bit pattern, so the cursor movement and the short-read error are modelled, the conversion is not.
- `str_encoding` (rpckit/xdrlib.py:16) is fixed to Latin-1.
- Item callbacks are pure functions: an encoder whose bytes are appended, and a reader from buffer and cursor to a `Step`. Callbacks with other side effects are not modelled. When an item fails partway through, a list or array read reports that item's failure at the cursor where it stopped. On the packing side the encoders cannot fail, so partial writes after a failing item are not modelled.
- XdrUnpacker.Unpacker.UnpackList: requires a reader that never moves the cursor backwards (`Progresses`), without which the loop need not end.
- Negative cursor values through `set_position`: the cursor is a `nat`, and Python's negative slice indices are not modelled.
- `Unpacker.reset` raising `ValueError` for a `str` buffer: buffers are byte sequences, so that case cannot arise. The `str` buffers of `UnpackerTestCase` are read as byte buffers.
- The misspelt `XDRErrorr` of rpckit/xdrlib.py:179 and the unreachable second `raise` of rpckit/xdrlib.py:328 only change which exception or message appears.
- The printing and exception handling of `_test`, including the undefined `var` at rpckit/xdrlib.py:449; the float and double entries of `_test` are left out of the self-test.
- XdrLayout.ListEnc and XdrLayout.FArrayEnc: their own contracts state only the empty case (and, for FArrayEnc, the one-item case). The general layout is stated by `ListEncCons`, `MarkedSnoc`, `FArrayEncSnoc` and the round-trip lemmas, which keeps it out of the proofs of every caller.
- XdrDecode.ListAt, XdrDecode.FArrayAt and XdrDecode.ArrayAt: their own contracts state only the cursor and count facts; what they return is stated by the round-trip lemmas and by `ListBadMarker`.

## Findings

| source | as written | input that shows it | evidently intended | confidence | as-written member | corrected member |
|---|---|---|---|---|---|---|
| rpckit/xdrlib.py:128-135 | pack_int is pack_uint, whose `struct.pack('>L', val)` raises `struct.error` for a negative value; the `except OverflowError` fallback to `'>l'` never catches it, so pack_int rejects every negative value | pack_int(-1), although unpack_int reads FF FF FF FF as -1 | negative values written as 32-bit two's complement, as the fallback's comment says | medium: follows from Python 3's `struct` raising `struct.error`; not executed | `XdrLayout.PackUintAsWritten`, `XdrRoundTrip.PackIntRejectsMinusOne` | `XdrPacker.Packer.PackInt`, `XdrRoundTrip.IntSignedRoundTrip` |
| rpckit/xdrlib.py:148-155 | pack_hyper is pack_uhyper, whose `struct.pack('>Q', val)` raises `struct.error` for a negative value | pack_hyper(-1), although unpack_hyper reads eight FF bytes as -1 | negative values written as 64-bit two's complement, so that pack_hyper and the signed unpack_hyper agree | medium: follows from Python 3's `struct`; not executed | `XdrLayout.PackUhyperAsWritten`, `XdrRoundTrip.PackHyperRejectsMinusOne` | `XdrPacker.Packer.PackHyper`, `XdrRoundTrip.HyperSignedRoundTrip` |
