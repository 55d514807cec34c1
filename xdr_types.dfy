/** Values shared by the XDR packer and unpacker: bytes, the fixed-width
    integer ranges, the error kinds of XDRError, and the Latin-1 text
    encoding used for XDR strings. */
module XdrTypes {

  /** One octet of a wire buffer. */
  type Byte = b: int | 0 <= b < 256

  const TWO_31: int := 0x8000_0000
  const TWO_32: int := 0x1_0000_0000
  const TWO_63: int := 0x8000_0000_0000_0000
  const TWO_64: int := 0x1_0000_0000_0000_0000

  /** The range that struct format '>L' accepts and produces. */
  type Uint32 = x: int | 0 <= x < 0x1_0000_0000

  /** The range that struct format '>Q' accepts and produces. */
  type Uint64 = x: int | 0 <= x < 0x1_0000_0000_0000_0000

  /** The situations in which the codec raises XDRError (or, for
      OutOfRange, lets struct.error through); the message text is not
      modelled, only which situation it reports. */
  datatype Error =
    | ShortRead(available: nat, needed: nat)  // fewer bytes than a fixed-width read needs
    | NegativeSize                            // a fixed opaque or string of negative size
    | WrongArraySize                          // a fixed array whose item count is not the declared one
    | BadMarker(marker: Uint32)               // a list continuation marker other than 0 or 1
    | UnextractedData                         // done() with bytes left after the cursor
    | OutOfRange                              // struct.error: a number outside the struct format's range

  /** An operation either succeeds with a value or raises XDRError. */
  datatype Result<+T> = Ok(value: T) | Err(error: Error)

  /** What one read does: its outcome, and where it leaves the cursor.
      The cursor is moved even by a read that fails. */
  datatype Step<+T> = Step(result: Result<T>, next: nat)

  /** Text that the Latin-1 codec can encode: every character below 256. */
  predicate IsLatin1(s: string) {
    forall i :: 0 <= i < |s| ==> s[i] as int < 256
  }

  /** Text that pack_string accepts: Latin-1 and short enough for a 32-bit
      length prefix. */
  type XdrString = s: string | IsLatin1(s) && |s| < 0x1_0000_0000 witness ""

  /** str.encode('latin1'): one byte per character, the character's code. */
  function EncodeLatin1(s: string): (b: seq<Byte>)
    requires IsLatin1(s)
    ensures |b| == |s|
  {
    seq(|s|, i requires 0 <= i < |s| => s[i] as int)
  }

  /** bytes.decode('latin1'): one character per byte; never fails. */
  function DecodeLatin1(b: seq<Byte>): (s: string)
    ensures |s| == |b| && IsLatin1(s)
  {
    seq(|b|, i requires 0 <= i < |b| => b[i] as char)
  }

  /** Latin-1 is a bijection between bytes and characters below 256. */
  lemma Latin1RoundTrip(s: string, b: seq<Byte>)
    requires IsLatin1(s)
    ensures DecodeLatin1(EncodeLatin1(s)) == s
    ensures EncodeLatin1(DecodeLatin1(b)) == b
  {
    assert forall i :: 0 <= i < |s| ==> DecodeLatin1(EncodeLatin1(s))[i] == s[i];
    assert forall i :: 0 <= i < |b| ==> EncodeLatin1(DecodeLatin1(b))[i] == b[i];
  }
}
