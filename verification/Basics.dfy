/** Integer widths, octets, error sentinels and little-endian fields shared by every module. */
module Basics {
  const TWO32: nat := 0x1_0000_0000
  const TWO64: nat := 0x1_0000_0000_0000_0000
  const MAX_UINT32: nat := TWO32 - 1
  const MAX_UINT64: nat := TWO64 - 1

  type byte = x: int | 0 <= x < 0x100
  type uint16 = x: int | 0 <= x < 0x1_0000
  type uint32 = x: int | 0 <= x < 0x1_0000_0000
  type uint64 = x: int | 0 <= x < 0x1_0000_0000_0000_0000

  /** The wrapping increment of an unsigned 64-bit counter. */
  function Inc(x: uint64): uint64 { if x == MAX_UINT64 then 0 else x + 1 }

  type Bytes = seq<byte>

  datatype Option<+T> = None | Some(value: T)

  /** The sentinels a caller can observe; wrapping and error text are not modelled. */
  datatype Error =
    | ReplayZero | ReplayDuplicate | ReplayTooOld | ReplayStale
    | TlvTooShort | TlvTruncated | TlvValueTooLarge | TlvDecodeLimit | TlvSequenceLimit | TlvElementLimit
    | HeaderTooShort | InvalidMagic | UnsupportedVersion | ReservedFlags | PaddingFlag | FrameTooLarge
    | FrameTooShort | FrameLengthMismatch | PayloadTooLarge | TagLength | PaddingLength
    | MessageTooShort | MessageLength | MessageReserved | InvalidPingResponse | AckCount | InvalidUtf8
    | ReasonTooLong | UnknownMessageTlv | DuplicateMessageTlv | InvalidCloseCode
    | UnencryptedType | InvalidSequence | InvalidSessionId | Authentication | RandomSource
    | InvalidEpoch | EpochExhausted | KeyConfirmFailed
    | SessionClosed | WrongSession | SequenceExhausted | MessageTypeMismatch | RekeyPending
    | TransportFailed | Eof | UnexpectedEof | UnsupportedCipher

  datatype Result<+T> = Ok(value: T) | Err(error: Error) {
    predicate IsFailure() { Err? }
    function PropagateFailure<U>(): Result<U> requires Err? { Err(error) }
    function Extract(): T requires Ok? { value }
  }

  function Pow256(n: nat): nat {
    if n == 0 then 1 else 256 * Pow256(n - 1)
  }

  /** The n low octets of v, least significant first. */
  function PutLE(v: nat, n: nat): (s: Bytes)
    ensures |s| == n
  {
    if n == 0 then [] else [v % 256] + PutLE(v / 256, n - 1)
  }

  function GetLE(s: Bytes): nat {
    if s == [] then 0 else s[0] + 256 * GetLE(s[1..])
  }

  lemma GetLEBound(s: Bytes)
    ensures GetLE(s) < Pow256(|s|)
  {
    if s != [] { GetLEBound(s[1..]); }
  }

  lemma {:induction false} GetPutLE(v: nat, n: nat)
    requires v < Pow256(n)
    ensures GetLE(PutLE(v, n)) == v
  {
    if n > 0 {
      GetPutLE(v / 256, n - 1);
      assert PutLE(v, n)[1..] == PutLE(v / 256, n - 1);
    }
  }

  lemma {:induction false} PutGetLE(s: Bytes)
    ensures PutLE(GetLE(s), |s|) == s
  {
    if s != [] {
      PutGetLE(s[1..]);
      var v := GetLE(s);
      assert v % 256 == s[0] && v / 256 == GetLE(s[1..]);
      assert s == [s[0]] + s[1..];
    }
  }

  /** A slice of a tail is a slice of the whole. */
  lemma TailSlice(s: Bytes, a: nat, i: nat, j: nat)
    requires i <= j && a + j <= |s|
    ensures s[a..][i..j] == s[a + i..a + j]
  {
  }

  lemma TailTail(s: Bytes, a: nat, i: nat)
    requires a + i <= |s|
    ensures s[a..][i..] == s[a + i..]
  {
  }

  lemma FieldWidths()
    ensures Pow256(2) == 0x1_0000 && Pow256(4) == TWO32 && Pow256(8) == TWO64
  {
    assert Pow256(3) == 256 * Pow256(2) && Pow256(5) == 256 * Pow256(4);
    assert Pow256(6) == 256 * Pow256(5) && Pow256(7) == 256 * Pow256(6);
  }

  function Get16(s: Bytes): (v: uint16)
    requires |s| == 2
    ensures v == GetLE(s)
  {
    FieldWidths(); GetLEBound(s);
    GetLE(s)
  }

  function Get32(s: Bytes): (v: uint32)
    requires |s| == 4
    ensures v == GetLE(s)
  {
    FieldWidths(); GetLEBound(s);
    GetLE(s)
  }

  function Get64(s: Bytes): (v: uint64)
    requires |s| == 8
    ensures v == GetLE(s)
  {
    FieldWidths(); GetLEBound(s);
    GetLE(s)
  }
}
