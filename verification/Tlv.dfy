/** The bounded two-pass TLV codec: validate the whole input, then read; size everything, then write. */
module Tlv {
  import opened Basics

  const HEADER_SIZE: nat := 3
  const MAX_VALUE_SIZE: nat := 65535
  const MAX_SEQUENCE_SIZE: nat := 65535
  const MAX_ELEMENTS: nat := MAX_SEQUENCE_SIZE / 4

  datatype Field = Field(typ: byte, value: Bytes)

  function Align4(n: nat): nat { (n + 3) / 4 * 4 }

  function Zeros(n: nat): (z: Bytes)
    ensures |z| == n && forall i :: 0 <= i < n ==> z[i] == 0
  {
    seq(n, i => 0)
  }

  /* ---------- reference meaning ---------- */

  function FieldSize(f: Field): nat { Align4(HEADER_SIZE + |f.value|) }

  function Size(fields: seq<Field>): nat {
    if fields == [] then 0 else FieldSize(fields[0]) + Size(fields[1..])
  }

  /** Type, 16-bit length, value, zeros up to a multiple of four. */
  function EncodeField(f: Field): (s: Bytes)
    ensures |s| == FieldSize(f)
  {
    [f.typ] + PutLE(|f.value|, 2) + f.value + Zeros(FieldSize(f) - HEADER_SIZE - |f.value|)
  }

  function EncodeFields(fields: seq<Field>): (s: Bytes)
    ensures |s| == Size(fields)
  {
    if fields == [] then [] else EncodeField(fields[0]) + EncodeFields(fields[1..])
  }

  /** The declared length of the value at the front of data. */
  function ValueLen(data: Bytes): uint16
    requires |data| >= HEADER_SIZE
  {
    var low: int, high: int := data[1], data[2];
    low + 256 * high
  }

  /** data is a concatenation of aligned fields; alignment octets may hold anything. */
  ghost predicate WellFormed(data: Bytes) {
    data != [] ==>
      && |data| >= HEADER_SIZE
      && Align4(HEADER_SIZE + ValueLen(data)) <= |data|
      && WellFormed(data[Align4(HEADER_SIZE + ValueLen(data))..])
  }

  ghost function Fields(data: Bytes): seq<Field>
    requires WellFormed(data)
  {
    if data == [] then []
    else
      var n := ValueLen(data);
      [Field(data[0], data[HEADER_SIZE..HEADER_SIZE + n])] + Fields(data[Align4(HEADER_SIZE + n)..])
  }

  /** Octet k of well-formed data lies in the alignment gap after some value. */
  ghost predicate IsAlignment(data: Bytes, k: nat)
    requires WellFormed(data) && k < |data|
  {
    var n := HEADER_SIZE + ValueLen(data);
    if k < Align4(n) then k >= n else IsAlignment(data[Align4(n)..], k - Align4(n))
  }

  /* ---------- encoder ---------- */

  /** Running size check of one more value, without overflow: value limit first, then capacity. */
  function AddLen(total: nat, valueLen: nat): Result<nat>
    requires total <= MAX_SEQUENCE_SIZE
  {
    if valueLen > MAX_VALUE_SIZE then Err(TlvValueTooLarge)
    else if Align4(HEADER_SIZE + valueLen) > MAX_SEQUENCE_SIZE - total then Err(TlvSequenceLimit)
    else Ok(total + Align4(HEADER_SIZE + valueLen))
  }

  function SumLen(fields: seq<Field>, total: nat): (r: Result<nat>)
    requires total <= MAX_SEQUENCE_SIZE
    ensures r.Ok? ==> total <= r.value <= MAX_SEQUENCE_SIZE
    ensures r.Err? ==> r.error in {TlvValueTooLarge, TlvSequenceLimit}
    decreases fields
  {
    if fields == [] then Ok(total)
    else
      var next :- AddLen(total, |fields[0].value|);
      SumLen(fields[1..], next)
  }

  function EncodedLen(fields: seq<Field>): Result<nat> {
    if |fields| > MAX_ELEMENTS then Err(TlvElementLimit) else SumLen(fields, 0)
  }

  function Encode(fields: seq<Field>): Result<Bytes> {
    var total :- EncodedLen(fields);
    Ok(EncodeFields(fields))
  }

  lemma {:induction false} SumLenExact(fields: seq<Field>, total: nat)
    requires total <= MAX_SEQUENCE_SIZE
    ensures SumLen(fields, total).Ok? <==> total + Size(fields) <= MAX_SEQUENCE_SIZE
    ensures SumLen(fields, total).Ok? ==> SumLen(fields, total).value == total + Size(fields)
    decreases fields
  {
    if fields != [] {
      var r := AddLen(total, |fields[0].value|);
      if r.Ok? { SumLenExact(fields[1..], r.value); }
    }
  }

  lemma {:induction false} SizeCounts(fields: seq<Field>)
    ensures Size(fields) >= 4 * |fields|
  {
    if fields != [] { SizeCounts(fields[1..]); }
  }

  /**
   * A list encodes exactly when its aligned size fits 65535 octets: neither the element limit
   * nor the value limit ever rejects a list the byte limit would have accepted.
   */
  lemma EncodableExactly(fields: seq<Field>)
    ensures EncodedLen(fields).Ok? <==> Size(fields) <= MAX_SEQUENCE_SIZE
    ensures EncodedLen(fields).Ok? ==> EncodedLen(fields).value == Size(fields) && |fields| <= MAX_ELEMENTS
  {
    SumLenExact(fields, 0); SizeCounts(fields);
  }

  method MeasureFields(fields: seq<Field>) returns (r: Result<nat>)
    ensures r == EncodedLen(fields)
  {
    if |fields| > MAX_ELEMENTS { return Err(TlvElementLimit); }
    var total: nat := 0;
    for i := 0 to |fields|
      invariant total <= MAX_SEQUENCE_SIZE
      invariant SumLen(fields, 0) == SumLen(fields[i..], total)
    {
      var next := AddLen(total, |fields[i].value|);
      assert fields[i..][1..] == fields[i + 1..];
      if next.Err? { return Err(next.error); }
      total := next.value;
    }
    assert fields[|fields|..] == [];
    return Ok(total);
  }

  /** Writes one field into zeroed space at offset, touching nothing else. */
  method WriteField(data: array<byte>, offset: nat, f: Field) returns (next: nat)
    requires |f.value| <= MAX_VALUE_SIZE && offset + FieldSize(f) <= data.Length
    requires forall k :: offset <= k < data.Length ==> data[k] == 0
    modifies data
    ensures next == offset + FieldSize(f)
    ensures data[..next] == old(data[..offset]) + EncodeField(f)
    ensures forall k :: next <= k < data.Length ==> data[k] == 0
  {
    ghost var before := data[..offset];
    var len := PutLE(|f.value|, 2);
    data[offset] := f.typ;
    data[offset + 1] := len[0];
    data[offset + 2] := len[1];
    forall k | 0 <= k < |f.value| { data[offset + HEADER_SIZE + k] := f.value[k]; }
    next := offset + Align4(HEADER_SIZE + |f.value|);
    assert data[..offset] == before;
    assert data[offset..next] == EncodeField(f);
    assert data[..next] == data[..offset] + data[offset..next];
  }

  lemma {:induction false} EncodeAppend(fields: seq<Field>, f: Field)
    ensures EncodeFields(fields + [f]) == EncodeFields(fields) + EncodeField(f)
    decreases fields
  {
    if fields == [] {
      assert fields + [f] == [f];
      assert EncodeFields([f]) == EncodeField(f) + EncodeFields([f][1..]);
    } else {
      assert (fields + [f])[1..] == fields[1..] + [f];
      EncodeAppend(fields[1..], f);
    }
  }

  lemma {:induction false} SizeSplit(fields: seq<Field>, i: nat)
    requires i <= |fields|
    ensures Size(fields) == Size(fields[..i]) + Size(fields[i..])
    decreases i
  {
    if i == 0 {
      assert fields[..0] == [] && fields[0..] == fields;
    } else {
      SizeSplit(fields[1..], i - 1);
      assert fields[..i][1..] == fields[1..][..i - 1] && fields[i..] == fields[1..][i - 1..];
    }
  }

  method EncodeTlvs(fields: seq<Field>) returns (r: Result<Bytes>)
    ensures r == Encode(fields)
  {
    var total := MeasureFields(fields);
    if total.Err? { return Err(total.error); }
    EncodableExactly(fields);
    var buf := new byte[total.value](i => 0);
    var offset := 0;
    for i := 0 to |fields|
      invariant offset == Size(fields[..i]) <= buf.Length == Size(fields)
      invariant buf[..offset] == EncodeFields(fields[..i])
      invariant forall k :: offset <= k < buf.Length ==> buf[k] == 0
    {
      SizeSplit(fields, i);
      assert fields[i..][0] == fields[i];
      assert fields[..i + 1] == fields[..i] + [fields[i]];
      EncodeAppend(fields[..i], fields[i]);
      offset := WriteField(buf, offset, fields[i]);
    }
    assert fields[..|fields|] == fields && buf[..offset] == buf[..];
    return Ok(buf[..]);
  }

  /* ---------- decoder ---------- */

  /** The field at the front of well-formed octets. */
  function First(data: Bytes): Field
    requires |data| >= HEADER_SIZE && HEADER_SIZE + ValueLen(data) <= |data|
  {
    Field(data[0], data[HEADER_SIZE..HEADER_SIZE + ValueLen(data)])
  }

  /** The aligned size of the field at the front, or what is wrong with it. */
  function FrontSize(data: Bytes): (r: Result<nat>)
    ensures r.Ok? ==> |data| >= HEADER_SIZE && HEADER_SIZE + ValueLen(data) <= r.value <= |data|
  {
    if |data| < HEADER_SIZE then Err(TlvTooShort)
    else if ValueLen(data) > |data| - HEADER_SIZE then Err(TlvTruncated)
    else if Align4(HEADER_SIZE + ValueLen(data)) > |data| then Err(TlvTruncated)
    else Ok(Align4(HEADER_SIZE + ValueLen(data)))
  }

  /** What one pass over the rest of the input finds, with count fields already behind it. */
  function Scan(data: Bytes, count: nat): Result<seq<Field>>
    decreases |data|
  {
    if data == [] then Ok([])
    else if count == MAX_ELEMENTS then Err(TlvElementLimit)
    else
      var size :- FrontSize(data);
      var rest :- Scan(data[size..], count + 1);
      Ok([First(data)] + rest)
  }

  function Decode(data: Bytes, maxBytes: int): Result<seq<Field>> {
    if |data| > MAX_SEQUENCE_SIZE then Err(TlvSequenceLimit)
    else if maxBytes > 0 && |data| > maxBytes then Err(TlvDecodeLimit)
    else Scan(data, 0)
  }

  lemma {:induction false} ScanExact(data: Bytes, count: nat)
    requires 4 * count + |data| <= MAX_SEQUENCE_SIZE
    ensures Scan(data, count).Ok? <==> WellFormed(data)
    ensures WellFormed(data) ==> Scan(data, count) == Ok(Fields(data))
    decreases |data|
  {
    if data == [] || |data| < HEADER_SIZE {
    } else if Align4(HEADER_SIZE + ValueLen(data)) > |data| {
      assert !WellFormed(data) && Scan(data, count).Err?;
    } else {
      var rest := data[Align4(HEADER_SIZE + ValueLen(data))..];
      assert count != MAX_ELEMENTS;
      ScanExact(rest, count + 1);
      assert Scan(data, count).Ok? <==> Scan(rest, count + 1).Ok?;
      assert WellFormed(data) <==> WellFormed(rest);
    }
  }

  /**
   * Decoding accepts exactly the well-formed inputs within the limits and returns the fields
   * written there; the element limit rejects nothing that the byte limit lets through.
   */
  lemma DecodableExactly(data: Bytes, maxBytes: int)
    ensures Decode(data, maxBytes).Ok? <==>
            |data| <= MAX_SEQUENCE_SIZE && (maxBytes > 0 ==> |data| <= maxBytes) && WellFormed(data)
    ensures Decode(data, maxBytes).Ok? ==> Decode(data, maxBytes) == Ok(Fields(data))
  {
    if |data| <= MAX_SEQUENCE_SIZE { ScanExact(data, 0); }
  }

  /** The field count of the whole input as seen with count fields behind offset. */
  function Tally(data: Bytes, offset: nat, count: nat): Result<nat>
    requires offset <= |data|
  {
    Counted(Scan(data[offset..], count), count)
  }

  function Counted(rest: Result<seq<Field>>, count: nat): Result<nat> {
    match rest
    case Ok(fields) => Ok(count + |fields|)
    case Err(error) => Err(error)
  }

  lemma AlignmentGap(n: nat)
    ensures n + (4 - n % 4) % 4 == Align4(n)
  {
  }

  /** Past one field that fits, the scan goes on with the rest. */
  lemma {:induction false} ScanStep(data: Bytes, count: nat, size: nat)
    requires data != [] && count != MAX_ELEMENTS && FrontSize(data) == Ok(size)
    ensures Counted(Scan(data, count), count) == Counted(Scan(data[size..], count + 1), count + 1)
  {
  }

  lemma {:induction false} TallyStep(data: Bytes, offset: nat, count: nat, size: nat)
    requires offset < |data| && offset + size <= |data| && count != MAX_ELEMENTS
    requires FrontSize(data[offset..]) == Ok(size)
    ensures Tally(data, offset, count) == Tally(data, offset + size, count + 1)
  {
    ScanStep(data[offset..], count, size);
    TailTail(data, offset, size);
  }

  lemma {:induction false} TallyFails(data: Bytes, offset: nat, count: nat)
    requires offset < |data|
    ensures count == MAX_ELEMENTS ==> Tally(data, offset, count) == Err(TlvElementLimit)
    ensures count != MAX_ELEMENTS && FrontSize(data[offset..]).Err? ==>
              Tally(data, offset, count) == Err(FrontSize(data[offset..]).error)
  {
  }

  lemma {:induction false} TallyEnds(data: Bytes, count: nat)
    ensures Tally(data, |data|, count) == Ok(count)
  {
  }

  lemma {:induction false} TallyAll(data: Bytes, maxBytes: int)
    requires |data| <= MAX_SEQUENCE_SIZE && (maxBytes > 0 ==> |data| <= maxBytes)
    ensures Tally(data, 0, 0) == Counted(Decode(data, maxBytes), 0)
  {
    assert data[0..] == data;
  }

  /** The checks of one field, in the order header, value, padding. */
  method CheckFront(data: Bytes, offset: nat) returns (r: Result<nat>)
    requires offset <= |data|
    ensures r == FrontSize(data[offset..])
  {
    var remaining := |data| - offset;
    if remaining < HEADER_SIZE { return Err(TlvTooShort); }
    var valueLen := ValueLen(data[offset..]);
    if valueLen > remaining - HEADER_SIZE { return Err(TlvTruncated); }
    var unpadded := HEADER_SIZE + valueLen;
    var padding := (4 - unpadded % 4) % 4;
    AlignmentGap(unpadded);
    if padding > remaining - unpadded { return Err(TlvTruncated); }
    return Ok(unpadded + padding);
  }

  /** First pass: reject the whole sequence, or count its fields, before anything is copied. */
  method Validate(data: Bytes, maxBytes: int) returns (r: Result<nat>)
    ensures r == Counted(Decode(data, maxBytes), 0)
  {
    if |data| > MAX_SEQUENCE_SIZE { return Err(TlvSequenceLimit); }
    if maxBytes > 0 && |data| > maxBytes { return Err(TlvDecodeLimit); }
    var count, offset := 0, 0;
    TallyAll(data, maxBytes);
    ghost var answer := Tally(data, 0, 0);
    while offset < |data|
      invariant offset <= |data| && Tally(data, offset, count) == answer
      decreases |data| - offset
    {
      TallyFails(data, offset, count);
      if count == MAX_ELEMENTS { return Err(TlvElementLimit); }
      var size := CheckFront(data, offset);
      if size.Err? { return Err(size.error); }
      TallyStep(data, offset, count, size.value);
      count := count + 1;
      offset := offset + size.value;
    }
    TallyEnds(data, count);
    return Ok(count);
  }

  /** Second pass: one field at a validated boundary, read without bounds checks of its own. */
  function Read(data: Bytes, offset: nat): (Field, nat)
    requires offset + HEADER_SIZE <= |data|
    requires offset + HEADER_SIZE + ValueLen(data[offset..]) <= |data|
  {
    var n := ValueLen(data[offset..]);
    (Field(data[offset], data[offset + HEADER_SIZE..offset + HEADER_SIZE + n]), offset + Align4(HEADER_SIZE + n))
  }

  lemma {:induction false} FieldsStep(data: Bytes, offset: nat)
    requires offset < |data| && WellFormed(data[offset..])
    ensures offset + HEADER_SIZE + ValueLen(data[offset..]) <= |data|
    ensures var (field, next) := Read(data, offset);
            && next <= |data| && WellFormed(data[next..])
            && Fields(data[offset..]) == [field] + Fields(data[next..])
  {
    var (field, next) := Read(data, offset);
    FieldsUnfold(data[offset..]);
    TailSlice(data, offset, HEADER_SIZE, HEADER_SIZE + |field.value|);
    TailTail(data, offset, next - offset);
  }

  lemma {:induction false} FieldsUnfold(data: Bytes)
    requires data != [] && WellFormed(data)
    ensures HEADER_SIZE + ValueLen(data) <= Align4(HEADER_SIZE + ValueLen(data)) <= |data|
    ensures var rest := data[Align4(HEADER_SIZE + ValueLen(data))..];
            WellFormed(rest) && Fields(data) == [First(data)] + Fields(rest)
  {
  }

  /** The validated count keeps every Read of the second pass inside the input. */
  method DecodeTlvs(data: Bytes, maxBytes: int) returns (r: Result<seq<Field>>)
    ensures r == Decode(data, maxBytes)
  {
    var count := Validate(data, maxBytes);
    if count.Err? { return Err(count.error); }
    DecodableExactly(data, maxBytes);
    ghost var all := Fields(data);
    var out, offset := [], 0;
    assert data[0..] == data;
    for i := 0 to count.value
      invariant offset <= |data| && WellFormed(data[offset..])
      invariant out + Fields(data[offset..]) == all && |out| == i
    {
      assert offset < |data|;
      FieldsStep(data, offset);
      var (field, next) := Read(data, offset);
      out := out + [field];
      offset := next;
    }
    assert out == all;
    return Ok(out);
  }

  /* ---------- round trips ---------- */

  lemma PutTwo(n: uint16)
    ensures PutLE(n, 2) == [n % 256, n / 256]
  {
    assert PutLE(n / 256, 1) == [n / 256] + PutLE(0, 0);
  }

  lemma FieldFront(f: Field, rest: Bytes)
    requires |f.value| <= MAX_VALUE_SIZE
    ensures var data := EncodeField(f) + rest;
            && ValueLen(data) == |f.value|
            && data[0] == f.typ
            && data[HEADER_SIZE..HEADER_SIZE + |f.value|] == f.value
            && data[FieldSize(f)..] == rest
  {
    var data := EncodeField(f) + rest;
    PutTwo(|f.value|);
    assert data[1] == PutLE(|f.value|, 2)[0] && data[2] == PutLE(|f.value|, 2)[1];
  }

  /** An encoded field in front of well-formed octets is read first. */
  lemma {:induction false} FrontWellFormed(f: Field, rest: Bytes)
    requires |f.value| <= MAX_VALUE_SIZE && WellFormed(rest)
    ensures WellFormed(EncodeField(f) + rest) && Fields(EncodeField(f) + rest) == [f] + Fields(rest)
  {
    FieldFront(f, rest);
  }

  lemma {:induction false} EncodedWellFormed(fields: seq<Field>)
    requires forall f <- fields :: |f.value| <= MAX_VALUE_SIZE
    ensures WellFormed(EncodeFields(fields)) && Fields(EncodeFields(fields)) == fields
  {
    if fields != [] {
      EncodedWellFormed(fields[1..]);
      FrontWellFormed(fields[0], EncodeFields(fields[1..]));
      assert fields == [fields[0]] + fields[1..];
    }
  }

  lemma {:induction false} SmallValues(fields: seq<Field>)
    requires Size(fields) <= MAX_SEQUENCE_SIZE
    ensures forall f <- fields :: |f.value| <= MAX_VALUE_SIZE
  {
    if fields != [] { SmallValues(fields[1..]); }
  }

  /** Decoding undoes encoding on every list that encodes, at any limit that admits the bytes. */
  lemma DecodeEncode(fields: seq<Field>, maxBytes: int)
    requires Encode(fields).Ok? && (maxBytes > 0 ==> Size(fields) <= maxBytes)
    ensures |Encode(fields).value| == Size(fields) && Decode(Encode(fields).value, maxBytes) == Ok(fields)
  {
    EncodableExactly(fields); SmallValues(fields); EncodedWellFormed(fields);
    DecodableExactly(EncodeFields(fields), maxBytes);
  }

  lemma DecodeOne(f: Field, maxBytes: int)
    requires FieldSize(f) <= MAX_SEQUENCE_SIZE && (maxBytes > 0 ==> FieldSize(f) <= maxBytes)
    ensures Decode(EncodeField(f), maxBytes) == Ok([f])
  {
    assert EncodeFields([f]) == EncodeField(f) + EncodeFields([f][1..]) == EncodeField(f);
    EncodableExactly([f]);
    DecodeEncode([f], maxBytes);
  }

  lemma HeadOctet(data: Bytes, k: nat)
    requires |data| >= HEADER_SIZE && HEADER_SIZE + ValueLen(data) <= |data|
    requires k < HEADER_SIZE + ValueLen(data)
    ensures EncodeField(First(data))[k] == data[k]
  {
    var f := First(data);
    PutTwo(|f.value|);
    if 1 <= k < 3 { assert EncodeField(f)[k] == PutLE(|f.value|, 2)[k - 1]; }
  }

  lemma GapOctet(f: Field, k: nat)
    requires HEADER_SIZE + |f.value| <= k < FieldSize(f)
    ensures EncodeField(f)[k] == 0
  {
    PutTwo(if |f.value| <= MAX_VALUE_SIZE then |f.value| else 0);
    assert EncodeField(f)[k] == Zeros(FieldSize(f) - HEADER_SIZE - |f.value|)[k - HEADER_SIZE - |f.value|];
  }

  /** Octet k of the first field's encoding followed by tail, where tail re-encodes the rest. */
  lemma {:induction false} ReencodedOctet(data: Bytes, tail: Bytes, k: nat)
    requires data != [] && WellFormed(data) && k < |data|
    requires var size := Align4(HEADER_SIZE + ValueLen(data));
             && |tail| == |data| - size
             && (k >= size ==>
                   tail[k - size] == if IsAlignment(data[size..], k - size) then 0 else data[size..][k - size])
    ensures (EncodeField(First(data)) + tail)[k] == if IsAlignment(data, k) then 0 else data[k]
  {
    var n := HEADER_SIZE + ValueLen(data);
    if k < n { HeadOctet(data, k); } else if k < Align4(n) { GapOctet(First(data), k); }
  }

  lemma {:induction false} ReencodeUnfolds(data: Bytes)
    requires data != [] && WellFormed(data)
    ensures var rest := data[Align4(HEADER_SIZE + ValueLen(data))..];
            WellFormed(rest) && EncodeFields(Fields(data)) == EncodeField(First(data)) + EncodeFields(Fields(rest))
  {
    FieldsUnfold(data);
    assert Fields(data)[1..] == Fields(data[Align4(HEADER_SIZE + ValueLen(data))..]);
  }

  lemma {:induction false} ReencodeFields(data: Bytes)
    requires WellFormed(data)
    ensures |EncodeFields(Fields(data))| == |data|
    ensures forall k :: 0 <= k < |data| ==>
              EncodeFields(Fields(data))[k] == if IsAlignment(data, k) then 0 else data[k]
    decreases |data|
  {
    if data != [] {
      var rest := data[Align4(HEADER_SIZE + ValueLen(data))..];
      ReencodeUnfolds(data);
      ReencodeFields(rest);
      forall k | 0 <= k < |data| ensures EncodeFields(Fields(data))[k] == if IsAlignment(data, k) then 0 else data[k] {
        ReencodedOctet(data, EncodeFields(Fields(rest)), k);
      }
    }
  }

  /** Re-encoding an accepted input keeps its length and changes only alignment octets, to zero. */
  lemma ReencodeAccepted(data: Bytes, maxBytes: int)
    requires Decode(data, maxBytes).Ok?
    ensures WellFormed(data) && Encode(Decode(data, maxBytes).value).Ok?
    ensures var out := Encode(Decode(data, maxBytes).value).value;
            && |out| == |data|
            && forall k :: 0 <= k < |data| ==> out[k] == if IsAlignment(data, k) then 0 else data[k]
  {
    DecodableExactly(data, maxBytes);
    ReencodeFields(data);
    EncodableExactly(Fields(data));
  }
}
