/** Frames over a byte stream: no length prefix, arbitrary fragmentation, short writes. */
module Transport {
  import opened Basics
  import opened Frames

  function Join(segments: seq<Bytes>): Bytes {
    if segments == [] then [] else segments[0] + Join(segments[1..])
  }

  /** What one conn.Write call does with the octets offered: takes n of them, or fails after taking n. */
  datatype WriteOutcome = Wrote(n: nat) | WriteFailed(n: nat)

  /** How a full read that finds only these octets fails: at once, or in the middle. */
  function Short(got: Bytes): Error { if got == [] then Eof else UnexpectedEof }

  /** Splits one frame off the front of everything the peer sent. */
  function ReadOne(stream: Bytes): Result<(Frame, Bytes)> {
    if |stream| < HEADER_SIZE then Err(Short(stream))
    else
      var header :- UnmarshalHeader(stream[..HEADER_SIZE]);
      if |stream| < header.FrameSize() then Err(Short(stream[HEADER_SIZE..]))
      else
        var frame :- UnmarshalFrame(stream[..header.FrameSize()]);
        Ok((frame, stream[header.FrameSize()..]))
  }

  /** The socket as seen by one transport: segments still to arrive, octets already sent. */
  class Socket {
    var incoming: seq<Bytes>
    var outgoing: Bytes

    constructor (segments: seq<Bytes>)
      ensures incoming == segments && outgoing == []
    {
      incoming, outgoing := segments, [];
    }

    /** One read of at most n octets, from the segment that arrived first. */
    method ReadSome(n: nat) returns (part: Bytes)
      requires incoming != []
      modifies this`incoming
      ensures part + Join(incoming) == old(Join(incoming)) && |part| <= n
      ensures |part| == n || |incoming| < old(|incoming|)
    {
      var first, rest := incoming[0], incoming[1..];
      var take := if |first| <= n then |first| else n;
      JoinTake(incoming, take);
      part := first[..take];
      incoming := if take == |first| then rest else [first[take..]] + rest;
    }

    /** Collects exactly n octets from however many segments they span. */
    method ReadFull(n: nat) returns (r: Result<Bytes>)
      modifies this`incoming
      ensures r.Ok? <==> n <= |old(Join(incoming))|
      ensures r.Ok? ==> r.value == old(Join(incoming))[..n] && Join(incoming) == old(Join(incoming))[n..]
      ensures r.Err? ==> r.error == Short(old(Join(incoming)))
    {
      ghost var all := Join(incoming);
      var got := [];
      while |got| < n
        invariant |got| <= n && got + Join(incoming) == all
        decreases n - |got|, |incoming|
      {
        if incoming == [] {
          assert got == all;
          return Err(Short(got));
        }
        var part := ReadSome(n - |got|);
        Regroup(got, part, Join(incoming));
        got := got + part;
      }
      assert got == all[..n] && Join(incoming) == all[n..];
      return Ok(got);
    }

    /** The frame read depends on the octets alone, never on where the network cut them. */
    method ReadFrame() returns (r: Result<Frame>)
      modifies this`incoming
      ensures match ReadOne(old(Join(incoming)))
              case Ok((frame, rest)) => r == Ok(frame) && Join(incoming) == rest
              case Err(error) => r == Err(error)
    {
      ghost var stream := Join(incoming);
      var headerWire := ReadFull(HEADER_SIZE);
      if headerWire.Err? { return Err(headerWire.error); }
      var header := UnmarshalHeader(headerWire.value);
      if header.Err? { return Err(header.error); }
      var size := header.value.FrameSize();
      var body := ReadFull(size - HEADER_SIZE);
      if body.Err? { return Err(body.error); }
      JoinPrefix(stream, HEADER_SIZE, size);
      r := UnmarshalFrame(headerWire.value + body.value);
      assert stream[HEADER_SIZE..][size - HEADER_SIZE..] == stream[size..];
    }

    /** The partial-write loop; net(i) is what the i-th conn.Write call does. */
    method WriteAll(whole: Bytes, net: nat -> WriteOutcome) returns (r: Result<()>)
      modifies this`outgoing
      ensures r.Ok? ==> outgoing == old(outgoing) + whole
      ensures r.Err? ==> SentPrefix(old(outgoing), whole, outgoing)
      ensures KeepsTaking(net) ==> r.Ok?
    {
      var wire, call := whole, 0;
      while |wire| != 0
        invariant |wire| <= |whole| && wire == whole[|whole| - |wire|..]
        invariant outgoing == old(outgoing) + whole[..|whole| - |wire|]
        decreases |wire|
      {
        var outcome := net(call);
        var n := if outcome.n <= |wire| then outcome.n else |wire|;
        ghost var sent := |whole| - |wire|;
        assert whole[..sent] + wire[..n] == whole[..sent + n];
        outgoing := outgoing + wire[..n];
        if outcome.WriteFailed? || n == 0 {
          assert outgoing == old(outgoing) + whole[..sent + n];
          return Err(TransportFailed);
        }
        wire, call := wire[n..], call + 1;
      }
      assert whole[..|whole|] == whole;
      return Ok(());
    }

    /** Success means every octet went out in order; failure leaves a prefix of the frame on the wire. */
    method WriteFrame(frame: Frame, net: nat -> WriteOutcome) returns (r: Result<()>)
      modifies this`outgoing
      ensures MarshalFrame(frame).Err? ==> r == Err(MarshalFrame(frame).error) && outgoing == old(outgoing)
      ensures r.Ok? ==> MarshalFrame(frame).Ok? && outgoing == old(outgoing) + MarshalFrame(frame).value
      ensures MarshalFrame(frame).Ok? && r.Err? ==> SentPrefix(old(outgoing), MarshalFrame(frame).value, outgoing)
      ensures MarshalFrame(frame).Ok? && KeepsTaking(net) ==> r.Ok?
    {
      var encoded := MarshalFrame(frame);
      if encoded.Err? { return Err(encoded.error); }
      r := WriteAll(encoded.value, net);
    }

    /** Writes frames one after another until one fails; nets(i) is the network during the i-th frame. */
    method WriteFrames(frames: seq<Frame>, nets: nat -> nat -> WriteOutcome) returns (r: Result<()>)
      requires forall f <- frames :: Canonical(f)
      modifies this`outgoing
      ensures r.Ok? ==> outgoing == old(outgoing) + Wire(frames)
      ensures SentPrefix(old(outgoing), Wire(frames), outgoing)
      ensures (forall i: nat :: KeepsTaking(nets(i))) ==> r.Ok?
    {
      for i := 0 to |frames|
        invariant outgoing == old(outgoing) + Wire(frames[..i])
      {
        assert frames[i] in frames;
        ghost var first := EncodeFrame(frames[i]);
        WireSplits(frames, i);
        r := WriteFrame(frames[i], nets(i));
        if r.Err? {
          SentWithin(old(outgoing), Wire(frames[..i]), first, Wire(frames), outgoing);
          return;
        }
        Regroup(old(outgoing), Wire(frames[..i]), first);
      }
      assert frames[..|frames|] == frames;
      SentWhole(old(outgoing), Wire(frames));
      return Ok(());
    }

    /** Reads frames until the stream ends or cannot be read. */
    method ReadFrames() returns (frames: seq<Frame>, last: Error)
      modifies this`incoming
      ensures frames == ReadAll(old(Join(incoming)))
    {
      frames := [];
      while true
        invariant frames + ReadAll(Join(incoming)) == ReadAll(old(Join(incoming)))
        decreases |Join(incoming)|
      {
        ReadAllUnfolds(Join(incoming));
        var r := ReadFrame();
        if r.Err? { return frames, r.error; }
        Append(frames, r.value, ReadAll(Join(incoming)));
        frames := frames + [r.value];
      }
    }
  }

  /** However little at a time, every write takes something. */
  ghost predicate KeepsTaking(net: nat -> WriteOutcome) { forall i: nat :: net(i).Wrote? && net(i).n > 0 }

  lemma {:induction false} WireSplits(frames: seq<Frame>, i: nat)
    requires i < |frames|
    ensures Wire(frames[..i + 1]) == Wire(frames[..i]) + EncodeFrame(frames[i])
    ensures Wire(frames[..i]) + EncodeFrame(frames[i]) <= Wire(frames)
  {
    var front, rest := frames[..i + 1], frames[i + 1..];
    assert front == frames[..i] + [frames[i]] && frames == front + rest;
    WireJoins(frames[..i], [frames[i]]);
    WireOne(frames[i]);
    WireJoins(front, rest);
  }

  lemma WireOne(f: Frame)
    ensures Wire([f]) == EncodeFrame(f)
  {
    assert [f][1..] == [];
  }

  lemma {:induction false} WireJoins(a: seq<Frame>, b: seq<Frame>)
    ensures Wire(a + b) == Wire(a) + Wire(b)
  {
    if a == [] {
      assert a + b == b;
    } else {
      assert (a + b)[1..] == a[1..] + b;
      WireJoins(a[1..], b);
    }
  }

  lemma Regroup(a: Bytes, b: Bytes, c: Bytes)
    ensures a + b + c == a + (b + c)
  {
  }

  lemma SentWhole(before: Bytes, whole: Bytes)
    ensures SentPrefix(before, whole, before + whole)
  {
    assert whole == whole[..|whole|];
  }

  lemma SentWithin(before: Bytes, done: Bytes, part: Bytes, whole: Bytes, after: Bytes)
    requires SentPrefix(before + done, part, after) && done + part <= whole
    ensures SentPrefix(before, whole, after)
  {
    var k :| 0 <= k <= |part| && after == before + done + part[..k];
    assert whole[..|done| + k] == done + part[..k];
    assert after == before + whole[..|done| + k];
  }

  lemma JoinTake(segments: seq<Bytes>, n: nat)
    requires segments != [] && n <= |segments[0]|
    ensures Join(segments) == segments[0][..n] + Join([segments[0][n..]] + segments[1..])
    ensures n == |segments[0]| ==> Join([segments[0][n..]] + segments[1..]) == Join(segments[1..])
  {
    var first, rest := segments[0], segments[1..];
    JoinCons(first[n..], rest);
    assert first == first[..n] + first[n..];
    assert first[..n] + first[n..] + Join(rest) == first[..n] + (first[n..] + Join(rest));
  }

  lemma JoinCons(first: Bytes, rest: seq<Bytes>)
    ensures Join([first] + rest) == first + Join(rest)
  {
    assert ([first] + rest)[1..] == rest;
  }

  lemma JoinPrefix(s: Bytes, i: nat, j: nat)
    requires i <= j <= |s|
    ensures s[..i] + s[i..][..j - i] == s[..j]
  {
  }

  ghost predicate SentPrefix(before: Bytes, whole: Bytes, after: Bytes) {
    exists k :: 0 <= k <= |whole| && after == before + whole[..k]
  }

  /* ---------- lists of frames ---------- */

  function Wire(frames: seq<Frame>): Bytes {
    if frames == [] then [] else EncodeFrame(frames[0]) + Wire(frames[1..])
  }

  /** Reads frames until the stream is exhausted or unreadable. */
  function ReadAll(stream: Bytes): seq<Frame>
    decreases |stream|
  {
    match ReadOne(stream)
    case Ok((frame, rest)) => [frame] + ReadAll(rest)
    case Err(_) => []
  }

  lemma {:induction false} ReadAllUnfolds(stream: Bytes)
    ensures match ReadOne(stream)
            case Ok((frame, rest)) => |rest| < |stream| && ReadAll(stream) == [frame] + ReadAll(rest)
            case Err(_) => ReadAll(stream) == []
  {
  }

  lemma Append(a: seq<Frame>, f: Frame, b: seq<Frame>)
    ensures a + ([f] + b) == a + [f] + b
  {
  }

  lemma ReadOneWritten(f: Frame, rest: Bytes)
    requires Canonical(f)
    ensures ReadOne(EncodeFrame(f) + rest) == Ok((f, rest))
  {
    var wire := EncodeFrame(f);
    MarshalSize(f);
    UnmarshalMarshalHeader(f.header, true);
    UnmarshalMarshal(f);
    assert (wire + rest)[..HEADER_SIZE] == EncodeHeader(f.header);
    assert (wire + rest)[..|wire|] == wire;
  }

  /**
   * A cut inside the first frame reads as end of stream, never as another frame; right after the header it looks
   * clean.
   */
  lemma ReadOnePartial(f: Frame, part: Bytes)
    requires Canonical(f) && part <= EncodeFrame(f) && part != EncodeFrame(f)
    ensures ReadOne(part) == Err(if |part| == 0 || |part| == HEADER_SIZE then Eof else UnexpectedEof)
  {
    MarshalSize(f);
    if |part| >= HEADER_SIZE {
      assert part[..HEADER_SIZE] == EncodeHeader(f.header);
      UnmarshalMarshalHeader(f.header, true);
    }
  }

  /**
   * Whatever prefix of the written octets has arrived, the frames read back are a prefix of
   * the frames written; once all octets are there, they are exactly those frames.
   */
  lemma {:induction false} ReadBackWritten(frames: seq<Frame>, arrived: Bytes)
    requires forall f <- frames :: Canonical(f)
    requires arrived <= Wire(frames)
    ensures ReadAll(arrived) <= frames
    ensures arrived == Wire(frames) ==> ReadAll(arrived) == frames
    decreases frames
  {
    if frames == [] {
      assert arrived == [];
    } else {
      assert frames[0] in frames && frames == [frames[0]] + frames[1..];
      ReadAllFront(frames[0], Wire(frames[1..]), arrived);
      var size := |EncodeFrame(frames[0])|;
      if |arrived| >= size { ReadBackWritten(frames[1..], arrived[size..]); }
    }
  }

  lemma {:induction false} ReadAllFront(f: Frame, more: Bytes, arrived: Bytes)
    requires Canonical(f) && arrived <= EncodeFrame(f) + more
    ensures var size := |EncodeFrame(f)|;
            if |arrived| < size then ReadAll(arrived) == []
            else
              && arrived[size..] <= more && ReadAll(arrived) == [f] + ReadAll(arrived[size..])
              && (arrived == EncodeFrame(f) + more ==> arrived[size..] == more)
  {
    var first := EncodeFrame(f);
    if |arrived| < |first| {
      assert arrived == first[..|arrived|];
      ReadAllPartial(f, arrived);
    } else {
      PrefixTail(arrived, first, more);
      ReadAllWritten(f, arrived[|first|..]);
    }
  }

  lemma {:induction false} ReadAllPartial(f: Frame, part: Bytes)
    requires Canonical(f) && part <= EncodeFrame(f) && part != EncodeFrame(f)
    ensures ReadAll(part) == []
  {
    ReadOnePartial(f, part);
    ReadAllUnfolds(part);
  }

  lemma {:induction false} ReadAllWritten(f: Frame, rest: Bytes)
    requires Canonical(f)
    ensures ReadAll(EncodeFrame(f) + rest) == [f] + ReadAll(rest)
  {
    ReadOneWritten(f, rest);
    ReadAllUnfolds(EncodeFrame(f) + rest);
  }

  lemma PrefixTail(arrived: Bytes, first: Bytes, more: Bytes)
    requires arrived <= first + more && |arrived| >= |first|
    ensures arrived == first + arrived[|first|..] && arrived[|first|..] <= more
    ensures arrived == first + more ==> arrived[|first|..] == more
  {
    assert arrived == (first + more)[..|arrived|];
    assert arrived[..|first|] == first;
    assert arrived[|first|..] == more[..|arrived| - |first|];
  }

  /**
   * Through two sockets: whatever the writer's network takes at a time and wherever the reader's cuts, the frames read
   * are a prefix of the frames written, and all of them if every write went through.
   */
  method Transfer(frames: seq<Frame>, nets: nat -> nat -> WriteOutcome, cut: Bytes -> seq<Bytes>) returns (sent: bool,
                  got: seq<Frame>)
    requires forall f <- frames :: Canonical(f)
    requires forall octets :: Join(cut(octets)) == octets
    ensures got <= frames && (sent ==> got == frames)
    ensures (forall i: nat :: KeepsTaking(nets(i))) ==> sent
  {
    var writer := new Socket([]);
    var written := writer.WriteFrames(frames, nets);
    var reader := new Socket(cut(writer.outgoing));
    var last;
    got, last := reader.ReadFrames();
    assert [] + Wire(frames) == Wire(frames);
    assert writer.outgoing <= Wire(frames);
    ReadBackWritten(frames, writer.outgoing);
    return written.Ok?, got;
  }
}
