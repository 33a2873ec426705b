/** Newline framing of the control connection (transport.rs): the bounded line reader and the
    packet loop, specified on the byte stream and therefore independent of how it is chunked. */
module Framing {
  import opened Common
  import opened Bytes

  /** How the stream ends once its bytes are used up. */
  datatype Ending = Eof | Broken

  /** A buffered reader: `buffer` was received, `chunks` are still to come, one per read. */
  class ChunkedReader {
    var buffer: Text
    var chunks: seq<Text>
    const ending: Ending

    ghost predicate Valid()
      reads this
    {
      forall i | 0 <= i < |chunks| :: chunks[i] != []
    }

    ghost function Remaining(): Text
      reads this
    {
      buffer + Flatten(chunks)
    }

    constructor (chunks: seq<Text>, ending: Ending)
      requires forall i | 0 <= i < |chunks| :: chunks[i] != []
      ensures Valid() && Remaining() == Flatten(chunks) && this.ending == ending
    {
      buffer := [];
      this.chunks := chunks;
      this.ending := ending;
    }

    /** The buffered bytes, reading once if there are none; empty means the stream has ended. */
    method FillBuf() returns (available: Result<Text, ()>)
      requires Valid()
      modifies this
      ensures buffer <= Remaining()
      ensures Valid() && Remaining() == old(Remaining())
      ensures available.Ok? ==> available.value == buffer
      ensures available.Ok? && buffer == [] ==> Remaining() == [] && ending == Eof
      ensures available.Err? ==> Remaining() == [] && ending == Broken
    {
      if buffer == [] {
        if chunks == [] {
          return if ending == Eof then Ok([]) else Err(());
        }
        buffer, chunks := chunks[0], chunks[1..];
      }
      available := Ok(buffer);
    }

    method Consume(count: nat)
      requires Valid() && count <= |buffer|
      modifies this
      ensures Valid() && Remaining() == old(Remaining())[count..]
    {
      buffer := buffer[count..];
      assert old(buffer + Flatten(chunks))[count..] == old(buffer)[count..] + Flatten(chunks);
    }
  }

  // --- One line ------------------------------------------------------------------------------

  datatype LineResult = Line(bytes: Text) | End | TooLong | InvalidText | ReadFailed

  /** Up to and including the first newline, or all of it. */
  function FirstLine(s: Text): Text {
    if NewlineAt(s) < |s| then s[..NewlineAt(s) + 1] else s
  }

  /** Splitting the stream at its newlines, before looking at the text. */
  function Frame(s: Text, ending: Ending, max: nat): LineResult {
    if |FirstLine(s)| > max then TooLong
    else if NewlineAt(s) == |s| && ending == Broken then ReadFailed
    else if s == [] then End
    else Line(FirstLine(s))
  }

  /** Only lines of UTF-8 text are accepted. */
  function Decoded(frame: LineResult): LineResult {
    if frame.Line? && !Utf8(frame.bytes) then InvalidText else frame
  }

  function ReadLine(s: Text, ending: Ending, max: nat): LineResult {
    Decoded(Frame(s, ending, max))
  }

  /** What a line read must come to: the text up to the first newline, newline included, or up to
      the orderly end of the stream, if it is not too long and is UTF-8; else the reason. */
  predicate Outcome(s: Text, ending: Ending, max: nat, result: LineResult) {
    var p := NewlineAt(s);
    var line := if p < |s| then s[..p + 1] else s;
    if p >= max && |s| > max then result == TooLong
    else if p == |s| && ending == Broken then result == ReadFailed
    else if s == [] then result == End
    else result == if Utf8(line) then Line(line) else InvalidText
  }

  lemma NewlineBehind(a: Text, b: Text)
    requires NewlineAt(a) == |a|
    ensures NewlineAt(a + b) == |a| + NewlineAt(b)
  {
    var p, q := NewlineAt(a + b), NewlineAt(b);
    assert forall i | 0 <= i < |a| :: (a + b)[i] == a[i];
    assert forall i | |a| <= i < |a + b| :: (a + b)[i] == b[i - |a|];
    assert |a| <= p <= |a + b|;
    if q < |b| {
      assert (a + b)[|a| + q] == NEWLINE;
    }
    if p < |a + b| {
      assert b[p - |a|] == NEWLINE;
    }
  }

  lemma NewlineWithin(a: Text, b: Text)
    requires NewlineAt(a) < |a|
    ensures NewlineAt(a + b) == NewlineAt(a) && FirstLine(a + b) == FirstLine(a)
  {
    var p, q := NewlineAt(a), NewlineAt(a + b);
    assert (a + b)[p] == NEWLINE;
    assert forall i | 0 <= i < p :: (a + b)[i] == a[i];
    assert q == p;
  }

  /** Whatever the chunks, the result is that of splitting the stream, and no more than `max`
      bytes are ever held. */
  method ReadControlLine(reader: ChunkedReader, max: nat)
    returns (result: LineResult, ghost held: nat)
    requires reader.Valid()
    modifies reader
    ensures reader.Valid()
    ensures result == ReadLine(old(reader.Remaining()), reader.ending, max)
    ensures result.Line? ==> reader.Remaining() == old(reader.Remaining())[|result.bytes|..]
    ensures result.Line? ==> result.bytes != [] && |result.bytes| <= max
    ensures Outcome(old(reader.Remaining()), reader.ending, max, result)
    ensures held <= max
  {
    var frame;
    frame, held := ReadFrame(reader, max);
    result := if frame.Line? && !Utf8(frame.bytes) then InvalidText else frame;
  }

  /** The loop over the buffers. */
  method ReadFrame(reader: ChunkedReader, max: nat)
    returns (result: LineResult, ghost held: nat)
    requires reader.Valid()
    modifies reader
    ensures reader.Valid()
    ensures result == Frame(old(reader.Remaining()), reader.ending, max)
    ensures result.Line? ==> reader.Remaining() == old(reader.Remaining())[|result.bytes|..]
    ensures result.Line? ==> result.bytes != [] && |result.bytes| <= max
    ensures held <= max
  {
    ghost var stream := reader.Remaining();
    var raw: Text := [];
    ghost var ahead := stream;
    held := 0;
    assert stream[..0] == [] && stream[0..] == stream;
    while true
      invariant reader.Valid()
      invariant |raw| <= |stream| && raw == stream[..|raw|]
      invariant reader.Remaining() == ahead == stream[|raw|..]
      invariant NewlineAt(raw) == |raw| <= max
      invariant held <= max
      decreases |ahead|
    {
      var filled := reader.FillBuf();
      if filled.Err? {
        EndOfStream(stream, raw, Broken, max);
        return ReadFailed, held;
      }
      var available := filled.value;
      if available == [] {
        EndOfStream(stream, raw, Eof, max);
        return if raw == [] then End else Line(raw), held;
      }
      var lineEnd := NewlineAt(available);
      var count := if lineEnd < |available| then lineEnd + 1 else |available|;
      LineSoFar(stream, raw, available, ahead, reader.ending, max);
      if count > max - |raw| {
        return TooLong, held;
      }
      TakeFrom(stream, raw, available, ahead, count);
      reader.Consume(count);
      raw := raw + available[..count];
      ahead := ahead[count..];
      held := if |raw| > held then |raw| else held;
      if lineEnd < |available| {
        return Line(raw), held;
      }
    }
  }

  lemma EndOfStream(stream: Text, raw: Text, ending: Ending, max: nat)
    requires |raw| <= |stream| && raw == stream[..|raw|] && stream[|raw|..] == []
    requires NewlineAt(raw) == |raw| <= max
    ensures Frame(stream, ending, max) ==
            if ending == Broken then ReadFailed else if raw == [] then End else Line(raw)
  {
    assert stream == raw;
  }

  lemma TakeFrom(stream: Text, raw: Text, available: Text, ahead: Text, count: nat)
    requires |raw| <= |stream| && raw == stream[..|raw|] && ahead == stream[|raw|..]
    requires available <= ahead && count <= |available|
    ensures var taken := raw + available[..count];
            |taken| <= |stream| && taken == stream[..|taken|] && ahead[count..] == stream[|taken|..]
  {
  }

  /** What one buffer tells about the line: where it ends, or that it is longer. */
  lemma LineSoFar(stream: Text, raw: Text, available: Text, ahead: Text, ending: Ending, max: nat)
    requires NewlineAt(raw) == |raw| <= max && available != []
    requires |raw| <= |stream| && raw == stream[..|raw|] && ahead == stream[|raw|..] && available <= ahead
    ensures var end := NewlineAt(available);
            var count := if end < |available| then end + 1 else |available|;
            var line := raw + available[..count];
            && (count > max - |raw| ==> Frame(stream, ending, max) == TooLong)
            && (count <= max - |raw| && end < |available| ==>
                  Frame(stream, ending, max) == Line(line))
            && (end == |available| ==> NewlineAt(line) == |line|)
  {
    NewlineBehind(raw, available);
    var both, rest := raw + available, ahead[|available|..];
    assert stream == both + rest;
    if NewlineAt(available) < |available| {
      NewlineWithin(both, rest);
      assert FirstLine(stream) == raw + available[..NewlineAt(available) + 1];
    } else {
      NewlineBehind(both, rest);
      assert available[..|available|] == available;
    }
  }

  // --- The packet loop -----------------------------------------------------------------------

  function Packet(line: Text): seq<Text> {
    if Trim(line) != [] then [Trim(line)] else []
  }

  /** The nonempty trimmed lines up to the first line that ends the connection. */
  function PacketsOf(s: Text, ending: Ending, max: nat): seq<Text>
    decreases |s|
  {
    var result := ReadLine(s, ending, max);
    if !result.Line? then [] else Packet(result.bytes) + PacketsOf(s[|result.bytes|..], ending, max)
  }

  lemma AddPacket(packets: seq<Text>, line: Text, later: seq<Text>)
    ensures packets + (Packet(line) + later) == (if Trim(line) != [] then packets + [Trim(line)] else packets) + later
  {
  }

  function UpTo(packets: seq<Text>, n: nat): seq<Text> {
    if n < |packets| then packets[..n] else packets
  }

  /** The reading half of a connection. The core takes `accepted` packets before its channel
      closes or the writing half ends the connection. */
  method ReadPackets(reader: ChunkedReader, max: nat, accepted: nat) returns (packets: seq<Text>)
    requires reader.Valid()
    modifies reader
    ensures packets == UpTo(PacketsOf(old(reader.Remaining()), reader.ending, max), accepted)
    ensures packets <= PacketsOf(old(reader.Remaining()), reader.ending, max) && |packets| <= accepted
    ensures |packets| == accepted || packets == PacketsOf(old(reader.Remaining()), reader.ending, max)
  {
    packets := [];
    ghost var expected := PacketsOf(reader.Remaining(), reader.ending, max);
    while true
      invariant reader.Valid() && |packets| <= accepted
      invariant expected == packets + PacketsOf(reader.Remaining(), reader.ending, max)
      decreases |reader.Remaining()|
    {
      var result, _ := ReadControlLine(reader, max);
      if !result.Line? {
        break;
      }
      var raw := Trim(result.bytes);
      AddPacket(packets, result.bytes, PacketsOf(reader.Remaining(), reader.ending, max));
      if raw != [] {
        if |packets| == accepted {
          break;
        }
        packets := packets + [raw];
      }
    }
  }

  /** What a peer writes: each packet followed by a newline. */
  function Frames(packets: seq<Text>): Text {
    if packets == [] then [] else packets[0] + [NEWLINE] + Frames(packets[1..])
  }

  /** Newline-free text that starts and ends with a character JSON could, and fits. */
  predicate Framable(packet: Text, max: nat) {
    && packet != [] && NEWLINE !in packet
    && LeadingBlank(packet) == 0 && TrailingBlank(packet) == 0
    && Utf8(packet)
    && |packet| + 1 <= max
  }

  lemma FrameIsFirstLine(packet: Text, rest: Text)
    requires NEWLINE !in packet
    ensures FirstLine(packet + [NEWLINE] + rest) == packet + [NEWLINE]
    ensures NewlineAt(packet + [NEWLINE] + rest) == |packet|
  {
    var frame := packet + [NEWLINE];
    assert NewlineAt(packet) == |packet| by {
      assert forall i | 0 <= i < |packet| :: packet[i] in packet;
    }
    NewlineBehind(packet, [NEWLINE]);
    NewlineWithin(frame, rest);
    assert frame[..|packet| + 1] == frame;
  }

  lemma TrimFrame(packet: Text)
    requires packet != [] && LeadingBlank(packet) == 0 && TrailingBlank(packet) == 0
    ensures Trim(packet + [NEWLINE]) == packet
  {
    assert TrimStart(packet + [NEWLINE]) == packet + [NEWLINE];
    assert (packet + [NEWLINE])[..|packet|] == packet;
    assert TrimEnd(packet + [NEWLINE]) == TrimEnd(packet);
  }

  /** Packets written as newline-free text plus newline are read back one for one, up to the
      first one that is too long, which ends the connection. */
  lemma {:induction false} FramesAreReadBack(packets: seq<Text>, tail: Text, ending: Ending, max: nat)
    requires forall i | 0 <= i < |packets| :: Framable(packets[i], max)
    requires tail == [] || |FirstLine(tail)| > max
    ensures PacketsOf(Frames(packets) + tail, ending, max) == packets
    decreases |packets|
  {
    if packets == [] {
      NoFrame(tail, ending, max);
      assert Frames(packets) + tail == tail;
    } else {
      FramesAreReadBack(packets[1..], tail, ending, max);
      NextFrame(packets, tail, ending, max);
      assert [packets[0]] + packets[1..] == packets;
    }
  }

  lemma NoFrame(tail: Text, ending: Ending, max: nat)
    requires tail == [] || |FirstLine(tail)| > max
    ensures PacketsOf(tail, ending, max) == []
  {
  }

  lemma NextFrame(packets: seq<Text>, tail: Text, ending: Ending, max: nat)
    requires packets != [] && Framable(packets[0], max)
    ensures PacketsOf(Frames(packets) + tail, ending, max)
            == [packets[0]] + PacketsOf(Frames(packets[1..]) + tail, ending, max)
  {
    FramesCons(packets, tail);
    OneFrame(packets[0], Frames(packets[1..]) + tail, ending, max);
  }

  lemma FramesCons(packets: seq<Text>, tail: Text)
    requires packets != []
    ensures Frames(packets) + tail == packets[0] + [NEWLINE] + (Frames(packets[1..]) + tail)
  {
  }

  lemma OneFrame(packet: Text, rest: Text, ending: Ending, max: nat)
    requires Framable(packet, max)
    ensures PacketsOf(packet + [NEWLINE] + rest, ending, max) == [packet] + PacketsOf(rest, ending, max)
  {
    var frame := packet + [NEWLINE];
    FrameIsFirstLine(packet, rest);
    TrimFrame(packet);
    assert (frame + rest)[|frame|..] == rest;
    Utf8Concat(packet, [NEWLINE]);
    assert ReadLine(frame + rest, ending, max) == Line(frame);
  }

  // --- The identity line ---------------------------------------------------------------------

  const MAX_IDENTITY := 65536

  /** An unbuffered byte source: nothing is taken beyond what is read. */
  class ByteStream {
    var rest: Text

    method ReadByte() returns (b: Option<byte>)
      modifies this
      ensures old(rest) == [] ==> b == None && rest == []
      ensures old(rest) != [] ==> b == Some(old(rest)[0]) && rest == old(rest)[1..]
    {
      if rest == [] {
        return None;
      }
      b := Some(rest[0]);
      rest := rest[1..];
    }
  }

  datatype IdentityResult = Identity(raw: Text) | IdentityTooLong | IdentityCut

  /** Reads exactly through the newline, so the bytes behind it stay on the socket. */
  method ReadIdentityLine(stream: ByteStream) returns (result: IdentityResult)
    modifies stream
    ensures var s := old(stream.rest);
            var p := NewlineAt(s);
            if p < |s| && p < MAX_IDENTITY then result == Identity(s[..p]) && stream.rest == s[p + 1..]
            else result == if |s| > MAX_IDENTITY then IdentityTooLong else IdentityCut
  {
    ghost var s := stream.rest;
    var raw: Text := [];
    while true
      invariant |raw| <= MAX_IDENTITY && |raw| <= |s|
      invariant raw == s[..|raw|] && stream.rest == s[|raw|..]
      invariant NewlineAt(s) >= |raw|
      decreases |stream.rest|
    {
      var b := stream.ReadByte();
      if b.None? {
        return IdentityCut;
      }
      if |raw| >= MAX_IDENTITY {
        return IdentityTooLong;
      }
      if b.value == NEWLINE {
        break;
      }
      raw := raw + [b.value];
    }
    result := Identity(raw);
  }
}
