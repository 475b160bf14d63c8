// Undoing Docker's multiplexed stream framing (internal/task/planner.go,
// stripDockerLogHeaders; Docker Engine API, ContainerAttach, "Stream format").
module DockerFrames {
  import opened Basics

  const HEADER: nat := 8

  // One frame: stream type 0-2, then the payload.
  datatype Frame = Frame(stream: byte, payload: Bytes)

  predicate Encodable(f: Frame) {
    f.stream <= 2 && |f.payload| < 0x1_0000_0000
  }

  function BigEndian(n: nat): Bytes
    requires n < 0x1_0000_0000
  {
    [(n / 0x100_0000) as byte, (n / 0x1_0000 % 0x100) as byte, (n / 0x100 % 0x100) as byte, (n % 0x100) as byte]
  }

  function Encode(f: Frame): Bytes
    requires Encodable(f)
  {
    [f.stream, 0, 0, 0] + BigEndian(|f.payload|) + f.payload
  }

  function EncodeAll(frames: seq<Frame>): Bytes
    requires forall f :: f in frames ==> Encodable(f)
  {
    if frames == [] then [] else Encode(frames[0]) + EncodeAll(frames[1..])
  }

  function Payloads(frames: seq<Frame>): Bytes {
    if frames == [] then [] else frames[0].payload + Payloads(frames[1..])
  }

  predicate LooksFramed(data: Bytes) {
    |data| >= HEADER && data[0] <= 2 && data[1] == 0 && data[2] == 0 && data[3] == 0
  }

  function DeclaredSize(data: Bytes): nat
    requires |data| >= HEADER
  {
    data[4] as nat * 0x100_0000 + data[5] as nat * 0x1_0000 + data[6] as nat * 0x100 + data[7] as nat
  }

  // How a byte string that does not start with a whole frame ends: too short for a
  // header, not framed at all, or a frame whose payload has been cut off.
  predicate IsRest(data: Bytes) {
    LooksFramed(data) ==> DeclaredSize(data) > |data| - HEADER
  }

  // What the rest contributes: raw bytes are kept, a cut payload is kept as far as
  // it goes, and fewer than eight trailing bytes are dropped.
  function RestOutput(data: Bytes): Bytes {
    if |data| < HEADER then []
    else if LooksFramed(data) then data[HEADER..]
    else data
  }

  // The source's loop and the two raw cases around it.
  method StripDockerLogHeaders(input: Bytes) returns (output: Bytes)
    ensures output == Stripped(input)
    ensures Raw(input) ==> output == input
  {
    RawStays(input);
    hide Raw;
    if |input| < HEADER {
      return input;
    }
    if input[0] > 2 || input[1] != 0 || input[2] != 0 || input[3] != 0 {
      return input;
    }
    DemuxEnds();
    hide Demux, Leftover, DeclaredSize;
    var data := input;
    var result: Bytes := [];
    while |data| >= HEADER
      invariant result + Demux(data) == Demux(input)
      invariant Leftover(data) == Leftover(input)
      decreases |data|
    {
      if data[0] > 2 || data[1] != 0 || data[2] != 0 || data[3] != 0 {
        result := result + data;
        if |result| == 0 {
          return data;
        }
        return result;
      }
      DemuxStep(data);
      var size := DeclaredSize(data);
      data := data[HEADER..];
      if size > |data| {
        size := |data|;
      }
      Associative(result, data[..size], Demux(data[size..]));
      result := result + data[..size];
      data := data[size..];
    }
    if |result| == 0 {
      return data;
    }
    return result;
  }

  // The bytes the loop collects.
  function Demux(data: Bytes): Bytes
    decreases |data|
  {
    if |data| < HEADER then []
    else if !LooksFramed(data) then data
    else if DeclaredSize(data) > |data| - HEADER then data[HEADER..]
    else data[HEADER..HEADER + DeclaredSize(data)] + Demux(data[HEADER + DeclaredSize(data)..])
  }

  // The bytes the loop leaves unread.
  function Leftover(data: Bytes): Bytes
    decreases |data|
  {
    if |data| < HEADER then data
    else if !LooksFramed(data) || DeclaredSize(data) > |data| - HEADER then []
    else Leftover(data[HEADER + DeclaredSize(data)..])
  }

  function Stripped(data: Bytes): Bytes {
    if !LooksFramed(data) then data
    else if Demux(data) == [] then Leftover(data)
    else Demux(data)
  }

  // Output that no frame header starts.
  predicate Raw(data: Bytes) {
    |data| < 8 || data[0] > 2 || data[1..4] != [0, 0, 0]
  }

  lemma RawStays(data: Bytes)
    ensures Raw(data) ==> Stripped(data) == data
  {
    if |data| >= HEADER && LooksFramed(data) {
      assert data[1..4] == [0, 0, 0];
    }
  }

  lemma Associative(a: Bytes, b: Bytes, c: Bytes)
    ensures (a + b) + c == a + (b + c)
  {
  }

  // Where the loop stops.
  lemma DemuxEnds()
    ensures forall data: Bytes :: |data| < HEADER ==> Demux(data) == [] && Leftover(data) == data
    ensures forall data: Bytes :: |data| >= HEADER && !LooksFramed(data) ==> Demux(data) == data && Leftover(data) == []
  {
  }

  // One turn of the loop, with the size clamped to what is there.
  lemma DemuxStep(data: Bytes)
    requires LooksFramed(data)
    ensures var body := data[HEADER..];
      var size := if DeclaredSize(data) > |body| then |body| else DeclaredSize(data);
      && Demux(data) == body[..size] + Demux(body[size..])
      && Leftover(data) == Leftover(body[size..])
  {
    var body := data[HEADER..];
    if DeclaredSize(data) > |body| {
      assert body[..|body|] == body && body[|body|..] == [];
    } else {
      var size := DeclaredSize(data);
      assert body[..size] == data[HEADER..HEADER + size] && body[size..] == data[HEADER + size..];
    }
  }

  // ---------- the encoding is undone ----------

  lemma BigEndianDecodes(n: nat)
    requires n < 0x1_0000_0000
    ensures var b := BigEndian(n);
      b[0] as nat * 0x100_0000 + b[1] as nat * 0x1_0000 + b[2] as nat * 0x100 + b[3] as nat == n
  {
    assert n / 0x1_0000 == (n / 0x100_0000) * 0x100 + n / 0x1_0000 % 0x100 by {
      assert n / 0x1_0000 / 0x100 == n / 0x100_0000;
    }
    assert n / 0x100 == (n / 0x1_0000) * 0x100 + n / 0x100 % 0x100 by {
      assert n / 0x100 / 0x100 == n / 0x1_0000;
    }
  }

  // The format itself: the stream, three zero bytes, the length with its high byte first,
  // the payload.
  lemma WireFormat(f: Frame)
    requires Encodable(f)
    ensures var e := Encode(f);
      && |e| == 8 + |f.payload| && e[0] == f.stream && e[1..4] == [0, 0, 0] && e[8..] == f.payload
      && |f.payload| == 16777216 * e[4] as int + 65536 * e[5] as int + 256 * e[6] as int + e[7] as int
  {
    BigEndianDecodes(|f.payload|);
  }

  lemma EncodedHead(f: Frame, rest: Bytes)
    requires Encodable(f)
    ensures LooksFramed(Encode(f) + rest)
    ensures DeclaredSize(Encode(f) + rest) == |f.payload|
    ensures (Encode(f) + rest)[HEADER..HEADER + |f.payload|] == f.payload
    ensures (Encode(f) + rest)[HEADER + |f.payload|..] == rest
  {
    BigEndianDecodes(|f.payload|);
  }

  lemma DemuxFrame(f: Frame, rest: Bytes)
    requires Encodable(f)
    ensures Demux(Encode(f) + rest) == f.payload + Demux(rest)
    ensures Leftover(Encode(f) + rest) == Leftover(rest)
  {
    EncodedHead(f, rest);
    var data := Encode(f) + rest;
    assert DeclaredSize(data) <= |data| - HEADER;
  }

  // Every byte string is some frames followed by a rest, and what comes out of the
  // loop is their payloads followed by what the rest contributes.
  lemma {:induction false} DemuxOfFrames(frames: seq<Frame>, rest: Bytes)
    requires (forall f :: f in frames ==> Encodable(f)) && IsRest(rest)
    ensures Demux(EncodeAll(frames) + rest) == Payloads(frames) + RestOutput(rest)
    ensures Leftover(EncodeAll(frames) + rest) == if |rest| < HEADER then rest else []
  {
    if frames == [] {
      assert EncodeAll(frames) + rest == rest;
    } else {
      hide Encode, LooksFramed, DeclaredSize;
      Associative(Encode(frames[0]), EncodeAll(frames[1..]), rest);
      DemuxFrame(frames[0], EncodeAll(frames[1..]) + rest);
      DemuxOfFrames(frames[1..], rest);
      Associative(frames[0].payload, Payloads(frames[1..]), RestOutput(rest));
    }
  }

  // The decomposition exists for every byte string.
  lemma {:induction false} Decompose(data: Bytes) returns (frames: seq<Frame>, rest: Bytes)
    ensures (forall f :: f in frames ==> Encodable(f)) && IsRest(rest)
    ensures data == EncodeAll(frames) + rest
    decreases |data|
  {
    if IsRest(data) {
      frames, rest := [], data;
    } else {
      var n := DeclaredSize(data);
      var f := Frame(data[0], data[HEADER..HEADER + n]);
      FrameIsEncoded(data);
      frames, rest := Decompose(data[HEADER + n..]);
      frames := [f] + frames;
      assert data == Encode(f) + data[HEADER + n..];
    }
  }

  lemma FrameIsEncoded(data: Bytes)
    requires !IsRest(data)
    ensures var f := Frame(data[0], data[HEADER..HEADER + DeclaredSize(data)]);
      Encodable(f) && data == Encode(f) + data[HEADER + DeclaredSize(data)..]
  {
    var n := DeclaredSize(data);
    BigEndianEncodes(data[4], data[5], data[6], data[7]);
    assert BigEndian(n) == data[4..8];
    assert data == data[..8] + data[8..8 + n] + data[8 + n..];
    assert data[..8] == [data[0], 0, 0, 0] + data[4..8];
  }

  lemma BigEndianEncodes(a: byte, b: byte, c: byte, d: byte)
    ensures BigEndian(a as nat * 0x100_0000 + b as nat * 0x1_0000 + c as nat * 0x100 + d as nat) == [a, b, c, d]
  {
    var n1 := a as nat * 0x100 + b as nat;
    var n2 := n1 * 0x100 + c as nat;
    var n := n2 * 0x100 + d as nat;
    SplitByte(n2, d);
    SplitByte(n1, c);
    SplitByte(a as nat, b);
    assert n / 0x1_0000 == n / 0x100 / 0x100;
    assert n / 0x100_0000 == n / 0x1_0000 / 0x100;
  }

  lemma SplitByte(high: nat, low: byte)
    ensures (high * 0x100 + low as nat) / 0x100 == high && (high * 0x100 + low as nat) % 0x100 == low as nat
  {
  }

  // The complete behaviour: framed input yields its payloads, then the usable part of
  // its rest; a short trailing piece survives only when there is nothing else.
  function Meaning(frames: seq<Frame>, rest: Bytes): Bytes {
    var collected := Payloads(frames) + RestOutput(rest);
    if frames == [] && !LooksFramed(rest) then rest
    else if collected != [] then collected
    else if |rest| < HEADER then rest
    else []
  }

  lemma FramesLookFramed(frames: seq<Frame>, rest: Bytes)
    requires frames != [] && forall f :: f in frames ==> Encodable(f)
    ensures LooksFramed(EncodeAll(frames) + rest)
  {
    Associative(Encode(frames[0]), EncodeAll(frames[1..]), rest);
    EncodedHead(frames[0], EncodeAll(frames[1..]) + rest);
  }

  lemma StripMeaning(frames: seq<Frame>, rest: Bytes)
    requires (forall f :: f in frames ==> Encodable(f)) && IsRest(rest)
    ensures Stripped(EncodeAll(frames) + rest) == Meaning(frames, rest)
  {
    DemuxOfFrames(frames, rest);
    if frames == [] {
      assert EncodeAll(frames) + rest == rest;
    } else {
      FramesLookFramed(frames, rest);
    }
  }

  // So every byte string has one of these meanings.
  lemma StripEveryString(data: Bytes) returns (frames: seq<Frame>, rest: Bytes)
    ensures (forall f :: f in frames ==> Encodable(f)) && IsRest(rest)
    ensures data == EncodeAll(frames) + rest && Stripped(data) == Meaning(frames, rest)
  {
    frames, rest := Decompose(data);
    StripMeaning(frames, rest);
  }

  // Stripping the encoding of any frames gives back their payloads.
  lemma StripUndoesEncode(frames: seq<Frame>)
    requires forall f :: f in frames ==> Encodable(f)
    ensures Stripped(EncodeAll(frames)) == Payloads(frames)
  {
    StripMeaning(frames, []);
    assert EncodeAll(frames) + [] == EncodeAll(frames);
  }
}
