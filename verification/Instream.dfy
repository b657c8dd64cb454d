/**
  Streaming an artifact to ClamAV: the file is read in chunks and each chunk is
  sent behind its length as four bytes, most significant first. A zero length
  ends the stream.
 */
module Instream {
  import opened Options
  import opened Bits

  const WIDTH := 0x1_0000_0000

  /** zINSTREAM and a zero byte */
  const COMMAND: seq<Byte> := [122, 73, 78, 83, 84, 82, 69, 65, 77, 0]

  /** The command is text up to a zero byte. */
  lemma CommandIsText()
    ensures |COMMAND| == 10 && COMMAND[9] == 0
    ensures forall i | 0 <= i < 9 :: COMMAND[i] == "zINSTREAM"[i] as int
  {
  }

  function Min(a: nat, b: nat): nat {
    if a < b then a else b
  }

  function Pack(n: nat): (s: seq<Byte>)
    requires n < WIDTH
    ensures |s| == 4
  {
    [n / 256 / 256 / 256, n / 256 / 256 % 256, n / 256 % 256, n % 256]
  }

  function Unpack(s: seq<Byte>): nat
    requires |s| == 4
  {
    ((s[0] as int * 256 + s[1] as int) * 256 + s[2] as int) * 256 + s[3] as int
  }

  /** Four bytes carry the length, most significant first. */
  lemma UnpackPack(n: nat)
    requires n < WIDTH
    ensures Unpack(Pack(n)) == n
    ensures var s := Pack(n); n == 0x100_0000 * (s[0] as int) + 0x1_0000 * (s[1] as int) + 0x100 * (s[2] as int) + s[3]
  {
    var a, b, c := n / 256, n / 256 / 256, n / 256 / 256 / 256;
    assert n == a * 256 + n % 256 && a == b * 256 + a % 256 && b == c * 256 + b % 256;
  }

  function Chunks(data: seq<Byte>, size: nat): seq<seq<Byte>>
    requires size > 0
    decreases |data|
  {
    if data == [] then [] else [data[..Min(size, |data|)]] + Chunks(data[Min(size, |data|)..], size)
  }

  function Frames(chunks: seq<seq<Byte>>): seq<Byte>
    requires forall c | c in chunks :: |c| < WIDTH
  {
    if chunks == [] then [] else Pack(|chunks[0]|) + chunks[0] + Frames(chunks[1..])
  }

  /** What the daemon takes off the wire: the frames up to the zero length, and what follows. */
  function Deframed(wire: seq<Byte>): Option<(seq<seq<Byte>>, seq<Byte>)>
    decreases |wire|
  {
    if |wire| < 4 then None
    else
      var n := Unpack(wire[..4]);
      if n == 0 then Some(([], wire[4..]))
      else if |wire| < 4 + n then None
      else
        var rest := Deframed(wire[4 + n..]);
        if rest.None? then None else Some(([wire[4..4 + n]] + rest.value.0, rest.value.1))
  }

  function Concat(chunks: seq<seq<Byte>>): seq<Byte> {
    if chunks == [] then [] else chunks[0] + Concat(chunks[1..])
  }

  /** What chunking keeps: no empty chunk, none longer than it may be, and every one but the last full. */
  predicate Fits(chunks: seq<seq<Byte>>, length: nat, size: nat) {
    && (forall c | c in chunks :: 0 < |c| <= size && |c| <= length)
    && (forall i | 0 <= i < |chunks| - 1 :: |chunks[i]| == size)
  }

  lemma OneMoreChunk(chunk: seq<Byte>, rest: seq<seq<Byte>>, length: nat, size: nat)
    requires Fits(rest, length, size) && 0 < |chunk| <= size && (rest != [] ==> |chunk| == size)
    ensures Fits([chunk] + rest, length + |chunk|, size)
    ensures Concat([chunk] + rest) == chunk + Concat(rest)
  {
    hide Concat;
    ConcatCons(chunk, rest);
  }

  lemma ConcatCons(chunk: seq<Byte>, rest: seq<seq<Byte>>)
    ensures Concat([chunk] + rest) == chunk + Concat(rest)
  {
    assert ([chunk] + rest)[1..] == rest;
  }

  lemma FirstChunk(data: seq<Byte>, size: nat)
    requires size > 0 && data != []
    ensures var n := Min(size, |data|);
            && 0 < n <= |data| && |data[..n]| == n && |data[n..]| == |data| - n && data == data[..n] + data[n..]
            && Chunks(data, size) == [data[..n]] + Chunks(data[n..], size)
            && (n == size || data[n..] == [])
  {
  }

  /** Chunking loses nothing, makes no empty chunk, and fills every chunk but the last. */
  lemma {:induction false} ChunksPartition(data: seq<Byte>, size: nat)
    requires size > 0
    ensures Concat(Chunks(data, size)) == data && Fits(Chunks(data, size), |data|, size)
    ensures data != [] ==> Chunks(data, size) != [] && |Chunks(data, size)[0]| == Min(size, |data|)
    ensures data == [] ==> Chunks(data, size) == []
    decreases |data|
  {
    if data != [] {
      hide Fits, Concat, Chunks, Min;
      var n := Min(size, |data|);
      FirstChunk(data, size);
      ChunksPartition(data[n..], size);
      OneMoreChunk(data[..n], Chunks(data[n..], size), |data| - n, size);
    }
  }

  /** The daemon takes one frame off the wire. */
  lemma OneFrame(chunk: seq<Byte>, more: seq<Byte>)
    requires 0 < |chunk| < WIDTH
    ensures Deframed(Pack(|chunk|) + chunk + more) ==
              if Deframed(more).None? then None else Some(([chunk] + Deframed(more).value.0, Deframed(more).value.1))
  {
    hide Pack, Unpack;
    var n, wire := |chunk|, Pack(|chunk|) + chunk + more;
    UnpackPack(n);
    assert wire[..4] == Pack(n);
    assert wire[4..4 + n] == chunk;
    assert wire[4 + n..] == more;
  }

  lemma LastFrame(after: seq<Byte>)
    ensures Deframed(Pack(0) + after) == Some(([], after))
  {
    hide Pack, Unpack;
    UnpackPack(0);
    assert (Pack(0) + after)[..4] == Pack(0) && (Pack(0) + after)[4..] == after;
  }

  /** Deframing what was framed gives back the chunks, whatever comes after. */
  lemma {:induction false} DeframedFrames(chunks: seq<seq<Byte>>, after: seq<Byte>)
    requires forall c | c in chunks :: 0 < |c| < WIDTH
    ensures Deframed(Frames(chunks) + Pack(0) + after) == Some((chunks, after))
    decreases |chunks|
  {
    hide Pack, Unpack, Deframed;
    if chunks == [] {
      LastFrame(after);
      assert [] + Pack(0) + after == Pack(0) + after;
    } else {
      var more := Frames(chunks[1..]) + Pack(0) + after;
      OneFrame(chunks[0], more);
      DeframedFrames(chunks[1..], after);
      assert Frames(chunks) + Pack(0) + after == Pack(|chunks[0]|) + chunks[0] + more;
      assert chunks == [chunks[0]] + chunks[1..];
    }
  }

  lemma {:induction false} FramesAppend(chunks: seq<seq<Byte>>, chunk: seq<Byte>)
    requires (forall c | c in chunks :: |c| < WIDTH) && |chunk| < WIDTH
    ensures Frames(chunks + [chunk]) == Frames(chunks) + Pack(|chunk|) + chunk
  {
    hide Pack;
    if chunks == [] {
      assert chunks + [chunk] == [chunk];
      assert Frames([chunk][1..]) == [];
    } else {
      assert (chunks + [chunk])[1..] == chunks[1..] + [chunk];
      FramesAppend(chunks[1..], chunk);
    }
  }

  /** The daemon gets back exactly the file, in non-empty frames no longer than a chunk. */
  lemma RoundTrip(data: seq<Byte>, size: nat)
    requires 0 < size && Min(size, |data|) < WIDTH
    ensures forall c | c in Chunks(data, size) :: 0 < |c| <= size && |c| < WIDTH
    ensures Deframed(Frames(Chunks(data, size)) + Pack(0)) == Some((Chunks(data, size), []))
    ensures Concat(Chunks(data, size)) == data
  {
    hide Deframed, Frames, Pack;
    ChunksPartition(data, size);
    DeframedFrames(Chunks(data, size), []);
    assert Frames(Chunks(data, size)) + Pack(0) + [] == Frames(Chunks(data, size)) + Pack(0);
  }

  lemma NextChunk(data: seq<Byte>, position: nat, size: nat)
    requires position < |data| && size > 0
    ensures var next := position + Min(size, |data| - position);
            position < next <= |data| && Chunks(data[position..],
                size) == [data[position..next]] + Chunks(data[next..], size)
  {
    var left, n := data[position..], Min(size, |data| - position);
    assert left[..n] == data[position..position + n] && left[n..] == data[position + n..];
  }

  lemma AtTheEnds(data: seq<Byte>, size: nat)
    requires size > 0
    ensures data[0..] == data && Chunks(data[|data|..], size) == [] && Frames([]) == []
  {
  }

  /** The file as read() hands it out, chunk by chunk; a length that does not fit four bytes is an error. */
  method SendInstream(data: seq<Byte>, size: nat) returns (sent: Option<seq<Byte>>)
    requires size > 0
    ensures sent.Some? <==> Min(size, |data|) < WIDTH
    ensures sent.Some? ==>
              && |sent.value| >= |COMMAND| && sent.value[..|COMMAND|] == COMMAND
              && Deframed(sent.value[|COMMAND|..]) == Some((Chunks(data, size), []))
  {
    hide Deframed, Frames, Pack, Chunks;
    var wire := COMMAND;
    var position := 0;
    ghost var chunks: seq<seq<Byte>> := [];
    AtTheEnds(data, size);
    while position < |data|
      invariant 0 <= position <= |data|
      invariant chunks + Chunks(data[position..], size) == Chunks(data, size)
      invariant forall c | c in chunks :: 0 < |c| < WIDTH
      invariant wire == COMMAND + Frames(chunks)
      invariant position > 0 ==> Min(size, |data|) < WIDTH
    {
      NextChunk(data, position, size);
      var chunk := data[position..position + Min(size, |data| - position)];
      if |chunk| >= WIDTH {
        return None;
      }
      FramesAppend(chunks, chunk);
      wire := wire + Pack(|chunk|) + chunk;
      position := position + |chunk|;
      chunks := chunks + [chunk];
    }
    assert chunks == Chunks(data, size);
    RoundTrip(data, size);
    wire := wire + Pack(0);
    assert wire[|COMMAND|..] == Frames(chunks) + Pack(0);
    sent := Some(wire);
  }
}
