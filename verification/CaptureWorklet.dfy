/** The audio worklet: cuts a stream of samples into frames of fixed length, whatever sizes it arrives in. */
module CaptureWorklet {
  import opened Options

  type Sample = real

  datatype Message = Frame(samples: seq<Sample>) | Flushed

  /** The full frames of a stream, and what is left over. */
  function Frames(stream: seq<Sample>, n: nat): seq<seq<Sample>>
    requires n > 0
  {
    if |stream| < n then [] else [stream[..n]] + Frames(stream[n..], n)
  }

  function Rest(stream: seq<Sample>, n: nat): (r: seq<Sample>)
    requires n > 0
    ensures |r| < n
  {
    if |stream| < n then stream else Rest(stream[n..], n)
  }

  function Concat(frames: seq<seq<Sample>>): seq<Sample> {
    if frames == [] then [] else frames[0] + Concat(frames[1..])
  }

  function Posted(frames: seq<seq<Sample>>): (m: seq<Message>)
    ensures |m| == |frames| && forall i :: 0 <= i < |frames| ==> m[i] == Frame(frames[i])
  {
    seq(|frames|, i requires 0 <= i < |frames| => Frame(frames[i]))
  }

  /** Nothing is lost, doubled or reordered: the frames followed by the rest are the stream. */
  lemma {:induction false} FramesConserveSamples(stream: seq<Sample>, n: nat)
    requires n > 0
    ensures Concat(Frames(stream, n)) + Rest(stream, n) == stream
    ensures forall i :: 0 <= i < |Frames(stream, n)| ==> |Frames(stream, n)[i]| == n
  {
    if |stream| >= n {
      FramesConserveSamples(stream[n..], n);
      assert Frames(stream, n)[1..] == Frames(stream[n..], n);
      assert stream == stream[..n] + stream[n..];
    }
  }

  /** Appending a piece that does not overflow the frame being filled. */
  lemma {:induction false} AppendPiece(stream: seq<Sample>, piece: seq<Sample>, n: nat)
    requires n > 0 && |Rest(stream, n)| + |piece| <= n
    ensures |Rest(stream, n)| + |piece| < n ==>
              Frames(stream + piece, n) == Frames(stream, n) && Rest(stream + piece, n) == Rest(stream, n) + piece
    ensures |Rest(stream, n)| + |piece| == n ==>
              Frames(stream + piece, n) == Frames(stream, n) + [Rest(stream, n) + piece] && Rest(stream + piece, n) == []
  {
    var whole := stream + piece;
    if |stream| >= n {
      assert whole[..n] == stream[..n] && whole[n..] == stream[n..] + piece;
      AppendPiece(stream[n..], piece, n);
    } else if |whole| == n {
      assert whole[..n] == whole && whole[n..] == [];
      assert Frames([], n) == [] && Frames(stream, n) == [];
    }
  }

  lemma PostedSnoc(frames: seq<seq<Sample>>, frame: seq<Sample>)
    ensures Posted(frames + [frame]) == Posted(frames) + [Frame(frame)]
  {
  }

  class VoiceCaptureProcessor {
    const frameLength: nat
    var buffer: array<Sample>
    var offset: nat
    var port: seq<Message>
    // The samples since the last flush, and what had been posted by then.
    ghost var stream: seq<Sample>
    ghost var base: seq<Message>

    /** What the main thread has been sent is a function of the samples alone. */
    ghost predicate Valid()
      reads this, buffer
    {
      && frameLength > 0 && buffer.Length == frameLength && offset < frameLength
      && buffer[..offset] == Rest(stream, frameLength)
      && port == base + Posted(Frames(stream, frameLength))
    }

    constructor (sampleRate: nat)
      ensures Valid() && fresh(buffer) && port == [] && base == [] && stream == []
      ensures frameLength == if sampleRate < 5 then 1 else (sampleRate + 5) / 10
    {
      frameLength := if sampleRate < 5 then 1 else (sampleRate + 5) / 10;
      buffer := new Sample[if sampleRate < 5 then 1 else (sampleRate + 5) / 10](_ => 0.0);
      offset := 0;
      port, base, stream := [], [], [];
    }

    /** Copies a piece of the input behind what is buffered. */
    method Copy(input: array<Sample>, from: nat, length: nat)
      requires input != buffer && from + length <= input.Length && offset + length <= buffer.Length
      modifies buffer
      ensures buffer[..offset + length] == old(buffer[..offset]) + input[from..from + length]
    {
      forall i | 0 <= i < length {
        buffer[offset + i] := input[from + i];
      }
    }

    /** The body of the loop: copies what fits and posts the buffer when it is full. */
    method Fill(input: array<Sample>, from: nat) returns (length: nat)
      requires Valid() && input != buffer && from < input.Length
      modifies this, buffer
      ensures Valid() && (buffer == old(buffer) || fresh(buffer)) && base == old(base)
      ensures 0 < length <= input.Length - from && stream == old(stream) + input[from..from + length]
    {
      hide Frames, Rest, Posted;
      var room, left := buffer.Length - offset, input.Length - from;
      length := if left < room then left else room;
      ghost var piece, before := input[from..from + length], Frames(stream, frameLength);
      AppendPiece(stream, piece, frameLength);
      Copy(input, from, length);
      stream := stream + piece;
      offset := offset + length;
      if offset == buffer.Length {
        assert buffer[..] == buffer[..offset];
        PostedSnoc(before, buffer[..]);
        port := port + [Frame(buffer[..])];
        // The buffer itself is handed over, so a new one takes its place.
        buffer := new Sample[frameLength](_ => 0.0);
        offset := 0;
      }
    }

    /** `process`: however the input is chunked, the port has received exactly the full frames of the whole stream. */
    method Process(input: array?<Sample>) returns (alive: bool)
      requires Valid() && input != buffer
      modifies this, buffer
      ensures Valid() && alive && (buffer == old(buffer) || fresh(buffer))
      ensures base == old(base) && stream == old(stream) + (if input == null then [] else old(input[..]))
    {
      if input == null {
        return true;
      }
      var sourceOffset := 0;
      while sourceOffset < input.Length
        invariant 0 <= sourceOffset <= input.Length
        invariant Valid() && input != buffer && (buffer == old(buffer) || fresh(buffer))
        invariant base == old(base) && stream == old(stream) + input[..sourceOffset]
        invariant input[..] == old(input[..])
        decreases input.Length - sourceOffset
      {
        var length := Fill(input, sourceOffset);
        assert input[..sourceOffset + length] == input[..sourceOffset] + input[sourceOffset..sourceOffset + length];
        sourceOffset := sourceOffset + length;
      }
      assert input[..input.Length] == input[..];
      alive := true;
    }

    /** The flush handler: posts what is buffered, if anything, and starts over. */
    method Flush()
      requires Valid()
      modifies this
      ensures Valid() && (buffer == old(buffer) || fresh(buffer)) && stream == []
      ensures port == base
      ensures base == old(port) + (if old(offset) > 0 then [Frame(Rest(old(stream), frameLength))] else []) + [Flushed]
      ensures Concat(Frames(old(stream), frameLength)) + Rest(old(stream), frameLength) == old(stream)
    {
      FramesConserveSamples(stream, frameLength);
      if offset > 0 {
        port := port + [Frame(buffer[..offset])];
        buffer := new Sample[frameLength](_ => 0.0);
        offset := 0;
      }
      port := port + [Flushed];
      base, stream := port, [];
    }
  }
}
