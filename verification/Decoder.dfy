/** The incremental decoder of docs/examples/nodejs/client.js and docs/examples/typescript/client.ts. */
module Decoder {
  import opened Sequences
  import opened Frames

  const NOTHING := Decoded([], [], true)

  /** One 'data' event: a destroyed socket delivers none, so a closed decoder stays as it is. */
  function Feed(d: Decoded, chunk: seq<byte>): Decoded {
    if !d.open then d
    else
      var e := Decode(d.rest + chunk);
      e.(frames := d.frames + e.frames)
  }

  function FeedAll(d: Decoded, chunks: seq<seq<byte>>): Decoded {
    if chunks == [] then d else Feed(FeedAll(d, Front(chunks)), Last(chunks))
  }

  class BufferingDecoder {
    var pending: seq<byte>
    var destroyed: bool
    // the frames dispatched on their kind, in order
    var dispatched: seq<Frame>

    ghost function Model(): Decoded
      reads this
    {
      Decoded(dispatched, pending, !destroyed)
    }

    constructor ()
      ensures Model() == NOTHING
    {
      pending, destroyed, dispatched := [], false, [];
    }

    method OnData(chunk: seq<byte>)
      modifies this
      ensures Model() == Feed(old(Model()), chunk)
    {
      if destroyed {
        return;
      }
      pending := pending + chunk;
      ghost var whole := Decode(pending);
      while true
        invariant !destroyed
        invariant dispatched + Decode(pending).frames == old(dispatched) + whole.frames
        invariant Decode(pending).rest == whole.rest && Decode(pending).open == whole.open
        decreases |pending|
      {
        if |pending| < 4 {
          return;
        }
        var length := Uint32(pending);
        if length == 0 || length > MAX_FRAME_SIZE {
          destroyed := true;
          return;
        }
        if |pending| < 4 + length {
          return;
        }
        var payload := pending[4..4 + length];
        var frame := Frame(payload[0], payload[1..]);
        DispatchIsRead(pending, length);
        DecodeOfFirst(pending);
        Associative(dispatched, [frame], Decode(pending[4 + length..]).frames);
        pending := pending[4 + length..];
        dispatched := dispatched + [frame];
      }
    }
  }

  lemma DispatchIsRead(s: seq<byte>, length: nat)
    requires |s| >= 4 && length == Uint32(s) && 0 < length <= MAX_FRAME_SIZE && |s| >= 4 + length
    ensures Read(s) == Got(Frame(s[4..4 + length][0], s[4..4 + length][1..]), s[4 + length..])
  {
    assert s[4..4 + length][1..] == s[5..4 + length];
  }

  /** However the stream is cut into chunks, the decoder dispatches the frames of the whole stream and reaches its
      verdict. While it is open its residue is the residue of the whole stream and starts with no complete frame; once
      destroyed it keeps a beginning of that residue that already shows the invalid length. */
  lemma {:induction false} ChunkingInvariance(chunks: seq<seq<byte>>)
    ensures var inc, one := FeedAll(NOTHING, chunks), Decode(Flatten(chunks));
            && inc.frames == one.frames
            && inc.open == one.open
            && (inc.open ==> inc.rest == one.rest)
            && (!inc.open ==> inc.rest <= one.rest && Read(inc.rest).InvalidLength?)
            && !Read(inc.rest).Got?
  {
    if chunks == [] {
    } else {
      var before, chunk := Front(chunks), Last(chunks);
      ChunkingInvariance(before);
      assert chunks == before + [chunk];
      FlattenSnoc(before, chunk);
      var s := Flatten(before);
      DecodeAppend(s, chunk);
      if Decode(s).open {
        StreamIsCanonical(Decode(s).rest + chunk);
      }
    }
  }

  /** Two ways of cutting the same bytes are indistinguishable to the program behind the decoder. */
  lemma ChunkingIsInvisible(xs: seq<seq<byte>>, ys: seq<seq<byte>>)
    requires Flatten(xs) == Flatten(ys)
    ensures FeedAll(NOTHING, xs).frames == FeedAll(NOTHING, ys).frames
    ensures FeedAll(NOTHING, xs).open == FeedAll(NOTHING, ys).open
    ensures FeedAll(NOTHING, xs).open ==> FeedAll(NOTHING, xs) == FeedAll(NOTHING, ys)
  {
    ChunkingInvariance(xs);
    ChunkingInvariance(ys);
  }
}
