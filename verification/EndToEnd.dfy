/** From Publish to a consumer program: the broadcast server, the socket and the incremental decoder together. */
module EndToEnd {
  import opened Sequences
  import opened Frames
  import opened IpcModel
  import opened IpcInvariant
  import opened IpcTheorems
  import opened Decoder
  import opened MidiGrammar

  /** NewIPCServer encodes the hello body once. */
  function Hello(body: Bytes): Bytes
    requires Fits(body)
  {
    Encode(Frame(KIND_CONTROL, body))
  }

  /** The frames a consumer is meant to see: hello, then one MIDI frame per message. */
  ghost function Stream(helloBody: Bytes, msgs: seq<Bytes>): seq<Frame> {
    [Frame(KIND_CONTROL, helloBody)] + seq(|msgs|, k requires 0 <= k < |msgs| => Frame(KIND_MIDI, msgs[k]))
  }

  lemma {:induction false} StreamBytes(helloBody: Bytes, msgs: seq<Bytes>)
    requires Fits(helloBody) && MessagesFit(msgs)
    ensures AllFit(Stream(helloBody, msgs))
    ensures Flatten([Hello(helloBody)] + MidiFrames(msgs)) == EncodeAll(Stream(helloBody, msgs))
  {
    if msgs == [] {
      assert Stream(helloBody, msgs)[1..] == [];
      assert [Hello(helloBody)] + MidiFrames(msgs) == [Hello(helloBody)];
    } else {
      var before := Front(msgs);
      StreamBytes(helloBody, before);
      FrontAndLast(msgs);
      assert MidiFrames(msgs) == MidiFrames(before) + [MidiFrame(Last(msgs))];
      Associative([Hello(helloBody)], MidiFrames(before), [MidiFrame(Last(msgs))]);
      FlattenSnoc([Hello(helloBody)] + MidiFrames(before), MidiFrame(Last(msgs)));
      assert Stream(helloBody, msgs) == Stream(helloBody, before) + [Frame(KIND_MIDI, Last(msgs))];
      EncodeAllSnoc(Stream(helloBody, before), Frame(KIND_MIDI, Last(msgs)));
    }
  }

  lemma {:induction false} EncodeAllSnoc(fs: seq<Frame>, f: Frame)
    requires AllFit(fs) && Fits(f.body)
    ensures AllFit(fs + [f]) && EncodeAll(fs + [f]) == EncodeAll(fs) + Encode(f)
  {
    if fs == [] {
      assert EncodeAll([f]) == Encode(f) + EncodeAll([f][1..]);
    } else {
      assert (fs + [f])[1..] == fs[1..] + [f];
      EncodeAllSnoc(fs[1..], f);
      Associative(Encode(fs[0]), EncodeAll(fs[1..]), Encode(f));
    }
  }

  /** A connection of a reachable server, and the state of the decoder behind it after the given chunks. */
  ghost predicate Consumer(s: Server, helloBody: Bytes, i: nat, chunks: seq<Bytes>) {
    && Reachable(s)
    && Fits(helloBody) && s.hello == Hello(helloBody)
    && i < |s.conns|
    && Flatten(chunks) <= s.conns[i].wire
  }

  /** End-to-end safety. In every interleaving of the server's goroutines and under every chunking of whatever part of
      the stream has arrived, the decoder stays open and has dispatched a prefix of: the hello frame, then the messages
      accepted for this connection, which are an in-order selection of those published while it was registered. */
  lemma ConsumerSeesTheStream(s: Server, helloBody: Bytes, i: nat, chunks: seq<Bytes>)
    requires Consumer(s, helloBody, i, chunks)
    ensures var d := FeedAll(NOTHING, chunks);
            && d.open
            && d.frames <= Stream(helloBody, s.conns[i].accepted)
    ensures HasWindow(s, i) && Subsequence(s.conns[i].accepted, Window(s, i))
  {
    var msgs := s.conns[i].accepted;
    StreamOfConnection(s, i);
    StreamBytes(helloBody, msgs);
    ChunkingInvariance(chunks);
    DecodeOfPrefix(Flatten(chunks), Stream(helloBody, msgs));
  }

  /** Seen from the program: the first frame is hello, and the bodies that follow are messages published while its
      connection was registered, in order. */
  lemma ConsumerSeesPublishedMessages(s: Server, helloBody: Bytes, i: nat, chunks: seq<Bytes>, n: nat)
    requires Consumer(s, helloBody, i, chunks)
    requires |FeedAll(NOTHING, chunks).frames| == n + 1
    ensures var fs := FeedAll(NOTHING, chunks).frames;
            && fs[0] == Frame(0x01, helloBody)
            && n <= |s.conns[i].accepted|
            && (forall k :: 0 <= k < n ==> fs[k + 1] == Frame(0x02, s.conns[i].accepted[k]))
    ensures HasWindow(s, i) && Subsequence(s.conns[i].accepted[..n], Window(s, i))
    ensures AllMidi(s.published) ==> AllMidi(s.conns[i].accepted[..n])
  {
    ConsumerSeesTheStream(s, helloBody, i, chunks);
    var accepted := s.conns[i].accepted;
    SubsequencePrefix(accepted[..n], accepted, Window(s, i));
    if AllMidi(s.published) {
      forall k | 0 <= k < n ensures IsMidi(accepted[..n][k]) {
        SubsequenceMember(accepted[..n], Window(s, i), accepted[..n][k]);
      }
    }
  }

  /** A consumer without drops that has received everything written, and for which nothing is queued, has seen every
      message published while it was registered. */
  lemma CaughtUpConsumerMissesNothing(s: Server, helloBody: Bytes, i: nat, chunks: seq<Bytes>)
    requires Consumer(s, helloBody, i, chunks) && Flatten(chunks) == s.conns[i].wire
    requires s.publisher.Resting? && s.conns[i].drops == 0
    requires s.conns[i].writer.Idle? && s.conns[i].send == []
    ensures HasWindow(s, i)
    ensures FeedAll(NOTHING, chunks) == Decoded(Stream(helloBody, Window(s, i)), [], true)
  {
    StreamOfConnection(s, i);
    StreamBytes(helloBody, s.conns[i].accepted);
    StreamRoundTrip(Stream(helloBody, s.conns[i].accepted));
    ChunkingInvariance(chunks);
  }
}
