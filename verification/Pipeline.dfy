/** The whole client: from the messages of the WebSocket server to what an IPC consumer program sees. */
module Pipeline {
  import opened Sequences
  import opened Frames
  import opened MidiGrammar
  import IpcModel
  import IpcInvariant
  import Session = SessionModel
  import SessionTheorems
  import Traces = SessionTraces
  import opened EndToEnd
  import opened Decoder

  lemma {:induction false} SubsequenceTrans<T>(a: seq<T>, b: seq<T>, c: seq<T>)
    requires Subsequence(a, b) && Subsequence(b, c)
    ensures Subsequence(a, c)
    decreases |c|, |b|
  {
    if a == [] {
    } else if Subsequence(b, Front(c)) {
      SubsequenceTrans(a, b, Front(c));
    } else if Subsequence(a, Front(b)) {
      SubsequenceTrans(a, Front(b), Front(c));
    } else {
      SubsequenceTrans(Front(a), Front(b), Front(c));
    }
  }

  lemma {:induction false} SubsequenceSuffix<T>(s: seq<T>, n: nat)
    requires n <= |s|
    ensures Subsequence(s[n..], s)
    decreases |s|
  {
    if n < |s| {
      SubsequenceSuffix(Front(s), n);
      SubsequenceKeep(Front(s)[n..], Front(s), Last(s));
      FrontAndLast(s);
      assert Front(s)[n..] + [Last(s)] == s[n..];
    }
  }

  lemma SubsequenceSlice<T>(s: seq<T>, i: nat, j: nat)
    requires i <= j <= |s|
    ensures Subsequence(s[i..j], s)
  {
    SubsequenceSuffix(s[..j], i);
    assert s[..j][i..] == s[i..j];
    SubsequenceExtend(s[i..j], s[..j], s[j..]);
    assert s[..j] + s[j..] == s;
  }

  /** The bytes of a list of MIDI events. */
  ghost function Datas(evs: seq<Session.MidiEvent>): (ds: seq<seq<byte>>)
    ensures |ds| == |evs| && forall k :: 0 <= k < |evs| ==> ds[k] == evs[k].data
  {
    seq(|evs|, k requires 0 <= k < |evs| => evs[k].data)
  }

  lemma {:induction false} DatasKeepOrder(a: seq<Session.MidiEvent>, b: seq<Session.MidiEvent>)
    requires Subsequence(a, b)
    ensures Subsequence(Datas(a), Datas(b))
    decreases |b|
  {
    if a != [] {
      assert Front(Datas(b)) == Datas(Front(b));
      if Subsequence(a, Front(b)) {
        DatasKeepOrder(a, Front(b));
      } else {
        DatasKeepOrder(Front(a), Front(b));
        assert Front(Datas(a)) == Datas(Front(a));
      }
    }
  }

  /** The arguments of the Publish calls of a run, in order. */
  function Calls(es: seq<IpcModel.Event>): seq<seq<byte>> {
    if es == [] then []
    else if Last(es).BeginPublish? then Calls(Front(es)) + [Last(es).msg]
    else Calls(Front(es))
  }

  /** Whatever else happens, what is published is an in-order selection of what Publish was called with. */
  lemma {:induction false} PublishedWereCalled(s: IpcModel.Server, es: seq<IpcModel.Event>)
    requires s.published == []
    ensures Subsequence(IpcModel.Run(s, es).published, Calls(es))
    decreases |es|
  {
    if es != [] {
      PublishedWereCalled(s, Front(es));
      var t := IpcModel.Run(s, Front(es));
      if Last(es).BeginPublish? {
        SubsequenceKeep(t.published, Calls(Front(es)), Last(es).msg);
        SubsequenceSkip(t.published, Calls(Front(es)), Last(es).msg);
      }
    }
  }

  /** The bytes of the valid midi messages that have arrived in a run of the session, as they arrived. */
  ghost function Arrived(cfg: Session.Config, session: seq<Session.Event>): seq<seq<byte>> {
    Datas(Traces.Handled(Traces.Log(cfg, session)))
  }

  /** The MIDI loop calls Publish with each event it receives from MidiChan, in order, before it receives the next. */
  ghost predicate Feeds(cfg: Session.Config, session: seq<Session.Event>, es: seq<IpcModel.Event>) {
    Calls(es) <= Datas(Traces.Received(Traces.Log(cfg, session)))
  }

  /** Every message published is one valid MIDI message, and together they keep the order in which they arrived. */
  lemma PublishedHaveArrived(cfg: Session.Config, session: seq<Session.Event>, hello: seq<byte>,
                             es: seq<IpcModel.Event>)
    requires Feeds(cfg, session, es)
    ensures var s := IpcModel.Run(IpcModel.Init(hello), es);
            AllMidi(s.published) && Subsequence(s.published, Arrived(cfg, session))
  {
    var s, c := IpcModel.Run(IpcModel.Init(hello), es), Session.Run(Session.Init(cfg), session);
    var received := Datas(c.queue.received);
    assert SessionTheorems.Reachable(c);
    Traces.MidiArrives(cfg, session);
    SessionTheorems.MidiIsAccountedFor(c);
    PublishedWereCalled(IpcModel.Init(hello), es);
    SubsequenceExtend(s.published, Calls(es), received[|Calls(es)|..]);
    assert Calls(es) + received[|Calls(es)|..] == received;
    forall k | 0 <= k < |s.published| ensures IsMidi(s.published[k]) {
      SubsequenceMember(s.published, received, s.published[k]);
    }
    DatasKeepOrder(c.queue.received, c.queue.handled);
    SubsequenceTrans(s.published, received, Datas(c.queue.handled));
  }

  /** For every behaviour of the server, of the network and of all consumers, over any number of reconnects: after the
      hello frame a consumer sees whole, well-formed MIDI messages only, and they are an in-order selection of the valid
      midi messages the WebSocket server has sent and the client has read. */
  lemma ConsumerSeesArrivedMidi(cfg: Session.Config, session: seq<Session.Event>, helloBody: seq<byte>,
                                es: seq<IpcModel.Event>, i: nat, chunks: seq<seq<byte>>, n: nat)
    requires Fits(helloBody) && Feeds(cfg, session, es)
    requires i < |IpcModel.Run(IpcModel.Init(Hello(helloBody)), es).conns|
    requires Flatten(chunks) <= IpcModel.Run(IpcModel.Init(Hello(helloBody)), es).conns[i].wire
    requires |FeedAll(NOTHING, chunks).frames| == n + 1
    ensures var fs := FeedAll(NOTHING, chunks).frames;
            && FeedAll(NOTHING, chunks).open
            && fs[0] == Frame(0x01, helloBody)
            && exists msgs ::
                 && |msgs| == n
                 && (forall k :: 0 <= k < n ==> fs[k + 1] == Frame(0x02, msgs[k]))
                 && AllMidi(msgs)
                 && Subsequence(msgs, Arrived(cfg, session))
  {
    var s := IpcModel.Run(IpcModel.Init(Hello(helloBody)), es);
    IpcInvariant.InitInv(Hello(helloBody));
    IpcInvariant.RunInv(IpcModel.Init(Hello(helloBody)), es);
    assert Consumer(s, helloBody, i, chunks);
    PublishedHaveArrived(cfg, session, Hello(helloBody), es);
    ConsumerSeesTheStream(s, helloBody, i, chunks);
    ConsumerSeesPublishedMessages(s, helloBody, i, chunks, n);
    var msgs := s.conns[i].accepted[..n];
    SubsequenceSlice(s.published, s.joined[i], IpcInvariant.Until(s, i));
    SubsequenceTrans(msgs, IpcInvariant.Window(s, i), s.published);
    SubsequenceTrans(msgs, s.published, Arrived(cfg, session));
    assert |msgs| == n;
  }
}
