/** The response pipeline of `chat_generate` as a whole: the producer task
    of src/ai/stream.rs and the accumulator of src/router/app/chat.rs,
    composed over the channel between them. The channel delivers, in
    order, exactly the items the producer's sends put into it. */
module Pipeline {
  import opened Wrappers
  import opened Model
  import opened Stream
  import opened Chat

  /** A streaming generation: the request body posted upstream, what the
      producer did, the outbound events and the persistence writes. */
  datatype Streamed = Streamed(request: RequestBody, pump: PumpResult, outs: seq<Outbound>, writes: seq<Write>)

  /** Number of `End` items among the last one of a sequence whose other
      items are all `Text`. */
  lemma {:induction false} CountEndsOfShape(items: seq<EventResult>)
    requires forall k :: 0 <= k < |items| - 1 ==> items[k].Ok? && items[k].event.Text?
    ensures CountEnds(items) == if items != [] && items[|items| - 1].Ok? && items[|items| - 1].event.End? then 1 else 0
  {
    if items != [] {
      assert forall k :: 0 <= k < |items[1..]| - 1 ==> items[1..][k].Ok? && items[1..][k].event.Text? by {
        forall k | 0 <= k < |items[1..]| - 1 ensures items[1..][k].Ok? && items[1..][k].event.Text? {
          assert items[1..][k] == items[k + 1];
        }
      }
      CountEndsOfShape(items[1..]);
    }
  }

  /** At most one write per generation, and one exactly when the producer
      delivered the `End` that follows `[DONE]`: nothing is persisted after
      a transport error, a panic, a dropped receiver or an upstream that
      ends without `[DONE]`. Every write goes to the generation's pair. */
  lemma WritesOnlyOnDone(md: string -> string, pairId: int, events: seq<UpstreamEvent>, room: nat)
    ensures var p := PumpSpec(events, room); var w := Unfold(md, pairId, "", p.sent).writes;
      |w| == (if p.exit == DoneSent then 1 else 0) &&
      forall k :: 0 <= k < |w| ==> w[k].pairId == pairId
  {
    var p := PumpSpec(events, room);
    PumpSentShape(events, room);
    CountEndsOfShape(p.sent);
    UnfoldWritesPerEnd(md, pairId, "", p.sent);
  }

  /** When `[DONE]` follows a stretch of upstream events that neither ends
      nor crashes the producer, and the receiver stays, the accumulator
      emits one event per content fragment carrying the rendering of
      everything so far, then the closing swap, and the one text persisted
      to the pair is the concatenation of all fragments before `[DONE]`. */
  lemma PersistedAfterCleanStretch(md: string -> string, pairId: int, events: seq<UpstreamEvent>, d: nat, room: nat)
    requires d < |events| && Clean(Actions(events[..d])) && IsDone(events[d])
    requires |Texts(events[..d])| < room
    ensures var fs := Texts(events[..d]);
      var u := Unfold(md, pairId, "", PumpSpec(events, room).sent);
      u.writes == [Write(pairId, Concat(fs))] &&
      |u.outs| == |fs| + 1 &&
      (forall k :: 0 <= k < |fs| ==> u.outs[k] == Data(TextFrame(md, Concat(fs[..k + 1])))) &&
      u.outs[|fs|] == Data(EndFrame(md, SseListener, Concat(fs))) &&
      u.acc == ""
  {
    var fs := Texts(events[..d]);
    var sent := PumpSpec(events, room).sent;
    PumpUntilStop(events, d, room);
    assert sent == AsTexts(fs) + [Ok(End(SseListener))];
    UnfoldAppend(md, pairId, "", AsTexts(fs), [Ok(End(SseListener))]);
    UnfoldTexts(md, pairId, "", fs);
    var a := Unfold(md, pairId, "", AsTexts(fs));
    var b := Unfold(md, pairId, a.acc, [Ok(End(SseListener))]);
    var u := Unfold(md, pairId, "", sent);
    assert u == Unfolded(a.outs + b.outs, b.acc, a.writes + b.writes);
    assert a.acc == Concat(fs) by {
      assert "" + Concat(fs) == Concat(fs);
    }
    assert b == Unfolded([Data(EndFrame(md, SseListener, a.acc))], "", [Write(pairId, a.acc)]);
    forall k | 0 <= k < |fs| ensures u.outs[k] == Data(TextFrame(md, Concat(fs[..k + 1]))) {
      assert u.outs[k] == a.outs[k];
      assert "" + Concat(fs[..k + 1]) == Concat(fs[..k + 1]);
    }
  }

  /** The end-to-end property, for every generation that writes: when the
      producer delivers the `End` after `[DONE]`, the one text persisted to
      the pair is the concatenation of all content fragments before
      `[DONE]`, the k-th outbound event renders the first k of them, and
      the last one is the closing swap. */
  lemma PersistedIsConcatenation(md: string -> string, pairId: int, events: seq<UpstreamEvent>, room: nat)
    requires PumpSpec(events, room).exit == DoneSent
    ensures var p := PumpSpec(events, room);
      1 <= p.consumed <= |events| && IsDone(events[p.consumed - 1]) &&
      var fs := Texts(events[..p.consumed - 1]);
      var u := Unfold(md, pairId, "", p.sent);
      u.writes == [Write(pairId, Concat(fs))] &&
      |u.outs| == |fs| + 1 &&
      (forall k :: 0 <= k < |fs| ==> u.outs[k] == Data(TextFrame(md, Concat(fs[..k + 1])))) &&
      u.outs[|fs|] == Data(EndFrame(md, SseListener, Concat(fs))) &&
      u.acc == ""
  {
    PumpDoneShape(events, room);
    PersistedAfterCleanStretch(md, pairId, events, PumpSpec(events, room).consumed - 1, room);
  }

  /** `chat_generate`: the checks, then the producer and the accumulator.
      `probe` is the outcome of `list_engines` for a key, `md` the markdown
      renderer, `events` the upstream events and `room` the number of items
      the receiver takes before the client goes away. */
  function ChatGenerate(
    retrieved: Option<seq<ChatMessagePair>>, user: Option<User>, probe: string -> bool,
    md: string -> string, events: seq<UpstreamEvent>, room: nat): (r: Handled<Streamed>)
    ensures r.Rejected? <==> retrieved.Some? && user.Some? && !probe(ApiKey(user.value))
    ensures r.Rejected? ==> IntoResponse(r.error).status == 401
    ensures r.Success? <==> retrieved.Some? && user.Some? && probe(ApiKey(user.value)) && retrieved.value != []
    ensures r.Success? ==> var pairs := retrieved.value;
      r.value.request.model == pairs[0].model && r.value.request.stream &&
      r.value.request.messages == [SystemMessage] + Conversation(pairs) &&
      r.value.pump == PumpSpec(events, room) &&
      r.value.outs == Unfold(md, pairs[|pairs| - 1].id, "", r.value.pump.sent).outs &&
      r.value.writes == Unfold(md, pairs[|pairs| - 1].id, "", r.value.pump.sent).writes &&
      |r.value.outs| == |r.value.pump.sent| &&
      (r.value.pump.exit != DoneSent ==> r.value.writes == []) &&
      (r.value.pump.exit == DoneSent ==>
         (1 <= r.value.pump.consumed <= |events| &&
          r.value.writes == [Write(pairs[|pairs| - 1].id, Concat(Texts(events[..r.value.pump.consumed - 1])))]))
  {
    match GenerateSetup(retrieved, user, probe)
    case Rejected(e) => Rejected(e)
    case Panic => Panic
    case Success(g) =>
      var p := PumpSpec(events, room);
      var u := Unfold(md, g.pairId, "", p.sent);
      WritesOnlyOnDone(md, g.pairId, events, room);
      UnfoldOnePerItem(md, g.pairId, "", p.sent);
      var s := Streamed(BuildRequestBody(g.model, g.pairs), p, u.outs, u.writes);
      if p.exit == DoneSent then
        PersistedIsConcatenation(md, g.pairId, events, room);
        Success(s)
      else
        Success(s)
  }

  /** The text of a JSON object: it starts with `{` and ends with `}`, so
      trimming leaves it whole and it is never the `[DONE]` marker. */
  predicate JsonObjectText(s: string) {
    s != [] && s[0] == '{' && s[|s| - 1] == '}'
  }

  /** A typical upstream exchange: the connection opens, a role-only delta
      arrives, three content deltas follow and then a padded `[DONE]`.
      `payloads` are the raw texts of the four JSON chunks. */
  function HelloEvents(payloads: seq<string>): seq<UpstreamEvent>
    requires |payloads| == 4
  {
    [Open, Message(payloads[0], Parsed(None)), Message(payloads[1], Parsed(Some("Hel"))),
     Message(payloads[2], Parsed(Some("lo, "))), Message(payloads[3], Parsed(Some("world!"))),
     Message(" [DONE]\n", Malformed)]
  }

  /** The running texts of the exchange. */
  lemma HelloPrefixes()
    ensures var fs := ["Hel", "lo, ", "world!"];
      Concat(fs[..1]) == "Hel" && Concat(fs[..2]) == "Hello, " && Concat(fs[..3]) == "Hello, world!"
  {
    var fs := ["Hel", "lo, ", "world!"];
    assert fs[..1] == ["Hel"] && fs[..2] == ["Hel", "lo, "] && fs[..3] == fs;
    assert Concat(["world!"]) == "world!" by {
      assert ["world!"][1..] == [] && "world!" + "" == "world!";
    }
    assert Concat(["lo, "]) == "lo, " by {
      assert ["lo, "][1..] == [] && "lo, " + "" == "lo, ";
    }
    assert Concat(["Hel"]) == "Hel" by {
      assert ["Hel"][1..] == [] && "Hel" + "" == "Hel";
    }
    assert Concat(["lo, ", "world!"]) == "lo, world!" by {
      assert ["lo, ", "world!"][1..] == ["world!"];
      assert "lo, " + "world!" == "lo, world!";
    }
    assert Concat(["Hel", "lo, "]) == "Hello, " by {
      assert ["Hel", "lo, "][1..] == ["lo, "];
      assert "Hel" + "lo, " == "Hello, ";
    }
    assert Concat(fs) == "Hello, world!" by {
      assert fs[1..] == ["lo, ", "world!"];
      assert "Hel" + "lo, world!" == "Hello, world!";
    }
  }

  /** The producer's view of the exchange: five events that carry on,
      three of them carrying text, then `[DONE]`. */
  lemma HelloActions(payloads: seq<string>)
    requires |payloads| == 4 && forall k :: 0 <= k < 4 ==> JsonObjectText(payloads[k])
    ensures var events := HelloEvents(payloads);
      Clean(Actions(events[..5])) && IsDone(events[5]) && Texts(events[..5]) == ["Hel", "lo, ", "world!"]
  {
    var events := HelloEvents(payloads);
    forall k | 0 <= k < 4 ensures Trim(payloads[k]) == payloads[k] {
      TrimPadded("", payloads[k], "");
      assert "" + payloads[k] + "" == payloads[k];
    }
    TrimPadded(" ", DoneMarker, "\n");
    assert " " + DoneMarker + "\n" == events[5].data;
    var acts := Actions(events[..5]);
    assert acts == [Ignore, Ignore, Send(Ok(Text("Hel")), false), Send(Ok(Text("lo, ")), false),
                    Send(Ok(Text("world!")), false)] by {
      forall k | 0 <= k < 4 ensures payloads[k] != DoneMarker {
        assert payloads[k][0] != DoneMarker[0];
      }
      assert events[..5][1] == events[1] && events[..5][2] == events[2];
      assert events[..5][3] == events[3] && events[..5][4] == events[4];
    }
    assert Fragments(acts) == ["Hel", "lo, ", "world!"] by {
      assert Fragments(acts[5..]) == [];
      assert Fragments(acts[4..]) == ["world!"] by { assert acts[4..][1..] == acts[5..]; }
      assert Fragments(acts[3..]) == ["lo, ", "world!"] by { assert acts[3..][1..] == acts[4..]; }
      assert Fragments(acts[2..]) == ["Hel", "lo, ", "world!"] by { assert acts[2..][1..] == acts[3..]; }
      assert Fragments(acts[1..]) == ["Hel", "lo, ", "world!"] by { assert acts[1..][1..] == acts[2..]; }
    }
  }

  /** The receiver gets the three fragments and the closing `End`. */
  lemma HelloPump(payloads: seq<string>)
    requires |payloads| == 4 && forall k :: 0 <= k < 4 ==> JsonObjectText(payloads[k])
    ensures PumpSpec(HelloEvents(payloads), 10) ==
      PumpResult(AsTexts(["Hel", "lo, ", "world!"]) + [Ok(End(SseListener))], 6, DoneSent)
  {
    HelloActions(payloads);
    PumpUntilStop(HelloEvents(payloads), 5, 10);
  }

  /** The exchange persists "Hello, world!" to the pair and sends four
      events: three renderings of the growing text and the closing swap. */
  lemma HelloWorld(md: string -> string, pairId: int, payloads: seq<string>)
    requires |payloads| == 4 && forall k :: 0 <= k < 4 ==> JsonObjectText(payloads[k])
    ensures var p := PumpSpec(HelloEvents(payloads), 10);
      var u := Unfold(md, pairId, "", p.sent);
      p.exit == DoneSent && p.consumed == 6 &&
      u.writes == [Write(pairId, "Hello, world!")] &&
      u.outs == [Data(TextFrame(md, "Hel")), Data(TextFrame(md, "Hello, ")),
                 Data(TextFrame(md, "Hello, world!")), Data(EndFrame(md, SseListener, "Hello, world!"))]
  {
    var fs := ["Hel", "lo, ", "world!"];
    HelloPump(payloads);
    var end := [Ok(End(SseListener))];
    UnfoldAppend(md, pairId, "", AsTexts(fs), end);
    UnfoldTexts(md, pairId, "", fs);
    HelloPrefixes();
    var a := Unfold(md, pairId, "", AsTexts(fs));
    assert a.acc == "Hello, world!" && a.writes == [] by {
      assert "" + Concat(fs) == Concat(fs) && fs[..3] == fs;
    }
    assert a.outs == [Data(TextFrame(md, "Hel")), Data(TextFrame(md, "Hello, ")),
                      Data(TextFrame(md, "Hello, world!"))] by {
      assert "" + Concat(fs[..1]) == "Hel";
      assert "" + Concat(fs[..2]) == "Hello, ";
      assert "" + Concat(fs[..3]) == "Hello, world!";
    }
    assert end[1..] == [];
  }
}
