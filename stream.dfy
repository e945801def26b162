/** The producer half of the response pipeline (src/ai/stream.rs): the
    chat-completion request body built from the stored pairs, and the loop
    that turns upstream server-sent events into `GenerationEvent`s sent
    down a channel. */
module Stream {
  import opened Wrappers
  import opened Model

  // ---------------------------------------------------------------------
  // Request body
  // ---------------------------------------------------------------------

  /** One `{"role": ..., "content": ...}` object of the request's list. */
  datatype ChatMessage = ChatMessage(role: string, content: string)

  const SystemPrompt: string := "You are a helpful assistant."
  const SystemMessage: ChatMessage := ChatMessage("system", SystemPrompt)

  function UserMessage(p: ChatMessagePair): ChatMessage {
    ChatMessage("user", p.humanMessage)
  }

  /** `msg.ai_message.as_ref().map(...)`: an assistant entry only once the
      pair has been answered. */
  function AssistantMessage(p: ChatMessagePair): Option<ChatMessage> {
    match p.aiMessage
    case Some(text) => Some(ChatMessage("assistant", text))
    case None => None
  }

  /** What the `flat_map` closure yields for one pair:
      `once(user_message).chain(once(ai_message))`. */
  function PairEntries(p: ChatMessagePair): seq<Option<ChatMessage>> {
    [Some(UserMessage(p)), AssistantMessage(p)]
  }

  function FlatMapPairs(pairs: seq<ChatMessagePair>): seq<Option<ChatMessage>> {
    if pairs == [] then [] else PairEntries(pairs[0]) + FlatMapPairs(pairs[1..])
  }

  /** `Iterator::flatten` over options: the present values, in order. */
  function Flatten<T>(xs: seq<Option<T>>): seq<T> {
    if xs == [] then []
    else (if xs[0].Some? then [xs[0].value] else []) + Flatten(xs[1..])
  }

  /** The messages of the request body: the system message, then the
      conversation so far. */
  function BodyMessages(pairs: seq<ChatMessagePair>): seq<ChatMessage> {
    Flatten([Some(SystemMessage)] + FlatMapPairs(pairs))
  }

  /** The messages that come from the stored pairs. */
  function Conversation(pairs: seq<ChatMessagePair>): seq<ChatMessage> {
    Flatten(FlatMapPairs(pairs))
  }

  /** Number of pairs that already carry an AI message. */
  function CountAnswered(pairs: seq<ChatMessagePair>): nat {
    if pairs == [] then 0
    else (if pairs[0].aiMessage.Some? then 1 else 0) + CountAnswered(pairs[1..])
  }

  lemma {:induction false} FlattenAppend<T>(xs: seq<Option<T>>, ys: seq<Option<T>>)
    ensures Flatten(xs + ys) == Flatten(xs) + Flatten(ys)
  {
    if xs == [] {
      assert xs + ys == ys;
    } else {
      var head: seq<T> := if xs[0].Some? then [xs[0].value] else [];
      assert Flatten(xs + ys) == head + Flatten(xs[1..] + ys) by {
        assert (xs + ys)[0] == xs[0] && (xs + ys)[1..] == xs[1..] + ys;
      }
      FlattenAppend(xs[1..], ys);
      assert head + (Flatten(xs[1..]) + Flatten(ys)) == (head + Flatten(xs[1..])) + Flatten(ys);
    }
  }

  /** Nothing but the present values survives `flatten`, and all of them do. */
  lemma {:induction false} FlattenKeepsPresent<T>(xs: seq<Option<T>>)
    ensures forall m :: m in Flatten(xs) <==> Some(m) in xs
  {
    if xs != [] {
      FlattenKeepsPresent(xs[1..]);
      assert xs == [xs[0]] + xs[1..];
    }
  }

  lemma {:induction false} ConversationLength(pairs: seq<ChatMessagePair>)
    ensures |Conversation(pairs)| == |pairs| + CountAnswered(pairs)
  {
    if pairs != [] {
      FlattenAppend(PairEntries(pairs[0]), FlatMapPairs(pairs[1..]));
      ConversationLength(pairs[1..]);
    }
  }

  /** The request body's list is the system message followed by the
      conversation. */
  lemma BodyIsSystemThenConversation(pairs: seq<ChatMessagePair>)
    ensures BodyMessages(pairs) == [SystemMessage] + Conversation(pairs)
  {
    FlattenAppend([Some(SystemMessage)], FlatMapPairs(pairs));
  }

  /** The list's length: one system message, one user message per pair, one
      assistant message per answered pair. */
  lemma BodyMessagesLength(pairs: seq<ChatMessagePair>)
    ensures |BodyMessages(pairs)| == 1 + |pairs| + CountAnswered(pairs)
    ensures BodyMessages(pairs)[0] == SystemMessage
  {
    BodyIsSystemThenConversation(pairs);
    ConversationLength(pairs);
  }

  /** Pair `i` starts at offset `i + CountAnswered(pairs[..i])` of the
      conversation with its user message, and is followed by an assistant
      message exactly when it has been answered. */
  lemma {:induction false} ConversationLayout(pairs: seq<ChatMessagePair>, i: nat)
    requires i < |pairs|
    ensures var c := Conversation(pairs); var o := i + CountAnswered(pairs[..i]);
      o < |c| && c[o] == UserMessage(pairs[i]) &&
      (pairs[i].aiMessage.Some? <==> o + 1 < |c| && c[o + 1].role == "assistant") &&
      (pairs[i].aiMessage.Some? ==> c[o + 1] == ChatMessage("assistant", pairs[i].aiMessage.value))
  {
    var head := Flatten(PairEntries(pairs[0]));
    FlattenAppend(PairEntries(pairs[0]), FlatMapPairs(pairs[1..]));
    assert Conversation(pairs) == head + Conversation(pairs[1..]);
    if i == 0 {
      assert pairs[..0] == [];
      if pairs[0].aiMessage.None? && |pairs| > 1 {
        ConversationLayout(pairs[1..], 0);
        assert pairs[1..][..0] == [];
      } else if pairs[0].aiMessage.None? {
        ConversationLength(pairs[1..]);
      }
    } else {
      ConversationLayout(pairs[1..], i - 1);
      assert pairs[..i][1..] == pairs[1..][..i - 1];
      assert pairs[..i][0] == pairs[0];
    }
  }

  /** The same layout in the request body itself, after the system message. */
  lemma BodyMessagesLayout(pairs: seq<ChatMessagePair>, i: nat)
    requires i < |pairs|
    ensures var b := BodyMessages(pairs); var o := 1 + i + CountAnswered(pairs[..i]);
      o < |b| && b[o] == ChatMessage("user", pairs[i].humanMessage) &&
      (pairs[i].aiMessage.Some? <==> o + 1 < |b| && b[o + 1].role == "assistant") &&
      (pairs[i].aiMessage.Some? ==> b[o + 1] == ChatMessage("assistant", pairs[i].aiMessage.value))
  {
    BodyIsSystemThenConversation(pairs);
    ConversationLayout(pairs, i);
  }

  /** The JSON body posted to the chat-completions endpoint. */
  datatype RequestBody = RequestBody(model: string, messages: seq<ChatMessage>, stream: bool)

  function BuildRequestBody(model: string, pairs: seq<ChatMessagePair>): (b: RequestBody)
    ensures b.model == model && b.stream
    ensures |b.messages| == 1 + |pairs| + CountAnswered(pairs)
    ensures b.messages[0] == SystemMessage
    ensures b.messages[1..] == Conversation(pairs)
  {
    BodyMessagesLength(pairs);
    BodyIsSystemThenConversation(pairs);
    RequestBody(model, BodyMessages(pairs), true)
  }

  // ---------------------------------------------------------------------
  // `str::trim`
  // ---------------------------------------------------------------------

  /** Rust's `char::is_whitespace`: the Unicode White_Space property. */
  predicate IsWhitespace(c: char) {
    ('\t' <= c <= '\r') || c == ' ' || c == '\U{85}' || c == '\U{A0}' ||
    c == '\U{1680}' || ('\U{2000}' <= c <= '\U{200A}') || c == '\U{2028}' ||
    c == '\U{2029}' || c == '\U{202F}' || c == '\U{205F}' || c == '\U{3000}'
  }

  predicate AllWhitespace(s: string) {
    forall k :: 0 <= k < |s| ==> IsWhitespace(s[k])
  }

  /** `str::trim_start`. */
  function TrimStart(s: string): string {
    if s != [] && IsWhitespace(s[0]) then TrimStart(s[1..]) else s
  }

  /** `str::trim_end`. */
  function TrimEnd(s: string): string {
    if s != [] && IsWhitespace(s[|s| - 1]) then TrimEnd(s[..|s| - 1]) else s
  }

  /** `str::trim`. */
  function Trim(s: string): string {
    TrimEnd(TrimStart(s))
  }

  /** `trim_start` drops the leading whitespace, and only that. */
  lemma {:induction false} TrimStartShape(s: string)
    ensures var r := TrimStart(s);
      |r| <= |s| && r == s[|s| - |r|..] && AllWhitespace(s[..|s| - |r|]) &&
      (r == [] || !IsWhitespace(r[0]))
  {
    if s != [] && IsWhitespace(s[0]) {
      TrimStartShape(s[1..]);
      var r := TrimStart(s);
      assert s[..|s| - |r|] == [s[0]] + s[1..][..|s| - 1 - |r|];
    }
  }

  /** `trim_end` drops the trailing whitespace, and only that. */
  lemma {:induction false} TrimEndShape(s: string)
    ensures var r := TrimEnd(s);
      |r| <= |s| && r == s[..|r|] && AllWhitespace(s[|r|..]) &&
      (r == [] || !IsWhitespace(r[|r| - 1]))
  {
    if s != [] && IsWhitespace(s[|s| - 1]) {
      var s' := s[..|s| - 1];
      TrimEndShape(s');
      var r := TrimEnd(s);
      assert s[|r|..] == s'[|r|..] + [s[|s| - 1]];
    }
  }

  /** `trim` keeps an infix of its argument that neither starts nor ends
      with whitespace, and what it drops on either side is whitespace. */
  lemma TrimShape(s: string)
    ensures |TrimStart(s)| <= |s|
    ensures var i, r := |s| - |TrimStart(s)|, Trim(s);
      i + |r| <= |s| && r == s[i..i + |r|] &&
      AllWhitespace(s[..i]) && AllWhitespace(s[i + |r|..]) &&
      (r == [] || (!IsWhitespace(r[0]) && !IsWhitespace(r[|r| - 1])))
  {
    var t := TrimStart(s);
    var r := TrimEnd(t);
    var i := |s| - |t|;
    assert t == s[i..] && AllWhitespace(s[..i]) && (t == [] || !IsWhitespace(t[0])) by {
      TrimStartShape(s);
    }
    assert r == t[..|r|] && AllWhitespace(t[|r|..]) && (r == [] || !IsWhitespace(r[|r| - 1])) by {
      TrimEndShape(t);
    }
    assert r == s[i..i + |r|];
    assert s[i + |r|..] == t[|r|..];
    assert r != [] ==> r[0] == t[0];
  }

  /** Leading whitespace is exactly what `trim_start` removes. */
  lemma {:induction false} TrimStartPadded(a: string, x: string)
    requires AllWhitespace(a) && (x == [] || !IsWhitespace(x[0]))
    ensures TrimStart(a + x) == x
  {
    if a == [] {
      assert a + x == x;
    } else {
      assert (a + x)[0] == a[0];
      assert (a + x)[1..] == a[1..] + x;
      TrimStartPadded(a[1..], x);
    }
  }

  /** Trailing whitespace is exactly what `trim_end` removes. */
  lemma {:induction false} TrimEndPadded(x: string, b: string)
    requires AllWhitespace(b) && (x == [] || !IsWhitespace(x[|x| - 1]))
    ensures TrimEnd(x + b) == x
  {
    if b == [] {
      assert x + b == x;
    } else {
      var s := x + b;
      assert s[|s| - 1] == b[|b| - 1];
      assert s[..|s| - 1] == x + b[..|b| - 1];
      TrimEndPadded(x, b[..|b| - 1]);
    }
  }

  /** Whitespace around a word is exactly what `trim` removes. */
  lemma TrimPadded(a: string, core: string, b: string)
    requires AllWhitespace(a) && AllWhitespace(b)
    requires core != [] && !IsWhitespace(core[0]) && !IsWhitespace(core[|core| - 1])
    ensures Trim(a + core + b) == core
  {
    assert a + core + b == a + (core + b);
    TrimStartPadded(a, core + b);
    TrimEndPadded(core, b);
  }

  // ---------------------------------------------------------------------
  // The event pump
  // ---------------------------------------------------------------------

  /** What `serde_json` makes of a message's data:
      `m["choices"][0]["delta"]["content"].as_str()` when the data parses,
      `Malformed` when `from_str` fails. */
  datatype Json = Malformed | Parsed(content: Option<string>)

  /** A transport-level failure reported by the event source. */
  datatype StreamError = StreamError(description: string)

  /** One item of the upstream event source. */
  datatype UpstreamEvent =
    | Open
    | Message(data: string, json: Json)
    | TransportError(error: StreamError)

  datatype GenerationEvent = Text(text: string) | End(text: string)

  /** The channel's item type, `Result<GenerationEvent, axum::Error>`. */
  datatype EventResult = Ok(event: GenerationEvent) | Err(error: StreamError)

  const DoneMarker: string := "[DONE]"
  const SseListener: string := "<div id=\"sse-listener\" hx-swap-oob=\"true\"></div>"

  predicate IsDone(e: UpstreamEvent) {
    e.Message? && Trim(e.data) == DoneMarker
  }

  /** What one upstream event asks of the loop: nothing, one send (after
      which the loop ends when `last`), or a panic from `unwrap`. */
  datatype Action = Ignore | Send(item: EventResult, last: bool) | Crash

  function Dispatch(e: UpstreamEvent): Action
  {
    match e
    case Open => Ignore
    case Message(data, json) =>
      if Trim(data) == DoneMarker then Send(Ok(End(SseListener)), true)
      else (
        match json
        case Malformed => Crash
        case Parsed(Some(text)) => Send(Ok(Text(text)), false)
        case Parsed(None) => Ignore)
    case TransportError(err) => Send(Err(err), true)
  }

  /** How the loop ended. */
  datatype Exit = Exhausted | DoneSent | ClosedOnError | ReceiverDropped | Panicked

  /** The items that reached the receiver, how many upstream events were
      pulled, and how the loop ended. */
  datatype PumpResult = PumpResult(sent: seq<EventResult>, consumed: nat, exit: Exit)

  /** What the loop asks of each upstream event, in order. */
  function Actions(events: seq<UpstreamEvent>): (acts: seq<Action>)
    ensures |acts| == |events|
    ensures forall k :: 0 <= k < |events| ==> acts[k] == Dispatch(events[k])
  {
    seq(|events|, k requires 0 <= k < |events| => Dispatch(events[k]))
  }

  /** The loop as a function of the actions the events ask for and of
      `room`, the number of sends the receiver still accepts before it is
      dropped. */
  function Run(acts: seq<Action>, room: nat): (r: PumpResult)
    ensures r.consumed <= |acts| && |r.sent| <= room
  {
    if acts == [] then PumpResult([], 0, Exhausted)
    else
      match acts[0]
      case Ignore =>
        var rest := Run(acts[1..], room);
        rest.(consumed := rest.consumed + 1)
      case Crash => PumpResult([], 1, Panicked)
      case Send(item, last) =>
        if room == 0 then PumpResult([], 1, ReceiverDropped)
        else if last then PumpResult([item], 1, if item.Err? then ClosedOnError else DoneSent)
        else
          var rest := Run(acts[1..], room - 1);
          PumpResult([item] + rest.sent, rest.consumed + 1, rest.exit)
  }

  function PumpSpec(events: seq<UpstreamEvent>, room: nat): PumpResult {
    Run(Actions(events), room)
  }

  /** The result of a run that first sent `sent` over `consumed` events and
      then behaved as `r`. */
  function Splice(sent: seq<EventResult>, consumed: nat, r: PumpResult): PumpResult {
    PumpResult(sent + r.sent, consumed + r.consumed, r.exit)
  }

  lemma SpliceAssoc(x: seq<EventResult>, c: nat, y: seq<EventResult>, d: nat, r: PumpResult)
    ensures Splice(x, c, Splice(y, d, r)) == Splice(x + y, c + d, r)
  {
    assert x + (y + r.sent) == (x + y) + r.sent;
  }

  /** One action that lets the loop go on: the run so far, followed by the
      rest of the run from that action, equals the run one action later. */
  lemma RunStepOn(acts: seq<Action>, c: nat, sent: seq<EventResult>, room: nat)
    requires c < |acts| && |sent| <= room
    requires acts[c].Ignore? || (acts[c].Send? && !acts[c].last && |sent| < room)
    ensures var sent' := if acts[c].Send? then sent + [acts[c].item] else sent;
      |sent'| <= room &&
      Splice(sent, c, Run(acts[c..], room - |sent|)) ==
        Splice(sent', c + 1, Run(acts[c + 1..], room - |sent'|))
  {
    var tail := acts[c..];
    assert tail[0] == acts[c] && tail[1..] == acts[c + 1..];
  }

  /** One action that ends the loop: a panic, a failed send, or the last
      send after `[DONE]` or a transport error. */
  lemma RunStepStop(acts: seq<Action>, c: nat, sent: seq<EventResult>, room: nat)
    requires c < |acts| && |sent| <= room
    requires acts[c].Crash? || (acts[c].Send? && (acts[c].last || |sent| == room))
    ensures Splice(sent, c, Run(acts[c..], room - |sent|)) ==
      if acts[c].Crash? then PumpResult(sent, c + 1, Panicked)
      else if |sent| == room then PumpResult(sent, c + 1, ReceiverDropped)
      else PumpResult(sent + [acts[c].item], c + 1, if acts[c].item.Err? then ClosedOnError else DoneSent)
  {
    var tail := acts[c..];
    assert tail[0] == acts[c];
    assert sent + [] == sent;
  }

  /** `sender.send(item).await`: it fails once the receiver has taken
      `room` items and been dropped. */
  method TrySend(sent: seq<EventResult>, room: nat, item: EventResult)
    returns (sent': seq<EventResult>, failed: bool)
    ensures failed <==> |sent| >= room
    ensures sent' == if failed then sent else sent + [item]
  {
    failed := |sent| >= room;
    sent' := if failed then sent else sent + [item];
  }

  /** The `while let Some(event) = stream.next()` loop of
      `generate_sse_stream`. */
  method Pump(events: seq<UpstreamEvent>, room: nat)
    returns (sent: seq<EventResult>, consumed: nat, exit: Exit)
    ensures PumpResult(sent, consumed, exit) == PumpSpec(events, room)
  {
    ghost var acts := Actions(events);
    ghost var target := Run(acts, room);
    sent, consumed, exit := [], 0, Exhausted;
    assert acts[0..] == acts;
    // after `stream.close()` the event source yields no more events
    var closed := false;
    while !closed && consumed < |events|
      invariant consumed <= |events| && |sent| <= room
      invariant !closed ==> exit == Exhausted
      invariant !closed ==>
        target == Splice(sent, consumed, Run(acts[consumed..], room - |sent|))
      invariant closed ==> PumpResult(sent, consumed, exit) == target
    {
      var event := events[consumed];
      assert acts[consumed] == Dispatch(event);
      match event {
        case Open =>
          assert acts[consumed] == Ignore;
          RunStepOn(acts, consumed, sent, room);
        case Message(data, json) =>
          if Trim(data) == DoneMarker {
            assert acts[consumed] == Send(Ok(End(SseListener)), true);
            RunStepStop(acts, consumed, sent, room);
            var failed;
            sent, failed := TrySend(sent, room, Ok(End(SseListener)));
            exit := if failed then ReceiverDropped else DoneSent;
            consumed := consumed + 1;
            return;
          } else {
            match json {
              case Malformed =>
                assert acts[consumed] == Crash;
                RunStepStop(acts, consumed, sent, room);
                exit := Panicked;
                consumed := consumed + 1;
                return;
              case Parsed(content) =>
                if content.Some? {
                  assert acts[consumed] == Send(Ok(Text(content.value)), false);
                  if |sent| < room {
                    RunStepOn(acts, consumed, sent, room);
                  } else {
                    RunStepStop(acts, consumed, sent, room);
                  }
                  var failed;
                  sent, failed := TrySend(sent, room, Ok(Text(content.value)));
                  if failed {
                    exit := ReceiverDropped;
                    consumed := consumed + 1;
                    return;
                  }
                } else {
                  assert acts[consumed] == Ignore;
                  RunStepOn(acts, consumed, sent, room);
                }
            }
          }
        case TransportError(err) =>
          assert acts[consumed] == Send(Err(err), true);
          RunStepStop(acts, consumed, sent, room);
          closed := true;
          var failed;
          sent, failed := TrySend(sent, room, Err(err));
          exit := if failed then ReceiverDropped else ClosedOnError;
      }
      consumed := consumed + 1;
    }
  }

  // ---------------------------------------------------------------------
  // Properties of the pump
  // ---------------------------------------------------------------------

  /** An action after which the loop reads the next event (when its send,
      if any, succeeds): not `[DONE]`, a transport error or a malformed
      payload. */
  predicate Continues(a: Action) {
    a.Ignore? || (a.Send? && !a.last && a.item.Ok? && a.item.event.Text?)
  }

  predicate Clean(acts: seq<Action>) {
    forall k :: 0 <= k < |acts| ==> Continues(acts[k])
  }

  lemma CleanSplit(acts: seq<Action>)
    requires acts != [] && Clean(acts)
    ensures Continues(acts[0]) && Clean(acts[1..])
  {
    forall k | 0 <= k < |acts| - 1 ensures Continues(acts[1..][k]) {
      assert acts[1..][k] == acts[k + 1];
    }
  }

  /** The text fragment an action sends, if any. */
  function FragmentOf(a: Action): seq<string> {
    match a
    case Send(Ok(Text(t)), false) => [t]
    case _ => []
  }

  /** The text fragments the actions send, in order. */
  function Fragments(acts: seq<Action>): seq<string> {
    if acts == [] then [] else FragmentOf(acts[0]) + Fragments(acts[1..])
  }

  function AsTexts(fragments: seq<string>): seq<EventResult> {
    if fragments == [] then [] else [Ok(Text(fragments[0]))] + AsTexts(fragments[1..])
  }

  lemma {:induction false} AsTextsAppend(xs: seq<string>, ys: seq<string>)
    ensures AsTexts(xs + ys) == AsTexts(xs) + AsTexts(ys)
  {
    if xs == [] {
      assert xs + ys == ys;
    } else {
      assert (xs + ys)[1..] == xs[1..] + ys;
      AsTextsAppend(xs[1..], ys);
    }
  }

  /** The loop over an action that lets it go on. */
  lemma RunHead(acts: seq<Action>, room: nat)
    requires acts != [] && Continues(acts[0]) && |FragmentOf(acts[0])| <= room
    ensures Run(acts, room) ==
      Splice(AsTexts(FragmentOf(acts[0])), 1, Run(acts[1..], room - |FragmentOf(acts[0])|))
  {
    var r := Run(acts[1..], room - |FragmentOf(acts[0])|);
    assert [] + r.sent == r.sent;
    if acts[0].Send? {
      assert AsTexts(FragmentOf(acts[0])) == [acts[0].item];
    } else {
      assert AsTexts(FragmentOf(acts[0])) == [];
    }
  }

  /** Over a clean prefix of `n` actions the loop sends one `Text` per
      content fragment and goes on with the rest, as long as the receiver
      takes them. */
  lemma {:induction false} RunCleanPrefix(acts: seq<Action>, n: nat, room: nat)
    requires n <= |acts| && Clean(acts[..n])
    requires |Fragments(acts[..n])| <= room
    ensures Run(acts, room) ==
      Splice(AsTexts(Fragments(acts[..n])), n, Run(acts[n..], room - |Fragments(acts[..n])|))
  {
    if n == 0 {
      assert acts[..0] == [] && acts[0..] == acts;
      var r := Run(acts, room);
      assert Splice([], 0, r) == r by {
        assert [] + r.sent == r.sent;
      }
    } else {
      var pre := acts[..n];
      var f0, rest := FragmentOf(acts[0]), Fragments(pre[1..]);
      assert Fragments(pre) == f0 + rest && Continues(acts[0]) && Clean(pre[1..]) by {
        assert pre[0] == acts[0];
        CleanSplit(pre);
      }
      var r := Run(acts[n..], room - |Fragments(pre)|);
      var mid := Run(acts[1..], room - |f0|);
      assert mid == Splice(AsTexts(rest), n - 1, r) by {
        assert pre[1..] == acts[1..][..n - 1];
        assert acts[1..][n - 1..] == acts[n..];
        RunCleanPrefix(acts[1..], n - 1, room - |f0|);
      }
      assert Run(acts, room) == Splice(AsTexts(f0), 1, mid) by {
        RunHead(acts, room);
      }
      assert AsTexts(f0) + AsTexts(rest) == AsTexts(Fragments(pre)) by {
        AsTextsAppend(f0, rest);
      }
      SpliceAssoc(AsTexts(f0), 1, AsTexts(rest), n - 1, r);
    }
  }

  /** The content fragments carried by a stretch of upstream events. */
  function Texts(events: seq<UpstreamEvent>): seq<string> {
    Fragments(Actions(events))
  }

  /** End to end on the producer side: when the events before position `d`
      neither end the loop nor crash it, and the receiver stays, the
      receiver gets one `Text` per content fragment, in order, and then
      exactly one more item: the `End` carrying the listener fragment when
      event `d` is `[DONE]`, the error when it is a transport error.
      Nothing after event `d` is read. */
  lemma PumpUntilStop(events: seq<UpstreamEvent>, d: nat, room: nat)
    requires d < |events| && Clean(Actions(events[..d]))
    requires IsDone(events[d]) || events[d].TransportError?
    requires |Texts(events[..d])| < room
    ensures IsDone(events[d]) ==> (PumpSpec(events, room) ==
      PumpResult(AsTexts(Texts(events[..d])) + [Ok(End(SseListener))], d + 1, DoneSent))
    ensures events[d].TransportError? ==> (PumpSpec(events, room) ==
      PumpResult(AsTexts(Texts(events[..d])) + [Err(events[d].error)], d + 1, ClosedOnError))
  {
    var acts := Actions(events);
    assert Actions(events[..d]) == acts[..d];
    RunCleanPrefix(acts, d, room);
    assert acts[d..][0] == acts[d];
  }

  /** A malformed payload after a clean stretch panics the task: the
      receiver has the stretch's `Text`s and nothing more. */
  lemma PumpPanicsOnMalformed(events: seq<UpstreamEvent>, d: nat, room: nat)
    requires d < |events| && Clean(Actions(events[..d]))
    requires events[d].Message? && !IsDone(events[d]) && events[d].json.Malformed?
    requires |Texts(events[..d])| <= room
    ensures PumpSpec(events, room) == PumpResult(AsTexts(Texts(events[..d])), d + 1, Panicked)
  {
    var acts := Actions(events);
    assert Actions(events[..d]) == acts[..d];
    RunCleanPrefix(acts, d, room);
    assert acts[d..][0] == acts[d] == Crash;
  }

  /** The actions `Dispatch` can ask for: a `Text` that lets the loop go
      on, or a last send that is the listener `End` or an error. */
  predicate Possible(a: Action) {
    match a
    case Ignore => true
    case Crash => true
    case Send(item, last) =>
      if last then item.Err? || item == Ok(End(SseListener)) else item.Ok? && item.event.Text?
  }

  lemma DispatchPossible(events: seq<UpstreamEvent>)
    ensures forall k :: 0 <= k < |events| ==> Possible(Actions(events)[k])
  {
  }

  /** Every item the receiver gets is a `Text`, except possibly the last,
      which is the `End` after `[DONE]` or the forwarded transport error. */
  lemma {:induction false} RunSentShape(acts: seq<Action>, room: nat)
    requires forall k :: 0 <= k < |acts| ==> Possible(acts[k])
    ensures var r := Run(acts, room);
      (forall k :: 0 <= k < |r.sent| - 1 ==> r.sent[k].Ok? && r.sent[k].event.Text?) &&
      (r.exit == DoneSent <==> |r.sent| > 0 && r.sent[|r.sent| - 1] == Ok(End(SseListener))) &&
      (r.exit == ClosedOnError <==> |r.sent| > 0 && r.sent[|r.sent| - 1].Err?) &&
      (r.exit != DoneSent && r.exit != ClosedOnError ==>
         forall k :: 0 <= k < |r.sent| ==> r.sent[k].Ok? && r.sent[k].event.Text?)
    decreases |acts|
  {
    if acts != [] {
      assert Possible(acts[0]);
      assert forall k :: 0 <= k < |acts[1..]| ==> Possible(acts[1..][k]) by {
        forall k | 0 <= k < |acts[1..]| ensures Possible(acts[1..][k]) {
          assert acts[1..][k] == acts[k + 1];
        }
      }
      RunSentShape(acts[1..], room);
      if room > 0 {
        RunSentShape(acts[1..], room - 1);
      }
    }
  }

  lemma PumpSentShape(events: seq<UpstreamEvent>, room: nat)
    ensures var r := PumpSpec(events, room);
      (forall k :: 0 <= k < |r.sent| - 1 ==> r.sent[k].Ok? && r.sent[k].event.Text?) &&
      (r.exit == DoneSent <==> |r.sent| > 0 && r.sent[|r.sent| - 1] == Ok(End(SseListener))) &&
      (r.exit == ClosedOnError <==> |r.sent| > 0 && r.sent[|r.sent| - 1].Err?) &&
      (r.exit != DoneSent && r.exit != ClosedOnError ==>
         forall k :: 0 <= k < |r.sent| ==> r.sent[k].Ok? && r.sent[k].event.Text?)
  {
    DispatchPossible(events);
    RunSentShape(Actions(events), room);
  }

  /** Prepending one action to a stretch: its fragment comes first, and a
      stretch of actions that carry on stays one. */
  lemma ConsFragments(a: Action, xs: seq<Action>)
    ensures Fragments([a] + xs) == FragmentOf(a) + Fragments(xs)
    ensures Continues(a) && Clean(xs) ==> Clean([a] + xs)
  {
    assert ([a] + xs)[0] == a && ([a] + xs)[1..] == xs;
    if Continues(a) && Clean(xs) {
      forall k | 0 <= k < |[a] + xs| ensures Continues(([a] + xs)[k]) {
        if k > 0 {
          assert ([a] + xs)[k] == xs[k - 1];
        }
      }
    }
  }

  /** A run that ends by delivering the `End` after `[DONE]` has one
      shape only: the action it read last is that send, every action
      before it carried on, and the receiver had room for all their
      fragments and the `End`. */
  lemma {:induction false} RunDoneShape(acts: seq<Action>, room: nat)
    requires forall k :: 0 <= k < |acts| ==> Possible(acts[k])
    ensures var r := Run(acts, room);
      r.exit == DoneSent ==>
        1 <= r.consumed && acts[r.consumed - 1] == Send(Ok(End(SseListener)), true) &&
        Clean(acts[..r.consumed - 1]) && |Fragments(acts[..r.consumed - 1])| < room
    decreases |acts|
  {
    var r := Run(acts, room);
    if acts != [] && r.exit == DoneSent {
      var a := acts[0];
      assert Possible(a);
      if a.Send? && a.last {
        assert r.consumed == 1 && acts[..0] == [];
      } else {
        assert Continues(a);
        var room' := if a.Send? then room - 1 else room;
        assert forall k :: 0 <= k < |acts[1..]| ==> Possible(acts[1..][k]) by {
          forall k | 0 <= k < |acts[1..]| ensures Possible(acts[1..][k]) {
            assert acts[1..][k] == acts[k + 1];
          }
        }
        RunDoneShape(acts[1..], room');
        var rest := Run(acts[1..], room');
        assert r.consumed == rest.consumed + 1 && rest.exit == DoneSent;
        var pre := acts[1..][..rest.consumed - 1];
        assert acts[..r.consumed - 1] == [a] + pre;
        assert acts[r.consumed - 1] == acts[1..][rest.consumed - 1];
        ConsFragments(a, pre);
        assert |FragmentOf(a)| == if a.Send? then 1 else 0;
      }
    }
  }

  /** The same for the loop over upstream events: it ends `DoneSent` only
      when the event it read last is `[DONE]`, every event before it
      carried on, and the receiver had room for their `Text`s and the
      `End`. */
  lemma PumpDoneShape(events: seq<UpstreamEvent>, room: nat)
    ensures var r := PumpSpec(events, room);
      r.exit == DoneSent ==>
        1 <= r.consumed <= |events| && IsDone(events[r.consumed - 1]) &&
        Clean(Actions(events[..r.consumed - 1])) && |Texts(events[..r.consumed - 1])| < room
  {
    var r := PumpSpec(events, room);
    var acts := Actions(events);
    DispatchPossible(events);
    RunDoneShape(acts, room);
    if r.exit == DoneSent {
      var d := r.consumed - 1;
      assert Actions(events[..d]) == acts[..d];
      assert Dispatch(events[d]) == Send(Ok(End(SseListener)), true);
    }
  }

  /** A receiver that accepts as many items as there are events is never
      found dropped. */
  lemma {:induction false} RunNoDropWithRoom(acts: seq<Action>, room: nat)
    requires |acts| <= room
    ensures Run(acts, room).exit != ReceiverDropped
  {
    if acts != [] {
      RunNoDropWithRoom(acts[1..], room);
      if room > 0 {
        RunNoDropWithRoom(acts[1..], room - 1);
      }
    }
  }

  /** Once a send fails the loop stops at once: the receiver has taken
      exactly `room` items and the last event read is the one whose send
      failed; nothing after it is read. */
  lemma {:induction false} RunStopsOnDrop(acts: seq<Action>, room: nat)
    ensures var r := Run(acts, room);
      r.exit == ReceiverDropped ==>
        |r.sent| == room && r.consumed >= 1 && acts[r.consumed - 1].Send?
    decreases |acts|
  {
    if acts != [] {
      RunStopsOnDrop(acts[1..], room);
      if room > 0 {
        RunStopsOnDrop(acts[1..], room - 1);
      }
      var r := Run(acts, room);
      if r.exit == ReceiverDropped && r.consumed > 1 {
        assert acts[r.consumed - 1] == acts[1..][r.consumed - 2];
      }
    }
  }
}
