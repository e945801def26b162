/** The consumer half of the response pipeline and the handler logic
    around it (src/router/app/chat.rs): the error-to-response mapping, the
    model table and its lookups, the checks `chat_generate` makes before
    it streams, and the accumulator that turns `GenerationEvent`s into
    outbound HTML fragments and persists the finished answer. */
module Chat {
  import opened Wrappers
  import opened Model
  import opened Stream

  // ---------------------------------------------------------------------
  // Errors
  // ---------------------------------------------------------------------

  datatype ChatError = Other | InvalidAPIKey

  /** An HTTP response: status code and body. */
  datatype Response = Response(status: nat, body: string)

  /** `Json("Chat Errror")`: the string serialised as JSON, spelling kept. */
  const ErrorBody: string := "\"Chat Errror\""

  /** `ChatError::into_response`: both errors are client errors with the
      same body; only a rejected API key is 401 Unauthorized, anything
      else is 400 Bad Request. */
  function IntoResponse(e: ChatError): (r: Response)
    ensures 400 <= r.status < 500 && r.body == ErrorBody
    ensures r.status == 401 <==> e == InvalidAPIKey
    ensures r.status == 400 <==> e == Other
  {
    match e
    case Other => Response(400, ErrorBody)
    case InvalidAPIKey => Response(401, ErrorBody)
  }

  /** How a handler ends: with a value, with a `ChatError` turned into a
      response, or with a panic (an `unwrap` on `None`/`Err`, or an index
      out of bounds). */
  datatype Handled<T> = Success(value: T) | Rejected(error: ChatError) | Panic

  // ---------------------------------------------------------------------
  // The model table
  // ---------------------------------------------------------------------

  /** One `(name, id, description)` row of `MODELS`. */
  datatype ModelInfo = ModelInfo(name: string, id: string, description: string)

  const Models: seq<ModelInfo> := [
    ModelInfo("GPT-4-Preview", "gpt-4-1106-preview", "This is the preview version of the GPT-4 model."),
    ModelInfo("GPT-4", "gpt-4", "Latest generation GPT-4 model."),
    ModelInfo("GPT-3.5-16K", "gpt-3.5-turbo-16k", "An enhanced GPT-3.5 model with 16K token limit."),
    ModelInfo("GPT-3.5", "gpt-3.5-turbo", "Standard GPT-3.5 model with turbo features.")
  ]

  /** `models.iter().filter(|f| f.1 == id).collect()`: the rows with that
      id, in table order. */
  function WithId(models: seq<ModelInfo>, id: string): (r: seq<ModelInfo>)
    ensures |r| <= |models|
    ensures forall m :: m in r <==> m in models && m.id == id
  {
    if models == [] then []
    else (if models[0].id == id then [models[0]] else []) + WithId(models[1..], id)
  }

  /** `...collect::<Vec<_>>()[0]`: the first row with that id; `None` where
      the source indexes an empty vector and panics. */
  function SelectModel(id: string): (r: Option<ModelInfo>)
    ensures r.Some? ==> r.value in Models && r.value.id == id
    ensures r.None? ==> forall m :: m in Models ==> m.id != id
  {
    var matches := WithId(Models, id);
    if matches == [] then None else Some(matches[0])
  }

  /** The table's ids are distinct, so a lookup by id finds at most one row. */
  lemma ModelIdsDistinct(id: string)
    ensures |WithId(Models, id)| <= 1
  {
    // names the four ids, so the solver compares them with each other
    var ids := [Models[0].id, Models[1].id, Models[2].id, Models[3].id];
    assert WithId(Models, id) == WithId(Models[..1], id) + WithId(Models[1..], id);
  }

  /** The `chat` page preselects the one row whose id is "gpt-4". */
  lemma ChatSelectsGpt4()
    ensures WithId(Models, "gpt-4") == [Models[1]]
    ensures SelectModel("gpt-4") == Some(ModelInfo("GPT-4", "gpt-4", "Latest generation GPT-4 model."))
  {
  }

  /** `chat_by_id`'s choice of the preselected model: a failing
      `retrieve_chat` is `Other`; a chat without pairs, or whose first pair
      names a model missing from the table, panics. */
  function ChatByIdModel(retrieved: Option<seq<ChatMessagePair>>): (r: Handled<ModelInfo>)
    ensures r.Rejected? <==> retrieved.None?
    ensures r.Rejected? ==> r.error == Other
    ensures retrieved == Some([]) ==> r.Panic?
    ensures retrieved.Some? && retrieved.value != [] ==>
      (r.Panic? <==> forall m :: m in Models ==> m.id != retrieved.value[0].model)
    ensures r.Success? ==> r.value in Models && r.value.id == retrieved.value[0].model
  {
    match retrieved
    case None => Rejected(Other)
    case Some(pairs) =>
      if pairs == [] then Panic
      else match SelectModel(pairs[0].model)
        case Some(m) => Success(m)
        case None => Panic
  }

  // ---------------------------------------------------------------------
  // `chat_generate` before it streams
  // ---------------------------------------------------------------------

  /** What `chat_generate` hands to the producer task and to the
      accumulator: the key, the model of the first pair, the id of the last
      pair (the one the answer is attached to) and the pairs themselves. */
  datatype Generation = Generation(key: string, model: string, pairId: int, pairs: seq<ChatMessagePair>)

  /** The OpenAI key of the user, or the empty string when none is stored. */
  function ApiKey(user: User): (key: string)
    ensures user.openaiApiKey.Some? ==> key == user.openaiApiKey.value
    ensures user.openaiApiKey.None? ==> key == ""
  {
    user.openaiApiKey.UnwrapOr("")
  }

  /** The checks before streaming. `retrieved` is the outcome of
      `retrieve_chat`, `user` the request's user, `probe(key)` whether
      `list_engines` succeeds with that key. */
  function GenerateSetup(retrieved: Option<seq<ChatMessagePair>>, user: Option<User>, probe: string -> bool)
    : (r: Handled<Generation>)
    ensures r.Rejected? <==> retrieved.Some? && user.Some? && !probe(ApiKey(user.value))
    ensures r.Rejected? ==> r.error == InvalidAPIKey && IntoResponse(r.error).status == 401
    ensures r.Success? <==> retrieved.Some? && user.Some? && probe(ApiKey(user.value)) && retrieved.value != []
    ensures r.Success? ==> var pairs := retrieved.value;
      r.value.pairs == pairs && r.value.key == ApiKey(user.value) && probe(r.value.key) &&
      r.value.model == pairs[0].model && r.value.pairId == pairs[|pairs| - 1].id
  {
    if retrieved.None? || user.None? then Panic
    else
      var key := ApiKey(user.value);
      if !probe(key) then Rejected(InvalidAPIKey)
      else
        var pairs := retrieved.value;
        if pairs == [] then Panic
        else Success(Generation(key, pairs[0].model, pairs[|pairs| - 1].id, pairs))
  }

  // ---------------------------------------------------------------------
  // The accumulator (the `stream::unfold` of `chat_generate`)
  // ---------------------------------------------------------------------

  /** One outbound server-sent event: its `data`, or an error. */
  datatype Outbound = Data(data: string) | Failure(error: StreamError)

  /** One `add_ai_message_to_pair(pair_id, text)` call. */
  datatype Write = Write(pairId: int, text: string)

  const OobOpen: string := "<div hx-swap-oob=\"outerHTML:#message-container\">"

  /** The data of the event sent for a `Text`: the whole accumulated answer
      rendered, between two literal `<div>` tags. */
  function TextFrame(md: string -> string, accumulated: string): string {
    "<div>" + md(accumulated) + "<div>"
  }

  /** The data of the event sent for an `End(text)`: the `End`'s text, a
      newline, and the rendered answer in an out-of-band swap of the
      message container. */
  function EndFrame(md: string -> string, text: string, accumulated: string): string {
    text + "\n" + OobOpen + md(accumulated) + "</div>"
  }

  /** One turn of the unfold: the event it yields, the new accumulator, and
      the writes it makes. */
  datatype Turn = Turn(out: Outbound, acc: string, writes: seq<Write>)

  function Step(md: string -> string, pairId: int, acc: string, item: EventResult): Turn {
    match item
    case Ok(Text(t)) => Turn(Data(TextFrame(md, acc + t)), acc + t, [])
    case Ok(End(text)) => Turn(Data(EndFrame(md, text, acc)), "", [Write(pairId, acc)])
    case Err(e) => Turn(Failure(e), acc, [])
  }

  /** The unfold over a finite channel: one outbound event per item, the
      accumulator at the end, and the writes in order. */
  datatype Unfolded = Unfolded(outs: seq<Outbound>, acc: string, writes: seq<Write>)

  function Unfold(md: string -> string, pairId: int, acc: string, items: seq<EventResult>): Unfolded
    decreases |items|
  {
    if items == [] then Unfolded([], acc, [])
    else
      var t := Step(md, pairId, acc, items[0]);
      var rest := Unfold(md, pairId, t.acc, items[1..]);
      Unfolded([t.out] + rest.outs, rest.acc, t.writes + rest.writes)
  }

  /** The unfold over the items so far, followed by one more item. */
  lemma UnfoldSnoc(md: string -> string, pairId: int, items: seq<EventResult>, x: EventResult)
    ensures var u := Unfold(md, pairId, "", items); var t := Step(md, pairId, u.acc, x);
      Unfold(md, pairId, "", items + [x]) == Unfolded(u.outs + [t.out], t.acc, u.writes + t.writes)
  {
    UnfoldAppend(md, pairId, "", items, [x]);
    assert [x][1..] == [];
  }

  /** The accumulator state of one generation request. */
  class Accumulator {
    const render: string -> string
    const pairId: int
    var accumulated: string
    /** The calls to `add_ai_message_to_pair`, in order. */
    var writes: seq<Write>

    constructor (render: string -> string, pairId: int)
      ensures this.render == render && this.pairId == pairId
      ensures accumulated == "" && writes == []
    {
      this.render := render;
      this.pairId := pairId;
      accumulated := "";
      writes := [];
    }

    /** One call of the unfold's closure on an item from the channel. */
    method Next(item: EventResult) returns (out: Outbound)
      modifies this
      ensures var t := Step(render, pairId, old(accumulated), item);
        out == t.out && accumulated == t.acc && writes == old(writes) + t.writes
    {
      match item {
        case Ok(Text(text)) =>
          accumulated := accumulated + text;
          var html := render(accumulated);
          out := Data("<div>" + html + "<div>");
        case Ok(End(text)) =>
          writes := writes + [Write(pairId, accumulated)];
          var html := render(accumulated);
          var s := OobOpen + html + "</div>";
          out := Data(text + "\n" + s);
          accumulated := "";
        case Err(e) =>
          out := Failure(e);
      }
    }
  }

  /** The outbound stream of `chat_generate` for the items the channel
      delivers, and the writes it makes; the stream ends when the channel
      does. */
  method EventStream(render: string -> string, pairId: int, items: seq<EventResult>)
    returns (outs: seq<Outbound>, writes: seq<Write>)
    ensures outs == Unfold(render, pairId, "", items).outs
    ensures writes == Unfold(render, pairId, "", items).writes
  {
    var state := new Accumulator(render, pairId);
    outs := [];
    var i := 0;
    while i < |items|
      invariant 0 <= i <= |items|
      invariant state.render == render && state.pairId == pairId
      invariant Unfold(render, pairId, "", items[..i]) == Unfolded(outs, state.accumulated, state.writes)
    {
      UnfoldSnoc(render, pairId, items[..i], items[i]);
      assert items[..i + 1] == items[..i] + [items[i]];
      var out := state.Next(items[i]);
      outs := outs + [out];
      i := i + 1;
    }
    assert items[..i] == items;
    writes := state.writes;
  }

  // ---------------------------------------------------------------------
  // Properties of the accumulator
  // ---------------------------------------------------------------------

  /** `f1 + ... + fk`. */
  function Concat(fragments: seq<string>): string {
    if fragments == [] then "" else fragments[0] + Concat(fragments[1..])
  }

  /** Each step: a `Text` appends its fragment verbatim and renders the
      whole accumulator; an `End` writes the accumulator to the pair,
      emits the closing swap and resets; an error passes through and
      changes nothing. */
  lemma StepCases(md: string -> string, pairId: int, acc: string, item: EventResult)
    ensures var t := Step(md, pairId, acc, item);
      (item.Ok? && item.event.Text? ==>
         t.acc == acc + item.event.text && t.writes == [] && t.out == Data("<div>" + md(t.acc) + "<div>")) &&
      (item.Ok? && item.event.End? ==>
         t.acc == "" && t.writes == [Write(pairId, acc)] &&
         t.out == Data(item.event.text + "\n" + "<div hx-swap-oob=\"outerHTML:#message-container\">" + md(acc) + "</div>")) &&
      (item.Err? ==> t.acc == acc && t.writes == [] && t.out == Failure(item.error))
  {
  }

  /** Running over two stretches of items is running over the first and
      then over the second from where the first left the accumulator. */
  lemma {:induction false} UnfoldAppend(md: string -> string, pairId: int, acc: string, xs: seq<EventResult>, ys: seq<EventResult>)
    ensures var a := Unfold(md, pairId, acc, xs); var b := Unfold(md, pairId, a.acc, ys);
      Unfold(md, pairId, acc, xs + ys) == Unfolded(a.outs + b.outs, b.acc, a.writes + b.writes)
    decreases |xs|
  {
    if xs == [] {
      assert xs + ys == ys;
    } else {
      assert (xs + ys)[0] == xs[0] && (xs + ys)[1..] == xs[1..] + ys;
      var t := Step(md, pairId, acc, xs[0]);
      UnfoldAppend(md, pairId, t.acc, xs[1..], ys);
      var a := Unfold(md, pairId, t.acc, xs[1..]);
      var b := Unfold(md, pairId, a.acc, ys);
      assert [t.out] + (a.outs + b.outs) == ([t.out] + a.outs) + b.outs;
      assert t.writes + (a.writes + b.writes) == (t.writes + a.writes) + b.writes;
    }
  }

  /** One outbound event per item, in order: an error item yields that
      error, every other item yields data. */
  lemma {:induction false} UnfoldOnePerItem(md: string -> string, pairId: int, acc: string, items: seq<EventResult>)
    ensures var u := Unfold(md, pairId, acc, items);
      |u.outs| == |items| &&
      forall k :: 0 <= k < |items| ==>
        (u.outs[k].Failure? <==> items[k].Err?) && (items[k].Err? ==> u.outs[k].error == items[k].error)
    decreases |items|
  {
    if items != [] {
      var t := Step(md, pairId, acc, items[0]);
      UnfoldOnePerItem(md, pairId, t.acc, items[1..]);
      var u := Unfold(md, pairId, acc, items);
      forall k | 0 <= k < |items|
        ensures (u.outs[k].Failure? <==> items[k].Err?) && (items[k].Err? ==> u.outs[k].error == items[k].error)
      {
        if k > 0 {
          assert items[k] == items[1..][k - 1];
        }
      }
    }
  }

  /** After consecutive `Text` items f1..fn the accumulator is the old one
      followed by f1 + ... + fn, nothing is written, and the k-th event
      carries the rendering of the old accumulator followed by
      f1 + ... + fk. */
  lemma {:induction false} UnfoldTexts(md: string -> string, pairId: int, acc: string, fragments: seq<string>)
    ensures var u := Unfold(md, pairId, acc, AsTexts(fragments));
      u.acc == acc + Concat(fragments) && u.writes == [] && |u.outs| == |fragments| &&
      forall k :: 0 <= k < |fragments| ==> u.outs[k] == Data(TextFrame(md, acc + Concat(fragments[..k + 1])))
    decreases |fragments|
  {
    if fragments != [] {
      var f := fragments[0];
      var tail := fragments[1..];
      var rest := Unfold(md, pairId, acc + f, AsTexts(tail));
      var u := Unfold(md, pairId, acc, AsTexts(fragments));
      assert u == Unfolded([Data(TextFrame(md, acc + f))] + rest.outs, rest.acc, [] + rest.writes) by {
        assert AsTexts(fragments)[0] == Ok(Text(f)) && AsTexts(fragments)[1..] == AsTexts(tail);
      }
      UnfoldTexts(md, pairId, acc + f, tail);
      assert acc + f + Concat(tail) == acc + Concat(fragments);
      forall k | 0 <= k < |fragments|
        ensures u.outs[k] == Data(TextFrame(md, acc + Concat(fragments[..k + 1])))
      {
        assert Concat(fragments[..k + 1]) == f + Concat(tail[..k]) by {
          assert fragments[..k + 1][0] == f && fragments[..k + 1][1..] == tail[..k];
        }
        if k == 0 {
          assert tail[..0] == [] && f + "" == f;
        } else {
          assert u.outs[k] == rest.outs[k - 1];
          assert tail[..k - 1 + 1] == tail[..k];
          assert acc + f + Concat(tail[..k]) == acc + (f + Concat(tail[..k]));
        }
      }
    }
  }

  /** Number of `End` items. */
  function CountEnds(items: seq<EventResult>): nat {
    if items == [] then 0
    else (if items[0].Ok? && items[0].event.End? then 1 else 0) + CountEnds(items[1..])
  }

  /** One write per `End` item, all to the generation's pair; none when no
      `End` arrives. */
  lemma {:induction false} UnfoldWritesPerEnd(md: string -> string, pairId: int, acc: string, items: seq<EventResult>)
    ensures var w := Unfold(md, pairId, acc, items).writes;
      |w| == CountEnds(items) && forall k :: 0 <= k < |w| ==> w[k].pairId == pairId
    decreases |items|
  {
    if items != [] {
      var t := Step(md, pairId, acc, items[0]);
      UnfoldWritesPerEnd(md, pairId, t.acc, items[1..]);
    }
  }
}
