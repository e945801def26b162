# rustgpt response streaming, modelled in Dafny

rustgpt is a small chat web application. When a chat asks for a new answer, `chat_generate`:

1. checks the user's OpenAI key;
2. spawns a producer task, `generate_sse_stream`;
3. turns what the producer sends over a channel into server-sent events for the browser.

The producer works in two steps:

1. It builds the chat-completion request from the stored message pairs.
2. It reads the upstream event stream one event at a time. Each event becomes at most one `GenerationEvent`:
   - a content delta becomes `Text`;
   - `[DONE]` becomes `End`;
   - a transport error becomes an error.

The consumer is a `stream::unfold` over the channel. It keeps one accumulator string:

- each `Text` is appended to it, and the whole accumulator is sent back rendered as HTML;
- `End` writes the accumulator to the last message pair, sends the closing out-of-band swap and resets the accumulator;
- errors pass through.

The project is organised as follows:

- `wrappers.dfy` holds the `Option` type.
- `model.dfy` holds the stored records, `ChatMessagePair` and `User`.
- `stream.dfy` models the producer:
  - the request body;
  - `str::trim`;
  - the event loop, as the method `Stream.Pump`, proved equal to the function `Stream.PumpSpec`.
- `chat.dfy` models the handler logic:
  - the error responses;
  - the `MODELS` table and its lookups;
  - the checks before streaming;
  - the accumulator, as the class `Chat.Accumulator`, driven by the method `Chat.EventStream` and proved equal to the function `Chat.Unfold`.
- `pipeline.dfy` composes producer and consumer into `chat_generate` and proves the end-to-end properties:
  - the persisted answer is the concatenation of the content deltas before `[DONE]`;
  - at most one write is made, and exactly one exactly when `[DONE]` was delivered;
  - a concrete exchange is worked through.

The following are parameters of the model:

- Markdown rendering (comrak) is a parameter `md`/`render: string -> string`. Every property holds for any renderer.
- The outcome of the `list_engines` key check is a parameter `probe: string -> bool`.
- What `serde_json` makes of a message's data is a field of the event: `Json = Malformed | Parsed(content)`.
- The client going away is `room`, the number of items the receiver accepts before it is dropped. `Stream.TrySend` is this oracle for `sender.send(...)`: a send fails exactly when the receiver has already taken `room` items, and otherwise appends the item. It is a definition, not a proved property. What the loop does with a failed send is proved in `Stream.RunStopsOnDrop` and `Stream.RunNoDropWithRoom`.

Two consequences of the code are worth stating:

- `Pipeline.HelloWorld` works through one exchange: the deltas `"Hel"`, `"lo, "` and `"world!"`, then `[DONE]`. It yields four outbound events: one rendering per `Text` (src/router/app/chat.rs:265-272), then the closing swap (src/router/app/chat.rs:274-296).
- The outbound stream is not closed when `End` is handled. It ends only when the channel ends (src/router/app/chat.rs:304), after the producer has returned (src/ai/stream.rs:134, 165).

## Model

| member | source | states |
|---|---|---|
| Stream.FlattenKeepsPresent | src/ai/stream.rs:84-87 | `flatten` keeps exactly the present entries: a message is in the result iff `Some` of it was in the input |
| Stream.ConversationLength | src/ai/stream.rs:67-81 | the pairs contribute one user message each plus one assistant message per answered pair |
| Stream.ConversationLayout | src/ai/stream.rs:67-81 | pair `i` sits at offset `i + answered(pairs[..i])` as a user message with its human text, followed by an assistant message with its AI text iff `ai_message` is `Some` |
| Stream.BodyIsSystemThenConversation | src/ai/stream.rs:63-87 | the request's list is the system message followed by the pairs' messages |
| Stream.BodyMessagesLength | src/ai/stream.rs:63-87 | list length is 1 + pairs + answered pairs, and the first entry is the system message "You are a helpful assistant." |
| Stream.BodyMessagesLayout | src/ai/stream.rs:63-87 | in the body itself, pair `i` is at offset `1 + i + answered(pairs[..i])`, with its assistant message next iff answered |
| Stream.BuildRequestBody | src/ai/stream.rs:90-95 | the body carries the given model, `stream: true`, the system message first and then the conversation |
| Stream.TrimShape | src/ai/stream.rs:120 | `trim` keeps an infix that neither starts nor ends with Unicode whitespace, and drops only whitespace on either side |
| Stream.TrimPadded | src/ai/stream.rs:120 | whitespace around a word is exactly what `trim` removes, so a padded `[DONE]` is recognised |
| Stream.Run | src/ai/stream.rs:116-161 | the loop never reads more events than exist and never delivers more items than the receiver accepts |
| Stream.Pump | src/ai/stream.rs:116-163 | the loop's items, number of events read and way of ending equal `PumpSpec` of the events |
| Stream.RunCleanPrefix | src/ai/stream.rs:136-151 | over events that neither end nor crash the loop, the receiver gets one `Text` per content string, in order, and the loop goes on with the rest |
| Stream.PumpUntilStop | src/ai/stream.rs:116-159 | after such a stretch, `[DONE]` sends exactly one `End` carrying the listener fragment and stops; a transport error is forwarded as the last item; nothing after is read |
| Stream.PumpPanicsOnMalformed | src/ai/stream.rs:136 | an unparseable payload that is not `[DONE]` panics the task after the stretch's `Text`s |
| Stream.DispatchPossible | src/ai/stream.rs:116-161 | every event leads to nothing, a panic, a `Text` that lets the loop go on, or a final `End`/error |
| Stream.RunSentShape | src/ai/stream.rs:116-161 | every delivered item is a `Text` except possibly the last; the last is `End` iff the loop's `[DONE]` send succeeded (exit `DoneSent`), and an error iff its send of a transport error succeeded (exit `ClosedOnError`); after any other exit every item is a `Text` |
| Stream.PumpSentShape | src/ai/stream.rs:116-161 | the same shape for the loop over upstream events |
| Stream.RunDoneShape | src/ai/stream.rs:116-134 | a run that ends with the `[DONE]` send delivered stopped on that action; every action before it carried on (ignored, or a delivered `Text`), and fewer of them sent `Text`s than the receiver accepts |
| Stream.PumpDoneShape | src/ai/stream.rs:116-134 | for upstream events: whenever the loop ends `DoneSent`, the last event read is `[DONE]`, the events before it neither end nor crash the loop, and their content deltas are fewer than `room` |
| Stream.RunNoDropWithRoom | src/ai/stream.rs:123-132 | a receiver that accepts as many items as there are events is never found dropped |
| Stream.RunStopsOnDrop | src/ai/stream.rs:123-149 | when a send fails, the receiver had taken exactly `room` items and the last event read was the one whose send failed |
| Chat.IntoResponse | src/router/app/chat.rs:30-38 | both errors are 4xx with the body `"Chat Errror"`; status is 401 iff `InvalidAPIKey` and 400 iff `Other` |
| Chat.WithId | src/router/app/chat.rs:145-147 | the filter keeps exactly the table rows with the given id |
| Chat.SelectModel | src/router/app/chat.rs:145-148 | the selection is a table row with the requested id, or there is no such row (where the source panics) |
| Chat.ModelIdsDistinct | src/router/app/chat.rs:41-58 | the table's ids are distinct, so a lookup finds at most one row |
| Chat.ChatSelectsGpt4 | src/router/app/chat.rs:71 | the chat page's default selection is the single row with id "gpt-4", the GPT-4 row |
| Chat.ChatByIdModel | src/router/app/chat.rs:133-148 | a failed retrieval is `Other`; an empty chat panics; otherwise it panics iff no row has the first pair's model id and else selects that row |
| Chat.ApiKey | src/router/app/chat.rs:220-223 | the key is the user's stored OpenAI key, or the empty string when there is none |
| Chat.GenerateSetup | src/router/app/chat.rs:219-232 | it is rejected with `InvalidAPIKey` (401) iff the key probe fails, before any stream exists; it succeeds iff the probe passes and the chat has pairs; the answer goes to the last pair's id and uses the first pair's model |
| Chat.Accumulator.constructor | src/router/app/chat.rs:257 | the accumulator starts empty with nothing written |
| Chat.Accumulator.Next | src/router/app/chat.rs:261-303 | one call of the closure: the outbound event, the new accumulator and the appended writes are those of `Step` |
| Chat.StepCases | src/router/app/chat.rs:264-302 | `Text` appends verbatim and emits `"<div>" + md(acc) + "<div>"`; `End` writes `(pair, acc)`, emits `text + "\n" + "<div hx-swap-oob=\"outerHTML:#message-container\">" + md(acc) + "</div>"` and resets; an error passes through unchanged |
| Chat.EventStream | src/router/app/chat.rs:256-307 | the outbound events and writes of the unfold over the channel's items equal `Unfold` from the empty accumulator |
| Chat.UnfoldAppend | src/router/app/chat.rs:258-305 | running over two stretches is running over the first and then over the second from the accumulator the first left |
| Chat.UnfoldOnePerItem | src/router/app/chat.rs:258-305 | exactly one outbound event per item, in order; it is an error iff the item is, and carries that error |
| Chat.UnfoldTexts | src/router/app/chat.rs:257-272 | after `Text`s f1..fn the accumulator is the old one followed by f1+…+fn, nothing is written, and the k-th event renders the old accumulator followed by f1+…+fk |
| Chat.UnfoldWritesPerEnd | src/router/app/chat.rs:274-281 | the number of writes equals the number of `End` items, and every write goes to the generation's pair |
| Pipeline.WritesOnlyOnDone | src/router/app/chat.rs:238-307 | at most one write per generation, made exactly when the producer delivered the `End` after `[DONE]`; none after an error, a panic, a dropped client or an upstream without `[DONE]` |
| Pipeline.PersistedAfterCleanStretch | src/router/app/chat.rs:238-307 | when `[DONE]` follows a stretch of events that carry on and the client stays, the one persisted text is the concatenation of the stretch's content deltas; the k-th event renders the first k deltas and the last is the closing swap |
| Pipeline.PersistedIsConcatenation | src/router/app/chat.rs:238-307 | in every generation whose producer ends `DoneSent`, the last event read is `[DONE]`, the single write stores the concatenation of all content deltas before it, the k-th outbound event renders the first k deltas, the last is the closing swap, and the accumulator ends empty |
| Pipeline.ChatGenerate | src/router/app/chat.rs:214-310 | rejected with 401 iff the key probe fails; otherwise, for a non-empty chat, the request uses the first pair's model with the system message and conversation, the producer's run is `PumpSpec` of the upstream events, the outbound events and writes are `Unfold` of the delivered items for the last pair, one event per item; no write unless the run ends `DoneSent`, and then exactly one, to the last pair, of the concatenation of the content deltas before `[DONE]` |
| Pipeline.HelloActions | src/ai/stream.rs:116-151 | in the worked exchange (open, role-only delta, deltas "Hel", "lo, ", "world!", padded `[DONE]`), the first five events carry on and yield those three deltas, and the sixth is `[DONE]` |
| Pipeline.HelloPump | src/ai/stream.rs:116-134 | for that exchange the producer delivers the three `Text`s and the `End`, reading all six events |
| Pipeline.HelloWorld | src/router/app/chat.rs:257-296 | for that exchange "Hello, world!" is persisted and four events are sent: renderings of "Hel", "Hello, ", "Hello, world!" and the closing swap |

## Left out

- The SQL repository (src/data/repository.rs) is not part of this model:
  - `retrieve_chat` is an `Option` of the pairs it returns;
  - `add_ai_message_to_pair` is an entry in the accumulator's write log.
- The `unwrap`s on the final write and on `get_all_chats` are left out. A failing write would panic the consumer.
- The HTTP calls are not modelled:
  - `list_engines` is the `probe` outcome;
  - the POST to the completions endpoint, `HeaderValue::from_str` and `EventSource::new` failures are left out;
  - the upstream is a given sequence of events.
- Server-sent-event framing on both sides is left out: axum's `Sse`/`Event` and `reqwest_eventsource`.
- The producer's sends are treated as immediately visible to the consumer:
  - the `mpsc` channel's capacity of 10, `tokio::spawn` and the async interleaving of producer and consumer are left out;
  - items buffered in the channel when the client goes away are not modelled.
- Stream.Pump: the exit `Exhausted` stands for an upstream that stops yielding events. In the program, `reqwest_eventsource` reports the end of the response body as an error (`StreamEnded`). The loop forwards that as a transport error and closes the stream (src/ai/stream.rs:154-159). So a real run that never sees `[DONE]` normally ends `ClosedOnError`.
- Stream.Pump: receiver drop is modelled as a count of accepted sends (`room`), not as an event at an arbitrary time.
- comrak's markdown rendering is an arbitrary function parameter. Every property holds for any renderer.
- `serde_json` parsing is not modelled. Each message carries the result of `m["choices"][0]["delta"]["content"].as_str()`, or `Malformed` when parsing fails.
- The Tera page rendering is left out. This covers `chat`, `chat_by_id` (including the per-pair markdown of stored messages), `new_chat`, `chat_add_message` and `delete_chat`.
- The debug `println!`/`eprintln!` output is left out.
- Chat.ChatByIdModel: the `get_all_chats(...).unwrap()` between retrieval and selection is not modelled. A database error or a missing user there would panic.
