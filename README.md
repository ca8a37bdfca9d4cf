# Telegram relay bot of deep_qa, modelled in Dafny

`natural-language-processing/deep_qa/main_bot.py` runs a Telegram bot. It
long-polls `getUpdates` with an integer `offset` cursor. For each update in
the batch that has a message with text, it sends one reply to that
message's chat:

- the welcome, for the `/start` command;
- the dialogue manager's answer, for any other text that passes
  `is_unicode`;
- a fixed warning, for text that fails `is_unicode`.

After each update it moves the cursor to `max(offset, update_id + 1)`.

The model has three modules:

- `Utf8` (`utf8.dfy`): UTF-8 encoding as in section 3 of RFC 3629.
  - `Encode` plays the part of Python's `str.encode()`.
  - `IsUnicode` is `is_unicode`. Its contract states that it accepts a
    text exactly when every code point is below U+0080.
  - Lemmas prove the encoding's byte shapes and a one-code-point round trip.
- `BotHandler` (`bot_handler.dfy`): the update shape and the reply choice.
  - Updates, messages and sends are datatypes.
  - `BotHandler.get_answer` is `GetAnswer`; the `is_unicode` guard of
    `main` is `ReplyTo`.
  - `SimpleDialogueManager.generate_answer` is `SimpleGenerateAnswer`.
  - The result-or-empty rule of `BotHandler.get_updates` is `GetUpdates`.
  - A dialogue manager is a value of type `string -> string`, so any
    manager can be plugged in.
- `Relay` (`relay.dfy`): one pass of the polling loop of `main`.
  - `ProcessBatch` is the `for update in updates` loop. It is a method with
    a loop, a mutable cursor and a growing log of sends.
  - It is proved against two specification functions: `FinalCursor` for
    the cursor and `Replies` for the sends.
  - Lemmas about those functions give the cursor's exact value (the least
    bound above the old cursor and every `update_id`).
  - Further lemmas give a one-to-one, order-preserving match between
    updates with text and sends, show that two batches compose like one,
    and cover the worked scenarios (`/start`, `hello`, a non-ASCII text).

Text is a Dafny `string`. Dafny characters are Unicode scalar values, so
`len(text)` is the sequence length, and the lone surrogates that make
`encode()` raise in Python cannot occur.

An update missing `update_id`, or a message missing `chat.id`, raises
`KeyError` in the code (lines 109 and 117). The model's datatypes always
carry both fields, so those inputs are outside the model.

## Model

| member | source | states |
|---|---|---|
| `Utf8.EncodeScalar` | natural-language-processing/deep_qa/main_bot.py:51 | UTF-8 of one code point: 1 byte below U+0080, 2 below U+0800, 3 below U+10000, 4 otherwise; lead bytes C2–DF, E0–EF or F0–F4 by length; all other bytes are continuation bytes 80–BF; an ASCII code point encodes as itself |
| `Utf8.DecodeEncodeScalar` | natural-language-processing/deep_qa/main_bot.py:51 | reassembling the payload bits of the encoded bytes gives back the code point (the encoding loses nothing) |
| `Utf8.Encode` | natural-language-processing/deep_qa/main_bot.py:51 | `text.encode()` concatenates the encodings of the code points in order, so it is at least as long as the text and at most four times as long |
| `Utf8.EncodeLength` | natural-language-processing/deep_qa/main_bot.py:51 | `text.encode()` has the same length as the text exactly when every code point is ASCII |
| `Utf8.IsUnicode` | natural-language-processing/deep_qa/main_bot.py:50-51 | `is_unicode(t)` compares the code-point count with the UTF-8 byte count; it holds if and only if every code point of `t` is below 0x80 |
| `BotHandler.SimpleGenerateAnswer` | natural-language-processing/deep_qa/main_bot.py:76-77 | `SimpleDialogueManager.generate_answer` answers "Hello, world!" whatever the question |
| `BotHandler.GetAnswer` | natural-language-processing/deep_qa/main_bot.py:36-39 | `/start` gets the welcome string; any other question gets the dialogue manager's answer to that question |
| `BotHandler.ReplyTo` | natural-language-processing/deep_qa/main_bot.py:112-116 | text that fails `is_unicode` gets the weird-characters warning; text that passes gets `get_answer`'s reply to it |
| `BotHandler.StartIsWelcomed` | natural-language-processing/deep_qa/main_bot.py:36-38 | the text `/start` passes the encoding check and is answered with the welcome, for every dialogue manager |
| `BotHandler.ReplyWithoutManager` | natural-language-processing/deep_qa/main_bot.py:112-116 | a text that fails `is_unicode`, or is `/start`, gets the same reply under any two dialogue managers (the warning or the welcome); the manager is not consulted |
| `BotHandler.ReplyFromManager` | natural-language-processing/deep_qa/main_bot.py:110-114 | text that passes `is_unicode` and is not `/start` is answered with the manager's answer to exactly that text |
| `BotHandler.SimpleManagerReplies` | natural-language-processing/deep_qa/main_bot.py:110-116 | with `SimpleDialogueManager`, every reply is the welcome, the warning or "Hello, world!" |
| `BotHandler.GetUpdates` | natural-language-processing/deep_qa/main_bot.py:28-30 | a response without `"result"` becomes the empty batch; otherwise the result sequence is returned unchanged |
| `BotHandler.Outgoing` | natural-language-processing/deep_qa/main_bot.py:108-116 | an update yields a send exactly when it has a message with text; that send goes to the message's chat and carries the reply to its text |
| `Relay.FinalCursor` | natural-language-processing/deep_qa/main_bot.py:117 | the cursor after a batch is never below the cursor before it |
| `Relay.Replies` | natural-language-processing/deep_qa/main_bot.py:106-116 | a batch makes at most one send per update |
| `Relay.CursorIsLeastUpperBound` | natural-language-processing/deep_qa/main_bot.py:106-117 | the cursor after a batch is `max(offset, max update_id + 1)`: at least the old cursor, above every `update_id`, and equal to either the old cursor or some `update_id + 1` |
| `Relay.BatchesCompose` | natural-language-processing/deep_qa/main_bot.py:104-117 | two batches processed one after the other give the cursor and the sends of their concatenation, so the cursor never decreases across loop passes |
| `Relay.SkippedUpdate` | natural-language-processing/deep_qa/main_bot.py:108-117 | an update without a message, or with a textless message, adds no send, yet the cursor moves past its `update_id` |
| `Relay.RepliesCount` | natural-language-processing/deep_qa/main_bot.py:106-116 | the number of sends equals the number of updates whose message has text |
| `Relay.ReplyAt` | natural-language-processing/deep_qa/main_bot.py:109-116 | the update at index i with text is answered by the send at index (number of text-carrying updates before i), addressed to its `chat_id` and carrying the reply to its text |
| `Relay.CountTextedOrdered` | natural-language-processing/deep_qa/main_bot.py:106 | a text-carrying update that comes earlier gets a strictly earlier send |
| `Relay.RepliesCorrespond` | natural-language-processing/deep_qa/main_bot.py:106-116 | the three facts above together: exactly one send per text-carrying update, addressed to its chat, in batch order |
| `Relay.EverySendAnswersAnUpdate` | natural-language-processing/deep_qa/main_bot.py:110-116 | every send is the reply to some update of the batch that carries text |
| `Relay.ProcessBatch` | natural-language-processing/deep_qa/main_bot.py:106-117 | the loop leaves the cursor at `FinalCursor` and the send log at `Replies`; the cursor is at least the old one, above every `update_id`, and is the old cursor or some `update_id + 1` |
| `Relay.RelayIteration` | natural-language-processing/deep_qa/main_bot.py:105-117 | one fetch-and-process pass; a response without `"result"` sends nothing and leaves the cursor unchanged |
| `Relay.StartScenario` | natural-language-processing/deep_qa/main_bot.py:36-38 | update 5 with `/start` from chat 42, cursor 0: one welcome to chat 42, cursor 6 |
| `Relay.HelloScenario` | natural-language-processing/deep_qa/main_bot.py:76-77 | update 7 with "hello" from chat 9 under `SimpleDialogueManager`: one "Hello, world!" to chat 9, cursor 8 |
| `Relay.WeirdScenario` | natural-language-processing/deep_qa/main_bot.py:112-116 | update 3 with "café" from chat 1: the weird-characters warning under any manager, cursor 4 |

## Left out

- HTTP transport is not modelled: `requests.get`, `requests.post`, `urljoin`, JSON decoding and the API URL built from the token. The parsed `"result"` field comes in as an optional sequence. Each `send_message` call is one entry in a log of (chat id, text) pairs. Every send is modelled as made. The code discards the `Response` that `send_message` returns (lines 114 and 116), so a send the server refuses changes nothing else.
- The endless `while True` loop and `time.sleep(1)` are not modelled, nor is the unreachable `chatbot.telecomChatBotSessionClose()`. One pass is modelled (`RelayIteration`). `BatchesCompose` links consecutive passes.
- The `offset` and `timeout` parameters of `get_updates` are not modelled. They only shape the HTTP request, and the response is a parameter of the model.
- `QADialogueManager` and `chatbot.Chatbot` are not modelled. They call into a module that is not part of this model. A dialogue manager is any function from question to answer. Its session state and side effects (such as its `print`) are not modelled, and the model treats it as deterministic.
- Argument parsing, the `TELEGRAM_TOKEN` environment lookup and the missing-token exit are not modelled. They are configuration glue.
- The `print` logging calls are not modelled.
- Inputs on which Python raises are outside the model:
  - an update without `update_id`;
  - a message without `chat.id`;
  - text holding lone surrogates, which `encode()` rejects.

  The datatypes and the `string` type rule these out, and no recovery policy is invented.
- Exceptions that end `main` are outside the model. The loop at lines 104-118 has no `try`, so any of these stops the bot before line 117 moves the cursor past the update being handled:
  - `requests.post` raising in `send_message` (connection error, timeout);
  - the `getUpdates` request or its `.json()` raising (line 27);
  - the dialogue manager raising in `generate_answer` (line 39, or `telecomChatBotSessionQuery` at line 65).

  In the model, every send is made and a dialogue manager is a total function, so each pass always finishes its batch.
- Chat ids are treated as integers, and no other JSON value types are modelled.
