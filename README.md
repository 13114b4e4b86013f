# Rasa chat skill: the conversation adapter, modelled and proved in Dafny

`RasaSkill` is a voice-assistant skill that relays a spoken conversation to a
Rasa chatbot. It keeps three fields: `conversation_active`, the counter
`convoID` and the `messages` buffer of chatbot replies. Three intents drive
it. Start chat bumps the counter, sends a welcome message and enters the turn
loop. Stop chat clears the flag and says goodbye. Resume chat sets the flag
and re-enters the loop. Each turn of the loop (`query_rasa`) asks the user
with the current prompt and takes one utterance. It then flushes the buffer,
posts the utterance to the chatbot, buffers the texts of the reply and
continues with those texts joined by spaces.

The project has five files:

- `conversation.dfy` (module `Conversation`): the adapter as a state machine
  on values. A `State` holds the three fields, the host's remaining
  utterances, a trace of everything the skill said (`Spoke`), asked
  (`Asked`) or posted (`Posted`), and the requests the chatbot has received,
  in order. Every operation is a function over it.
- `conversation_lemmas.dfy` (module `ConversationLemmas`): the properties,
  proved about those functions.
- `skill.dfy` (module `Skill`): class `RasaSkill` with the same fields,
  updated in place. Each method is proved to move the object's state
  (`Abstract()`) exactly as the matching function moves a `State`.
  `query_rasa` recurses in the source; here it is a `while` loop that runs
  one iteration per turn, and its `decreases` clause is the number of
  utterances left in the script. The two differ once the conversation runs
  past Python's recursion limit; see "Left out".
- `strings.dfy` (module `Strings`): `"{}".format(n)` as `IntToString`, and
  `sep.join(xs)` as `Join`. `ParseNat` undoes `IntToString` for every
  natural number. `Split` undoes `Join` only when no entry contains the
  separator (`SplitJoin`); otherwise the boundaries are lost
  (`JoinLosesBoundaries`).
- `wrappers.dfy` (module `Wrappers`): `Option`.

The model replaces the two outside collaborators with inputs:

- The chatbot is a `Chatbot`, a total function from the list of requests
  posted so far to the JSON reply to the last one. A reply is a sequence of
  `Reply(text: Option<string>)`, where `None` is an object without a `"text"`
  key. Because the function sees the whole request history, it can also stand
  for a chatbot that keeps state per sender.
- The host's `get_response` returns the next entry of a finite script of
  `Option<string>`. `None` is a timeout. An exhausted script also reads as
  `None`. `speak` and `get_response` only append to the trace.

Four behaviours of the code worth knowing:

- `update_messages` appends every `text` value, including the empty string.
  It does not keep only the non-empty ones, so a reply `[{"text": ""}]`
  buffers `[""]`, not the sentinel.
- `handle_talk_to_rasa_intent` does not flush the buffer before the welcome
  exchange. Only `query_rasa` does. The first prompt of a second conversation
  therefore starts with the last reply of the previous one
  (`StartChatOpening`: the prompt is the join of `Ingest(old buffer, welcome
  reply)`).
- The next prompt is the buffer joined by single spaces (`__init__.py:85`).
  Chatbot replies usually contain spaces themselves, so the joined prompt
  does not show where one reply text ends and the next begins:
  `["a b"]` and `["a", "b"]` both join to `"a b"` (`JoinLosesBoundaries`).
- `query_rasa`'s docstring says it returns the chatbot's response
  (`__init__.py:65`), but every path returns `None` (`__init__.py:69`, `76`,
  `87`). The response is only spoken as the next prompt, and `QueryRasa`
  returns nothing.

## Model

| member | source | states |
|---|---|---|
| `Conversation.Initial` | __init__.py:16-27 | the state `initialize` sets up (inactive, `convoID` 1, empty buffer, nothing said or posted) satisfies the invariant `Inv` |
| `Skill.RasaSkill.constructor` | __init__.py:16-27 | `initialize`: the conversation is inactive, `convoID` is 1 and the buffer is empty |
| `Conversation.RequestFor` | __init__.py:37-43 | the POST of `msg`: the endpoint URL, the message as-is and the sender id of the current `convoID`; pinned down by `QueryRequests` and `StartChatSenderId` |
| `Conversation.Send` | __init__.py:30-45 | `send_message_to_rasa`: records one request and returns the chatbot's answer to the request history ending in it; `SendMessageToRasa` is proved equal to it |
| `Skill.RasaSkill.SendMessageToRasa` | __init__.py:30-45 | appends exactly one POST of the message to the endpoint under sender id `SenderId(convoID)` to the trace; returns the chatbot's reply to the request history that ends with it; nothing else changes |
| `Conversation.SenderId` | __init__.py:41 | the sender id is `"user"` followed by the decimal `convoID` |
| `ConversationLemmas.SenderIdDistinct` | __init__.py:41 | the digits after `"user"` parse back to `convoID`; two different counters never give the same sender id |
| `Strings.IntToString` | __init__.py:41 | `"{}".format(n)`: never empty, and starts with a digit exactly when `n` is not negative; inverted by `ParseNat` in `SenderIdDistinct` |
| `Strings.IntToStringInjective` | __init__.py:41 | decimal rendering of an int is injective (sign and digits) |
| `Strings.ParseNatToString` | __init__.py:41 | parsing the decimal rendering of a natural number gives it back |
| `Skill.RasaSkill.UpdateMessages` | __init__.py:47-58 | the loop over the reply leaves the buffer at `Ingest(old buffer, reply)`, which is never empty; only the buffer changes |
| `Conversation.Ingest` | __init__.py:47-58 | the buffer after `update_messages`: never empty, and the old buffer stays in front; `IngestSpec` and the `Texts` lemmas give the rest |
| `Conversation.Texts` | __init__.py:53-55 | the texts taken from a reply are at most as many as its objects |
| `ConversationLemmas.TextsAppend` | __init__.py:53-55 | texts of a concatenation are the concatenation of texts: the input order is kept |
| `ConversationLemmas.TextsSound` | __init__.py:53-55 | every buffered text is the `text` of some reply object |
| `ConversationLemmas.TextsAt` | __init__.py:53-55 | a reply object with a `text` contributes it right after the texts of the objects before it and before those after it |
| `ConversationLemmas.TextsEmpty` | __init__.py:53-55 | no text is taken if and only if no reply object has a `text` key |
| `ConversationLemmas.TextsAllPresent` | __init__.py:53-55 | when every object has a `text`, all of them are taken, one for one, in order |
| `ConversationLemmas.IngestSpec` | __init__.py:53-58 | the result is never empty; the old buffer is a prefix; the result is exactly `["no response from rasa"]` when the old buffer is empty and no object has a text; otherwise it is the old buffer plus the texts |
| `ConversationLemmas.IngestFlushed` | __init__.py:79-83 | after the flush, the buffer holds only the latest reply's texts, or the sentinel if that reply had none |
| `ConversationLemmas.IngestScenarios` | __init__.py:53-58 | `[{"text":"hi"},{"recipient_id":"x"}]` buffers `["hi"]`, which joins to `"hi"`; `[]` buffers only the sentinel |
| `Strings.Join` | __init__.py:85 | `" ".join(xs)`: the entries with the separator between each pair; `SplitJoin` undoes it only when no entry contains the separator |
| `Strings.JoinLosesBoundaries` | __init__.py:85 | joining is not injective: `["a b"]` and `["a", "b"]` differ but join with a space to the same prompt |
| `Strings.SplitJoin` | __init__.py:85 | joining with a single space can be undone by splitting on it, when no entry contains a space |
| `Conversation.Speak` | __init__.py:68 | `speak`: one `Spoke` entry at the end of the trace, used by `QueryInactive` and `StopChatEnds` |
| `Conversation.Ask` | __init__.py:74 | `get_response`: one `Asked(prompt)` entry, and the script loses its first entry; `GetResponse` is proved equal to it |
| `Conversation.NextUtterance` | __init__.py:74-76 | what `get_response` returns: the next scripted entry, `None` for a timeout or an exhausted script |
| `Conversation.ChoosePrompt` | __init__.py:71-72 | the prompt asked: the given one, or the last buffered message when none is given and the buffer is non-empty; stated by `QueryFirstEvent` and `QueryPromptFromBuffer` |
| `Conversation.Exchange` | __init__.py:81-83 | a post followed by `update_messages` of its reply; stated by `QueryTurn` and `OpeningSpec` |
| `Conversation.Query` | __init__.py:60-87 | `query_rasa`: the turn loop; its properties are the `Query…` lemmas below and `QueryRasa` is proved equal to it |
| `Skill.RasaSkill.Speak` | __init__.py:68 | `speak` appends the spoken line to the trace and nothing else changes |
| `Skill.RasaSkill.GetResponse` | __init__.py:74 | `get_response` records the prompt it speaks; it returns and consumes the next scripted utterance, or returns none when the script is exhausted |
| `Skill.RasaSkill.QueryRasa` | __init__.py:60-87 | the loop leaves the object in the state `Query(old state, chatbot, prompt)` |
| `ConversationLemmas.QueryInactive` | __init__.py:67-69 | when inactive, the only effect is speaking `end_msg`: no request, and buffer, flag, counter and script unchanged |
| `ConversationLemmas.QueryFirstEvent` | __init__.py:71-74 | when active, the first effect is asking `get_response` with the chosen prompt |
| `ConversationLemmas.QueryPromptFromBuffer` | __init__.py:71-72 | with no prompt and a non-empty buffer, the prompt asked is the last buffered message |
| `ConversationLemmas.QuerySilence` | __init__.py:74-76 | when no utterance is captured, the turn ends after the question: no request, and buffer, flag and counter unchanged |
| `ConversationLemmas.QueryTurn` | __init__.py:78-87 | a captured utterance is posted as-is under the conversation's sender id; the flushed buffer is refilled from that reply alone; the loop continues with the buffer joined by single spaces |
| `ConversationLemmas.QueryKeepsFlag` | __init__.py:60-87 | `query_rasa` never changes the flag or the counter |
| `ConversationLemmas.QueryExtendsTrace` | __init__.py:60-87 | `query_rasa` only appends to the trace, and appends at least one entry |
| `ConversationLemmas.QueryActiveNoGoodbye` | __init__.py:67-69 | an active query never speaks `end_msg`: no new trace entry is `Spoke(end_msg)`, so the inactive exit fires only on entry |
| `ConversationLemmas.QueryConsumesScript` | __init__.py:74 | `query_rasa` consumes the host's utterances only from the front of the script |
| `ConversationLemmas.QueryRequests` | __init__.py:74-87 | earlier requests stay a prefix; every new request goes to the endpoint under the conversation's sender id; there are no more new requests than utterances consumed |
| `ConversationLemmas.QueryBuffer` | __init__.py:78-85 | on return, the buffer is unchanged if nothing was posted, and otherwise holds only the ingested reply to the last request |
| `ConversationLemmas.QueryKeepsInv` | __init__.py:57-58 | `query_rasa` keeps the invariant: counter at least 1, and the buffer is empty only while nothing has been posted |
| `Conversation.Stop` | __init__.py:89-93 | `stop`: only the flag is cleared; stated by `StopIdempotent` |
| `Skill.RasaSkill.Stop` | __init__.py:89-93 | `stop` clears the flag and changes nothing else |
| `ConversationLemmas.StopIdempotent` | __init__.py:93 | stopping twice is stopping once, and only the flag differs from the state before |
| `Conversation.Opening` | __init__.py:100-105 | the welcome exchange: counter raised, flag set, welcome message posted, reply buffered; stated by `OpeningSpec` |
| `Conversation.StartChat` | __init__.py:96-108 | `handle_talk_to_rasa_intent`: the welcome exchange, then `query_rasa` with the joined buffer; stated by `StartChatOpening` and `StartChatSenderId` |
| `Skill.RasaSkill.HandleTalkToRasaIntent` | __init__.py:96-108 | the handler leaves the object in `StartChat(old state)`, with `convoID` one higher and the conversation active |
| `ConversationLemmas.OpeningSpec` | __init__.py:100-105 | the counter rises by exactly 1 and the flag is set; then one welcome request with the new sender id is posted, and its reply is appended to the unflushed buffer |
| `ConversationLemmas.StartChatOpening` | __init__.py:100-108 | after start, the conversation is active under the new counter; the first new effect is the welcome request, and the second is asking with the joined buffer |
| `ConversationLemmas.StartChatSenderId` | __init__.py:100-108 | every request of a started conversation, the welcome request first, carries the new sender id |
| `Conversation.StopChat` | __init__.py:111-116 | `handle_stop_chat`: `stop`, then `query_rasa` with no prompt; stated by `StopChatEnds` |
| `Skill.RasaSkill.HandleStopChat` | __init__.py:111-116 | the handler leaves the object in `StopChat(old state)`: flag cleared, `end_msg` spoken, and nothing else changes |
| `ConversationLemmas.StopChatEnds` | __init__.py:115-116 | the stop intent always ends by speaking `end_msg`, with no request; buffer, counter and script are unchanged |
| `Conversation.ResumeChat` | __init__.py:119-124 | `handle_resume_chat`: the flag set, then `query_rasa` with no prompt; stated by `ResumeChatContinues` |
| `Skill.RasaSkill.HandleResumeChat` | __init__.py:119-124 | the handler leaves the object in `ResumeChat(old state)` |
| `ConversationLemmas.ResumeChatContinues` | __init__.py:123-124 | resuming activates the conversation under the unchanged counter, so new requests keep its sender id; the first question re-asks the last buffered message |
| `Conversation.Dispatch` | __init__.py:95-124 | the host routing one intent to its handler; stated by `DispatchSpec` |
| `Conversation.Run` | __init__.py:95-124 | the host routing a sequence of intents, one after another; stated by `RunConvoId` and `SessionConvoId` |
| `ConversationLemmas.DispatchSpec` | __init__.py:96-124 | an intent raises the counter by 1 if it is start and leaves it otherwise; every handler keeps the invariant |
| `ConversationLemmas.RunConvoId` | __init__.py:100 | over any sequence of intents, the counter rises by exactly the number of starts, and the invariant is kept |
| `ConversationLemmas.SessionConvoId` | __init__.py:22 | from `initialize`, `convoID` is 1 plus the number of conversations started, so it never decreases |

## Left out

- The `requests.Session` and the HTTP POST with its JSON encoding and decoding are network I/O. The chatbot is the `Chatbot` function and the endpoint URL is only recorded in each request.
- Network and HTTP errors are not caught by the skill; they propagate to the host. The model has no failing chatbot.
- The host runtime: `speak` and `get_response` are trace entries and a script, and `num_retries=0` is implicit. Also left out are the `intent_handler`/`IntentBuilder` registrations (the host's dispatch is `Dispatch`/`Run`), the `message` argument of the handlers (never read), `MycroftSkill.__init__`, logging, the unused `match_one` import and `create_skill`.
- Query, QueryRasa: the host calling `stop` while `get_response` waits (another thread) is not modelled. Nothing inside the loop can clear the flag, so the inactive exit (`__init__.py:67-69`) fires only when `query_rasa` is entered inactive, as `QueryActiveNoGoodbye` states. A stop in the middle of a conversation ends it only through the stop intent.
- Query, QueryRasa: the source's `return self.query_rasa(prompt)` (`__init__.py:87`) is a real recursive call in Python, one stack frame per turn. After about 1000 turns (Python's default recursion limit) the source raises `RecursionError` and the conversation ends with an error. The model's loop runs any number of turns and has no such error path.
- A `"text"` value that is not a string (JSON `null`, a number): replies carry `Option<string>`.
- StartChatOpening: the flag is set before the welcome request in `HandleTalkToRasaIntent`, but the chatbot cannot see the flag, so the trace cannot show that order. The lemma states the order it can show: the counter is already raised when the welcome request is posted, and the conversation is active afterwards.
