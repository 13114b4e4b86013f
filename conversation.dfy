/** The conversation adapter of the Rasa skill as a state machine on values.
    Each operation of the skill is a function from the state before to the
    state after; the class in module Skill runs the same steps imperatively
    and is proved equal to these functions.

    The host runtime and the chatbot are replaced by inputs: the utterances
    the host's `get_response` will return are a finite script, the chatbot is
    a function from the list of requests posted so far to its JSON reply, and
    everything the skill says, asks or posts is appended to a trace. */
module Conversation {
  import opened Wrappers
  import opened Strings

  const INIT_MSG: string := "Insert the welcome message here"
  const END_MSG: string := "Insert the goodbye message here"
  const RASA_API: string := "http://localhost:5005/webhooks/rest/webhook"
  /** What the buffer holds when a reply carried no text at all. */
  const NO_RESPONSE: string := "no response from rasa"
  const FIRST_CONVO_ID: int := 1

  /** One object of the chatbot's JSON reply array; only its "text" key is
      read, and `None` stands for an object without that key. */
  datatype Reply = Reply(text: Option<string>)

  /** One POST to the chatbot: the endpoint and the JSON body's two keys. */
  datatype Request = Request(url: string, message: string, senderId: string)

  /** What the outside world sees of the skill. */
  datatype Event =
    | Spoke(text: string)            // speak(text)
    | Asked(prompt: Option<string>)  // get_response(prompt): speaks the prompt, then listens
    | Posted(request: Request)       // session.post to the chatbot

  /** The chatbot's answer to the latest request, given every request so
      far; a stateful chatbot is any such function. */
  type Chatbot = seq<Request> -> seq<Reply>

  /** The skill's three fields plus what remains of the host's script,
      what has been observed so far and what the chatbot has received. */
  datatype State = State(
    active: bool,                     // conversation_active
    convoId: int,                     // convoID
    messages: seq<string>,            // the reply buffer
    utterances: seq<Option<string>>,  // what get_response will return next
    trace: seq<Event>,
    requests: seq<Request>)           // what the chatbot has been sent, in order

  /** The state `initialize` sets up; it satisfies the invariant. */
  function Initial(utterances: seq<Option<string>>): (r: State)
    ensures Inv(r)
  {
    State(false, FIRST_CONVO_ID, [], utterances, [], [])
  }

  /** The conversation's identity towards the chatbot: "user" and the
      decimal convoID. */
  function SenderId(convoId: int): (r: string)
    ensures |r| > 4 && r[..4] == "user"
  {
    "user" + IntToString(convoId)
  }

  /** The `text` values of the replies that have one, in reply order. */
  function Texts(data: seq<Reply>): (r: seq<string>)
    ensures |r| <= |data|
  {
    if |data| == 0 then []
    else (if data[0].text.Some? then [data[0].text.value] else []) + Texts(data[1..])
  }

  /** The buffer after `update_messages(data)`: never empty, and the old
      buffer stays in front. */
  function Ingest(messages: seq<string>, data: seq<Reply>): (r: seq<string>)
    ensures |r| > 0 && |messages| <= |r| && r[..|messages|] == messages
  {
    var appended := messages + Texts(data);
    if |appended| == 0 then [NO_RESPONSE] else appended
  }

  function Speak(s: State, text: string): State {
    s.(trace := s.trace + [Spoke(text)])
  }

  /** The state after `get_response(prompt, num_retries=0)`: the prompt is
      recorded and the next scripted entry, if any, consumed. */
  function Ask(s: State, prompt: Option<string>): State {
    s.(trace := s.trace + [Asked(prompt)],
       utterances := if |s.utterances| == 0 then [] else s.utterances[1..])
  }

  /** What `get_response` returns: the next scripted utterance, or `None`
      (silence) once the script is exhausted. */
  function NextUtterance(s: State): Option<string> {
    if |s.utterances| == 0 then None else s.utterances[0]
  }

  /** The request `send_message_to_rasa(msg)` posts. */
  function RequestFor(s: State, msg: string): Request {
    Request(RASA_API, msg, SenderId(s.convoId))
  }

  /** `send_message_to_rasa(msg)`: post the message and return the reply. */
  function Send(s: State, chatbot: Chatbot, msg: string): (res: (seq<Reply>, State)) {
    var r := RequestFor(s, msg);
    var s' := s.(trace := s.trace + [Posted(r)], requests := s.requests + [r]);
    (chatbot(s'.requests), s')
  }

  /** Send a message and ingest the reply into the buffer. */
  function Exchange(s: State, chatbot: Chatbot, msg: string): State {
    var (data, s') := Send(s, chatbot, msg);
    s'.(messages := Ingest(s'.messages, data))
  }

  /** The prompt `query_rasa` passes to `get_response`. */
  function ChoosePrompt(messages: seq<string>, prompt: Option<string>): Option<string> {
    if prompt.None? && |messages| > 0 then Some(messages[|messages| - 1]) else prompt
  }

  /** `query_rasa(prompt)`: one turn per captured utterance until the
      conversation is inactive or nothing is captured. */
  function Query(s: State, chatbot: Chatbot, prompt: Option<string>): State
    decreases |s.utterances|
  {
    if !s.active then Speak(s, END_MSG)
    else
      var asked := Ask(s, ChoosePrompt(s.messages, prompt));
      if NextUtterance(s).None? then asked
      else
        var t := Exchange(asked.(messages := []), chatbot, NextUtterance(s).value);
        Query(t, chatbot, Some(Join(" ", t.messages)))
  }

  /** The host's `stop` hook. */
  function Stop(s: State): State {
    s.(active := false)
  }

  /** `handle_talk_to_rasa_intent`. The buffer is not flushed before the
      welcome exchange. */
  function StartChat(s: State, chatbot: Chatbot): State {
    var s1 := Opening(s, chatbot);
    Query(s1, chatbot, Some(Join(" ", s1.messages)))
  }

  /** The state after the welcome exchange of `handle_talk_to_rasa_intent`. */
  function Opening(s: State, chatbot: Chatbot): State {
    Exchange(s.(convoId := s.convoId + 1, active := true), chatbot, INIT_MSG)
  }

  /** `handle_stop_chat`. */
  function StopChat(s: State, chatbot: Chatbot): State {
    Query(Stop(s), chatbot, None)
  }

  /** `handle_resume_chat`. */
  function ResumeChat(s: State, chatbot: Chatbot): State {
    Query(s.(active := true), chatbot, None)
  }

  /** The three intents the host dispatches to the skill. */
  datatype Intent = StartChatIntent | StopChatIntent | ResumeChatIntent

  function Dispatch(s: State, chatbot: Chatbot, intent: Intent): State {
    match intent
    case StartChatIntent => StartChat(s, chatbot)
    case StopChatIntent => StopChat(s, chatbot)
    case ResumeChatIntent => ResumeChat(s, chatbot)
  }

  /** The host dispatching a sequence of intents, one at a time. */
  function Run(s: State, chatbot: Chatbot, intents: seq<Intent>): State
    decreases |intents|
  {
    if |intents| == 0 then s else Run(Dispatch(s, chatbot, intents[0]), chatbot, intents[1..])
  }

  function CountStarts(intents: seq<Intent>): nat {
    if |intents| == 0 then 0
    else (if intents[0] == StartChatIntent then 1 else 0) + CountStarts(intents[1..])
  }

  /** What every reachable state satisfies: the counter has not gone below
      its start, and the buffer is empty only while nothing was posted. */
  ghost predicate Inv(s: State) {
    && s.convoId >= FIRST_CONVO_ID
    && (|s.messages| == 0 ==> s.requests == [])
  }
}
