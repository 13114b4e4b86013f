/** What the conversation adapter promises, proved about the state machine
    of module Conversation. */
module ConversationLemmas {
  import opened Wrappers
  import opened Strings
  import opened Conversation

  // ---------------------------------------------------------------------
  // Prefixes and suffixes

  /** A prefix of a prefix is a prefix, and agrees with the middle one. */
  lemma PrefixTrans<T>(a: seq<T>, b: seq<T>, c: seq<T>)
    requires |a| <= |b| && b[..|a|] == a && |b| <= |c| && c[..|b|] == b
    ensures c[..|a|] == a
    ensures forall k :: 0 <= k < |b| ==> c[k] == b[k]
  {
    assert c[..|a|] == c[..|b|][..|a|];
    forall k | 0 <= k < |b| ensures c[k] == b[k] {
      assert c[..|b|][k] == c[k];
    }
  }

  /** A suffix of the tail of a sequence is a suffix of the sequence. */
  lemma SuffixStep<T>(u: seq<T>, v: seq<T>)
    requires |u| > 0 && |v| <= |u| - 1 && v == u[1..][|u| - 1 - |v|..]
    ensures |v| <= |u| && v == u[|u| - |v|..]
  {
  }

  // ---------------------------------------------------------------------
  // update_messages

  lemma {:induction false} TextsAppend(a: seq<Reply>, b: seq<Reply>)
    ensures Texts(a + b) == Texts(a) + Texts(b)
  {
    if |a| == 0 {
      assert a + b == b;
    } else {
      var head := if a[0].text.Some? then [a[0].text.value] else [];
      assert (a + b)[0] == a[0];
      assert (a + b)[1..] == a[1..] + b;
      calc {
        Texts(a + b);
        head + Texts(a[1..] + b);
        { TextsAppend(a[1..], b); }
        head + (Texts(a[1..]) + Texts(b));
        (head + Texts(a[1..])) + Texts(b);
      }
    }
  }

  /** Every buffered text is the text of some reply. */
  lemma {:induction false} TextsSound(data: seq<Reply>, i: nat)
    requires i < |Texts(data)|
    ensures exists j :: 0 <= j < |data| && data[j].text == Some(Texts(data)[i])
  {
    if data[0].text.Some? && i == 0 {
      assert data[0].text == Some(Texts(data)[0]);
    } else {
      var k := if data[0].text.Some? then i - 1 else i;
      assert Texts(data)[i] == Texts(data[1..])[k];
      TextsSound(data[1..], k);
      var j :| 0 <= j < |data[1..]| && data[1..][j].text == Some(Texts(data[1..])[k]);
      assert data[j + 1].text == Some(Texts(data)[i]);
    }
  }

  /** Every reply with a text contributes it, after the texts of the
      replies before it and before those of the replies after it. */
  lemma TextsAt(data: seq<Reply>, j: nat)
    requires j < |data| && data[j].text.Some?
    ensures Texts(data) == Texts(data[..j]) + [data[j].text.value] + Texts(data[j + 1..])
  {
    assert data == data[..j] + ([data[j]] + data[j + 1..]);
    TextsAppend(data[..j], [data[j]] + data[j + 1..]);
    assert ([data[j]] + data[j + 1..])[1..] == data[j + 1..];
  }

  /** No text is buffered exactly when no reply has a text. */
  lemma {:induction false} TextsEmpty(data: seq<Reply>)
    ensures Texts(data) == [] <==> forall j :: 0 <= j < |data| ==> data[j].text.None?
  {
    if |data| > 0 {
      TextsEmpty(data[1..]);
      assert forall j :: 1 <= j < |data| ==> data[j] == data[1..][j - 1];
    }
  }

  /** When every reply has a text, the buffer gains all of them in order. */
  lemma {:induction false} TextsAllPresent(data: seq<Reply>)
    requires forall j :: 0 <= j < |data| ==> data[j].text.Some?
    ensures |Texts(data)| == |data|
    ensures forall j :: 0 <= j < |data| ==> Texts(data)[j] == data[j].text.value
  {
    if |data| > 0 {
      TextsAllPresent(data[1..]);
    }
  }

  /** update_messages keeps the old buffer as a prefix, appends the texts,
      and falls back to the sentinel only when both are empty. */
  lemma IngestSpec(messages: seq<string>, data: seq<Reply>)
    ensures |Ingest(messages, data)| > 0
    ensures Ingest(messages, data)[..|messages|] == messages
    ensures (|messages| == 0 && forall j :: 0 <= j < |data| ==> data[j].text.None?)
            ==> Ingest(messages, data) == [NO_RESPONSE]
    ensures (|messages| > 0 || exists j :: 0 <= j < |data| && data[j].text.Some?)
            ==> Ingest(messages, data) == messages + Texts(data)
  {
    TextsEmpty(data);
  }

  /** After a flush, the buffer holds only the latest reply's texts, or the
      sentinel when it had none. */
  lemma IngestFlushed(data: seq<Reply>)
    ensures Ingest([], data) == if Texts(data) == [] then [NO_RESPONSE] else Texts(data)
  {
    assert [] + Texts(data) == Texts(data);
  }

  /** `[{"text": "hi"}, {"recipient_id": "x"}]` buffers `["hi"]`, which joins
      to the prompt `"hi"`; `[]` buffers the sentinel alone. */
  lemma IngestScenarios()
    ensures Ingest([], [Reply(Some("hi")), Reply(None)]) == ["hi"]
    ensures Join(" ", ["hi"]) == "hi"
    ensures Ingest([], []) == [NO_RESPONSE]
  {
    assert [Reply(Some("hi")), Reply(None)][1..] == [Reply(None)];
  }

  // ---------------------------------------------------------------------
  // query_rasa

  /** The state after a successful turn of query_rasa, before it recurses. */
  function AfterTurn(s: State, chatbot: Chatbot, prompt: Option<string>, u: string): State {
    Exchange(Ask(s, ChoosePrompt(s.messages, prompt)).(messages := []), chatbot, u)
  }

  /** Inactive: say goodbye, and nothing else changes. */
  lemma QueryInactive(s: State, chatbot: Chatbot, prompt: Option<string>)
    requires !s.active
    ensures Query(s, chatbot, prompt) == s.(trace := s.trace + [Spoke(END_MSG)])
  {
  }

  /** No utterance captured: the turn ends after the question, with no
      request and the buffer, flag and counter unchanged. */
  lemma QuerySilence(s: State, chatbot: Chatbot, prompt: Option<string>)
    requires s.active
    requires |s.utterances| == 0 || s.utterances[0].None?
    ensures var q := Query(s, chatbot, prompt);
      && q.trace == s.trace + [Asked(ChoosePrompt(s.messages, prompt))]
      && q.messages == s.messages && q.active && q.convoId == s.convoId
      && q.requests == s.requests
  {
  }

  /** A turn with a captured utterance posts exactly that utterance under
      the conversation's sender id, refills the flushed buffer from the
      reply alone, and continues with the buffer joined by single spaces. */
  lemma QueryTurn(s: State, chatbot: Chatbot, prompt: Option<string>, u: string)
    requires s.active && |s.utterances| > 0 && s.utterances[0] == Some(u)
    ensures var t := AfterTurn(s, chatbot, prompt, u);
      && Query(s, chatbot, prompt) == Query(t, chatbot, Some(Join(" ", t.messages)))
      && t.requests == s.requests + [Request(RASA_API, u, SenderId(s.convoId))]
      && t.messages == Ingest([], chatbot(t.requests))
      && t.active && t.convoId == s.convoId && t.utterances == s.utterances[1..]
      && t.trace == s.trace + [Asked(ChoosePrompt(s.messages, prompt)),
                               Posted(Request(RASA_API, u, SenderId(s.convoId)))]
      && |s.trace| < |t.trace| && t.trace[..|s.trace|] == s.trace
  {
    var t := AfterTurn(s, chatbot, prompt, u);
    assert t.trace == s.trace + [Asked(ChoosePrompt(s.messages, prompt))]
                              + [Posted(Request(RASA_API, u, SenderId(s.convoId)))];
  }

  /** The part of QuerySilence about the loop itself: the query is one
      question and nothing more. */
  lemma QuerySilenceStep(s: State, chatbot: Chatbot, prompt: Option<string>)
    requires s.active && (|s.utterances| == 0 || s.utterances[0].None?)
    ensures Query(s, chatbot, prompt) == Ask(s, ChoosePrompt(s.messages, prompt))
  {
  }

  /** The part of QueryTurn about the loop itself: it recurses on the rest
      of the script, with the flag and the counter as they were. */
  lemma QueryStep(s: State, chatbot: Chatbot, prompt: Option<string>, u: string)
    requires s.active && |s.utterances| > 0 && s.utterances[0] == Some(u)
    ensures var t := AfterTurn(s, chatbot, prompt, u);
      && Query(s, chatbot, prompt) == Query(t, chatbot, Some(Join(" ", t.messages)))
      && t.active && t.convoId == s.convoId && t.utterances == s.utterances[1..]
  {
  }

  /** query_rasa never touches the flag or the counter. */
  lemma {:induction false} QueryKeepsFlag(s: State, chatbot: Chatbot, prompt: Option<string>)
    ensures Query(s, chatbot, prompt).active == s.active
    ensures Query(s, chatbot, prompt).convoId == s.convoId
    decreases |s.utterances|
  {
    if s.active && |s.utterances| > 0 && s.utterances[0].Some? {
      var u := s.utterances[0].value;
      var t := AfterTurn(s, chatbot, prompt, u);
      QueryStep(s, chatbot, prompt, u);
      QueryKeepsFlag(t, chatbot, Some(Join(" ", t.messages)));
    } else if s.active {
      QuerySilence(s, chatbot, prompt);
    }
  }

  /** query_rasa only extends the trace. */
  lemma {:induction false} QueryExtendsTrace(s: State, chatbot: Chatbot, prompt: Option<string>)
    ensures |s.trace| < |Query(s, chatbot, prompt).trace|
    ensures Query(s, chatbot, prompt).trace[..|s.trace|] == s.trace
    decreases |s.utterances|
  {
    if s.active && |s.utterances| > 0 && s.utterances[0].Some? {
      var u := s.utterances[0].value;
      var t := AfterTurn(s, chatbot, prompt, u);
      var p' := Some(Join(" ", t.messages));
      QueryTurn(s, chatbot, prompt, u);
      QueryExtendsTrace(t, chatbot, p');
      PrefixTrans(s.trace, t.trace, Query(t, chatbot, p').trace);
    } else if s.active {
      QuerySilence(s, chatbot, prompt);
    } else {
      QueryInactive(s, chatbot, prompt);
    }
  }

  /** query_rasa only consumes utterances from the front of the script. */
  lemma {:induction false} QueryConsumesScript(s: State, chatbot: Chatbot, prompt: Option<string>)
    ensures |Query(s, chatbot, prompt).utterances| <= |s.utterances|
    ensures Query(s, chatbot, prompt).utterances
         == s.utterances[|s.utterances| - |Query(s, chatbot, prompt).utterances|..]
    decreases |s.utterances|
  {
    if s.active && |s.utterances| > 0 && s.utterances[0].Some? {
      var u := s.utterances[0].value;
      var t := AfterTurn(s, chatbot, prompt, u);
      var p' := Some(Join(" ", t.messages));
      QueryStep(s, chatbot, prompt, u);
      QueryConsumesScript(t, chatbot, p');
      SuffixStep(s.utterances, Query(t, chatbot, p').utterances);
    } else if s.active {
      QuerySilenceStep(s, chatbot, prompt);
      if |s.utterances| > 0 {
        assert s.utterances[1..] == s.utterances[|s.utterances| - (|s.utterances| - 1)..];
      }
    } else {
      QueryInactive(s, chatbot, prompt);
    }
  }

  /** An active query never says goodbye: the flag cannot change during
      the loop, so its inactive exit is taken only on entry. */
  lemma {:induction false} QueryActiveNoGoodbye(s: State, chatbot: Chatbot, prompt: Option<string>)
    requires s.active
    ensures forall k :: |s.trace| <= k < |Query(s, chatbot, prompt).trace|
              ==> Query(s, chatbot, prompt).trace[k] != Spoke(END_MSG)
    decreases |s.utterances|
  {
    if |s.utterances| > 0 && s.utterances[0].Some? {
      var u := s.utterances[0].value;
      var t := AfterTurn(s, chatbot, prompt, u);
      var p' := Some(Join(" ", t.messages));
      QueryTurn(s, chatbot, prompt, u);
      QueryActiveNoGoodbye(t, chatbot, p');
      QueryExtendsTrace(t, chatbot, p');
      var q := Query(t, chatbot, p').trace;
      forall k | |s.trace| <= k < |t.trace|
        ensures q[k] != Spoke(END_MSG)
      {
        assert q[k] == q[..|t.trace|][k];
      }
    } else {
      QuerySilence(s, chatbot, prompt);
    }
  }

  /** QueryKeepsFlag, QueryExtendsTrace and QueryConsumesScript together. */
  lemma QueryFrame(s: State, chatbot: Chatbot, prompt: Option<string>)
    ensures var q := Query(s, chatbot, prompt);
      && q.active == s.active && q.convoId == s.convoId
      && |s.trace| < |q.trace| && q.trace[..|s.trace|] == s.trace
      && |q.utterances| <= |s.utterances|
      && q.utterances == s.utterances[|s.utterances| - |q.utterances|..]
  {
    QueryKeepsFlag(s, chatbot, prompt);
    QueryExtendsTrace(s, chatbot, prompt);
    QueryConsumesScript(s, chatbot, prompt);
  }

  /** The first thing an active query does is ask with the chosen prompt. */
  lemma QueryFirstEvent(s: State, chatbot: Chatbot, prompt: Option<string>)
    requires s.active
    ensures |Query(s, chatbot, prompt).trace| > |s.trace|
    ensures Query(s, chatbot, prompt).trace[|s.trace|] == Asked(ChoosePrompt(s.messages, prompt))
  {
    if |s.utterances| > 0 && s.utterances[0].Some? {
      var u := s.utterances[0].value;
      var t := AfterTurn(s, chatbot, prompt, u);
      QueryTurn(s, chatbot, prompt, u);
      QueryFrame(t, chatbot, Some(Join(" ", t.messages)));
      assert Query(s, chatbot, prompt).trace[..|t.trace|] == t.trace;
      assert t.trace[|s.trace|] == Asked(ChoosePrompt(s.messages, prompt));
    }
  }

  /** Called with no prompt, query_rasa re-asks the last buffered message. */
  lemma QueryPromptFromBuffer(s: State, chatbot: Chatbot)
    requires s.active && |s.messages| > 0
    ensures |Query(s, chatbot, None).trace| > |s.trace|
    ensures Query(s, chatbot, None).trace[|s.trace|] == Asked(Some(s.messages[|s.messages| - 1]))
  {
    QueryFirstEvent(s, chatbot, None);
  }

  /** All requests of `reqs` from index `from` on go to the chatbot
      endpoint under sender id `id`. */
  ghost predicate PostedAs(reqs: seq<Request>, from: nat, id: string) {
    forall k :: from <= k < |reqs| ==> reqs[k].url == RASA_API && reqs[k].senderId == id
  }

  /** One more request in front of a run posted under the same sender id. */
  lemma PostedAsStep(before: seq<Request>, mid: seq<Request>, after: seq<Request>, r: Request, id: string)
    requires mid == before + [r] && r.url == RASA_API && r.senderId == id
    requires |mid| <= |after| && after[..|mid|] == mid && PostedAs(after, |mid|, id)
    ensures |before| <= |after| && after[..|before|] == before && PostedAs(after, |before|, id)
  {
    assert after[..|before|] == mid[..|before|];
    assert after[|before|] == r;
  }

  /** The requests query_rasa posts keep the earlier ones as a prefix, all
      go to the endpoint under the conversation's sender id, and there are
      no more of them than utterances consumed. */
  lemma {:induction false} QueryRequests(s: State, chatbot: Chatbot, prompt: Option<string>)
    ensures var before, after := s.requests, Query(s, chatbot, prompt).requests;
      && |before| <= |after| && after[..|before|] == before
      && |after| - |before| <= |s.utterances| - |Query(s, chatbot, prompt).utterances|
      && PostedAs(after, |before|, SenderId(s.convoId))
    decreases |s.utterances|
  {
    if s.active && |s.utterances| > 0 && s.utterances[0].Some? {
      var u := s.utterances[0].value;
      var t := AfterTurn(s, chatbot, prompt, u);
      var p' := Some(Join(" ", t.messages));
      QueryTurn(s, chatbot, prompt, u);
      QueryRequests(t, chatbot, p');
      PostedAsStep(s.requests, t.requests,
                   Query(t, chatbot, p').requests, RequestFor(s, u), SenderId(s.convoId));
    } else if s.active {
      QuerySilence(s, chatbot, prompt);
    } else {
      QueryInactive(s, chatbot, prompt);
    }
  }

  /** When query_rasa returns, the buffer is unchanged if no request was
      posted, and otherwise holds only the ingested reply to the last one. */
  lemma {:induction false} QueryBuffer(s: State, chatbot: Chatbot, prompt: Option<string>)
    ensures var q := Query(s, chatbot, prompt);
      if |q.requests| == |s.requests| then q.messages == s.messages
      else q.messages == Ingest([], chatbot(q.requests))
    decreases |s.utterances|
  {
    if s.active && |s.utterances| > 0 && s.utterances[0].Some? {
      var u := s.utterances[0].value;
      var t := AfterTurn(s, chatbot, prompt, u);
      var p' := Some(Join(" ", t.messages));
      QueryTurn(s, chatbot, prompt, u);
      QueryBuffer(t, chatbot, p');
      QueryRequests(t, chatbot, p');
      var q := Query(t, chatbot, p');
      assert q == Query(s, chatbot, prompt);
      var mid, after := t.requests, q.requests;
      assert |mid| == |s.requests| + 1;
      if |after| == |mid| {
        assert after == after[..|mid|] == mid;
      }
    } else if s.active {
      QuerySilence(s, chatbot, prompt);
    } else {
      QueryInactive(s, chatbot, prompt);
    }
  }

  lemma QueryKeepsInv(s: State, chatbot: Chatbot, prompt: Option<string>)
    requires Inv(s)
    ensures Inv(Query(s, chatbot, prompt))
  {
    QueryFrame(s, chatbot, prompt);
    QueryBuffer(s, chatbot, prompt);
    var q := Query(s, chatbot, prompt);
    if |q.requests| != |s.requests| {
      IngestSpec([], chatbot(q.requests));
    }
  }

  // ---------------------------------------------------------------------
  // The intent handlers

  /** The welcome exchange: the counter moves up by one and the flag is set
      before the welcome request, which carries the new sender id; the
      reply is appended to the buffer without a flush. */
  lemma OpeningSpec(s: State, chatbot: Chatbot)
    ensures var o := Opening(s, chatbot);
      var welcome := Request(RASA_API, INIT_MSG, SenderId(s.convoId + 1));
      && o.convoId == s.convoId + 1 && o.active && o.utterances == s.utterances
      && o.trace == s.trace + [Posted(welcome)]
      && o.requests == s.requests + [welcome]
      && o.messages == Ingest(s.messages, chatbot(s.requests + [welcome]))
  {
  }

  /** Starting a conversation leaves it active under the new counter, posts
      the welcome request first and then asks with the joined buffer, which
      still includes what the previous conversation left in it. */
  lemma StartChatOpening(s: State, chatbot: Chatbot)
    ensures StartChat(s, chatbot).convoId == s.convoId + 1
    ensures StartChat(s, chatbot).active
    ensures |StartChat(s, chatbot).trace| > |s.trace| + 1
    ensures StartChat(s, chatbot).trace[..|s.trace|] == s.trace
    ensures StartChat(s, chatbot).trace[|s.trace|]
         == Posted(Request(RASA_API, INIT_MSG, SenderId(s.convoId + 1)))
    ensures StartChat(s, chatbot).trace[|s.trace| + 1]
         == Asked(Some(Join(" ", Opening(s, chatbot).messages)))
  {
    var o := Opening(s, chatbot);
    var p := Some(Join(" ", o.messages));
    OpeningSpec(s, chatbot);
    QueryFrame(o, chatbot, p);
    QueryFirstEvent(o, chatbot, p);
    PrefixTrans(s.trace, o.trace, Query(o, chatbot, p).trace);
  }

  /** Every request of a started conversation carries its new sender id,
      the welcome request first. */
  lemma StartChatSenderId(s: State, chatbot: Chatbot)
    ensures var before, after := s.requests, StartChat(s, chatbot).requests;
      && |before| < |after| && after[..|before|] == before
      && after[|before|] == Request(RASA_API, INIT_MSG, SenderId(s.convoId + 1))
      && PostedAs(after, |before|, SenderId(s.convoId + 1))
  {
    var o := Opening(s, chatbot);
    var p := Some(Join(" ", o.messages));
    OpeningSpec(s, chatbot);
    QueryRequests(o, chatbot, p);
    PostedAsStep(s.requests, o.requests, Query(o, chatbot, p).requests,
                 Request(RASA_API, INIT_MSG, SenderId(s.convoId + 1)), SenderId(s.convoId + 1));
  }

  lemma StopIdempotent(s: State)
    ensures !Stop(s).active
    ensures Stop(Stop(s)) == Stop(s)
    ensures Stop(s).(active := s.active) == s
  {
  }

  /** The stop intent always ends with the goodbye line and no request, and
      leaves the buffer, counter and script as they were. */
  lemma StopChatEnds(s: State, chatbot: Chatbot)
    ensures StopChat(s, chatbot) == s.(active := false, trace := s.trace + [Spoke(END_MSG)])
    ensures StopChat(s, chatbot).requests == s.requests
  {
    QueryInactive(Stop(s), chatbot, None);
  }

  /** Resuming keeps the counter, so the conversation goes on under the same
      sender id, and its first question re-asks the last buffered message. */
  lemma ResumeChatContinues(s: State, chatbot: Chatbot)
    ensures var q := ResumeChat(s, chatbot);
      var before, after := s.requests, q.requests;
      && q.active && q.convoId == s.convoId && |q.trace| > |s.trace|
      && q.trace[|s.trace|] == Asked(if |s.messages| > 0 then Some(s.messages[|s.messages| - 1]) else None)
      && |before| <= |after| && after[..|before|] == before
      && PostedAs(after, |before|, SenderId(s.convoId))
  {
    QueryFrame(s.(active := true), chatbot, None);
    QueryFirstEvent(s.(active := true), chatbot, None);
    QueryRequests(s.(active := true), chatbot, None);
  }

  // ---------------------------------------------------------------------
  // The counter across a whole session

  lemma DispatchSpec(s: State, chatbot: Chatbot, intent: Intent)
    ensures Dispatch(s, chatbot, intent).convoId
         == s.convoId + (if intent == StartChatIntent then 1 else 0)
    ensures Inv(s) ==> Inv(Dispatch(s, chatbot, intent))
  {
    match intent
    case StartChatIntent =>
      var o := Opening(s, chatbot);
      OpeningSpec(s, chatbot);
      QueryFrame(o, chatbot, Some(Join(" ", o.messages)));
      if Inv(s) {
        IngestSpec(s.messages, chatbot(o.requests));
        QueryKeepsInv(o, chatbot, Some(Join(" ", o.messages)));
      }
    case StopChatIntent =>
      StopChatEnds(s, chatbot);
    case ResumeChatIntent =>
      QueryFrame(s.(active := true), chatbot, None);
      if Inv(s) {
        QueryKeepsInv(s.(active := true), chatbot, None);
      }
  }

  /** convoID moves only when a conversation starts, by one each time. */
  lemma {:induction false} RunConvoId(s: State, chatbot: Chatbot, intents: seq<Intent>)
    ensures Run(s, chatbot, intents).convoId == s.convoId + CountStarts(intents)
    ensures Inv(s) ==> Inv(Run(s, chatbot, intents))
    decreases |intents|
  {
    if |intents| > 0 {
      DispatchSpec(s, chatbot, intents[0]);
      RunConvoId(Dispatch(s, chatbot, intents[0]), chatbot, intents[1..]);
    }
  }

  /** From initialisation, convoID is one plus the number of conversations
      started, so it starts at 1 and never decreases. */
  lemma SessionConvoId(utterances: seq<Option<string>>, chatbot: Chatbot, intents: seq<Intent>)
    ensures Run(Initial(utterances), chatbot, intents).convoId == FIRST_CONVO_ID + CountStarts(intents)
    ensures Inv(Run(Initial(utterances), chatbot, intents))
  {
    RunConvoId(Initial(utterances), chatbot, intents);
  }

  /** "user" and the decimal convoID; two conversations with different
      counters therefore never share a sender id. */
  lemma SenderIdDistinct(a: int, b: int)
    ensures a >= 0 ==> IsDecimal(SenderId(a)[4..]) && ParseNat(SenderId(a)[4..]) == a
    ensures SenderId(a) == SenderId(b) ==> a == b
  {
    assert SenderId(a)[4..] == IntToString(a);
    assert SenderId(b)[4..] == IntToString(b);
    if a >= 0 {
      ParseNatToString(a);
    }
    if SenderId(a) == SenderId(b) {
      IntToStringInjective(a, b);
    }
  }
}
