/** The skill object itself: the fields `RasaSkill` updates in place and
    its methods, each proved to move the object exactly as the matching
    function of module Conversation moves a state. */
module Skill {
  import opened Wrappers
  import opened Strings
  import opened Conversation
  import ConversationLemmas

  class RasaSkill {
    var conversationActive: bool
    var convoId: int
    var messages: seq<string>

    // What the inherited host methods and the chatbot session stand for:
    // the host's remaining script of utterances, what the skill has said,
    // asked and posted so far, the requests in the order the chatbot
    // received them, and the chatbot behind the endpoint.
    var utterances: seq<Option<string>>
    var trace: seq<Event>
    var requests: seq<Request>
    const chatbot: Chatbot

    /** The object's fields as a state of the conversation model. */
    function Abstract(): State
      reads this
    {
      State(conversationActive, convoId, messages, utterances, trace, requests)
    }

    /** `initialize`: no conversation, counter at 1, empty buffer. */
    constructor (script: seq<Option<string>>, bot: Chatbot)
      ensures Abstract() == Initial(script) && chatbot == bot
      ensures !conversationActive && convoId == FIRST_CONVO_ID && messages == []
    {
      conversationActive := false;
      convoId := FIRST_CONVO_ID;
      messages := [];
      utterances := script;
      trace := [];
      requests := [];
      chatbot := bot;
    }

    /** The host's `speak`. */
    method Speak(text: string)
      modifies this
      ensures Abstract() == Conversation.Speak(old(Abstract()), text)
    {
      trace := trace + [Spoke(text)];
    }

    /** The host's `get_response(prompt, num_retries=0)`. */
    method GetResponse(prompt: Option<string>) returns (msg: Option<string>)
      modifies this
      ensures msg == NextUtterance(old(Abstract()))
      ensures Abstract() == Ask(old(Abstract()), prompt)
    {
      trace := trace + [Asked(prompt)];
      if |utterances| == 0 {
        msg := None;
      } else {
        msg := utterances[0];
        utterances := utterances[1..];
      }
    }

    /** `send_message_to_rasa(msg)`: posts the message under sender id
        "user" + convoID and returns the chatbot's reply. */
    method SendMessageToRasa(msg: string) returns (data: seq<Reply>)
      modifies this
      ensures (data, Abstract()) == Send(old(Abstract()), chatbot, msg)
      ensures trace == old(trace) + [Posted(Request(RASA_API, msg, SenderId(convoId)))]
    {
      var request := Request(RASA_API, msg, SenderId(convoId));
      trace := trace + [Posted(request)];
      requests := requests + [request];
      data := chatbot(requests);
    }

    /** `update_messages(data)`: appends the replies' texts in order, then
        falls back to the sentinel if the buffer is still empty. */
    method UpdateMessages(data: seq<Reply>)
      modifies this
      ensures Abstract() == old(Abstract()).(messages := Ingest(old(messages), data))
      ensures |messages| > 0
    {
      for i := 0 to |data|
        invariant messages == old(messages) + Texts(data[..i])
        invariant Abstract() == old(Abstract()).(messages := messages)
      {
        ConversationLemmas.TextsAppend(data[..i], [data[i]]);
        assert data[..i + 1] == data[..i] + [data[i]];
        if data[i].text.Some? {
          messages := messages + [data[i].text.value];
        }
      }
      assert data[..|data|] == data;
      if |messages| == 0 {
        messages := [NO_RESPONSE];
      }
    }

    /** `query_rasa(prompt)`, with its tail call written as a loop: one
        iteration per turn, each consuming one scripted utterance. */
    method QueryRasa(prompt: Option<string>)
      modifies this
      ensures Abstract() == Conversation.Query(old(Abstract()), chatbot, prompt)
    {
      var p := prompt;
      while true
        invariant Conversation.Query(Abstract(), chatbot, p)
               == Conversation.Query(old(Abstract()), chatbot, prompt)
        decreases |utterances|
      {
        if !conversationActive {
          Speak(END_MSG);
          return;
        }
        if p.None? && |messages| > 0 {
          p := Some(messages[|messages| - 1]);
        }
        var msg := GetResponse(p);
        if msg.None? {
          return;
        }
        // flush, ask the chatbot, buffer its reply
        messages := [];
        var data := SendMessageToRasa(msg.value);
        UpdateMessages(data);
        p := Some(Join(" ", messages));
      }
    }

    /** The host's `stop` hook. */
    method Stop()
      modifies this
      ensures Abstract() == Conversation.Stop(old(Abstract()))
      ensures !conversationActive
    {
      conversationActive := false;
    }

    /** `handle_talk_to_rasa_intent`. */
    method HandleTalkToRasaIntent()
      modifies this
      ensures Abstract() == StartChat(old(Abstract()), chatbot)
      ensures convoId == old(convoId) + 1 && conversationActive
    {
      convoId := convoId + 1;
      conversationActive := true;
      var welcomeResponse := SendMessageToRasa(INIT_MSG);
      UpdateMessages(welcomeResponse);
      var prompt := Join(" ", messages);
      ghost var opening := Abstract();
      QueryRasa(Some(prompt));
      ConversationLemmas.QueryFrame(opening, chatbot, Some(prompt));
    }

    /** `handle_stop_chat`. */
    method HandleStopChat()
      modifies this
      ensures Abstract() == StopChat(old(Abstract()), chatbot)
      ensures Abstract() == old(Abstract()).(active := false, trace := old(trace) + [Spoke(END_MSG)])
    {
      Stop();
      QueryRasa(None);
      ConversationLemmas.StopChatEnds(old(Abstract()), chatbot);
    }

    /** `handle_resume_chat`. */
    method HandleResumeChat()
      modifies this
      ensures Abstract() == ResumeChat(old(Abstract()), chatbot)
    {
      conversationActive := true;
      QueryRasa(None);
    }
  }
}
