/**
 * The `/chat` and `/graph/json` handlers: a chat request's history is
 * flattened into role-tagged messages for the query chain, the records of
 * the chain's second intermediate step are kept as the latest result, and
 * both handlers render that result with the formatter.
 *
 * The query chain `generate_response` is an input (`generate`): a function
 * from the message list to the chain's result.
 */
module Api {
  import opened Wrappers
  import opened GraphFormat

  /** One earlier exchange: what the user wrote and what the bot answered. */
  datatype ChatTurn = ChatTurn(user: string, bot: string)

  /** The `/chat` request body. */
  datatype Query = Query(message: string, history: seq<ChatTurn>)

  datatype Role = User | Assistant

  /** `{"role": ..., "content": ...}`. */
  datatype Message = Message(role: Role, content: string)

  /** One entry of the chain's `intermediate_steps`; `context` is absent when the entry has no such key. */
  datatype StepInfo = StepInfo(context: Option<seq<Record>>)

  /** The chain's result; `intermediateSteps` is absent when it has no such key. */
  datatype ChainResult = ChainResult(intermediateSteps: Option<seq<StepInfo>>)

  /** The lookup `result['intermediate_steps'][1]['context']` raised (a `KeyError` or an `IndexError`). */
  datatype ChatError = NoContext

  /** The message list for `history` followed by the new `message`. */
  function Conversation(history: seq<ChatTurn>, message: string): seq<Message> {
    Turns(history) + [Message(User, message)]
  }

  /** Each earlier turn as a user message followed by an assistant message. */
  function Turns(history: seq<ChatTurn>): seq<Message> {
    if history == [] then []
    else
      var n := |history| - 1;
      Turns(history[..n]) + [Message(User, history[n].user), Message(Assistant, history[n].bot)]
  }

  /** The flattened list alternates user and assistant turns, two per exchange, and ends with the new message. */
  lemma {:induction false} ConversationShape(history: seq<ChatTurn>, message: string)
    ensures var ms := Conversation(history, message);
      && |ms| == 2 * |history| + 1
      && (forall i :: 0 <= i < |history| ==>
            ms[2 * i] == Message(User, history[i].user) && ms[2 * i + 1] == Message(Assistant, history[i].bot))
      && ms[2 * |history|] == Message(User, message)
  {
    TurnsShape(history);
  }

  lemma {:induction false} TurnsShape(history: seq<ChatTurn>)
    ensures |Turns(history)| == 2 * |history|
    ensures forall i :: 0 <= i < |history| ==>
      Turns(history)[2 * i] == Message(User, history[i].user)
      && Turns(history)[2 * i + 1] == Message(Assistant, history[i].bot)
  {
    if history != [] {
      var n := |history| - 1;
      TurnsShape(history[..n]);
      assert forall i :: 0 <= i < n ==> history[..n][i] == history[i];
    }
  }

  /** The loop of `chat` that builds `messages`. */
  method BuildMessages(history: seq<ChatTurn>, message: string) returns (messages: seq<Message>)
    ensures messages == Conversation(history, message)
    ensures |messages| == 2 * |history| + 1
    ensures forall i :: 0 <= i < |history| ==>
      messages[2 * i] == Message(User, history[i].user) && messages[2 * i + 1] == Message(Assistant, history[i].bot)
    ensures messages[2 * |history|] == Message(User, message)
  {
    messages := [];
    var i := 0;
    while i < |history|
      invariant 0 <= i <= |history|
      invariant messages == Turns(history[..i])
    {
      var turn := history[i];
      messages := messages + [Message(User, turn.user)];
      messages := messages + [Message(Assistant, turn.bot)];
      assert history[..i + 1][..i] == history[..i];
      i := i + 1;
    }
    assert history[..|history|] == history;
    messages := messages + [Message(User, message)];
    ConversationShape(history, message);
  }

  /** `result['intermediate_steps'][1]['context']`, or `None` where that lookup raises. */
  function LatestContext(result: ChainResult): Option<seq<Record>> {
    match result.intermediateSteps
    case Some(steps) => if |steps| > 1 then steps[1].context else None
    case None => None
  }

  /** The server process with its module-level `latest_intermediate_steps`. */
  class ChatServer {
    var latestIntermediateSteps: seq<Record>

    /** The module is loaded with an empty latest result. */
    constructor ()
      ensures latestIntermediateSteps == []
    {
      latestIntermediateSteps := [];
    }

    /**
     * `/chat`: the chain receives the flattened conversation; its second
     * step's records become the latest result and are returned rendered.
     * When that lookup raises, the latest result is left as it was.
     */
    method Chat(payload: Query, generate: seq<Message> -> ChainResult) returns (r: Result<Payload, ChatError>)
      modifies this
      ensures var ctx := LatestContext(generate(Conversation(payload.history, payload.message)));
        match ctx
        case Some(records) => latestIntermediateSteps == records && r == Success(D3Format(records))
        case None => latestIntermediateSteps == old(latestIntermediateSteps) && r == Failure(NoContext)
    {
      var messages := BuildMessages(payload.history, payload.message);
      var result := generate(messages);
      var ctx := LatestContext(result);
      if ctx.None? {
        return Failure(NoContext);
      }
      latestIntermediateSteps := ctx.value;
      var graph := ToD3Format(latestIntermediateSteps);
      r := Success(graph);
    }

    /** `/graph/json`: the latest result rendered again; nothing changes. */
    method GetGraphJson() returns (out: Payload)
      ensures out == D3Format(latestIntermediateSteps)
    {
      out := ToD3Format(latestIntermediateSteps);
    }
  }

  /** Before any chat, `/graph/json` returns no nodes and no links. */
  method GraphBeforeAnyChat() returns (out: Payload)
    ensures out == Payload([], [])
  {
    var server := new ChatServer();
    out := server.GetGraphJson();
    EmptyResults();
  }

  /**
   * On a fresh server, `/graph/json` after the first chat returns what
   * `/chat` returned, or the empty graph when that chat failed.
   */
  method GraphAfterChat(payload: Query, generate: seq<Message> -> ChainResult)
    returns (chatReply: Result<Payload, ChatError>, graph: Payload)
    ensures chatReply.Success? ==> graph == chatReply.value
    ensures chatReply.Failure? ==> graph == Payload([], [])
  {
    var server := new ChatServer();
    chatReply := server.Chat(payload, generate);
    graph := server.GetGraphJson();
    EmptyResults();
  }

  /**
   * On any server, `/graph/json` after a chat returns what `/chat` returned;
   * when the chat fails, it keeps returning the rendering it gave before.
   */
  method GraphAcrossChat(server: ChatServer, payload: Query, generate: seq<Message> -> ChainResult)
    returns (before: Payload, chatReply: Result<Payload, ChatError>, after: Payload)
    modifies server
    ensures chatReply.Success? ==> after == chatReply.value
    ensures chatReply.Failure? ==> after == before
  {
    before := server.GetGraphJson();
    chatReply := server.Chat(payload, generate);
    after := server.GetGraphJson();
  }
}
