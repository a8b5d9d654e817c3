/**
 * The chat lifecycle kept in the `conversations` collection: an agent
 * resolves (or keeps) the conversation assigned to them, a user closes
 * their own, and the assigned agent alone may add replies to it. The
 * collection is a map from document id to conversation record, updated in
 * place by the two handlers `end_conversation` and `agent_reply`.
 */
module Conversations {
  import opened Wrappers
  import opened Json
  import opened Http

  /**
   * A conversation document: its `assigned_agent` (null when unassigned or
   * absent), its `status`, its `user_email` if present, and its `messages`.
   */
  datatype Conversation = Conversation(assignedAgent: Json, status: Json, userEmail: Option<Json>, messages: seq<Json>)

  /**
   * The update that ends a conversation's assignment: an agent's `yes` sets
   * the status to `resolved`, a user's request to `closed`; either way no
   * agent is assigned any more, and the user and the messages stay.
   */
  function Unassign(c: Conversation, status: string): (r: Conversation)
    ensures r.status == JStr(status) && r.assignedAgent == JNull
    ensures r.userEmail == c.userEmail && r.messages == c.messages
  {
    c.(status := JStr(status), assignedAgent := JNull)
  }

  /** No value occurs twice in `ms`. */
  predicate NoRepeats(ms: seq<Json>) {
    forall i, j :: 0 <= i < j < |ms| ==> ms[i] != ms[j]
  }

  /**
   * `firestore.ArrayUnion([m])` applied to `ms`: `m` is appended unless it is
   * already there, so an array without repeats stays without repeats.
   */
  function ArrayUnion(ms: seq<Json>, m: Json): (r: seq<Json>)
    ensures m in r
    ensures NoRepeats(ms) ==> NoRepeats(r)
    ensures forall x :: x in r <==> x in ms || x == m
    ensures m in ms ==> r == ms
    ensures m !in ms ==> |r| == |ms| + 1 && r[..|ms|] == ms && r[|ms|] == m
  {
    if m in ms then ms else ms + [m]
  }

  /** Adding the same element twice is adding it once. */
  lemma ArrayUnionIdempotent(ms: seq<Json>, m: Json)
    ensures ArrayUnion(ArrayUnion(ms, m), m) == ArrayUnion(ms, m)
  {
    assert m in ArrayUnion(ms, m);
  }

  /** The message an agent's reply adds: `{sender: "agent", agent_email, message}`. */
  function AgentMessage(agent: Json, message: Json): Json {
    JObj([("sender", JStr("agent")), ("agent_email", agent), ("message", message)])
  }

  /** The message an agent's reply adds records who sent it and what they said. */
  lemma AgentMessageFields(agent: Json, message: Json)
    ensures Get(AgentMessage(agent, message).members, "sender") == Some(JStr("agent"))
    ensures Get(AgentMessage(agent, message).members, "agent_email") == Some(agent)
    ensures Get(AgentMessage(agent, message).members, "message") == Some(message)
  {
    var ms := AgentMessage(agent, message).members;
    assert ms[2].0 == "message" && ms[1].0 == "agent_email" && ms[0].0 == "sender";
    assert ms[..2][..1] == [ms[0]];
    assert ms[..2] == [ms[0], ms[1]];
  }

  /**
   * How the agent branch of `end_conversation` ends for an agent with an
   * assigned conversation: some conversation `id` assigned to the agent is
   * taken; without `user_email` the reply is the `KeyError` (500); with it,
   * `yes` resolves the conversation and unassigns the agent (200) and `no`
   * keeps it as it is (200).
   */
  ghost predicate AgentEnded(before: map<string, Conversation>, after: map<string, Conversation>,
                             agent: Json, status: Json, out: Response) {
    exists id :: id in before && before[id].assignedAgent == agent &&
      (before[id].userEmail.None? ==> out == Response(500, NoUserEmailKey)) &&
      (before[id].userEmail.Some? && status == JStr("yes") ==>
        out == Response(200, ResolvedText) && after == before[id := Unassign(before[id], "resolved")]) &&
      (before[id].userEmail.Some? && status == JStr("no") ==> out == Response(200, KeptText))
  }

  /** The fields `end_conversation` reads from its request dict. */
  datatype EndRequest = EndRequest(agent: Json, user: Json, role: Json, status: Json)

  function EndRequestOf(members: seq<(string, Json)>): EndRequest {
    EndRequest(GetOrNull(members, "agent_email"), GetOrNull(members, "user_email"),
               GetOrNull(members, "role"), GetOrNull(members, "status"))
  }

  /** `not all([role, agent_email or user_email])`. */
  predicate MissesFields(r: EndRequest) {
    !Truthy(r.role) || (!Truthy(r.agent) && !Truthy(r.user))
  }

  /** The agent branch is taken: role `agent` and a truthy agent email. */
  predicate AgentCase(r: EndRequest) {
    r.role == JStr("agent") && Truthy(r.agent)
  }

  /** The user branch is taken: role `user` and a truthy user email. */
  predicate UserCase(r: EndRequest) {
    r.role == JStr("user") && Truthy(r.user)
  }

  /** The replies of the two handlers. */
  const MissingBody := "Invalid request, missing JSON body"
  const MissingEndFields := "Missing required fields: role and either agent_email or user_email"
  const BadStatus := "If role is agent, \"status\" is required with value \"yes\" or \"no\"."
  const NoAgentConversation := "No active conversation found for the provided agent_email"
  const ResolvedText := "Conversation marked as resolved and agent unassigned."
  const KeptText := "Conversation is not yet resolved. Agent remains assigned."
  const NoUserConversation := "Conversation not found for the provided user_email"
  const ClosedText := "Conversation successfully ended and agent unassigned."
  const InvalidRole := "Invalid role. Expected \"agent\" or \"user\"."
  const MissingReplyFields := "Missing required fields"
  const NoCodeConversation := "Conversation not found for the provided process_code"
  const NotAssigned := "Agent is not assigned to this conversation"
  const ReplyAdded := "Agent reply successfully added"

  /** The text of the `KeyError` raised by `conversation['user_email']`. */
  const NoUserEmailKey := "'user_email'"

  /** The CORS headers a reply of `agent_reply` carries. */
  datatype Cors =
    | Preflight  // allow any origin, POST and OPTIONS, the Content-Type header, cached for an hour
    | AnyOrigin  // allow any origin

  /** The header dict each kind stands for. */
  function CorsHeaders(c: Cors): Dict {
    match c
    case Preflight => [("Access-Control-Allow-Origin", "*"), ("Access-Control-Allow-Methods", "POST, OPTIONS"),
                       ("Access-Control-Allow-Headers", "Content-Type"), ("Access-Control-Max-Age", "3600")]
    case AnyOrigin => [("Access-Control-Allow-Origin", "*")]
  }

  /** The fields `agent_reply` reads from its request dict. */
  datatype ReplyRequest = ReplyRequest(agent: Json, code: Json, message: Json)

  function ReplyRequestOf(members: seq<(string, Json)>): ReplyRequest {
    ReplyRequest(GetOrNull(members, "agent_email"), GetOrNull(members, "process_code"), GetOrNull(members, "message"))
  }

  /** A reply request is complete when all three fields are truthy. */
  predicate ReplyComplete(r: ReplyRequest) {
    Truthy(r.agent) && Truthy(r.code) && Truthy(r.message)
  }

  /** The `conversations` collection, keyed by document id. */
  class ConversationStore {
    var docs: map<string, Conversation>

    constructor(initial: map<string, Conversation>)
      ensures docs == initial
    {
      docs := initial;
    }

    /** No conversation holds the same message twice, as `ArrayUnion` keeps it. */
    predicate NoRepeatedMessages()
      reads this
    {
      forall id :: id in docs ==> NoRepeats(docs[id].messages)
    }

    /** Some conversation is assigned to `agent`. */
    predicate HasAssigned(agent: Json)
      reads this
    {
      exists id :: id in docs && docs[id].assignedAgent == agent
    }

    /**
     * The agent branch of `end_conversation`, once the status is `yes` or
     * `no`: some conversation assigned to the agent is taken (404 when there
     * is none); a record without `user_email` raises; `yes` resolves it and
     * unassigns the agent, `no` changes nothing.
     */
    method EndByAgent(agent: Json, status: Json) returns (out: Response)
      requires status == JStr("yes") || status == JStr("no")
      modifies this
      ensures old(NoRepeatedMessages()) ==> NoRepeatedMessages()
      ensures !old(HasAssigned(agent)) ==> out == Response(404, NoAgentConversation) && docs == old(docs)
      ensures out.status != 200 ==> docs == old(docs)
      ensures status == JStr("no") ==> docs == old(docs)
      ensures old(HasAssigned(agent)) ==> AgentEnded(old(docs), docs, agent, status, out)
    {
      if !HasAssigned(agent) {
        return Response(404, NoAgentConversation);
      }
      var id :| id in docs && docs[id].assignedAgent == agent;
      var conversation := docs[id];
      if conversation.userEmail.None? {
        return Response(500, NoUserEmailKey);
      }
      if status == JStr("yes") {
        docs := docs[id := Unassign(conversation, "resolved")];
        out := Response(200, ResolvedText);
      } else {
        out := Response(200, KeptText);
      }
    }

    /**
     * The user branch of `end_conversation`: the conversation whose id is the
     * user's email is closed and its agent unassigned; 404 when there is no
     * such conversation.
     */
    method EndByUser(user: Json) returns (out: Response)
      modifies this
      ensures old(NoRepeatedMessages()) ==> NoRepeatedMessages()
      ensures !user.JStr? ==> out == Response(500, BadDocumentId) && docs == old(docs)
      ensures user.JStr? && user.s !in old(docs) ==> out == Response(404, NoUserConversation) && docs == old(docs)
      ensures user.JStr? && user.s in old(docs) ==>
        out == Response(200, ClosedText) && docs == old(docs)[user.s := Unassign(old(docs)[user.s], "closed")]
    {
      if !user.JStr? {
        return Response(500, BadDocumentId);
      }
      if user.s !in docs {
        return Response(404, NoUserConversation);
      }
      docs := docs[user.s := Unassign(docs[user.s], "closed")];
      out := Response(200, ClosedText);
    }

    /**
     * `end_conversation`. In this order: an absent or falsy body gives 400;
     * a body that is not a dict raises (500); a falsy role, or neither email,
     * gives 400. Role `agent` with an agent email needs status `yes` or `no`
     * (400 otherwise) and goes to the agent branch; role `user` with a user
     * email goes to the user branch; anything else is an invalid role (400).
     * Only a successful `yes` or user request changes the collection.
     */
    method EndConversation(request: Option<Json>) returns (out: Response)
      modifies this
      ensures old(NoRepeatedMessages()) ==> NoRepeatedMessages()
      ensures out.status != 200 ==> docs == old(docs)
      ensures request.None? || !Truthy(request.value) ==> out == Response(400, MissingBody)
      ensures request.Some? && Truthy(request.value) && !request.value.JObj? ==> out == Response(500, NoGet(request.value))
      ensures request.Some? && request.value.JObj? && Truthy(request.value) ==> (
        var r := EndRequestOf(request.value.members);
        (MissesFields(r) ==> out == Response(400, MissingEndFields)) &&
        (!MissesFields(r) && AgentCase(r) && r.status != JStr("yes") && r.status != JStr("no") ==>
          out == Response(400, BadStatus)) &&
        ((!MissesFields(r) && AgentCase(r) && (r.status == JStr("yes") || r.status == JStr("no")) &&
          !old(HasAssigned(r.agent))) ==> out == Response(404, NoAgentConversation)) &&
        (!MissesFields(r) && AgentCase(r) && r.status == JStr("no") ==> docs == old(docs)) &&
        ((!MissesFields(r) && AgentCase(r) && (r.status == JStr("yes") || r.status == JStr("no")) &&
          old(HasAssigned(r.agent))) ==> AgentEnded(old(docs), docs, r.agent, r.status, out)) &&
        (!MissesFields(r) && !AgentCase(r) && UserCase(r) && !r.user.JStr? ==> out == Response(500, BadDocumentId)) &&
        (!MissesFields(r) && !AgentCase(r) && UserCase(r) && r.user.JStr? ==>
          if r.user.s in old(docs)
          then out == Response(200, ClosedText) && docs == old(docs)[r.user.s := Unassign(old(docs)[r.user.s], "closed")]
          else out == Response(404, NoUserConversation)) &&
        (!MissesFields(r) && !AgentCase(r) && !UserCase(r) ==> out == Response(400, InvalidRole)))
    {
      if request.None? || !Truthy(request.value) {
        return Response(400, MissingBody);
      }
      var body := request.value;
      if !body.JObj? {
        return Response(500, NoGet(body));
      }
      var r := EndRequestOf(body.members);
      if MissesFields(r) {
        return Response(400, MissingEndFields);
      }
      if r.role == JStr("agent") && Truthy(r.agent) {
        if !Truthy(r.status) || (r.status != JStr("yes") && r.status != JStr("no")) {
          return Response(400, BadStatus);
        }
        out := EndByAgent(r.agent, r.status);
        return;
      }
      if r.role == JStr("user") && Truthy(r.user) {
        out := EndByUser(r.user);
        return;
      }
      out := Response(400, InvalidRole);
    }

    /**
     * `agent_reply` after the checks on the request: the conversation is
     * looked up by process code (404 when missing), the agent must be the
     * one assigned to it (403 otherwise), and the reply is added to its
     * messages; nothing else in the collection changes.
     */
    method AddReply(r: ReplyRequest) returns (out: Response)
      modifies this
      ensures old(NoRepeatedMessages()) ==> NoRepeatedMessages()
      ensures out.status != 200 ==> docs == old(docs)
      ensures !r.code.JStr? ==> out == Response(500, BadDocumentId)
      ensures r.code.JStr? && r.code.s !in old(docs) ==> out == Response(404, NoCodeConversation)
      ensures r.code.JStr? && r.code.s in old(docs) && old(docs)[r.code.s].assignedAgent != r.agent ==>
        out == Response(403, NotAssigned)
      ensures r.code.JStr? && r.code.s in old(docs) && old(docs)[r.code.s].assignedAgent == r.agent ==>
        out == Response(200, ReplyAdded) &&
        docs == old(docs)[r.code.s := old(docs)[r.code.s].(messages :=
          ArrayUnion(old(docs)[r.code.s].messages, AgentMessage(r.agent, r.message)))]
    {
      if !r.code.JStr? {
        return Response(500, BadDocumentId);
      }
      var id := r.code.s;
      if id !in docs {
        return Response(404, NoCodeConversation);
      }
      var conversation := docs[id];
      if conversation.assignedAgent != r.agent {
        return Response(403, NotAssigned);
      }
      docs := docs[id := conversation.(messages := ArrayUnion(conversation.messages, AgentMessage(r.agent, r.message)))];
      out := Response(200, ReplyAdded);
    }

    /**
     * `agent_reply`. A preflight `OPTIONS` request gets 204 and the preflight
     * headers. Otherwise, in this order: an absent or falsy body gives 400;
     * a body that is not a dict raises (500); a falsy agent email, process
     * code or message gives 400; then the reply is added as `AddReply` says.
     * Only a successful reply changes the collection.
     */
    method AgentReply(httpMethod: string, request: Option<Json>) returns (out: Response, cors: Cors)
      modifies this
      ensures old(NoRepeatedMessages()) ==> NoRepeatedMessages()
      ensures out.status != 200 ==> docs == old(docs)
      ensures httpMethod == "OPTIONS" ==> out == Response(204, "") && cors == Preflight
      ensures httpMethod != "OPTIONS" ==> cors == AnyOrigin
      ensures httpMethod != "OPTIONS" && (request.None? || !Truthy(request.value)) ==> out == Response(400, MissingBody)
      ensures httpMethod != "OPTIONS" && request.Some? && Truthy(request.value) && !request.value.JObj? ==>
        out == Response(500, NoGet(request.value))
      ensures httpMethod != "OPTIONS" && request.Some? && Truthy(request.value) && request.value.JObj? ==> (
        var r := ReplyRequestOf(request.value.members);
        (!ReplyComplete(r) ==> out == Response(400, MissingReplyFields)) &&
        (ReplyComplete(r) && !r.code.JStr? ==> out == Response(500, BadDocumentId)) &&
        (ReplyComplete(r) && r.code.JStr? && r.code.s !in old(docs) ==> out == Response(404, NoCodeConversation)) &&
        (ReplyComplete(r) && r.code.JStr? && r.code.s in old(docs) && old(docs)[r.code.s].assignedAgent != r.agent ==>
          out == Response(403, NotAssigned)) &&
        (ReplyComplete(r) && r.code.JStr? && r.code.s in old(docs) && old(docs)[r.code.s].assignedAgent == r.agent ==>
          out == Response(200, ReplyAdded) &&
          docs == old(docs)[r.code.s := old(docs)[r.code.s].(messages :=
            ArrayUnion(old(docs)[r.code.s].messages, AgentMessage(r.agent, r.message)))]))
    {
      if httpMethod == "OPTIONS" {
        return Response(204, ""), Preflight;
      }
      cors := AnyOrigin;
      if request.None? || !Truthy(request.value) {
        return Response(400, MissingBody), cors;
      }
      var body := request.value;
      if !body.JObj? {
        return Response(500, NoGet(body)), cors;
      }
      var r := ReplyRequestOf(body.members);
      if !Truthy(r.agent) || !Truthy(r.code) || !Truthy(r.message) {
        return Response(400, MissingReplyFields), cors;
      }
      out := AddReply(r);
    }
  }
}
