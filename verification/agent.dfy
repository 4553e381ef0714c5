/** `AICallingAgent.processUserInput`: the persona is chosen from the session
    type, the request holds the persona's instructions, the last eight context
    messages and the new input, and a failed model call is absorbed into a
    fixed apology. The HTTP call is a parameter of the model. */
module Agent {
  import opened Common
  import Correction

  /** The three system prompts, one per persona; their wording is not modelled. */
  datatype Persona = GrammarTutor | PronunciationCoach | PracticePartner

  /** The role of a chat message the model receives. */
  datatype Role = UserRole | AssistantRole

  /** A request message: the system prompt, or one chat entry. */
  datatype Message = Instructions(persona: Persona) | Chat(role: Role, content: string)

  /** What the language-model endpoint gives back for a request. */
  datatype ModelReply = Reply(text: string) | Failure

  /** What `processUserInput` returns: the reply text and whether the call failed. */
  datatype AgentReply = AgentReply(response: string, error: bool)

  /** How many prior messages are kept (`context.slice(-8)`). */
  const ContextWindow: nat := 8

  /** The reply given when the model call fails. It is written in pieces so
      that checking it holds no double quote stays cheap; together they are
      the one sentence of the source. */
  const FallbackReply: string :=
    "I'm sorry, I'm having " + "trouble processing that. " + "Could you please repeat " + "or rephrase?"

  /** The `switch (sessionType)`: two named types, everything else the default. */
  function PersonaFor(sessionType: string): (p: Persona)
    ensures p == GrammarTutor <==> sessionType == "grammar_lesson"
    ensures p == PronunciationCoach <==> sessionType == "pronunciation"
    ensures p == PracticePartner <==> sessionType != "grammar_lesson" && sessionType != "pronunciation"
  {
    if sessionType == "grammar_lesson" then GrammarTutor
    else if sessionType == "pronunciation" then PronunciationCoach
    else PracticePartner
  }

  /** `Array.prototype.slice(-n)` for a positive n (the source uses n = 8):
      the last min(n, |s|) elements, in order. */
  function LastN<T>(s: seq<T>, n: nat): (r: seq<T>)
    requires n > 0
    ensures |r| == Min(n, |s|)
    ensures forall i :: 0 <= i < |r| ==> r[i] == s[|s| - |r| + i]
  {
    if |s| <= n then s else s[|s| - n..]
  }

  /** The `messages` array sent upstream. */
  function BuildMessages(userInput: string, context: seq<Message>, sessionType: string): seq<Message> {
    [Instructions(PersonaFor(sessionType))] + LastN(context, ContextWindow) + [Chat(UserRole, userInput)]
  }

  /** The request is the persona's prompt, then the last min(8, |context|)
      context messages in their original order, then the user's input; so it
      never holds more than ten messages. */
  lemma BuildMessagesSpec(userInput: string, context: seq<Message>, sessionType: string)
    ensures var ms := BuildMessages(userInput, context, sessionType);
      && |ms| == Min(ContextWindow, |context|) + 2
      && |ms| <= 10
      && ms[0] == Instructions(PersonaFor(sessionType))
      && ms[|ms| - 1] == Chat(UserRole, userInput)
      && forall i :: 1 <= i < |ms| - 1 ==> ms[i] == context[|context| - |ms| + 1 + i]
  {
    var w := LastN(context, ContextWindow);
    var ms := BuildMessages(userInput, context, sessionType);
    assert ms == [Instructions(PersonaFor(sessionType))] + w + [Chat(UserRole, userInput)];
    forall i | 1 <= i < |ms| - 1 ensures ms[i] == context[|context| - |ms| + 1 + i] {
      assert ms[i] == w[i - 1];
    }
  }

  /** The role a stored entry gets in the context: 'user' stays the user,
      anything else becomes the assistant. */
  function RoleOf(s: Speaker): (r: Role)
    ensures r == UserRole <==> s == UserSpeaker
  {
    if s == UserSpeaker then UserRole else AssistantRole
  }

  /** `session.conversation.map(...)`: the conversation as request messages. */
  function ContextOf(conversation: seq<Turn>): (ctx: seq<Message>)
    ensures |ctx| == |conversation|
    ensures forall i :: 0 <= i < |ctx| ==> ctx[i] == Chat(RoleOf(conversation[i].speaker), conversation[i].message)
  {
    seq(|conversation|, i requires 0 <= i < |conversation| =>
      Chat(RoleOf(conversation[i].speaker), conversation[i].message))
  }

  /** `processUserInput(userInput, context, sessionType)`, with the endpoint as `callModel`. */
  function ProcessUserInput(userInput: string, context: seq<Message>, sessionType: string,
                            callModel: seq<Message> -> ModelReply): (r: AgentReply)
    ensures r.error <==> callModel(BuildMessages(userInput, context, sessionType)).Failure?
    ensures !r.error ==> r.response == callModel(BuildMessages(userInput, context, sessionType)).text
    ensures r.error ==> r.response == FallbackReply
  {
    match callModel(BuildMessages(userInput, context, sessionType))
    case Reply(text) => AgentReply(text, false)
    case Failure => AgentReply(FallbackReply, true)
  }

  /** The apology matches none of the correction patterns, so a failed model
      call never yields a correction. */
  lemma FallbackHasNoCorrection(userInput: string)
    ensures !Correction.Extract(FallbackReply, userInput).hasCorrection
  {
    Correction.NoQuoteNoCorrection(FallbackReply, userInput);
  }

  /** The request built for a stored conversation of n entries is the
      persona's prompt, the messages of the last min(8, n) entries (each with
      its speaker mapped to a role, oldest first) and the new input; with
      twenty stored entries these are entries 12 to 19. */
  lemma RequestForConversation(userInput: string, conversation: seq<Turn>, sessionType: string)
    ensures BuildMessages(userInput, ContextOf(conversation), sessionType)
         == [Instructions(PersonaFor(sessionType))] + ContextOf(LastN(conversation, ContextWindow)) + [Chat(UserRole, userInput)]
  {
    LastOfContext(conversation, ContextWindow);
  }

  /** Mapping the conversation to messages and then keeping the last k is the
      same as keeping the last k entries and then mapping them. */
  lemma LastOfContext(conversation: seq<Turn>, k: nat)
    requires k > 0
    ensures LastN(ContextOf(conversation), k) == ContextOf(LastN(conversation, k))
  {
    var n := |conversation|;
    var c := ContextOf(conversation);
    var l := LastN(conversation, k);
    if k < n {
      assert l == conversation[n - k..];
      var a := c[n - k..];
      var b := ContextOf(l);
      forall i | 0 <= i < k ensures a[i] == b[i] {
        assert a[i] == c[n - k + i];
        assert l[i] == conversation[n - k + i];
      }
      assert a == b;
    }
  }
}
