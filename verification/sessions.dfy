/** The call-session handlers `/start`, `/process` and `/end`: a store of
    session objects updated in place, and the caller's account counters. */
module Sessions {
  import opened Common
  import Correction
  import Agent
  import Scoring

  // ---------------------------------------------------------------------
  // What a session's history looks like

  /** The part of a mistake that comes from the conversation (all but its time). */
  datatype MistakeKey = MistakeKey(original: string, corrected: string, mistakeType: string, context: string)

  function KeyOf(m: Mistake): MistakeKey {
    MistakeKey(m.original, m.corrected, m.mistakeType, m.context)
  }

  function KeysOf(ms: seq<Mistake>): (ks: seq<MistakeKey>)
    ensures |ks| == |ms|
  {
    if ms == [] then [] else KeysOf(ms[..|ms| - 1]) + [KeyOf(ms[|ms| - 1])]
  }

  /** The keys are the mistakes' keys, position by position. */
  lemma {:induction false} KeysOfAt(ms: seq<Mistake>)
    ensures forall i :: 0 <= i < |ms| ==> KeysOf(ms)[i] == KeyOf(ms[i])
  {
    if ms != [] {
      KeysOfAt(ms[..|ms| - 1]);
    }
  }

  /** The mistakes the user entries of a conversation call for, in order. */
  function Recorded(conversation: seq<Turn>): seq<MistakeKey> {
    if conversation == [] then []
    else
      var t := conversation[|conversation| - 1];
      Recorded(conversation[..|conversation| - 1])
      + (if t.speaker == UserSpeaker && t.correctionData.Some?
         then [MistakeKey(t.correctionData.value.original, t.correctionData.value.corrected, "grammar", t.message)]
         else [])
  }

  /** An entry as `/process` writes it: the flag agrees with the detail, only
      user entries carry one, and its original text is the entry's message. */
  predicate EntryShape(t: Turn) {
    && t.hasCorrection == t.correctionData.Some?
    && (t.speaker == AiSpeaker ==> !t.hasCorrection)
    && (t.correctionData.Some? ==> t.correctionData.value.original == t.message)
  }

  /** User and AI entries alternate, starting with the user, in pairs. */
  ghost predicate Alternates(conversation: seq<Turn>) {
    && |conversation| % 2 == 0
    && forall i :: 0 <= i < |conversation| ==>
         && conversation[i].speaker == (if i % 2 == 0 then UserSpeaker else AiSpeaker)
         && EntryShape(conversation[i])
  }

  /** The session invariant: the conversation is a sequence of exchanges and
      the mistakes are exactly the corrections recorded in it, in order. */
  ghost predicate Consistent(conversation: seq<Turn>, mistakes: seq<Mistake>) {
    Alternates(conversation) && KeysOf(mistakes) == Recorded(conversation)
  }

  lemma {:induction false} RecordedAtMostUserTurns(conversation: seq<Turn>)
    ensures |Recorded(conversation)| <= UserTurns(conversation)
  {
    if conversation != [] {
      RecordedAtMostUserTurns(conversation[..|conversation| - 1]);
    }
  }

  /** The invariant bounds the mistakes by the user entries. */
  lemma MistakesAtMostUserTurns(conversation: seq<Turn>, mistakes: seq<Mistake>)
    requires Consistent(conversation, mistakes)
    ensures |mistakes| <= UserTurns(conversation)
  {
    RecordedAtMostUserTurns(conversation);
  }

  /** In a consistent conversation half of the entries are the user's. */
  lemma {:induction false} HalfAreUserTurns(conversation: seq<Turn>)
    requires Alternates(conversation)
    ensures UserTurns(conversation) * 2 == |conversation|
    decreases |conversation|
  {
    var n := |conversation|;
    if n > 0 {
      var front := conversation[..n - 2];
      assert Alternates(front) by {
        forall i | 0 <= i < |front|
          ensures front[i].speaker == (if i % 2 == 0 then UserSpeaker else AiSpeaker) && EntryShape(front[i])
        {
          assert front[i] == conversation[i];
        }
      }
      HalfAreUserTurns(front);
      assert conversation[..n - 1][..n - 2] == front;
      assert conversation[n - 1].speaker == AiSpeaker;
      assert conversation[n - 2].speaker == UserSpeaker;
    }
  }

  /** The user entry `/process` pushes. */
  function UserEntry(message: string, c: Correction.CorrectionResult): Turn {
    Turn(UserSpeaker, message, c.hasCorrection, Detail(c))
  }

  /** The correction detail of a result, present exactly when there is a correction. */
  function Detail(c: Correction.CorrectionResult): Option<CorrectionData> {
    if c.hasCorrection && c.corrected.Some? && c.explanation.Some?
    then Some(CorrectionData(c.original, c.corrected.value, c.explanation.value))
    else None
  }

  /** The AI entry `/process` pushes. */
  function AiEntry(reply: string): Turn {
    Turn(AiSpeaker, reply, false, None)
  }

  /** The mistakes `/process` pushes: one when there is a correction. */
  function NewMistakes(message: string, c: Correction.CorrectionResult, now: Timestamp): seq<Mistake> {
    if c.hasCorrection && c.corrected.Some?
    then [Mistake(c.original, c.corrected.value, "grammar", message, now)]
    else []
  }

  /** `KeysOf` distributes over concatenation: appended mistakes add their
      keys after the old ones, in order. */
  lemma {:induction false} KeysOfAppend(ms: seq<Mistake>, extra: seq<Mistake>)
    ensures KeysOf(ms + extra) == KeysOf(ms) + KeysOf(extra)
    decreases |extra|
  {
    if extra == [] {
      assert ms + extra == ms;
    } else {
      var front := extra[..|extra| - 1];
      assert (ms + extra)[..|ms + extra| - 1] == ms + front;
      KeysOfAppend(ms, front);
    }
  }

  /** One exchange of `/process` keeps the invariant: two entries and, with a
      correction, the one mistake it calls for. */
  lemma ExchangeKeepsConsistent(conversation: seq<Turn>, mistakes: seq<Mistake>,
                                message: string, reply: string, now: Timestamp)
    requires Consistent(conversation, mistakes)
    ensures var c := Correction.Extract(reply, message);
      Consistent(conversation + [UserEntry(message, c), AiEntry(reply)], mistakes + NewMistakes(message, c, now))
  {
    var c := Correction.Extract(reply, message);
    var u, a := UserEntry(message, c), AiEntry(reply);
    var conv' := conversation + [u, a];
    var n := |conversation|;
    assert conv'[..n + 1][..n] == conversation;
    assert conv'[..n + 1] == conversation + [u];
    assert conv'[n + 1] == a;
    assert Recorded(conv') == Recorded(conversation + [u]);
    KeysOfAppend(mistakes, NewMistakes(message, c, now));
    assert Alternates(conv') by {
      forall i | 0 <= i < |conv'|
        ensures conv'[i].speaker == (if i % 2 == 0 then UserSpeaker else AiSpeaker) && EntryShape(conv'[i])
      {
        if i < n { assert conv'[i] == conversation[i]; }
      }
    }
  }

  // ---------------------------------------------------------------------
  // Handler replies

  datatype StartReply = StartReply(sessionId: SessionId, message: string, callType: string, sessionType: string)
  datatype ProcessReply = ProcessReply(response: string, hasCorrection: bool, correction: Option<CorrectionData>)
  datatype EndReply = EndReply(message: string, duration: int, mistakesCount: nat, overallScore: real, feedback: string)

  // ---------------------------------------------------------------------
  // State

  /** The caller's user record; only its two counters are touched here. */
  class Account {
    const id: UserId
    var totalCalls: nat
    var totalCallDuration: int

    constructor (id: UserId)
      ensures this.id == id && totalCalls == 0 && totalCallDuration == 0
    {
      this.id := id;
      totalCalls := 0;
      totalCallDuration := 0;
    }
  }

  /** A stored call session; the handlers update its fields in place. */
  class CallSession {
    const id: SessionId
    const userId: UserId
    const callType: string
    const sessionType: string
    const startTime: Timestamp
    var endTime: Option<Timestamp>
    var duration: Option<int>
    var conversation: seq<Turn>
    var mistakes: seq<Mistake>
    var overallScore: Option<real>
    var feedback: Option<string>

    ghost predicate Valid()
      reads this
    {
      Consistent(conversation, mistakes)
    }

    /** The document as persisted. */
    function Doc(): (d: SessionDoc)
      reads this
      ensures d.id == id && d.userId == userId && d.conversation == conversation && d.mistakes == mistakes
    {
      SessionDoc(id, userId, callType, sessionType, startTime, endTime, duration,
                 conversation, mistakes, overallScore, feedback)
    }

    constructor (id: SessionId, userId: UserId, callType: string, sessionType: string, startTime: Timestamp)
      ensures Valid()
      ensures this.id == id && this.userId == userId && this.callType == callType
      ensures this.sessionType == sessionType && this.startTime == startTime
      ensures endTime.None? && duration.None? && overallScore.None? && feedback.None?
      ensures conversation == [] && mistakes == []
    {
      this.id := id;
      this.userId := userId;
      this.callType := callType;
      this.sessionType := sessionType;
      this.startTime := startTime;
      endTime, duration, overallScore, feedback := None, None, None, None;
      conversation, mistakes := [], [];
    }

    /** The pushes of `/process`: the user entry, the AI entry, and the
        mistake when the reply carries a correction. */
    method AddExchange(message: string, reply: string, c: Correction.CorrectionResult, now: Timestamp)
      requires Valid() && c == Correction.Extract(reply, message)
      modifies this
      ensures Valid()
      ensures conversation == old(conversation) + [UserEntry(message, c), AiEntry(reply)]
      ensures mistakes == old(mistakes) + NewMistakes(message, c, now)
      ensures endTime == old(endTime) && duration == old(duration)
      ensures overallScore == old(overallScore) && feedback == old(feedback)
    {
      ghost var conversation', mistakes' :=
        conversation + [UserEntry(message, c), AiEntry(reply)], mistakes + NewMistakes(message, c, now);
      ExchangeKeepsConsistent(conversation, mistakes, message, reply, now);
      conversation := conversation + [UserEntry(message, c)];
      conversation := conversation + [AiEntry(reply)];
      if c.hasCorrection {
        mistakes := mistakes + [Mistake(c.original, c.corrected.value, "grammar", message, now)];
      }
      assert conversation == conversation' && mistakes == mistakes';
    }

    /** The assignments of `/end`: end time, whole-second duration, score and
        feedback, computed from the history, which stays as it is. */
    method Finish(now: Timestamp) returns (d: int)
      requires Valid()
      modifies this
      ensures Valid()
      ensures d == Scoring.ElapsedSeconds(startTime, now)
      ensures conversation == old(conversation) && mistakes == old(mistakes)
      ensures endTime == Some(now) && duration == Some(d)
      ensures overallScore == Some(Scoring.Score(conversation, mistakes))
      ensures feedback == Some(Scoring.Feedback(mistakes))
    {
      endTime := Some(now);
      d := Scoring.ElapsedSeconds(startTime, now);
      duration := Some(d);
      overallScore := Some(Scoring.Score(conversation, mistakes));
      feedback := Some(Scoring.Feedback(mistakes));
    }
  }

  /** The session collection: sessions by id, and the next id to hand out. */
  class CallService {
    var sessions: map<SessionId, CallSession>
    var nextId: SessionId

    ghost predicate Valid()
      reads this, sessions.Values
    {
      forall id :: id in sessions ==> sessions[id].id == id && id < nextId && sessions[id].Valid()
    }

    constructor ()
      ensures Valid() && sessions == map[]
    {
      sessions := map[];
      nextId := 0;
    }

    /** The ownership check: the session exists and belongs to the caller. */
    predicate Owns(callerId: UserId, sessionId: SessionId)
      reads this, sessions.Values
    {
      sessionId in sessions && sessions[sessionId].userId == callerId
    }

    /** `/start`: a new empty session owned by the caller, and one more call
        on the caller's record. */
    method Start(caller: Account, callType: Option<string>, sessionType: Option<string>, now: Timestamp)
      returns (reply: StartReply)
      requires Valid()
      modifies this, caller
      ensures Valid()
      ensures reply.sessionId !in old(sessions)
      ensures sessions.Keys == old(sessions).Keys + {reply.sessionId}
      ensures forall id :: id in old(sessions) ==> sessions[id] == old(sessions)[id]
      ensures reply.callType == (if callType.Some? then callType.value else "voice")
      ensures reply.sessionType == (if sessionType.Some? then sessionType.value else "free_conversation")
      ensures reply.message == "Call session started"
      ensures var s := sessions[reply.sessionId];
        && fresh(s)
        && s.userId == caller.id && s.callType == reply.callType && s.sessionType == reply.sessionType
        && s.startTime == now && s.conversation == [] && s.mistakes == []
        && s.endTime.None? && s.duration.None? && s.overallScore.None? && s.feedback.None?
      ensures caller.totalCalls == old(caller.totalCalls) + 1
      ensures caller.totalCallDuration == old(caller.totalCallDuration)
    {
      var ct := if callType.Some? then callType.value else "voice";
      var st := if sessionType.Some? then sessionType.value else "free_conversation";
      var s := new CallSession(nextId, caller.id, ct, st, now);
      sessions := sessions[nextId := s];
      reply := StartReply(nextId, "Call session started", ct, st);
      nextId := nextId + 1;
      caller.totalCalls := caller.totalCalls + 1;
    }

    /** `/process`: for an owned session, one exchange with the model is
        appended, with a mistake when the reply carries a correction; for a
        missing or foreign session, "Session not found" and nothing changes. */
    method Process(caller: Account, sessionId: SessionId, message: string, now: Timestamp,
                   callModel: seq<Agent.Message> -> Agent.ModelReply)
      returns (r: Result<ProcessReply>)
      requires Valid()
      modifies if sessionId in sessions then {sessions[sessionId]} else {}
      ensures Valid()
      ensures r.Err? <==> !old(Owns(caller.id, sessionId))
      ensures r.Err? ==> r.message == SessionNotFound
      ensures r.Err? && sessionId in sessions ==> unchanged(sessions[sessionId])
      ensures r.Ok? ==>
        var s := sessions[sessionId];
        var reply := Agent.ProcessUserInput(message, Agent.ContextOf(old(s.conversation)), s.sessionType, callModel).response;
        var c := Correction.Extract(reply, message);
        && s.conversation == old(s.conversation) + [UserEntry(message, c), AiEntry(reply)]
        && s.mistakes == old(s.mistakes) + NewMistakes(message, c, now)
        && s.endTime == old(s.endTime) && s.duration == old(s.duration)
        && s.overallScore == old(s.overallScore) && s.feedback == old(s.feedback)
        && r.value == ProcessReply(reply, c.hasCorrection, Detail(c))
    {
      if !(sessionId in sessions && sessions[sessionId].userId == caller.id) {
        return Err(SessionNotFound);
      }
      var s := sessions[sessionId];
      var context := Agent.ContextOf(s.conversation);
      var ai := Agent.ProcessUserInput(message, context, s.sessionType, callModel);
      var c := Correction.ExtractCorrection(ai.response, message);
      s.AddExchange(message, ai.response, c, now);
      assert forall id :: id in sessions ==> sessions[id].Valid();
      r := Ok(ProcessReply(ai.response, c.hasCorrection, Detail(c)));
    }

    /** `/end`: for an owned session, the end time, whole-second duration,
        score and feedback are (re)written and the duration is added to the
        caller's total; an earlier end is not checked. For a missing or foreign
        session, "Session not found" and nothing changes. */
    method End(caller: Account, sessionId: SessionId, now: Timestamp) returns (r: Result<EndReply>)
      requires Valid()
      modifies (if sessionId in sessions then {sessions[sessionId]} else {}), caller
      ensures Valid()
      ensures r.Err? <==> !old(Owns(caller.id, sessionId))
      ensures r.Err? ==> r.message == SessionNotFound && unchanged(caller)
      ensures r.Err? && sessionId in sessions ==> unchanged(sessions[sessionId])
      ensures r.Ok? ==>
        var s := sessions[sessionId];
        var d := Scoring.ElapsedSeconds(s.startTime, now);
        && s.conversation == old(s.conversation) && s.mistakes == old(s.mistakes)
        && s.endTime == Some(now)
        && s.duration == Some(d)
        && s.overallScore == Some(Scoring.Score(s.conversation, s.mistakes))
        && s.feedback == Some(Scoring.Feedback(s.mistakes))
        && caller.totalCallDuration == old(caller.totalCallDuration) + d
        && caller.totalCalls == old(caller.totalCalls)
        && r.value == EndReply("Call session ended", d, |s.mistakes|,
                               Scoring.Score(s.conversation, s.mistakes), Scoring.Feedback(s.mistakes))
    {
      if !(sessionId in sessions && sessions[sessionId].userId == caller.id) {
        return Err(SessionNotFound);
      }
      var s := sessions[sessionId];
      var d := s.Finish(now);
      caller.totalCallDuration := caller.totalCallDuration + d;
      assert forall id :: id in sessions ==> sessions[id].Valid();
      r := Ok(EndReply("Call session ended", d, |s.mistakes|,
                       Scoring.Score(s.conversation, s.mistakes), Scoring.Feedback(s.mistakes)));
    }

    /** Every stored session has at most as many mistakes as user entries, so
        its score lies in [0, 100]; the document it is persisted as, which the
        dashboard reads, is filed under its id and has the same bound. */
    lemma MistakesBounded(sessionId: SessionId)
      requires Valid() && sessionId in sessions
      ensures |sessions[sessionId].mistakes| <= UserTurns(sessions[sessionId].conversation)
      ensures 0.0 <= Scoring.Score(sessions[sessionId].conversation, sessions[sessionId].mistakes) <= 100.0
      ensures var d := sessions[sessionId].Doc();
        && d.id == sessionId
        && |d.mistakes| <= UserTurns(d.conversation)
    {
      var s := sessions[sessionId];
      MistakesAtMostUserTurns(s.conversation, s.mistakes);
      Scoring.ScoreIsCleanPercentage(s.conversation, s.mistakes);
    }
  }
}
