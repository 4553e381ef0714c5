/** Shared value types of the tutoring backend: optional values, handler
    results, and the records stored inside a call session. */
module Common {

  datatype Option<+T> = None | Some(value: T)

  /** The outcome of a route handler: a JSON body, or an error message sent
      with a client-error status. */
  datatype Result<+T> = Ok(value: T) | Err(message: string)

  /** Times are integer milliseconds since the epoch, as JavaScript Date values. */
  type Timestamp = int

  type UserId = nat
  type SessionId = nat

  /** The body the session handlers return for a missing or foreign session. */
  const SessionNotFound: string := "Session not found"

  /** Who spoke a conversation entry; the handlers store 'user' or 'ai'. */
  datatype Speaker = UserSpeaker | AiSpeaker

  /** The correction detail embedded in a user entry. */
  datatype CorrectionData = CorrectionData(original: string, corrected: string, explanation: string)

  /** One entry of `conversation`. */
  datatype Turn = Turn(speaker: Speaker, message: string, hasCorrection: bool, correctionData: Option<CorrectionData>)

  /** One entry of `mistakes`. */
  datatype Mistake = Mistake(original: string, corrected: string, mistakeType: string, context: string, timestamp: Timestamp)

  /** The persisted form of a call session, as the dashboard reads it. */
  datatype SessionDoc = SessionDoc(
    id: SessionId,
    userId: UserId,
    callType: string,
    sessionType: string,
    startTime: Timestamp,
    endTime: Option<Timestamp>,
    duration: Option<int>,
    conversation: seq<Turn>,
    mistakes: seq<Mistake>,
    overallScore: Option<real>,
    feedback: Option<string>)

  function Min(a: int, b: int): int { if a <= b then a else b }

  /** Number of entries spoken by the user. */
  function UserTurns(conversation: seq<Turn>): (n: nat)
    ensures n <= |conversation|
  {
    if conversation == [] then 0
    else UserTurns(conversation[..|conversation| - 1])
         + (if conversation[|conversation| - 1].speaker == UserSpeaker then 1 else 0)
  }

  /** The count is additive: the user entries of two stretches of a
      conversation add up. */
  lemma {:induction false} UserTurnsAppend(a: seq<Turn>, b: seq<Turn>)
    ensures UserTurns(a + b) == UserTurns(a) + UserTurns(b)
  {
    if b == [] {
      assert a + b == a;
    } else {
      assert (a + b)[..|a + b| - 1] == a + b[..|b| - 1];
      UserTurnsAppend(a, b[..|b| - 1]);
    }
  }

  /** A single entry counts one exactly when the user spoke it. */
  lemma UserTurnsSingle(t: Turn)
    ensures UserTurns([t]) == if t.speaker == UserSpeaker then 1 else 0
  {
    assert [t][..0] == [];
  }
}
