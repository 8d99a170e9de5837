/** The errors the session code raises, and the message format of
    `TransactionAborted`. */
module Exceptions {
  import opened JsValues
  import opened Engine

  const Prefix := "Transaction aborted ("
  const Infix := ") sessionId "

  /** How a template string shows a session id; an unset id shows as "undefined". */
  function ShowSessionId(sessionId: Option<string>): string {
    match sessionId
    case None => "undefined"
    case Some(s) => s
  }

  /** The message `TransactionAborted(message, sessionId)` carries. */
  function AbortedMessage(message: string, sessionId: Option<string>): (r: string)
    ensures |r| == |Prefix| + |message| + |Infix| + |ShowSessionId(sessionId)|
    ensures r[..|Prefix|] == Prefix
    ensures r[|Prefix|..|Prefix| + |message|] == message
    ensures r[|Prefix| + |message|..] == Infix + ShowSessionId(sessionId)
  {
    Prefix + message + Infix + ShowSessionId(sessionId)
  }

  /** Recovers the caller's message from a `TransactionAborted` text, given
      the session id it was raised for. */
  function MessageOf(text: string, sessionId: Option<string>): Option<string> {
    var suffix := Infix + ShowSessionId(sessionId);
    if |text| >= |Prefix| + |suffix|
       && text[..|Prefix|] == Prefix
       && text[|text| - |suffix|..] == suffix
    then Some(text[|Prefix|..|text| - |suffix|])
    else None
  }

  /** The caller's message can be read back from the text it produced. */
  lemma MessageOfAborted(message: string, sessionId: Option<string>)
    ensures MessageOf(AbortedMessage(message, sessionId), sessionId) == Some(message)
  {
  }

  /** Every text a message can be read back from is that message's text. */
  lemma AbortedMessageOf(text: string, sessionId: Option<string>)
    requires MessageOf(text, sessionId).Some?
    ensures AbortedMessage(MessageOf(text, sessionId).value, sessionId) == text
  {
  }

  /** For one session id, different caller messages give different texts. */
  lemma AbortedMessageInjective(m1: string, m2: string, sessionId: Option<string>)
    requires AbortedMessage(m1, sessionId) == AbortedMessage(m2, sessionId)
    ensures m1 == m2
  {
  }

  /** Once `params.sessionId` has been deleted the message ends in "sessionId undefined". */
  lemma UnsetSessionIdMessage(message: string)
    ensures var r := AbortedMessage(message, None);
      |r| >= 19 && r[|r| - 19..] == "sessionId undefined"
  {
  }

  /** The text a lookup of a torn-down session reports. */
  lemma TornDownLookupMessage()
    ensures AbortedMessage("getSessionObject: Session doesn't exist", None)
         == "Transaction aborted (" + "getSessionObject: Session doesn't exist" + ") sessionId undefined"
  {
  }

  datatype Error =
    | TransactionAborted(message: string)
    | EngineFailure(cause: EngineError)
    | NotFound(id: JsValue, path: string)  // "Can't find <id> in <path>"
    | TypeError                            // a property read on undefined

  /** `new TransactionAborted(message, sessionId)`. */
  function Aborted(message: string, sessionId: Option<string>): Error {
    TransactionAborted(AbortedMessage(message, sessionId))
  }

  datatype Result<+T> = Success(value: T) | Failure(error: Error)
}
