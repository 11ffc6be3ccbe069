/** The handshake middleware of the log server: a connecting socket must
    present a truthy `channel` claim and pass the `isAuthorized` predicate.
    The predicate is user code, so its outcome is an input here: the value it
    returned (or its promise resolved to), or the error it threw (or its
    promise rejected with). */
module Admission {
  import opened Wrappers
  import opened Types

  datatype AuthOutcome = Returned(value: JsValue) | Threw(error: JsValue)

  /** The two errors a refused client can observe. */
  datatype RejectReason = Unauthorized | InternalServerError

  /** The message of the `Error` handed to `next`. */
  function ReasonMessage(r: RejectReason): string {
    match r
    case Unauthorized => "Unauthorized"
    case InternalServerError => "Internal server error"
  }

  /** A refused client can tell "rejected by policy" from "the check crashed". */
  lemma ReasonsDistinguishable()
    ensures ReasonMessage(Unauthorized) != ReasonMessage(InternalServerError)
  {
  }

  /** The default `isAuthorized`: always true. */
  function DefaultIsAuthorized(): AuthOutcome {
    Returned(Bool(true))
  }

  /** The middleware's verdict: the reason it refuses the socket with, or None
      when it refuses nothing. A falsy claim short-circuits the `||`, so the
      predicate's outcome is then never looked at. */
  function Admit(claim: JsValue, outcome: AuthOutcome): (r: Option<RejectReason>)
    ensures r == None <==> Truthy(claim) && outcome.Returned? && Truthy(outcome.value)
    ensures r == Some(InternalServerError) <==> Truthy(claim) && outcome.Threw?
    ensures !Truthy(claim) ==> r == Some(Unauthorized)
  {
    if !Truthy(claim) then Some(Unauthorized)
    else match outcome
      case Threw(_) => Some(InternalServerError)
      case Returned(v) => if Truthy(v) then None else Some(Unauthorized)
  }

  /** Without a claim the predicate does not matter: every outcome gives the
      same refusal. */
  lemma MissingClaimIgnoresPredicate(claim: JsValue, o1: AuthOutcome, o2: AuthOutcome)
    requires !Truthy(claim)
    ensures Admit(claim, o1) == Admit(claim, o2) == Some(Unauthorized)
  {
  }

  /** With the default predicate, any truthy claim is refused nothing. */
  lemma DefaultPredicateRefusesNothing(claim: JsValue)
    requires Truthy(claim)
    ensures Admit(claim, DefaultIsAuthorized()) == None
  {
  }

  /** A call the middleware makes to `next`: without an argument (let the
      connection proceed) or with an error (refuse it). */
  datatype NextCall = Proceed | Refuse(reason: RejectReason)

  /** The calls to `next` as the middleware is written: one on refusal, and
      none at all when the socket passes. */
  function NextCallsAsWritten(claim: JsValue, outcome: AuthOutcome): (calls: seq<NextCall>)
    ensures |calls| <= 1
    ensures calls == [] <==> Admit(claim, outcome) == None
    ensures forall c :: c in calls ==> c.Refuse?
  {
    match Admit(claim, outcome)
    case Some(reason) => [Refuse(reason)]
    case None => []
  }

  /** The socket library lets a connection through only once a middleware
      calls `next()` without an error, and refuses it on `next(err)`; with no
      call at all the handshake never completes. As written, a client with a
      claim and the default predicate is never let through. */
  lemma AsWrittenAdmittedClientHangs()
    ensures NextCallsAsWritten(Str("app"), DefaultIsAuthorized()) == []
    ensures Proceed !in NextCallsAsWritten(Str("app"), DefaultIsAuthorized())
  {
  }

  /** The evidently intended middleware: exactly one call to `next` on every
      path, `next()` exactly when nothing is refused. */
  function NextCalls(claim: JsValue, outcome: AuthOutcome): (calls: seq<NextCall>)
    ensures |calls| == 1
    ensures calls[0] == Proceed <==> Admit(claim, outcome) == None
    ensures calls[0].Refuse? ==> Some(calls[0].reason) == Admit(claim, outcome)
  {
    match Admit(claim, outcome)
    case Some(reason) => [Refuse(reason)]
    case None => [Proceed]
  }

  /** The connection goes through. */
  predicate Proceeds(claim: JsValue, outcome: AuthOutcome) {
    NextCalls(claim, outcome) == [Proceed]
  }

  /** The corrected middleware differs from the written one only by the
      missing `next()`: the refusals are the same. */
  lemma CorrectionKeepsRefusals(claim: JsValue, outcome: AuthOutcome)
    ensures Admit(claim, outcome).Some? ==> NextCalls(claim, outcome) == NextCallsAsWritten(claim, outcome)
    ensures Admit(claim, outcome).None? ==> NextCalls(claim, outcome) == NextCallsAsWritten(claim, outcome) + [Proceed]
    ensures Proceeds(claim, outcome) <==> Truthy(claim) && outcome.Returned? && Truthy(outcome.value)
  {
  }
}
