/**
 * What one `sendMessage` request can come back with, and how the client reads it:
 * acknowledged, certainly not delivered, or unknown.
 */
module TelegramTransport {
  import opened Wrappers

  /** A thrown value and its `cause` chain. */
  datatype Cause = NoCause | Threw(name: string, code: Option<string>, cause: Cause)

  const NEVER_SENT_ERROR_CODES: set<string> :=
    {"ENOTFOUND", "EAI_AGAIN", "ECONNREFUSED", "EHOSTUNREACH", "ENETUNREACH", "ENETDOWN"}

  const MAX_CAUSE_DEPTH := 5

  predicate IsTimeout(c: Cause)
    requires c.Threw?
  {
    c.name == "AbortError" || c.name == "TimeoutError"
  }

  predicate NeverOpened(c: Cause)
    requires c.Threw?
  {
    c.code.Some? && c.code.value in NEVER_SENT_ERROR_CODES
  }

  /** The cause chain as a list, outermost error first. */
  function Chain(c: Cause): seq<Cause> {
    match c
    case NoCause => []
    case Threw(_, _, inner) => [c] + Chain(inner)
  }

  lemma ChainIsThrown(c: Cause)
    ensures forall i :: 0 <= i < |Chain(c)| ==> Chain(c)[i].Threw?
  {
  }

  /**
   * Some error among the outermost five carries a never-sent code, and neither it nor
   * any error wrapped around it is this client's own timeout.
   */
  predicate ProvablyUndelivered(c: Cause) {
    ChainIsThrown(c);
    var chain := Chain(c);
    exists k :: 0 <= k < |chain| && k < MAX_CAUSE_DEPTH && NeverOpened(chain[k])
                && forall j :: 0 <= j <= k ==> !IsTimeout(chain[j])
  }

  lemma ChainStep(c: Cause, i: nat)
    requires i < |Chain(c)|
    ensures Chain(c)[i].Threw?
    ensures Chain(c)[i..] == Chain(Chain(c)[i])
    ensures Chain(c)[i + 1..] == Chain(Chain(c)[i].cause)
  {
    ChainIsThrown(c);
    if i > 0 {
      ChainStep(c.cause, i - 1);
      assert Chain(c)[i..] == Chain(c.cause)[i - 1..];
      assert Chain(c)[i + 1..] == Chain(c.cause)[i..];
    }
  }

  /** The cause-chain walk, level by level. */
  method IsCertainlyUndelivered(cause: Cause) returns (undelivered: bool)
    ensures undelivered <==> ProvablyUndelivered(cause)
  {
    ChainIsThrown(cause);
    ghost var chain := Chain(cause);
    var current := cause;
    var depth := 0;
    while current != NoCause && depth < MAX_CAUSE_DEPTH
      invariant 0 <= depth <= |chain| && depth <= MAX_CAUSE_DEPTH
      invariant chain[depth..] == Chain(current)
      invariant forall j :: 0 <= j < depth ==> !IsTimeout(chain[j]) && !NeverOpened(chain[j])
      decreases MAX_CAUSE_DEPTH - depth
    {
      assert chain[depth] == chain[depth..][0] == current;
      if IsTimeout(current) {
        return false;
      }
      if NeverOpened(current) {
        return true;
      }
      ChainStep(cause, depth);
      current := current.cause;
      depth := depth + 1;
    }
    assert current == NoCause ==> |chain[depth..]| == 0;
    return false;
  }

  /** A JSON acknowledgement, as far as the client looks into it. */
  datatype Body = Unparseable | Parsed(okTrue: bool, messageId: Option<int>)

  /** `FetchThrew` covers a failed request and a failed read of the response body. */
  datatype Fetched = FetchThrew(cause: Cause) | Responded(status: int, body: Body)

  datatype SendResult = Acknowledged(messageId: int) | NotSent(uncertain: bool)

  datatype Reading = TryAgain | Final(result: SendResult)

  predicate IsOk(status: int) {
    200 <= status < 300
  }

  /** Answers the client takes as proof that nothing reached the chat. */
  predicate ProvesUndelivered(f: Fetched) {
    match f
    case FetchThrew(cause) => ProvablyUndelivered(cause)
    case Responded(status, _) => !IsOk(status) && status < 500
  }

  /** Answers the client takes as an acknowledgement. */
  predicate ProvesDelivered(f: Fetched) {
    f.Responded? && IsOk(f.status) && f.body.Parsed? && f.body.okTrue && f.body.messageId.Some?
  }

  /**
   * What the client assumes of an answer to a request issued when the chat held `asked`
   * messages: read as "not delivered" only if nothing arrived, as acknowledged only if it did.
   */
  predicate Honest(f: Fetched, asked: nat, received: nat) {
    && (ProvesUndelivered(f) ==> received == asked)
    && (ProvesDelivered(f) ==> received > asked)
  }

  /** Answers after which the client may ask again. */
  ghost predicate Retryable(f: Fetched) {
    match f
    case FetchThrew(cause) => ProvablyUndelivered(cause)
    case Responded(status, _) => status == 429
  }

  ghost function Read(f: Fetched, retriesLeft: bool): Reading {
    if Retryable(f) && retriesLeft then TryAgain
    else if ProvesDelivered(f) then Final(Acknowledged(f.body.messageId.value))
    else Final(NotSent(!ProvesUndelivered(f)))
  }

  /** The branches of one iteration of the retry loop, after the request has come back. */
  method ReadAnswer(f: Fetched, retriesLeft: bool) returns (r: Reading)
    ensures r == Read(f, retriesLeft)
  {
    match f {
      case FetchThrew(cause) =>
        var undelivered := IsCertainlyUndelivered(cause);
        if undelivered {
          if retriesLeft {
            return TryAgain;
          }
          return Final(NotSent(false));
        }
        return Final(NotSent(true));
      case Responded(status, body) =>
        if status == 429 {
          if retriesLeft {
            return TryAgain;
          }
          return Final(NotSent(false));
        }
        if !IsOk(status) {
          return Final(NotSent(status >= 500));
        }
        if body.Unparseable? || !body.okTrue || body.messageId.None? {
          return Final(NotSent(true));
        }
        return Final(Acknowledged(body.messageId.value));
    }
  }

  /** The errors that occur before anything is sent: no address, no route, no listener. */
  ghost predicate BeforeSending(code: Option<string>) {
    || code == Some("ENOTFOUND") || code == Some("EAI_AGAIN")
    || code == Some("ECONNREFUSED") || code == Some("EHOSTUNREACH")
    || code == Some("ENETUNREACH") || code == Some("ENETDOWN")
  }

  /** This client's own timeout, after which the message may well have been sent. */
  ghost predicate OwnTimeout(name: string) {
    name == "AbortError" || name == "TimeoutError"
  }

  lemma ErrorRead(c: Cause)
    requires c.Threw?
    ensures (NeverOpened(c) <==> BeforeSending(c.code)) && (IsTimeout(c) <==> OwnTimeout(c.name))
  {
  }

  /** A failed request counts as undelivered for these only, near enough and not within a timeout. */
  lemma UndeliveredExactly(c: Cause)
    ensures forall i :: 0 <= i < |Chain(c)| ==> Chain(c)[i].Threw?
    ensures ProvablyUndelivered(c) <==>
            exists k :: 0 <= k < |Chain(c)| && k < 5 && BeforeSending(Chain(c)[k].code)
                        && forall j :: 0 <= j <= k ==> !OwnTimeout(Chain(c)[j].name)
  {
    hide NeverOpened, BeforeSending, IsTimeout, OwnTimeout, Chain;
    ChainIsThrown(c);
    forall k | 0 <= k < |Chain(c)|
      ensures NeverOpened(Chain(c)[k]) <==> BeforeSending(Chain(c)[k].code)
      ensures IsTimeout(Chain(c)[k]) <==> OwnTimeout(Chain(c)[k].name)
    {
      ErrorRead(Chain(c)[k]);
    }
  }

  /**
   * How sure the client is of an answer: a 2xx with `ok` and a message id is acknowledged, any
   * other 2xx and every 5xx is uncertain, the rest certainly not sent, and 429 worth asking again.
   */
  lemma AnswersRead(status: int, body: Body, retriesLeft: bool)
    ensures Read(Responded(status, body), retriesLeft)
         == if status == 429 then (if retriesLeft then TryAgain else Final(NotSent(false)))
            else if 200 <= status < 300 then
              if body.Parsed? && body.okTrue && body.messageId.Some?
              then Final(Acknowledged(body.messageId.value)) else Final(NotSent(true))
            else Final(NotSent(status >= 500))
  {
  }

  /** A request that failed was certainly not sent, and may be tried again, or is uncertain. */
  lemma FailuresRead(cause: Cause, retriesLeft: bool)
    ensures Read(FetchThrew(cause), retriesLeft)
         == if !ProvablyUndelivered(cause) then Final(NotSent(true))
            else if retriesLeft then TryAgain else Final(NotSent(false))
  {
  }
}
