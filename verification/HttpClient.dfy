/**
The retry loop and counters of `HttpClient._request` in src/turboedge/adapters/base.py, for requests
made one after another. The network is a function from the attempt's number to what the attempt met.
*/
module HttpClient {
  import opened Wrappers

  // What one attempt met; `Raised` stands for an exception that is none of the HTTP library's.
  datatype Outcome = Replied(status: nat, body: string) | TimedOut | TransportFailed | Raised(exception: string)

  datatype RequestError = AdapterHttpError(met: Outcome) | Propagated(exception: string)

  predicate Succeeds(o: Outcome) {
    o.Replied? && 200 <= o.status < 300
  }

  // The three exception types that are counted and wrapped.
  predicate Counted(o: Outcome) {
    o.TimedOut? || o.TransportFailed? || (o.Replied? && !Succeeds(o))
  }

  predicate Retryable(o: Outcome) {
    o.TimedOut? || o.TransportFailed? || (o.Replied? && o.status in {429, 500, 502, 503, 504})
  }

  function Verdict(o: Outcome): Result<string, RequestError> {
    if Succeeds(o) then Ok(o.body)
    else if Counted(o) then Err(AdapterHttpError(o))
    else Err(Propagated(o.exception))
  }

  // How many attempts a request makes, counting from attempt i.
  function Attempts(server: nat -> Outcome, maxRetries: int, i: nat): (a: nat)
    ensures a > i
    decreases maxRetries - i
  {
    if Retryable(server(i)) && i + 1 < maxRetries then Attempts(server, maxRetries, i + 1) else i + 1
  }

  class HttpClient {
    const maxRetries: int
    var requestCount: nat
    var errorCount: nat
    var retryCount: nat
    ghost var requests: nat

    // Over the whole life of the client: an attempt is a request's first or a retry, every retry follows a
    // counted error, and every counted error an attempt.
    ghost predicate Valid()
      reads this
    {
      requestCount == requests + retryCount && retryCount <= errorCount <= requestCount
    }

    constructor (maxRetries: int)
      ensures Valid() && this.maxRetries == maxRetries
      ensures requestCount == errorCount == retryCount == requests == 0
    {
      this.maxRetries := maxRetries;
      requestCount, errorCount, retryCount := 0, 0, 0;
      requests := 0;
    }

    method Request(server: nat -> Outcome) returns (r: Result<string, RequestError>)
      requires Valid()
      modifies this
      ensures Valid() && requests == old(requests) + 1
      ensures var a := Attempts(server, maxRetries, 0); var last := server(a - 1);
              && r == Verdict(last)
              && requestCount == old(requestCount) + a
              && retryCount == old(retryCount) + a - 1
              && errorCount == old(errorCount) + (if Counted(last) then a else a - 1)
    {
      requests := requests + 1;
      var attempt := 0;
      while true
        invariant attempt == 0 || attempt < maxRetries
        invariant requests == old(requests) + 1
        invariant Attempts(server, maxRetries, 0) == Attempts(server, maxRetries, attempt)
        invariant requestCount == old(requestCount) + attempt
        invariant retryCount == old(retryCount) + attempt
        invariant errorCount == old(errorCount) + attempt
        decreases maxRetries - attempt
      {
        requestCount := requestCount + 1;
        var met := server(attempt);
        if Counted(met) {
          errorCount := errorCount + 1;
        }
        attempt := attempt + 1;
        if !Retryable(met) || attempt >= maxRetries {
          return Verdict(met);
        }
        retryCount := retryCount + 1;
      }
    }
  }

  // At least one attempt and otherwise at most `maxRetries`: all but the last were worth retrying, and
  // the last was not or was the last allowed. These facts determine the number.
  lemma {:induction false} AttemptsExactly(server: nat -> Outcome, maxRetries: int, i: nat, a: nat)
    requires i == 0 || i < maxRetries
    ensures a == Attempts(server, maxRetries, i) <==>
              (&& i < a && (a == 1 || a <= maxRetries)
               && (forall j :: i <= j < a - 1 ==> Retryable(server(j)))
               && (!Retryable(server(a - 1)) || a >= maxRetries))
    decreases maxRetries - i
  {
    if Retryable(server(i)) && i + 1 < maxRetries {
      AttemptsExactly(server, maxRetries, i + 1, a);
    }
  }

  // The number of attempts a request may make.
  function Budget(maxRetries: int): nat {
    if maxRetries < 1 then 1 else maxRetries
  }

  ghost predicate ReachedAt(server: nat -> Outcome, i: nat) {
    Succeeds(server(i)) && forall j :: 0 <= j < i ==> Retryable(server(j))
  }

  // A request succeeds exactly when, within its budget, some attempt succeeds after none but retryable
  // failures; it then returns that attempt's body.
  lemma SuccessIff(server: nat -> Outcome, maxRetries: int)
    ensures Verdict(server(Attempts(server, maxRetries, 0) - 1)).Ok? <==>
              exists i :: 0 <= i < Budget(maxRetries) && ReachedAt(server, i)
    ensures forall i :: 0 <= i < Budget(maxRetries) && ReachedAt(server, i) ==>
              Verdict(server(Attempts(server, maxRetries, 0) - 1)) == Ok(server(i).body)
  {
    var a := Attempts(server, maxRetries, 0);
    AttemptsExactly(server, maxRetries, 0, a);
    if Succeeds(server(a - 1)) { assert ReachedAt(server, a - 1); }
    forall i | 0 <= i < Budget(maxRetries) && ReachedAt(server, i) ensures i == a - 1 {
      AttemptsExactly(server, maxRetries, 0, i + 1);
    }
  }

  // What a further attempt may mend.
  predicate Transient(o: Outcome) {
    match o
    case TimedOut => true
    case TransportFailed => true
    case Replied(status, _) => status == 429 || status == 500 || 502 <= status <= 504
    case Raised(_) => false
  }

  // How every request ends: after transient failures, at its first attempt that met no such failure or at the
  // last its budget allows. A reply in the 200s is returned, any other reply, a timeout and a transport failure
  // are wrapped, and an exception of another kind passes through.
  lemma RequestEnds(server: nat -> Outcome, maxRetries: int, k: nat)
    requires k < Budget(maxRetries) && forall j: nat :: j < k ==> Transient(server(j))
    requires k == Budget(maxRetries) - 1 || !Transient(server(k))
    ensures Attempts(server, maxRetries, 0) == k + 1
    ensures Verdict(server(Attempts(server, maxRetries, 0) - 1)) ==
            match server(k)
            case Replied(status, body) => if 200 <= status < 300 then Ok(body) else Err(AdapterHttpError(server(k)))
            case TimedOut => Err(AdapterHttpError(TimedOut))
            case TransportFailed => Err(AdapterHttpError(TransportFailed))
            case Raised(exception) => Err(Propagated(exception))
  {
    AttemptsExactly(server, maxRetries, 0, k + 1);
  }

  // Allowing more retries never turns a success into anything else.
  lemma MoreRetriesNeverHurt(server: nat -> Outcome, few: int, many: int)
    requires few <= many
    requires Verdict(server(Attempts(server, few, 0) - 1)).Ok?
    ensures Attempts(server, many, 0) == Attempts(server, few, 0)
  {
    AttemptsExactly(server, few, 0, Attempts(server, few, 0));
    AttemptsExactly(server, many, 0, Attempts(server, few, 0));
  }
}
