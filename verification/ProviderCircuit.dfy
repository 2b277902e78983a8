/** The circuit breaker of model providers: what a call does to the network, what it records, and when it is refused. */
module ProviderCircuit {
  import opened Wrappers
  import opened Collections
  import opened Rounding

  /** How one request ends: an error the call handles, or an exception of another class that escapes it. */
  datatype Attempt = Opened | HttpError(status: int, retryAfter: Option<real>) | Unreachable | Breaks

  /** How reading an answered response ends. */
  datatype Body = Complete | Interrupted | Malformed | BreaksReading

  datatype Health = Health(failures: nat, openUntil: Option<real>)

  /**
   * A call: its provider, whether a credential it needs is there, the configured retries, how each request and the
   * body would end, and the times at which the circuit is looked at and the outcome recorded.
   */
  datatype Call = Call(
    provider: string,
    authorised: bool,
    retries: int,
    network: nat -> Attempt,
    body: Body,
    begins: real,
    ends: real)

  datatype Outcome = Success | Failure(retryable: bool, retryAfter: Option<real>)

  /** An outcome as it was recorded for a provider. */
  datatype Record = Record(provider: string, outcome: Outcome, at: real)

  // ---- one call ---------------------------------------------------------------------------------

  predicate Retryable(status: int)
  {
    status in {408, 429, 500, 502, 503, 504}
  }

  function FailureOf(attempt: Attempt): Outcome
    requires attempt.HttpError? || attempt.Unreachable?
  {
    if attempt.Unreachable? then Failure(true, None) else Failure(Retryable(attempt.status), attempt.retryAfter)
  }

  function Retries(configured: int): (r: nat)
    ensures r <= 3
  {
    if configured < 0 then 0 else if configured > 3 then 3 else configured
  }

  /** Another request follows only a retryable error, and only while retries are left. */
  predicate TriesAgain(call: Call, k: nat)
  {
    var attempt := call.network(k);
    k < Retries(call.retries) && (attempt.HttpError? || attempt.Unreachable?) && FailureOf(attempt).retryable
  }

  /** The number of the request that decides the call. */
  function Decisive(call: Call, k: nat): (n: nat)
    requires k <= Retries(call.retries)
    ensures k <= n <= Retries(call.retries) && !TriesAgain(call, n)
    ensures forall i :: k <= i < n ==> TriesAgain(call, i)
    decreases Retries(call.retries) - k
  {
    if TriesAgain(call, k) then Decisive(call, k + 1) else k
  }

  predicate Open(h: Option<Health>, now: real)
  {
    h.Some? && h.value.openUntil.Some? && h.value.openUntil.value > now
  }

  /** How many requests a call sends. */
  function Sent(h: Option<Health>, call: Call): nat
  {
    if Open(h, call.begins) || !call.authorised then 0 else Decisive(call, 0) + 1
  }

  /** What a call records: nothing when it sends nothing or an exception escapes it. */
  function Recorded(h: Option<Health>, call: Call): Option<Outcome>
  {
    if Sent(h, call) == 0 then None
    else
      match call.network(Decisive(call, 0))
      case Breaks => None
      case Opened =>
        (match call.body
         case Complete => Some(Success)
         case BreaksReading => None
         case _ => Some(Failure(true, None)))
      case _ => Some(FailureOf(call.network(Decisive(call, 0))))
  }

  /** An exception of a class the call does not handle escapes it. */
  predicate Escapes(call: Call)
  {
    var last := call.network(Decisive(call, 0));
    last.Breaks? || (last.Opened? && call.body.BreaksReading?)
  }

  // ---- the health table -------------------------------------------------------------------------

  function Cooldown(retryAfter: Option<real>): (seconds: real)
    ensures 60.0 <= seconds <= 900.0
  {
    Min(Max(60.0, if retryAfter.Some? then retryAfter.value else 0.0), 900.0)
  }

  function Noted(h: Option<Health>, outcome: Outcome, at: real): Health
  {
    match outcome
    case Success => Health(0, None)
    case Failure(retryable, retryAfter) =>
      var previous := if h.Some? then h.value.failures else 0;
      var failures := if retryable then previous + 1 else previous;
      Health(failures, if retryable && failures >= 3 then Some(at + Cooldown(retryAfter)) else None)
  }

  // ---- a trace of calls -------------------------------------------------------------------------

  datatype State = State(rows: map<string, Health>, log: seq<Record>)

  function Called(s: State, call: Call): State
  {
    var recorded := Recorded(Lookup(s.rows, call.provider), call);
    if recorded.None? then s
    else State(s.rows[call.provider := Noted(Lookup(s.rows, call.provider), recorded.value, call.ends)],
               s.log + [Record(call.provider, recorded.value, call.ends)])
  }

  function Trace(calls: seq<Call>): State
  {
    if calls == [] then State(map[], []) else Called(Trace(calls[..|calls| - 1]), calls[|calls| - 1])
  }

  /** The records of one provider. */
  function Of(log: seq<Record>, provider: string): seq<Record>
  {
    if log == [] then []
    else
      var last := log[|log| - 1];
      Of(log[..|log| - 1], provider) + if last.provider == provider then [last] else []
  }

  /** The retryable failures of a provider's records since its last success. */
  function RetryableSince(records: seq<Record>): nat
  {
    if records == [] then 0
    else
      var rest := RetryableSince(records[..|records| - 1]);
      match records[|records| - 1].outcome
      case Success => 0
      case Failure(retryable, _) => if retryable then rest + 1 else rest
  }

  /** The health row that the records of a provider call for. */
  ghost predicate Matches(h: Option<Health>, records: seq<Record>)
  {
    if records == [] then h.None?
    else
      var last := records[|records| - 1];
      && h.Some? && h.value.failures == RetryableSince(records)
      && (h.value.openUntil.Some? <==>
            last.outcome.Failure? && last.outcome.retryable && RetryableSince(records) >= 3)
      && (h.value.openUntil.Some? ==>
            h.value.openUntil.value == last.at + Cooldown(last.outcome.retryAfter))
  }

  lemma NotedMatches(h: Option<Health>, records: seq<Record>, record: Record)
    requires Matches(h, records)
    ensures Matches(Some(Noted(h, record.outcome, record.at)), records + [record])
  {
    assert (records + [record])[..|records|] == records;
  }

  lemma CalledMatches(s: State, call: Call, provider: string)
    requires Matches(Lookup(s.rows, provider), Of(s.log, provider))
    ensures Matches(Lookup(Called(s, call).rows, provider), Of(Called(s, call).log, provider))
  {
    var recorded := Recorded(Lookup(s.rows, call.provider), call);
    if recorded.Some? {
      var record := Record(call.provider, recorded.value, call.ends);
      assert (s.log + [record])[..|s.log|] == s.log;
      if call.provider == provider {
        NotedMatches(Lookup(s.rows, provider), Of(s.log, provider), record);
      } else {
        assert Of(s.log + [record], provider) == Of(s.log, provider);
      }
    }
  }

  /**
   * Over any trace the stored count of a provider is the number of retryable failures since its last success, and
   * its circuit is open, for 60 to 900 seconds from then, exactly when its last outcome was at least the third of them.
   */
  lemma {:induction false} HealthMatchesTrace(calls: seq<Call>, provider: string)
    ensures Matches(Lookup(Trace(calls).rows, provider), Of(Trace(calls).log, provider))
  {
    if calls != [] {
      HealthMatchesTrace(calls[..|calls| - 1], provider);
      CalledMatches(Trace(calls[..|calls| - 1]), calls[|calls| - 1], provider);
    }
  }

  /** While a provider's circuit is open a call to it sends and records nothing. */
  lemma NothingIsSentWhileOpen(calls: seq<Call>, call: Call)
    requires var records := Of(Trace(calls).log, call.provider);
             && RetryableSince(records) >= 3 && records != []
             && records[|records| - 1].outcome.Failure? && records[|records| - 1].outcome.retryable
             && call.begins < records[|records| - 1].at + Cooldown(records[|records| - 1].outcome.retryAfter)
    ensures Sent(Lookup(Trace(calls).rows, call.provider), call) == 0
    ensures Called(Trace(calls), call) == Trace(calls)
  {
    HealthMatchesTrace(calls, call.provider);
  }

  /** With fewer than three retryable failures since the last success every authorised call is sent. */
  lemma ClosedCircuitSends(calls: seq<Call>, call: Call)
    requires RetryableSince(Of(Trace(calls).log, call.provider)) < 3 && call.authorised
    ensures 1 <= Sent(Lookup(Trace(calls).rows, call.provider), call) <= 4
  {
    HealthMatchesTrace(calls, call.provider);
  }

  /** A request that failed in a way that is worth another one. */
  ghost predicate WorthRetrying(attempt: Attempt)
  {
    match attempt
    case Unreachable => true
    case HttpError(status, _) =>
      status == 408 || status == 429 || status == 500 || status == 502 || status == 503 || status == 504
    case _ => false
  }

  /** How long a circuit stays open: as long as the provider asked for, a minute at least and a quarter of an hour at most. */
  ghost predicate IsCooldown(asked: Option<real>, seconds: real)
  {
    if asked.None? || asked.value <= 60.0 then seconds == 60.0
    else if asked.value >= 900.0 then seconds == 900.0
    else seconds == asked.value
  }

  /**
   * An authorised call sends nothing exactly while the circuit is open: after a retryable failure that is at least the
   * third since the last success, until the provider's cooldown is over.
   */
  lemma RefusedExactly(calls: seq<Call>, call: Call)
    requires call.authorised
    ensures var records := Of(Trace(calls).log, call.provider);
            Sent(Lookup(Trace(calls).rows, call.provider), call) == 0
            <==> RetryableSince(records) >= 3
                 && var last := records[|records| - 1];
                    && last.outcome.Failure? && last.outcome.retryable
                    && exists seconds :: IsCooldown(last.outcome.retryAfter, seconds) && call.begins < last.at + seconds
  {
    HealthMatchesTrace(calls, call.provider);
    var records := Of(Trace(calls).log, call.provider);
    if RetryableSince(records) >= 3 {
      var last := records[|records| - 1];
      if last.outcome.Failure? {
        assert IsCooldown(last.outcome.retryAfter, Cooldown(last.outcome.retryAfter));
      }
    }
  }

  /** A call without its credential sends nothing. */
  lemma UnauthorisedSendsNothing(h: Option<Health>, call: Call)
    requires !call.authorised
    ensures Sent(h, call) == 0
  {
  }

  /**
   * Whatever is sent, every request but the last failed in a way worth retrying; and the last did not, or it was the
   * last of the retries the call may make, which are those configured, three at most and none for a negative number.
   */
  lemma RequestsAreRetries(h: Option<Health>, call: Call)
    requires Sent(h, call) > 0
    ensures var n := Sent(h, call);
            && (forall i :: 0 <= i < n - 1 ==> WorthRetrying(call.network(i)))
            && n - 1 <= 3 && (n > 1 ==> n - 1 <= call.retries)
            && (WorthRetrying(call.network(n - 1)) ==> n - 1 == 3 || n - 1 >= call.retries)
  {
    forall i | 0 <= i < Sent(h, call) - 1
      ensures WorthRetrying(call.network(i))
    {
      assert TriesAgain(call, i);
    }
  }

  /**
   * What a call that is sent leaves in the log is how its last request ended: a success when its body was complete, a
   * failure of the request or the body otherwise, and nothing when an exception escapes.
   */
  lemma LogTellsLastRequest(s: State, call: Call)
    requires Sent(Lookup(s.rows, call.provider), call) > 0
    ensures var log := Called(s, call).log;
            match call.network(Sent(Lookup(s.rows, call.provider), call) - 1)
            case Breaks => log == s.log
            case Unreachable => log == s.log + [Record(call.provider, Failure(true, None), call.ends)]
            case HttpError(status, after) =>
              log == s.log + [Record(call.provider, Failure(WorthRetrying(HttpError(status, after)), after), call.ends)]
            case Opened =>
              match call.body
              case Complete => log == s.log + [Record(call.provider, Success, call.ends)]
              case BreaksReading => log == s.log
              case Interrupted => log == s.log + [Record(call.provider, Failure(true, None), call.ends)]
              case Malformed => log == s.log + [Record(call.provider, Failure(true, None), call.ends)]
  {
  }

  /** The calls of a trace to one provider that sent a request and let no exception escape. */
  function Concluded(calls: seq<Call>, provider: string): nat
  {
    if calls == [] then 0
    else
      var rest, call := calls[..|calls| - 1], calls[|calls| - 1];
      var sent := Sent(Lookup(Trace(rest).rows, provider), call) > 0;
      Concluded(rest, provider) + if call.provider == provider && sent && !Escapes(call) then 1 else 0
  }

  lemma OneOutcome(s: State, call: Call)
    ensures Recorded(Lookup(s.rows, call.provider), call).Some?
            <==> Sent(Lookup(s.rows, call.provider), call) > 0 && !Escapes(call)
  {
  }

  lemma RecordsAppended(log: seq<Record>, record: Record, provider: string)
    ensures |Of(log + [record], provider)| == |Of(log, provider)| + if record.provider == provider then 1 else 0
  {
    assert (log + [record])[..|log|] == log;
  }

  /** Over any trace a provider has as many records as its calls that sent a request and let no exception escape. */
  lemma {:induction false} OneOutcomePerCallExactly(calls: seq<Call>, provider: string)
    ensures |Of(Trace(calls).log, provider)| == Concluded(calls, provider)
  {
    if calls != [] {
      var rest, call := calls[..|calls| - 1], calls[|calls| - 1];
      var s := Trace(rest);
      OneOutcomePerCallExactly(rest, provider);
      OneOutcome(s, call);
      var recorded := Recorded(Lookup(s.rows, call.provider), call);
      if recorded.Some? {
        RecordsAppended(s.log, Record(call.provider, recorded.value, call.ends), provider);
      }
    }
  }

  /** The first request breaks: one is sent and nothing is recorded. */
  lemma BrokenCallRecordsNothing(s: State, call: Call)
    requires !Open(Lookup(s.rows, call.provider), call.begins) && call.authorised && call.network(0).Breaks?
    ensures Sent(Lookup(s.rows, call.provider), call) == 1 && Called(s, call) == s
  {
  }

  // ---- the calls in place -----------------------------------------------------------------------

  class ProviderHealth {
    var rows: map<string, Health>
    ghost var log: seq<Record>

    ghost function Now(): State
      reads this
    {
      State(rows, log)
    }

    constructor ()
      ensures Now() == Trace([])
    {
      rows, log := map[], [];
    }

    method RecordSuccess(provider: string, at: real)
      modifies this
      ensures rows == old(rows)[provider := Noted(Lookup(old(rows), provider), Success, at)]
      ensures log == old(log) + [Record(provider, Success, at)]
    {
      rows := rows[provider := Health(0, None)];
      log := log + [Record(provider, Success, at)];
    }

    method RecordFailure(provider: string, retryable: bool, retryAfter: Option<real>, at: real)
      modifies this
      ensures rows == old(rows)[provider := Noted(Lookup(old(rows), provider), Failure(retryable, retryAfter), at)]
      ensures log == old(log) + [Record(provider, Failure(retryable, retryAfter), at)]
    {
      var previous := if provider in rows then rows[provider].failures else 0;
      var failures := if retryable then previous + 1 else previous;
      var openUntil := None;
      if retryable && failures >= 3 {
        var cooldown := Max(60.0, if retryAfter.Some? then retryAfter.value else 0.0);
        openUntil := Some(at + Min(cooldown, 900.0));
      }
      rows := rows[provider := Health(failures, openUntil)];
      log := log + [Record(provider, Failure(retryable, retryAfter), at)];
    }

    /** Sends requests until one is answered or fails for good; counts them, and says whether a response is open. */
    method OpenResponse(call: Call) returns (answered: bool, sent: nat)
      modifies this
      ensures sent == Sent(Lookup(old(rows), call.provider), call)
      ensures answered <==> sent > 0 && call.network(sent - 1).Opened?
      ensures answered || Recorded(Lookup(old(rows), call.provider), call).None? ==> Now() == old(Now())
      ensures !answered ==> Now() == Called(old(Now()), call)
    {
      answered, sent := false, 0;
      if Open(Lookup(rows, call.provider), call.begins) || !call.authorised {
        return;
      }
      var retries := Retries(call.retries);
      while true
        invariant sent <= retries && Decisive(call, 0) == Decisive(call, sent)
        invariant Now() == old(Now())
        decreases retries - sent
      {
        var attempt := call.network(sent);
        sent := sent + 1;
        if attempt.Opened? {
          answered := true;
          return;
        }
        if attempt.Breaks? {
          return;
        }
        var failure := FailureOf(attempt);
        if failure.retryable && sent <= retries {
          continue;
        }
        RecordFailure(call.provider, failure.retryable, failure.retryAfter, call.ends);
        return;
      }
    }

    method Perform(call: Call) returns (sent: nat)
      modifies this
      ensures Now() == Called(old(Now()), call)
      ensures sent == Sent(Lookup(old(rows), call.provider), call)
    {
      var answered;
      answered, sent := OpenResponse(call);
      if answered {
        match call.body
        case Complete => RecordSuccess(call.provider, call.ends);
        case BreaksReading =>
        case _ => RecordFailure(call.provider, true, None, call.ends);
      }
    }
  }
}
