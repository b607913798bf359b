/** Closed retry policies for HTTP operations, and Retry-After arithmetic. */
module Retry {
  import opened Wrappers
  import opened Decimals

  const TOTAL_ATTEMPTS := 3
  const OPERATION_BUDGET_SECONDS := 15.0
  const BACKOFF_BASE_SECONDS := 0.5
  const BACKOFF_CAP_SECONDS := 8.0
  const RETRY_AFTER_CAP_SECONDS := 21600
  const RETRY_AFTER_CAP_TEXT := "21600"

  datatype Operation = SafeRead | ClaudeProbe | ClaudeRefresh | CodexRefresh | ClaudeHeartbeat | CodexHeartbeat

  datatype Policy = Policy(ambiguousTransport: bool, rateLimit: bool, serverStatus: bool)

  function PolicyOf(o: Operation): Policy {
    match o
    case SafeRead => Policy(true, true, true)
    case ClaudeProbe => Policy(false, true, true)
    case ClaudeRefresh => Policy(false, false, false)
    case CodexRefresh => Policy(false, false, false)
    case ClaudeHeartbeat => Policy(false, true, false)
    case CodexHeartbeat => Policy(false, false, false)
  }

  /** A response with the two headers the policy looks at. */
  datatype Response = Response(status: int, retryAfter: Option<string>, shouldRetry: Option<string>)

  /** The transport library's errors, with the causes they wrap. */
  datatype TransportError =
    | MaxRetryError(reason: Option<TransportError>)
    | ProxyError(original: Option<TransportError>)
    | ConnectTimeoutError
    | ReadTimeoutError
    | ProtocolError
    | IncompleteRead
    | InvalidChunkLength
    | OtherHttpError
    | OperatingSystemError

  datatype Result = Responded(response: Response) | Threw(error: TransportError)

  datatype TransportFailure = ProvenConnect | Ambiguous | Terminal

  function Classify(e: TransportError): TransportFailure {
    match e
    case MaxRetryError(Some(reason)) => if reason.OperatingSystemError? then Terminal else Classify(reason)
    case ProxyError(original) => if original == Some(ConnectTimeoutError) then ProvenConnect else Ambiguous
    case ConnectTimeoutError => ProvenConnect
    case ReadTimeoutError => Ambiguous
    case ProtocolError => Ambiguous
    case IncompleteRead => Ambiguous
    case InvalidChunkLength => Ambiguous
    case OperatingSystemError => Ambiguous
    case _ => Terminal
  }

  /** The error is a connect timeout below nothing but retry wrappers and at most one
      proxy. */
  predicate NeverConnected(e: TransportError) {
    match e
    case ConnectTimeoutError => true
    case ProxyError(original) => original == Some(ConnectTimeoutError)
    case MaxRetryError(Some(reason)) => NeverConnected(reason)
    case _ => false
  }

  /** Only such an error is taken as proof that no request left. */
  lemma {:induction false} ProvenConnectIff(e: TransportError)
    ensures Classify(e) == ProvenConnect <==> NeverConnected(e)
  {
    match e
    case MaxRetryError(Some(reason)) => ProvenConnectIff(reason);
    case _ =>
  }

  /** Every attempt but a proven connect failure may have reached the server. */
  predicate MayHaveReached(r: Result) {
    r.Responded? || Classify(r.error) != ProvenConnect
  }

  // Delay seconds, by length and text (section 10.2.3 of RFC 9110).

  function WithoutLeadingZeros(s: string): string {
    if s != "" && s[0] == '0' then WithoutLeadingZeros(s[1..]) else s
  }

  /** Text order of two strings of one length: the first difference decides. */
  predicate TextGreater(s: string, t: string)
    requires |s| == |t|
  {
    exists i :: 0 <= i < |s| && s[..i] == t[..i] && s[i] > t[i]
  }

  function ParseDelaySeconds(value: string): int
    requires Digits(value)
  {
    StrippedAreDigits(value);
    var stripped := WithoutLeadingZeros(value);
    var normalized := if stripped == "" then "0" else stripped;
    if |normalized| > |RETRY_AFTER_CAP_TEXT|
       || (|normalized| == |RETRY_AFTER_CAP_TEXT| && TextGreater(normalized, RETRY_AFTER_CAP_TEXT))
    then RETRY_AFTER_CAP_SECONDS
    else Value(normalized)
  }

  lemma {:induction false} StrippedAreDigits(s: string)
    requires Digits(s)
    ensures Digits(WithoutLeadingZeros(s))
    ensures WithoutLeadingZeros(s) != "" ==> WithoutLeadingZeros(s)[0] != '0'
  {
    if s != "" && s[0] == '0' {
      StrippedAreDigits(s[1..]);
    }
  }

  lemma {:induction false} ZeroInFront(s: string)
    requires Digits(s)
    ensures Value("0" + s) == Value(s)
  {
    var t := "0" + s;
    if s == "" {
      assert t[..0] == "";
    } else {
      assert t[..|t| - 1] == "0" + s[..|s| - 1];
      ZeroInFront(s[..|s| - 1]);
    }
  }

  lemma {:induction false} StrippingKeepsValue(s: string)
    requires Digits(s)
    ensures Digits(WithoutLeadingZeros(s)) && Value(WithoutLeadingZeros(s)) == Value(s)
  {
    StrippedAreDigits(s);
    if s != "" && s[0] == '0' {
      StrippingKeepsValue(s[1..]);
      ZeroInFront(s[1..]);
      assert "0" + s[1..] == s;
    }
  }

  function Power(n: nat): nat {
    if n == 0 then 1 else 10 * Power(n - 1)
  }

  lemma {:induction false} ValueBounds(s: string)
    requires Digits(s)
    ensures Value(s) < Power(|s|)
    ensures s != "" && s[0] != '0' ==> Value(s) >= Power(|s| - 1)
  {
    if s != "" {
      ValueBounds(s[..|s| - 1]);
    }
  }

  /** The first difference is before the last character, or is the last character. */
  lemma TextGreaterStep(s: string, t: string)
    requires |s| == |t| && s != ""
    ensures var n := |s| - 1;
            TextGreater(s, t) <==> TextGreater(s[..n], t[..n]) || (s[..n] == t[..n] && s[n] > t[n])
  {
    var n := |s| - 1;
    forall i | 0 <= i < n
      ensures s[..n][..i] == s[..i] && t[..n][..i] == t[..i]
    {
    }
    if i :| 0 <= i < |s| && s[..i] == t[..i] && s[i] > t[i] {
      if i < n {
        assert s[..n][..i] == t[..n][..i] && s[..n][i] > t[..n][i];
      }
    }
    if i :| 0 <= i < n && s[..n][..i] == t[..n][..i] && s[..n][i] > t[..n][i] {
      assert s[..i] == t[..i] && s[i] > t[i];
    }
  }

  /** For strings of one length the text order is the numeric order. */
  lemma {:induction false} TextOrderIsNumeric(s: string, t: string)
    requires Digits(s) && Digits(t) && |s| == |t|
    ensures TextGreater(s, t) <==> Value(s) > Value(t)
  {
    if s != "" {
      var n := |s| - 1;
      TextOrderIsNumeric(s[..n], t[..n]);
      TextGreaterStep(s, t);
      if Value(s[..n]) == Value(t[..n]) { SameValueSameText(s[..n], t[..n]); }
    }
  }

  lemma {:induction false} SameValueSameText(s: string, t: string)
    requires Digits(s) && Digits(t) && |s| == |t| && Value(s) == Value(t)
    ensures s == t
  {
    if s != "" {
      var n := |s| - 1;
      SameValueSameText(s[..n], t[..n]);
      assert s == s[..n] + [s[n]] && t == t[..n] + [t[n]];
    }
  }

  lemma CapText()
    ensures Digits(RETRY_AFTER_CAP_TEXT) && Value(RETRY_AFTER_CAP_TEXT) == RETRY_AFTER_CAP_SECONDS
    ensures |RETRY_AFTER_CAP_TEXT| == 5 && Power(4) == 10000 && Power(5) == 100000
  {
    var s := RETRY_AFTER_CAP_TEXT;
    assert s[..4] == "2160" && s[..4][..3] == "216" && s[..4][..3][..2] == "21" && s[..4][..3][..2][..1] == "2";
    assert Value("2") == 2 by { assert "2"[..0] == ""; }
    assert Value("21") == 21 && Value("216") == 216 && Value("2160") == 2160;
    assert Power(1) == 10 && Power(2) == 100 && Power(3) == 1000;
  }

  /** The parser by length and text agrees with the number, for any length and any
      leading zeros. */
  lemma DelayIsCappedValue(value: string)
    requires Digits(value)
    ensures ParseDelaySeconds(value)
            == if Value(value) < RETRY_AFTER_CAP_SECONDS then Value(value) else RETRY_AFTER_CAP_SECONDS
  {
    StrippingKeepsValue(value);
    StrippedAreDigits(value);
    CapText();
    var stripped := WithoutLeadingZeros(value);
    if stripped == "" {
      assert Value("0") == 0 by { assert "0"[..0] == ""; }
    } else {
      ValueBounds(stripped);
      if |stripped| > 5 {
        PowerGrows(5, |stripped| - 1);
      } else if |stripped| == 5 {
        TextOrderIsNumeric(stripped, RETRY_AFTER_CAP_TEXT);
      } else {
        PowerGrows(|stripped|, 4);
      }
    }
  }

  lemma {:induction false} PowerGrows(m: nat, n: nat)
    requires m <= n
    ensures Power(m) <= Power(n)
  {
    if m < n { PowerGrows(m, n - 1); }
  }

  // The executor.

  /** What the outside contributes: how far the monotonic clock moves before each
      reading (in either direction), the random fractions, what each attempt meets
      within its budget, and how far away an HTTP date is. */
  datatype World = World(
    drift: nat -> real,
    fraction: nat -> real,
    transport: (nat, real) -> Result,
    untilDate: string -> Option<real>)

  /** One attempt: the budget it began with, what it met, the delay the server asked for
      and whether the policy lets it be tried again. */
  datatype Attempt = Attempt(remaining: real, result: Result, asked: Option<int>, retryable: bool)
  datatype Nap = Nap(delay: real, remaining: real)

  datatype Outcome = TransportOutcome | ServerOutcome | RateLimitOutcome

  datatype Ending =
    | Returned(response: Response)
    | Stopped(outcome: Outcome, attempts: nat, retryAfter: Option<int>)

  function RealMax(a: real, b: real): real {
    if a < b then b else a
  }

  function RealMin(a: real, b: real): real {
    if a < b then a else b
  }

  predicate IsSpace(c: char) {
    c == ' ' || '\t' <= c <= '\r'
  }

  function Strip(s: string): string {
    if s != "" && IsSpace(s[0]) then Strip(s[1..])
    else if s != "" && IsSpace(s[|s| - 1]) then Strip(s[..|s| - 1])
    else s
  }

  function Lower(s: string): string {
    seq(|s|, i requires 0 <= i < |s| => if 'A' <= s[i] <= 'Z' then s[i] + 32 as char else s[i])
  }

  function RejectsRetry(r: Response): bool {
    r.shouldRetry.Some? && Lower(Strip(r.shouldRetry.value)) == "false"
  }

  function CapInt(n: int): int {
    if n < 0 then 0 else if n < RETRY_AFTER_CAP_SECONDS then n else RETRY_AFTER_CAP_SECONDS
  }

  /** Header text that is a number of seconds. */
  predicate IsDelay(s: string) {
    s != "" && Digits(s)
  }

  predicate Blank(s: string) {
    forall i :: 0 <= i < |s| ==> IsSpace(s[i])
  }

  /** A text with blanks around its core. */
  predicate Wraps(s: string, left: string, core: string, right: string) {
    s == left + core + right && Blank(left) && Blank(right)
  }

  lemma WrapsMore(c: char, s: string, left: string, core: string, right: string)
    requires Wraps(s, left, core, right) && IsSpace(c)
    ensures Wraps([c] + s, [c] + left, core, right) && Wraps(s + [c], left, core, right + [c])
  {
    assert [c] + (left + core + right) == ([c] + left) + core + right;
    assert (left + core + right) + [c] == left + core + (right + [c]);
  }

  /** Stripping removes white space at both ends and nothing else. */
  lemma {:induction false} StripTrims(s: string) returns (left: string, right: string)
    ensures Wraps(s, left, Strip(s), right)
    ensures Strip(s) != "" ==> !IsSpace(Strip(s)[0]) && !IsSpace(Strip(s)[|Strip(s)| - 1])
  {
    left, right := "", "";
    if s != "" && IsSpace(s[0]) {
      left, right := StripTrims(s[1..]);
      WrapsMore(s[0], s[1..], left, Strip(s[1..]), right);
      left := [s[0]] + left;
      assert s == [s[0]] + s[1..];
    } else if s != "" && IsSpace(s[|s| - 1]) {
      var n := |s| - 1;
      left, right := StripTrims(s[..n]);
      WrapsMore(s[n], s[..n], left, Strip(s[..n]), right);
      right := right + [s[n]];
      assert s == s[..n] + [s[n]];
    }
  }

  /** The server rejects a retry exactly by the word false, in letters of any case. */
  lemma RejectsRetryIff(r: Response)
    ensures RejectsRetry(r) <==>
            r.shouldRetry.Some? &&
            var t := Strip(r.shouldRetry.value);
            && |t| == 5 && t[0] in {'f', 'F'} && t[1] in {'a', 'A'} && t[2] in {'l', 'L'} && t[3] in {'s', 'S'}
            && t[4] in {'e', 'E'}
  {
    if r.shouldRetry.Some? {
      var t := Strip(r.shouldRetry.value);
      var l := Lower(t);
      assert l == "false" <==> |l| == 5 && l[0] == 'f' && l[1] == 'a' && l[2] == 'l' && l[3] == 's' && l[4] == 'e';
    }
  }

  function ParseRetryAfter(w: World, raw: Option<string>): (seconds: Option<int>)
    ensures seconds.Some? ==> 0 <= seconds.value <= RETRY_AFTER_CAP_SECONDS
    ensures raw.None? ==> seconds.None?
    ensures raw.Some? && IsDelay(Strip(raw.value)) ==>
              && seconds.Some?
              && (Value(Strip(raw.value)) <= RETRY_AFTER_CAP_SECONDS ==> seconds.value == Value(Strip(raw.value)))
              && (Value(Strip(raw.value)) > RETRY_AFTER_CAP_SECONDS ==> seconds.value == RETRY_AFTER_CAP_SECONDS)
    ensures raw.Some? && !IsDelay(Strip(raw.value)) ==>
              var until := w.untilDate(Strip(raw.value));
              && (seconds.Some? <==> until.Some?)
              && (until.Some? ==> && (until.value <= 0.0 ==> seconds.value == 0)
                                  && (until.value > RETRY_AFTER_CAP_SECONDS as real ==>
                                        seconds.value == RETRY_AFTER_CAP_SECONDS)
                                  && (0.0 < until.value <= RETRY_AFTER_CAP_SECONDS as real ==>
                                        seconds.value as real - 1.0 < until.value <= seconds.value as real))
  {
    if raw.None? then None
    else
      var value := Strip(raw.value);
      if IsDelay(value) then
        DelayIsCappedValue(value);
        Some(ParseDelaySeconds(value))
      else
        var until := w.untilDate(value);
        if until.None? then None else Some(CapInt(-(-until.value).Floor))
  }

  predicate IsServerError(status: int) {
    500 <= status < 600
  }

  predicate IsRetryableServerError(status: int) {
    status in {500, 502, 503, 504, 529}
  }

  /** A response that ends the call normally. */
  predicate IsFinal(r: Response) {
    r.status != 429 && !IsServerError(r.status)
  }

  /** Only rate limits and server errors do not end the call. */
  lemma FinalIff(r: Response)
    ensures IsFinal(r) <==> r.status != 429 && (r.status <= 499 || r.status >= 600)
  {
  }

  /** What the policy lets be tried again. */
  predicate MayRetry(policy: Policy, r: Result) {
    match r
    case Threw(e) => Classify(e) == ProvenConnect || (Classify(e) == Ambiguous && policy.ambiguousTransport)
    case Responded(response) =>
      && !RejectsRetry(response)
      && (|| (response.status == 429 && policy.rateLimit)
          || (policy.serverStatus && IsRetryableServerError(response.status)))
  }

  /** An error after which nobody knows whether the request arrived. */
  predicate Undecided(e: TransportError) {
    match e
    case MaxRetryError(Some(OperatingSystemError)) => false
    case MaxRetryError(Some(reason)) => Undecided(reason)
    case ProxyError(original) => original != Some(ConnectTimeoutError)
    case _ => e in {ReadTimeoutError, ProtocolError, IncompleteRead, InvalidChunkLength, OperatingSystemError}
  }

  lemma {:induction false} AmbiguousIff(e: TransportError)
    ensures Classify(e) == Ambiguous <==> Undecided(e)
  {
    match e
    case MaxRetryError(Some(reason)) => if !reason.OperatingSystemError? { AmbiguousIff(reason); }
    case _ =>
  }

  /** What each operation may repeat. */
  lemma RetriesIff(operation: Operation, r: Result)
    ensures r.Threw? ==>
              (MayRetry(PolicyOf(operation), r) <==>
               NeverConnected(r.error) || (operation == SafeRead && Undecided(r.error)))
    ensures r.Responded? && r.response.status == 429 ==>
              (MayRetry(PolicyOf(operation), r) <==>
               !RejectsRetry(r.response) && operation in {SafeRead, ClaudeProbe, ClaudeHeartbeat})
    ensures r.Responded? && r.response.status != 429 ==>
              (MayRetry(PolicyOf(operation), r) <==>
               && !RejectsRetry(r.response) && operation in {SafeRead, ClaudeProbe}
               && r.response.status in {500, 502, 503, 504, 529})
  {
    if r.Threw? {
      ProvenConnectIff(r.error);
      AmbiguousIff(r.error);
    }
  }

  function OutcomeOf(r: Result): Outcome {
    if r.Threw? then TransportOutcome else if r.response.status == 429 then RateLimitOutcome else ServerOutcome
  }

  function Backoff(attempt: nat): real
    requires 1 <= attempt <= TOTAL_ATTEMPTS
  {
    RealMin(BACKOFF_CAP_SECONDS,
            BACKOFF_BASE_SECONDS * (if attempt == 1 then 1.0 else if attempt == 2 then 2.0 else 4.0))
  }

  function RetryAfterOf(w: World, r: Result): Option<int> {
    if r.Responded? && !IsFinal(r.response) then ParseRetryAfter(w, r.response.retryAfter) else None
  }

  /** The guidance kept for the caller: the last valid value any response gave. */
  function LastRetryAfter(trace: seq<Attempt>): Option<int> {
    if trace == [] then None
    else if trace[|trace| - 1].asked.Some? then trace[|trace| - 1].asked
    else LastRetryAfter(trace[..|trace| - 1])
  }

  /** The guidance is the latest one that any attempt gave. */
  lemma {:induction false} LastRetryAfterIs(trace: seq<Attempt>)
    ensures LastRetryAfter(trace).None? <==> forall k :: 0 <= k < |trace| ==> trace[k].asked.None?
    ensures LastRetryAfter(trace).Some? ==>
              exists k :: 0 <= k < |trace| && trace[k].asked == LastRetryAfter(trace)
                          && forall m :: k < m < |trace| ==> trace[m].asked.None?
  {
    if trace != [] {
      var n := |trace| - 1;
      LastRetryAfterIs(trace[..n]);
      if trace[n].asked.None? && LastRetryAfter(trace[..n]).Some? {
        var k :| 0 <= k < n && trace[..n][k].asked == LastRetryAfter(trace[..n])
                 && forall m :: k < m < n ==> trace[..n][m].asked.None?;
        assert trace[k].asked == LastRetryAfter(trace);
        assert forall m :: k < m < n ==> trace[m] == trace[..n][m];
      }
      assert forall k :: 0 <= k < n ==> trace[..n][k] == trace[k];
    }
  }

  function Remaining(startedAt: real, now: real): (r: real)
    ensures 0.0 <= r <= OPERATION_BUDGET_SECONDS
    ensures now >= startedAt && r > 0.0 ==> now + r == startedAt + OPERATION_BUDGET_SECONDS
  {
    RealMax(0.0, OPERATION_BUDGET_SECONDS - RealMax(0.0, now - startedAt))
  }

  function Total(naps: seq<Nap>): real {
    if naps == [] then 0.0 else Total(naps[..|naps| - 1]) + naps[|naps| - 1].delay
  }

  /** What the server asked for, or a random part of the backoff. */
  function Chosen(w: World, attempt: nat, asked: Option<int>): real
    requires 1 <= attempt <= TOTAL_ATTEMPTS
  {
    if asked.Some? then asked.value as real else w.fraction(attempt) * Backoff(attempt)
  }

  function Doubled(n: nat): nat {
    if n == 0 then 1 else 2 * Doubled(n - 1)
  }

  /** The backoff doubles from half a second up to its cap. */
  lemma BackoffDoubles(attempt: nat)
    requires 1 <= attempt <= TOTAL_ATTEMPTS
    ensures Backoff(attempt) == RealMin(8.0, 0.5 * Doubled(attempt - 1) as real)
  {
    assert Doubled(0) == 1 && Doubled(1) == 2 && Doubled(2) == 4;
  }

  /** A bounded delay, if another attempt can still begin. */
  function RetryDelay(w: World, attempt: nat, asked: Option<int>, left: real): (delay: Option<real>)
    requires forall n :: 0.0 <= w.fraction(n) <= 1.0
    requires 1 <= attempt <= TOTAL_ATTEMPTS && (asked.Some? ==> asked.value >= 0)
    ensures delay.Some? ==> attempt < TOTAL_ATTEMPTS && NapFits(Nap(delay.value, left), asked, attempt)
    ensures delay.Some? ==> delay.value == Chosen(w, attempt, asked)
    ensures delay.None? ==> attempt == TOTAL_ATTEMPTS || Chosen(w, attempt, asked) >= left
  {
    FractionOf(w.fraction(attempt), Backoff(attempt));
    var chosen := Chosen(w, attempt, asked);
    if attempt >= TOTAL_ATTEMPTS || chosen >= left then None else Some(chosen)
  }

  lemma FractionOf(f: real, bound: real)
    requires 0.0 <= f <= 1.0 && bound >= 0.0
    ensures 0.0 <= f * bound <= bound
  {
  }

  /** A nap is shorter than the budget left when it was chosen, and is what the server
      asked for or a random backoff below the bound of its attempt. */
  predicate NapFits(nap: Nap, asked: Option<int>, attempt: nat)
    requires 1 <= attempt <= TOTAL_ATTEMPTS
  {
    && 0.0 <= nap.delay < nap.remaining
    && (if asked.Some? then nap.delay == asked.value as real else nap.delay <= Backoff(attempt))
  }

  predicate NapsFit(trace: seq<Attempt>, naps: seq<Nap>) {
    && |naps| <= |trace| && |naps| < TOTAL_ATTEMPTS
    && (forall k :: 0 <= k < |naps| ==> naps[k].remaining <= OPERATION_BUDGET_SECONDS
                                        && NapFits(naps[k], trace[k].asked, k + 1))
  }

  predicate AttemptIs(w: World, policy: Policy, a: Attempt, k: nat) {
    && 0.0 < a.remaining <= OPERATION_BUDGET_SECONDS
    && a.result == w.transport(k, a.remaining)
    && a.asked == RetryAfterOf(w, a.result)
    && a.retryable == MayRetry(policy, a.result)
  }

  /** Each attempt began with budget left and is what the transport gave it. */
  predicate Attempted(w: World, policy: Policy, trace: seq<Attempt>) {
    forall k :: 0 <= k < |trace| ==> AttemptIs(w, policy, trace[k], k)
  }

  /** Every attempt that was followed by a nap was one the policy lets be retried. */
  predicate Retried(trace: seq<Attempt>, naps: seq<Nap>) {
    |naps| <= |trace| && forall k :: 0 <= k < |naps| ==> trace[k].retryable
  }

  function LastOutcome(trace: seq<Attempt>): Outcome {
    if trace == [] then TransportOutcome else OutcomeOf(trace[|trace| - 1].result)
  }

  /** How a call that was stopped after these attempts reports it. */
  function Report(trace: seq<Attempt>): Ending {
    var outcome := LastOutcome(trace);
    Stopped(outcome, |trace|, if outcome.TransportOutcome? then None else LastRetryAfter(trace))
  }

  predicate IsEnding(trace: seq<Attempt>, ending: Ending) {
    ending == if EndsNormally(trace) then Returned(trace[|trace| - 1].result.response) else Report(trace)
  }

  /** How a call ends: with the response of its last attempt, if that is final, or
      stopped by what that attempt met, with the latest guidance. */
  lemma EndingIs(trace: seq<Attempt>, ending: Ending)
    requires IsEnding(trace, ending) && trace != []
    ensures var last := trace[|trace| - 1].result;
            && (ending.Returned? <==> last.Responded? && last.response.status != 429
                                      && (last.response.status <= 499 || last.response.status >= 600))
            && (ending.Returned? ==> ending.response == last.response)
            && (ending.Stopped? ==>
                  && ending.attempts == |trace|
                  && (ending.outcome == TransportOutcome <==> last.Threw?)
                  && (ending.outcome == RateLimitOutcome <==> last.Responded? && last.response.status == 429)
                  && (last.Responded? ==> ending.retryAfter == LastRetryAfter(trace))
                  && (last.Threw? ==> ending.retryAfter.None?))
  {
  }

  predicate EndsNormally(trace: seq<Attempt>) {
    trace != [] && trace[|trace| - 1].result.Responded? && IsFinal(trace[|trace| - 1].result.response)
  }

  /** Attempts that may have reached the server. */
  function Reached(trace: seq<Attempt>): nat {
    if trace == [] then 0
    else Reached(trace[..|trace| - 1]) + (if MayHaveReached(trace[|trace| - 1].result) then 1 else 0)
  }

  predicate NeverSentTwice(operation: Operation) {
    operation.ClaudeRefresh? || operation.CodexRefresh? || operation.CodexHeartbeat?
  }

  /** Neither refresh nor the Codex heartbeat is sent twice: a second attempt follows
      only a proven connect failure. */
  lemma {:induction false} AtMostOneReached(w: World, operation: Operation, trace: seq<Attempt>, naps: seq<Nap>, n: nat)
    requires NeverSentTwice(operation) && Attempted(w, PolicyOf(operation), trace) && Retried(trace, naps)
    requires n <= |trace| <= |naps| + 1
    ensures Reached(trace[..n]) <= if n <= |naps| then 0 else 1
  {
    if n > 0 {
      AtMostOneReached(w, operation, trace, naps, n - 1);
      assert trace[..n][..n - 1] == trace[..n - 1];
      assert AttemptIs(w, PolicyOf(operation), trace[n - 1], n - 1);
    }
  }

  lemma NeverReachedTwice(w: World, operation: Operation, trace: seq<Attempt>, naps: seq<Nap>)
    requires Attempted(w, PolicyOf(operation), trace) && Retried(trace, naps) && |trace| <= |naps| + 1
    ensures NeverSentTwice(operation) ==> Reached(trace) <= 1
  {
    if NeverSentTwice(operation) {
      AtMostOneReached(w, operation, trace, naps, |trace|);
      assert trace[..|trace|] == trace;
    }
  }

  /** What a call keeps between attempts. */
  datatype Log = Log(trace: seq<Attempt>, outcome: Outcome, lastValid: Option<int>)

  /** The log says what happened, and how the call would be reported if it stopped. */
  predicate Kept(w: World, policy: Policy, log: Log) {
    && Attempted(w, policy, log.trace)
    && log.outcome == LastOutcome(log.trace)
    && log.lastValid == LastRetryAfter(log.trace)
  }

  function Reported(log: Log): Ending {
    Stopped(log.outcome, |log.trace|, if log.outcome.TransportOutcome? then None else log.lastValid)
  }

  lemma {:induction false} KeptLonger(w: World, policy: Policy, log: Log, a: Attempt)
    requires Kept(w, policy, log) && AttemptIs(w, policy, a, |log.trace|)
    ensures Kept(w, policy, Log(log.trace + [a], OutcomeOf(a.result), if a.asked.Some? then a.asked else log.lastValid))
  {
    assert (log.trace + [a])[..|log.trace|] == log.trace;
  }

  /** One attempt, logged. */
  method RunAttempt(w: World, policy: Policy, log: Log, remaining: real) returns (longer: Log, a: Attempt)
    requires Kept(w, policy, log) && 0.0 < remaining <= OPERATION_BUDGET_SECONDS
    ensures longer.trace == log.trace + [a] && Kept(w, policy, longer)
    ensures a.remaining == remaining && a.retryable == MayRetry(policy, a.result)
    ensures a.asked.Some? ==> a.asked.value >= 0
    ensures EndsNormally(longer.trace) <==> a.result.Responded? && IsFinal(a.result.response)
  {
    var result := w.transport(|log.trace|, remaining);
    a := Attempt(remaining, result, RetryAfterOf(w, result), MayRetry(policy, result));
    KeptLonger(w, policy, log, a);
    longer := Log(log.trace + [a], OutcomeOf(result), if a.asked.Some? then a.asked else log.lastValid);
  }

  lemma {:induction false} TotalOfMore(naps: seq<Nap>, nap: Nap)
    ensures Total(naps + [nap]) == Total(naps) + nap.delay
  {
    assert (naps + [nap])[..|naps|] == naps;
  }

  lemma {:induction false} OneMoreNap(trace: seq<Attempt>, naps: seq<Nap>, nap: Nap)
    requires NapsFit(trace, naps) && Retried(trace, naps) && |trace| == |naps| + 1 < TOTAL_ATTEMPTS
    requires trace[|naps|].retryable && nap.remaining <= OPERATION_BUDGET_SECONDS
    requires NapFits(nap, trace[|naps|].asked, |trace|)
    ensures NapsFit(trace, naps + [nap]) && Retried(trace, naps + [nap])
    ensures Total(naps + [nap]) == Total(naps) + nap.delay
  {
    var longer := naps + [nap];
    TotalOfMore(naps, nap);
    forall k | 0 <= k < |longer|
      ensures longer[k].remaining <= OPERATION_BUDGET_SECONDS && NapFits(longer[k], trace[k].asked, k + 1)
      ensures trace[k].retryable
    {
      if k < |naps| {
        assert longer[k] == naps[k];
      } else {
        assert longer[k] == nap;
      }
    }
  }

  /** Choose the nap before another attempt, if one can still begin in what is left. */
  method ChooseNap(w: World, trace: seq<Attempt>, naps: seq<Nap>, left: real) returns (delay: Option<real>,
                                                                                       longer: seq<Nap>)
    requires forall n :: 0.0 <= w.fraction(n) <= 1.0
    requires NapsFit(trace, naps) && Retried(trace, naps) && |trace| == |naps| + 1 <= TOTAL_ATTEMPTS
    requires trace[|naps|].retryable && left <= OPERATION_BUDGET_SECONDS
    requires trace[|naps|].asked.Some? ==> trace[|naps|].asked.value >= 0
    ensures NapsFit(trace, longer) && Retried(trace, longer)
    ensures delay.None? ==>
              longer == naps && (|trace| == TOTAL_ATTEMPTS || Chosen(w, |trace|, trace[|naps|].asked) >= left)
    ensures delay.Some? ==> |longer| == |trace| && longer[..|naps|] == naps && 0.0 <= delay.value < left
    ensures delay.Some? ==> Total(longer) == Total(naps) + delay.value
  {
    delay := RetryDelay(w, |trace|, trace[|naps|].asked, left);
    longer := naps;
    if delay.Some? {
      OneMoreNap(trace, naps, Nap(delay.value, left));
      longer := naps + [Nap(delay.value, left)];
    }
  }

  /** The clock moves only while sleeping. */
  predicate StandsStill(w: World, startedAt: real, now: real, naps: seq<Nap>) {
    now == startedAt + Total(naps)
  }

  /** Nothing but sleeping was charged to the budget of each attempt. */
  predicate Charged(trace: seq<Attempt>, naps: seq<Nap>) {
    |trace| <= |naps| + 1
    && forall k :: 0 <= k < |trace| ==> trace[k].remaining == OPERATION_BUDGET_SECONDS - Total(naps[..k])
  }

  lemma {:induction false} ChargedLonger(trace: seq<Attempt>, naps: seq<Nap>, longer: seq<Attempt>, slept: seq<Nap>)
    requires Charged(trace, naps) && |naps| == |trace| && |longer| == |trace| + 1 && |slept| >= |naps|
    requires longer[..|trace|] == trace && slept[..|naps|] == naps
    requires longer[|trace|].remaining == OPERATION_BUDGET_SECONDS - Total(naps)
    ensures Charged(longer, slept)
  {
    forall k | 0 <= k < |longer|
      ensures longer[k].remaining == OPERATION_BUDGET_SECONDS - Total(slept[..k])
    {
      if k < |trace| {
        assert longer[..|trace|][k] == trace[k] && slept[..k] == slept[..|naps|][..k];
      }
    }
  }

  /** Why a call stops before its last attempt: the policy forbids another one, or the
      delay before it does not fit into what is left. */
  predicate StopsEarly(w: World, trace: seq<Attempt>, naps: seq<Nap>) {
    && 1 <= |trace| < TOTAL_ATTEMPTS && |naps| == |trace| - 1
    && (!trace[|trace| - 1].retryable
        || Chosen(w, |trace|, trace[|trace| - 1].asked) >= OPERATION_BUDGET_SECONDS - Total(naps))
  }

  /** The clock has moved on by at least what was slept, and that is within budget. */
  predicate OnTime(startedAt: real, now: real, naps: seq<Nap>) {
    0.0 <= Total(naps) < OPERATION_BUDGET_SECONDS && now >= startedAt + Total(naps)
  }

  predicate Monotone(w: World, readings: nat) {
    w.drift(readings) >= 0.0
  }

  /** Sleep before another attempt, unless none can still begin. */
  method Pause(w: World, trace: seq<Attempt>, naps: seq<Nap>, startedAt: real, now: real, readings: nat)
    returns (napped: bool, longer: seq<Nap>, later: real)
    requires forall n :: 0.0 <= w.fraction(n) <= 1.0
    requires NapsFit(trace, naps) && Retried(trace, naps) && |trace| == |naps| + 1 <= TOTAL_ATTEMPTS
    requires trace[|naps|].retryable && (trace[|naps|].asked.Some? ==> trace[|naps|].asked.value >= 0)
    ensures NapsFit(trace, longer) && Retried(trace, longer)
    ensures |longer| == |naps| + (if napped then 1 else 0)
    ensures !napped ==>
              longer == naps
              && (|trace| == TOTAL_ATTEMPTS
                  || Chosen(w, |trace|, trace[|naps|].asked) >= Remaining(startedAt, now + w.drift(readings)))
    ensures napped ==> longer[..|naps|] == naps
    ensures w.drift(readings) == 0.0 && StandsStill(w, startedAt, now, naps) ==>
              StandsStill(w, startedAt, later, longer)
    ensures Monotone(w, readings) && OnTime(startedAt, now, naps) ==> OnTime(startedAt, later, longer)
  {
    later := now + w.drift(readings);
    var delay;
    delay, longer := ChooseNap(w, trace, naps, Remaining(startedAt, later));
    napped := delay.Some?;
    if napped { later := later + delay.value; }
  }

  lemma LongerTrace(trace: seq<Attempt>, longer: seq<Attempt>, naps: seq<Nap>)
    requires Retried(trace, naps) && NapsFit(trace, naps) && trace <= longer
    ensures Retried(longer, naps) && NapsFit(longer, naps)
  {
  }

  /** No further attempt, given what is left. */
  predicate Declines(w: World, trace: seq<Attempt>, left: real) {
    1 <= |trace| < TOTAL_ATTEMPTS
    && (!trace[|trace| - 1].retryable || Chosen(w, |trace|, trace[|trace| - 1].asked) >= left)
  }

  /** One attempt and, if another may follow, the nap before it. */
  method Round(w: World, policy: Policy, log: Log, naps: seq<Nap>, remaining: real, startedAt: real, now: real,
               readings: nat)
    returns (again: bool, longer: Log, slept: seq<Nap>, later: real)
    requires forall n :: 0.0 <= w.fraction(n) <= 1.0
    requires Kept(w, policy, log) && 0.0 < remaining <= OPERATION_BUDGET_SECONDS
    requires Retried(log.trace, naps) && NapsFit(log.trace, naps) && |naps| == |log.trace| < TOTAL_ATTEMPTS
    ensures Kept(w, policy, longer) && |longer.trace| == |log.trace| + 1
    ensures Retried(longer.trace, slept) && NapsFit(longer.trace, slept)
    ensures |slept| == |longer.trace| - (if again then 0 else 1)
    ensures again ==> !EndsNormally(longer.trace)
    ensures longer.trace[..|log.trace|] == log.trace && longer.trace[|log.trace|].remaining == remaining
    ensures slept[..|naps|] == naps
    ensures again && w.drift(readings) == 0.0 && StandsStill(w, startedAt, now, naps) ==>
              StandsStill(w, startedAt, later, slept)
    ensures !again && !EndsNormally(longer.trace) && |longer.trace| < TOTAL_ATTEMPTS ==>
              slept == naps && Declines(w, longer.trace, Remaining(startedAt, now + w.drift(readings)))
    ensures Monotone(w, readings) && OnTime(startedAt, now, naps) ==> OnTime(startedAt, later, slept)
  {
    var attempt;
    again, slept, later := false, naps, now;
    longer, attempt := RunAttempt(w, policy, log, remaining);
    LongerTrace(log.trace, longer.trace, naps);
    if !EndsNormally(longer.trace) && attempt.retryable && |longer.trace| < TOTAL_ATTEMPTS {
      again, slept, later := Pause(w, longer.trace, naps, startedAt, now, readings);
    }
  }

  /** Between attempts: every attempt was followed by its nap, and none ended the call. */
  predicate Underway(w: World, policy: Policy, log: Log, naps: seq<Nap>) {
    && |naps| == |log.trace| <= TOTAL_ATTEMPTS && Kept(w, policy, log) && !EndsNormally(log.trace)
    && Retried(log.trace, naps) && NapsFit(log.trace, naps)
  }

  /** After an attempt, with the nap for the next one if there is to be one. */
  predicate Ended(w: World, policy: Policy, log: Log, naps: seq<Nap>) {
    && |naps| <= |log.trace| <= TOTAL_ATTEMPTS && |log.trace| <= |naps| + 1 && Kept(w, policy, log)
    && Retried(log.trace, naps) && NapsFit(log.trace, naps)
  }

  /** One turn of the loop: read the clock and, if budget is left, make an attempt. */
  method Turn(w: World, policy: Policy, log: Log, naps: seq<Nap>, startedAt: real, now: real, readings: nat)
    returns (again: bool, longer: Log, slept: seq<Nap>, later: real)
    requires forall n :: 0.0 <= w.fraction(n) <= 1.0
    requires Underway(w, policy, log, naps) && |log.trace| < TOTAL_ATTEMPTS
    ensures Ended(w, policy, longer, slept) && (again ==> Underway(w, policy, longer, slept))
    ensures again ==> |longer.trace| == |log.trace| + 1
    ensures Monotone(w, readings) && Monotone(w, readings + 1) && OnTime(startedAt, now, naps) ==>
              OnTime(startedAt, later, slept)
    ensures (&& w.drift(readings) == 0.0 && w.drift(readings + 1) == 0.0 && OnTime(startedAt, now, naps)
             && StandsStill(w, startedAt, now, naps) && Charged(log.trace, naps)) ==>
              && Charged(longer.trace, slept) && (again ==> StandsStill(w, startedAt, later, slept))
              && (!again && !EndsNormally(longer.trace) && |longer.trace| < TOTAL_ATTEMPTS ==>
                    StopsEarly(w, longer.trace, slept))
  {
    later := now + w.drift(readings);
    var remaining := Remaining(startedAt, later);
    if remaining <= 0.0 { return false, log, naps, later; }
    again, longer, slept, later := Round(w, policy, log, naps, remaining, startedAt, later, readings + 1);
    if Charged(log.trace, naps) && remaining == OPERATION_BUDGET_SECONDS - Total(naps) {
      ChargedLonger(log.trace, naps, longer.trace, slept);
    }
  }

  /** Run one operation within attempt and elapsed bounds.

      At most three attempts, each begun with budget left and each but the last one
      the policy lets be tried again; naps that fit; the ending of the last attempt;
      at most one attempt that may have reached the server, for the operations that
      must not be sent twice; and, if the clock never runs backwards, less than the
      budget slept in all. */
  method Execute(w: World, operation: Operation) returns (ending: Ending, trace: seq<Attempt>, naps: seq<Nap>)
    requires forall n :: 0.0 <= w.fraction(n) <= 1.0
    ensures |naps| <= |trace| <= TOTAL_ATTEMPTS && |trace| <= |naps| + 1
    ensures Attempted(w, PolicyOf(operation), trace) && Retried(trace, naps) && NapsFit(trace, naps)
    ensures IsEnding(trace, ending)
    ensures NeverSentTwice(operation) ==> Reached(trace) <= 1
    ensures (forall n :: w.drift(n) == 0.0) ==>
              && Charged(trace, naps)
              && (!EndsNormally(trace) && |trace| < TOTAL_ATTEMPTS ==> StopsEarly(w, trace, naps))
    ensures (forall n :: Monotone(w, n)) ==> Total(naps) < OPERATION_BUDGET_SECONDS
  {
    var policy := PolicyOf(operation);
    var startedAt := 0.0;
    var now := startedAt;
    var readings: nat := 0;
    var log := Log([], TransportOutcome, None);
    var again := true;
    naps := [];
    ghost var still := forall n :: w.drift(n) == 0.0;
    ghost var monotone := forall n :: Monotone(w, n);
    while again && |log.trace| < TOTAL_ATTEMPTS
      invariant Ended(w, policy, log, naps) && (again ==> Underway(w, policy, log, naps))
      invariant monotone ==> OnTime(startedAt, now, naps)
      invariant still ==> monotone && Charged(log.trace, naps)
      invariant still && again ==> StandsStill(w, startedAt, now, naps)
      invariant still && !again && !EndsNormally(log.trace) && |log.trace| < TOTAL_ATTEMPTS ==>
                  StopsEarly(w, log.trace, naps)
      decreases again, TOTAL_ATTEMPTS - |log.trace|
    {
      assert monotone ==> Monotone(w, readings) && Monotone(w, readings + 1);
      again, log, naps, now := Turn(w, policy, log, naps, startedAt, now, readings);
      readings := readings + 2;
    }
    trace := log.trace;
    ending := if EndsNormally(trace) then Returned(trace[|trace| - 1].result.response) else Reported(log);
    NeverReachedTwice(w, operation, trace, naps);
  }
}
