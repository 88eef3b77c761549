/** The retry controller of `get_openai_response` and the stage sequencing of
    `get_enhanced_suggestions`. The chat-completion call itself is abstracted into a
    script: the outcome of the n-th call a request makes. Temperatures are held in
    integer tenths (7 stands for 0.7). */
module OpenAIClients {
  import opened Strings
  import opened QualityGate

  /** What one chat-completion call yields, as the handlers of the retry loop see it. */
  datatype CallOutcome =
    | Reply(content: string)  // the message content of the first choice
    | RateLimited             // `openai.RateLimitError`
    | ApiFailure              // any other `openai.APIError`
    | OtherFailure            // any other exception raised by the call

  /** The outcome of the n-th call a request makes, counted from 0. */
  type Script = nat -> CallOutcome

  /** The exception `get_openai_response` ends with. */
  datatype RequestError =
    | RateLimitExceeded                    // rate limited on the last attempt
    | ApiErrorAfterRetries                 // API error on the last attempt
    | RequestFailed(qualityRejected: bool) // other error on the last attempt; a quality
                                           // failure there is raised inside the `try`
                                           // and lands in the same handler
    | RetriesExhausted                     // the loop ran no attempt at all
    | StrategiesFailed                     // `get_enhanced_suggestions`: some stage raised

  datatype AttemptKind = Passed | QualityRejected | RateLimitHit | ApiErrorHit | OtherErrorHit

  /** One attempt: the temperature it was sent with, the seconds slept before it, how
      it ended, and the seconds its handler waited after it (0 when it does not retry). */
  datatype Attempt = Attempt(temperature: int, delay: nat, kind: AttemptKind, backoff: nat)

  /** How the loop ends: returning the reply of a given call, or raising. */
  datatype LoopEnd = Returned(call: nat) | Raised(error: RequestError)

  datatype RetryRun = RetryRun(end: LoopEnd, attempts: seq<Attempt>)

  const MaxTemperature: int := 9
  const RetryDelay: nat := 2
  const ApiErrorWait: nat := 3
  const OtherErrorWait: nat := 2

  function Pow2(k: nat): (r: nat)
    ensures r >= 1
  {
    if k == 0 then 1 else 2 * Pow2(k - 1)
  }

  /** The exponential backoff after a rate-limited attempt k. */
  function RateLimitWait(k: nat): nat {
    2 * Pow2(k)
  }

  function Min(a: int, b: int): int { if a <= b then a else b }

  function Max(a: int, b: int): int { if a >= b then a else b }

  /** How an attempt ends, given what its call yielded; `accept` judges the content. */
  function Classify(o: CallOutcome, accept: string -> bool): AttemptKind {
    match o
    case Reply(content) => if accept(content) then Passed else QualityRejected
    case RateLimited => RateLimitHit
    case ApiFailure => ApiErrorHit
    case OtherFailure => OtherErrorHit
  }

  /** The exception raised when the last attempt ends without an accepted reply. */
  function FinalError(kind: AttemptKind): (e: RequestError)
    ensures e == RateLimitExceeded <==> kind == RateLimitHit
    ensures e == ApiErrorAfterRetries <==> kind == ApiErrorHit
    ensures e == RequestFailed(true) <==> kind == QualityRejected
    ensures e.RateLimitExceeded? || e.ApiErrorAfterRetries? || e.RequestFailed?
  {
    match kind
    case RateLimitHit => RateLimitExceeded
    case ApiErrorHit => ApiErrorAfterRetries
    case QualityRejected => RequestFailed(true)
    case _ => RequestFailed(false)
  }

  /** The seconds a handler waits after failed attempt k before the next one. */
  function Backoff(kind: AttemptKind, k: nat): (w: nat)
    ensures w > 0 <==> kind == RateLimitHit || kind == ApiErrorHit || kind == OtherErrorHit
    ensures kind == RateLimitHit ==> w == 2 * Pow2(k)
    ensures kind == ApiErrorHit ==> w == ApiErrorWait
    ensures kind == OtherErrorHit ==> w == OtherErrorWait
  {
    match kind
    case RateLimitHit => RateLimitWait(k)
    case ApiErrorHit => ApiErrorWait
    case OtherErrorHit => OtherErrorWait
    case _ => 0
  }

  /** The pause every attempt after the first starts with. */
  function Delay(k: nat): nat {
    if k > 0 then RetryDelay else 0
  }

  /** Only a quality failure changes the temperature for the next attempt. */
  function NextTemperature(temp: int, kind: AttemptKind): (t: int)
    ensures kind != QualityRejected ==> t == temp
    ensures kind == QualityRejected ==> t <= MaxTemperature && (temp < MaxTemperature ==> t == temp + 1)
    ensures temp <= MaxTemperature ==> temp <= t <= MaxTemperature
  {
    if kind == QualityRejected then Min(MaxTemperature, temp + 1) else temp
  }

  /** The attempts from `k` to `maxRetries`, started at temperature `temp`. */
  function RetryFrom(script: Script, accept: string -> bool, maxRetries: int, k: nat, temp: int): (run: RetryRun)
    requires k <= maxRetries
    ensures 1 <= |run.attempts| <= maxRetries - k + 1
    ensures forall j: nat :: k <= j < k + |run.attempts| - 1 ==> Classify(script(j), accept) != Passed
    ensures run.end.Returned? ==>
      run.end.call == k + |run.attempts| - 1 && Classify(script(run.end.call), accept) == Passed
    ensures run.end.Raised? ==>
      && |run.attempts| == maxRetries - k + 1
      && Classify(script(maxRetries), accept) != Passed
      && run.end.error == FinalError(Classify(script(maxRetries), accept))
    ensures forall i :: 0 <= i < |run.attempts| ==> run.attempts[i].temperature <= Max(temp, MaxTemperature)
    decreases maxRetries - k
  {
    var kind := Classify(script(k), accept);
    if kind == Passed then
      RetryRun(Returned(k), [Attempt(temp, Delay(k), Passed, 0)])
    else if k == maxRetries then
      RetryRun(Raised(FinalError(kind)), [Attempt(temp, Delay(k), kind, 0)])
    else
      var rest := RetryFrom(script, accept, maxRetries, k + 1, NextTemperature(temp, kind));
      RetryRun(rest.end, [Attempt(temp, Delay(k), kind, Backoff(kind, k))] + rest.attempts)
  }

  /** The source's acceptance test of a reply: its stripped content passes the gate. */
  predicate Acceptable(content: string) {
    ValidateResponseQuality(Strip(content))
  }

  /** The value `get_openai_response` returns, with the index of the call whose reply it
      is, or the exception it raises. */
  datatype Response = Accepted(text: string, call: nat) | Failed(error: RequestError)

  datatype OpenAIRun = OpenAIRun(response: Response, attempts: seq<Attempt>)

  /** `get_openai_response`: attempts 0 to `maxRetries`, each call answered by `script`;
      the value returned is the stripped content of the accepted reply. */
  function GetOpenAIResponse(script: Script, maxRetries: int, temperature: int): (run: OpenAIRun)
    ensures |run.attempts| <= Max(0, maxRetries + 1)
    ensures maxRetries >= 0 ==> |run.attempts| >= 1
    ensures run.response.Accepted? ==>
      && |run.attempts| == run.response.call + 1
      && script(run.response.call).Reply?
      && run.response.text == Strip(script(run.response.call).content)
      && ValidateResponseQuality(run.response.text)
    ensures run.response.Failed? ==> |run.attempts| == Max(0, maxRetries + 1)
    ensures run.response.Failed? && maxRetries >= 0 ==>
      run.response.error == FinalError(Classify(script(maxRetries), Acceptable))
    ensures maxRetries < 0 ==> run.response == Failed(RetriesExhausted)
    ensures temperature <= MaxTemperature ==>
      forall i :: 0 <= i < |run.attempts| ==> run.attempts[i].temperature <= MaxTemperature
    ensures maxRetries >= 0 ==>
      var loop := RetryFrom(script, Acceptable, maxRetries, 0, temperature);
      run.attempts == loop.attempts && (run.response.Accepted? <==> loop.end.Returned?)
  {
    if maxRetries < 0 then OpenAIRun(Failed(RetriesExhausted), [])
    else
      var loop := RetryFrom(script, Acceptable, maxRetries, 0, temperature);
      match loop.end
      case Returned(n) => OpenAIRun(Accepted(Strip(script(n).content), n), loop.attempts)
      case Raised(e) => OpenAIRun(Failed(e), loop.attempts)
  }

  /** When the loop from `k` raises, no call from `k` on was accepted. */
  lemma {:induction false} RaisesOnlyWithoutAcceptedReply(script: Script, accept: string -> bool, maxRetries: int, k: nat, temp: int)
    requires k <= maxRetries
    requires RetryFrom(script, accept, maxRetries, k, temp).end.Raised?
    ensures forall j: nat :: k <= j <= maxRetries ==> Classify(script(j), accept) != Passed
    decreases maxRetries - k
  {
    var kind := Classify(script(k), accept);
    if k < maxRetries && kind != Passed {
      RaisesOnlyWithoutAcceptedReply(script, accept, maxRetries, k + 1, NextTemperature(temp, kind));
    }
  }

  /** The loop returns exactly when some call within the budget passes the gate. */
  lemma LoopReturnsIffSomePass(script: Script, accept: string -> bool, maxRetries: int, temp: int)
    requires 0 <= maxRetries
    ensures RetryFrom(script, accept, maxRetries, 0, temp).end.Returned?
      <==> exists j: nat :: j <= maxRetries && Classify(script(j), accept) == Passed
  {
    if RetryFrom(script, accept, maxRetries, 0, temp).end.Raised? {
      RaisesOnlyWithoutAcceptedReply(script, accept, maxRetries, 0, temp);
    }
  }

  /** The run is accepted exactly when some call within the budget is answered by a
      reply whose stripped text passes the quality gate, and it returns the first
      such reply. */
  lemma AcceptedIffSomeGoodReply(script: Script, maxRetries: int, temperature: int)
    ensures GetOpenAIResponse(script, maxRetries, temperature).response.Accepted?
      <==> exists j: nat :: j <= maxRetries && script(j).Reply? && Acceptable(script(j).content)
    ensures GetOpenAIResponse(script, maxRetries, temperature).response.Accepted? ==>
      var n := GetOpenAIResponse(script, maxRetries, temperature).response.call;
      forall j: nat :: j < n ==> !(script(j).Reply? && Acceptable(script(j).content))
  {
    if maxRetries >= 0 {
      LoopReturnsIffSomePass(script, Acceptable, maxRetries, temperature);
      forall j: nat
        ensures Classify(script(j), Acceptable) == Passed <==> script(j).Reply? && Acceptable(script(j).content)
      {
      }
    }
  }

  /** Quality failures among the calls `from` up to, not including, `to`. */
  function QualityFailures(script: Script, accept: string -> bool, from: nat, to: nat): nat
    decreases to - from
  {
    if from >= to then 0
    else
      var here := if Classify(script(from), accept) == QualityRejected then 1 else 0;
      here + QualityFailures(script, accept, from + 1, to)
  }

  /** The temperature after `q` quality failures: each one raises it by a tenth,
      capped at 0.9. */
  function RaisedTemperature(temp: int, q: nat): int {
    if q == 0 then temp else Min(MaxTemperature, temp + q)
  }

  /** One quality failure then `q` more raise the temperature as `q + 1` at once. */
  lemma RaisedTemperatureStep(temp: int, kind: AttemptKind, q: nat)
    ensures RaisedTemperature(NextTemperature(temp, kind), q)
      == RaisedTemperature(temp, (if kind == QualityRejected then 1 else 0) + q)
  {
  }

  /** Attempt `j` of the loop started at attempt `k`: it is sent at the starting
      temperature raised once per quality failure before it (rate-limit and error
      retries leave the temperature as it is), it sleeps 2 seconds first unless it is
      attempt 0, it ends as its call's outcome dictates, and unless it is the last it
      is followed by its handler's wait: 2·2^j seconds after a rate limit, 3 after an
      API error, 2 after any other error. */
  lemma {:induction false} AttemptRecord(script: Script, accept: string -> bool, maxRetries: int, k: nat, temp: int, j: nat)
    requires k <= maxRetries
    requires k <= j < k + |RetryFrom(script, accept, maxRetries, k, temp).attempts|
    ensures var run := RetryFrom(script, accept, maxRetries, k, temp);
      run.attempts[j - k] == Attempt(
        RaisedTemperature(temp, QualityFailures(script, accept, k, j)),
        Delay(j),
        Classify(script(j), accept),
        if j < k + |run.attempts| - 1 then Backoff(Classify(script(j), accept), j) else 0)
    decreases maxRetries - k
  {
    var run := RetryFrom(script, accept, maxRetries, k, temp);
    var kind := Classify(script(k), accept);
    if j > k {
      var temp' := NextTemperature(temp, kind);
      var rest := RetryFrom(script, accept, maxRetries, k + 1, temp');
      assert run.attempts == [Attempt(temp, Delay(k), kind, Backoff(kind, k))] + rest.attempts;
      AttemptRecord(script, accept, maxRetries, k + 1, temp', j);
      assert run.attempts[j - k] == rest.attempts[j - (k + 1)];
      RaisedTemperatureStep(temp, kind, QualityFailures(script, accept, k + 1, j));
    }
  }

  /** The rate-limit wait of the retry loop: a rate limit on attempt j that is not
      the last is followed by a wait of 2·2^j seconds, whatever the quality gate. */
  lemma RateLimitBackoff(script: Script, accept: string -> bool, maxRetries: int, temperature: int, j: nat)
    requires 0 <= maxRetries
    requires j < |RetryFrom(script, accept, maxRetries, 0, temperature).attempts| - 1
    requires script(j).RateLimited?
    ensures RetryFrom(script, accept, maxRetries, 0, temperature).attempts[j].backoff == 2 * Pow2(j)
  {
    AttemptRecord(script, accept, maxRetries, 0, temperature, j);
  }

  /** The three stages of `get_enhanced_suggestions`. */
  datatype Stage = Primary | Enhanced | Simple

  /** The call script as seen by a stage that starts after `offset` earlier calls. */
  function Shift(script: Script, offset: nat): Script {
    (n: nat) => script(offset + n)
  }

  const DefaultMaxRetries: int := 2
  const FirstStageMinLength: nat := 400
  const SecondStageMinLength: nat := 300

  /** A response of a stage whose calls start after `offset` earlier ones, with its
      call index counted from the first call of the whole request. */
  function Rebase(r: Response, offset: nat): Response {
    match r
    case Accepted(text, call) => Accepted(text, offset + call)
    case Failed(e) => Failed(e)
  }

  /** One stage: `get_openai_response` with the default retries at the stage's
      temperature, its calls starting after `offset` earlier ones. It returns the
      stripped text of the first good reply among its three calls, and fails exactly
      when there is none. */
  function RunStage(script: Script, offset: nat, temperature: int): (run: OpenAIRun)
    ensures |run.attempts| <= DefaultMaxRetries + 1
    ensures run.response.Accepted? ==> ValidateResponseQuality(run.response.text)
    ensures run.response.Accepted? <==>
      exists j: nat :: j <= DefaultMaxRetries && Shift(script, offset)(j).Reply?
        && Acceptable(Shift(script, offset)(j).content)
    ensures run.response.Accepted? ==> forall j: nat :: j < run.response.call ==>
      !(Shift(script, offset)(j).Reply? && Acceptable(Shift(script, offset)(j).content))
    ensures run.response.Accepted? ==>
      && run.response.call <= DefaultMaxRetries
      && Shift(script, offset)(run.response.call).Reply?
      && run.response.text == Strip(Shift(script, offset)(run.response.call).content)
  {
    AcceptedIffSomeGoodReply(Shift(script, offset), DefaultMaxRetries, temperature);
    GetOpenAIResponse(Shift(script, offset), DefaultMaxRetries, temperature)
  }

  /** A stage's answer is good enough to return when it is non-empty and at least
      `minLength` characters long once stripped. */
  predicate LongEnough(text: string, minLength: nat) {
    text != [] && |Strip(text)| >= minLength
  }

  /** The outcome of `get_enhanced_suggestions`: the suggestion, or the single failure
      raised when any stage raises, plus the stages whose prompt was sent and the
      number of calls made. */
  datatype EnhancedRun = EnhancedRun(response: Response, stages: seq<Stage>, calls: nat)

  /** The simple prompt at 0.9, sent after `offset` calls. */
  function SimpleStage(script: Script, offset: nat): (r: EnhancedRun)
    ensures r.stages == [Simple] && r.calls <= DefaultMaxRetries + 1
    ensures r.response.Accepted? ==> ValidateResponseQuality(r.response.text)
    ensures r.response.Failed? ==> r.response.error == StrategiesFailed
    ensures var third := RunStage(script, offset, 9);
      && (r.response.Accepted? <==> third.response.Accepted?)
      && (third.response.Accepted? ==> r.response == Rebase(third.response, offset))
  {
    var third := RunStage(script, offset, 9);
    var response := if third.response.Accepted? then Rebase(third.response, offset) else Failed(StrategiesFailed);
    EnhancedRun(response, [Simple], |third.attempts|)
  }

  /** Lines 285-303: the simple prompt sent after an enhanced stage of `n2` calls whose
      answer was too short. */
  function ThenSimpleStage(script: Script, offset: nat, n2: nat): (r: EnhancedRun)
    ensures r.stages == [Enhanced, Simple]
    ensures r.calls <= n2 + DefaultMaxRetries + 1
    ensures r.response == SimpleStage(script, offset + n2).response
  {
    var rest := SimpleStage(script, offset + n2);
    EnhancedRun(rest.response, [Enhanced, Simple], n2 + rest.calls)
  }

  /** The enhanced prompt at 0.8, sent after `offset` calls, falling back to the
      simple prompt when its answer is too short. Every reply the retry loop returns
      already has 300 stripped characters, so that fallback is never taken: the simple
      prompt is never sent. */
  function EnhancedStage(script: Script, offset: nat): (r: EnhancedRun)
    ensures r.stages == [Enhanced]
    ensures r.calls <= DefaultMaxRetries + 1
    ensures r.response.Accepted? ==>
      ValidateResponseQuality(r.response.text) && |Strip(r.response.text)| >= SecondStageMinLength
    ensures r.response.Failed? ==> r.response.error == StrategiesFailed
    ensures var second := RunStage(script, offset, 8);
      && (r.response.Accepted? <==> second.response.Accepted?)
      && (second.response.Accepted? ==> r.response == Rebase(second.response, offset))
  {
    var second := RunStage(script, offset, 8);
    var n2: nat := |second.attempts|;
    match second.response
    case Failed(_) => EnhancedRun(Failed(StrategiesFailed), [Enhanced], n2)
    case Accepted(s2, _) =>
      if LongEnough(s2, SecondStageMinLength) then EnhancedRun(Rebase(second.response, offset), [Enhanced], n2)
      else ThenSimpleStage(script, offset, n2)
  }

  /** Lines 256-283 after a primary prompt of `n1` calls whose answer was too short:
      the enhanced stage's response, with both stages recorded. */
  function ThenEnhancedStage(script: Script, n1: nat): (r: EnhancedRun)
    ensures r.stages == [Primary, Enhanced]
    ensures r.calls <= n1 + DefaultMaxRetries + 1
    ensures r.response == EnhancedStage(script, n1).response
  {
    var rest := EnhancedStage(script, n1);
    EnhancedRun(rest.response, [Primary, Enhanced], n1 + rest.calls)
  }

  /** What `get_enhanced_suggestions` does with the outcome `first` of its primary
      prompt: return it when it is at least 400 characters long once stripped,
      otherwise fall back to the enhanced prompt; a failure of any stage becomes the
      one exception the function raises. */
  function AfterFirstStage(script: Script, first: OpenAIRun): (r: EnhancedRun)
    requires first.response.Accepted? ==> ValidateResponseQuality(first.response.text)
    ensures 1 <= |r.stages| <= 2 && r.stages[0] == Primary && Simple !in r.stages
    ensures r.calls <= |first.attempts| + DefaultMaxRetries + 1
    ensures r.response.Accepted? ==>
      ValidateResponseQuality(r.response.text) && |Strip(r.response.text)| >= MinResponseLength
    ensures r.response.Failed? ==> r.response.error == StrategiesFailed
    ensures first.response.Accepted? && |Strip(first.response.text)| >= FirstStageMinLength ==>
      r.response == first.response && r.stages == [Primary]
    ensures first.response.Accepted? && |Strip(first.response.text)| < FirstStageMinLength ==>
      r.stages == [Primary, Enhanced] && r.response == EnhancedStage(script, |first.attempts|).response
    ensures first.response.Failed? ==> r.response.Failed? && r.stages == [Primary]
  {
    var n1 := |first.attempts|;
    match first.response
    case Failed(_) => EnhancedRun(Failed(StrategiesFailed), [Primary], n1)
    case Accepted(s1, _) =>
      if LongEnough(s1, FirstStageMinLength) then EnhancedRun(first.response, [Primary], n1)
      else
        ThenEnhancedStage(script, n1)
  }

  /** `get_enhanced_suggestions`: the primary prompt at 0.7 and what follows it. The
      simple prompt is never sent. */
  function GetEnhancedSuggestions(script: Script): (r: EnhancedRun)
    ensures 1 <= |r.stages| <= 2 && r.stages[0] == Primary && Simple !in r.stages
    ensures r.calls <= 2 * (DefaultMaxRetries + 1)
    ensures r.response.Accepted? ==>
      ValidateResponseQuality(r.response.text) && |Strip(r.response.text)| >= MinResponseLength
    ensures r.response.Failed? ==> r.response.error == StrategiesFailed
    ensures var first := RunStage(script, 0, 7);
      r.response.Accepted? <==>
        || (first.response.Accepted? && |Strip(first.response.text)| >= FirstStageMinLength)
        || (first.response.Accepted? && EnhancedStage(script, |first.attempts|).response.Accepted?)
    ensures var first := RunStage(script, 0, 7);
      first.response.Accepted? && |Strip(first.response.text)| >= FirstStageMinLength ==>
        r.response == first.response
  {
    AfterFirstStage(script, RunStage(script, 0, 7))
  }
}
