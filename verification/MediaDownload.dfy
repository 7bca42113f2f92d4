/** A bounded, retrying download: the per-response limit, the shared budget and
    the retry loop around them. */
module MediaDownload {
  import opened Wrappers
  import opened MediaBudget

  const MIB := 1024 * 1024

  datatype Error =
    | SizeExceeded(mediaLimit: bool, maxBytes: int, received: int)
    | BudgetExceeded(received: int)
    | TimedOut
    | ConnectionFailed
    | PayloadFailed
    | Disconnected
    | HttpStatus(code: int)
    | Other

  datatype Result<+T> = Ok(value: T) | Err(error: Error)

  predicate IsRetryable(e: Error) {
    match e
    case TimedOut => true
    case ConnectionFailed => true
    case PayloadFailed => true
    case Disconnected => true
    case HttpStatus(code) => code >= 500
    case _ => false
  }

  predicate SizeError(e: Error) { e.SizeExceeded? || e.BudgetExceeded? }

  // ---- Limits --------------------------------------------------------------------

  function MediaLimit(maxMb: int): Option<int> {
    if maxMb <= 0 then None else Some(maxMb * MIB)
  }

  /** The limit of one response, and whether it is the media limit. */
  function ResponseLimit(maxBytes: Option<int>, maxMb: int): (r: (Option<int>, bool))
    ensures r.0.None? <==> maxBytes.None? && maxMb <= 0
    ensures maxBytes.Some? && r.0.Some? ==> r.0.value <= maxBytes.value
    ensures maxMb > 0 ==> r.0.Some? && r.0.value <= maxMb * 1_048_576
    ensures r.0.Some? ==> r.0 == maxBytes || (maxMb > 0 && r.0.value == maxMb * 1_048_576)
    ensures r.1 <==> maxMb > 0 && r.0 == Some(maxMb * 1_048_576)
  {
    var media := MediaLimit(maxMb);
    if media.Some? && (maxBytes.None? || media.value <= maxBytes.value) then (media, true) else (maxBytes, false)
  }

  predicate Exceeds(limit: Option<int>, n: int) { limit.Some? && n > limit.value }

  // ---- The budget ---------------------------------------------------------------------

  /** `used` after another download asks for `more`: charged if it fits. */
  function Rival(limitMb: int, used: nat, more: nat): (u: nat)
    ensures used <= u && (limitMb > 0 && used <= limitMb * 1_048_576 ==> u <= limitMb * 1_048_576)
  {
    if limitMb > 0 && used + more <= limitMb * MIB then used + more else used
  }

  /** The budget of a request, as one of its downloads sees it: `mine` is what
      this download has charged, `others` what all the rest have; `charges` is
      what the rest ask for, in order, and `turn` how far they have come. */
  class Budget {
    const limitMb: int
    const charges: nat -> nat
    var used: nat
    var turn: nat
    ghost var mine: nat
    ghost var others: nat

    ghost predicate Valid()
      reads this
    {
      used == mine + others && (limitMb > 0 ==> used <= limitMb * MIB)
    }

    constructor (limitMb: int, charges: nat -> nat)
      ensures Valid() && used == 0 && turn == 0 && this.limitMb == limitMb && this.charges == charges && mine == 0
    {
      this.limitMb, this.charges := limitMb, charges;
      used, turn, mine, others := 0, 0, 0, 0;
    }

    /** The critical section. */
    method Charge(size: nat) returns (r: Result<()>)
      requires Valid()
      modifies this
      ensures Valid() && others == old(others) && turn == old(turn)
      ensures r.Ok? <==> limitMb <= 0 || old(used) + size <= limitMb * 1_048_576
      ensures r.Ok? && limitMb > 0 ==> used == old(used) + size && mine == old(mine) + size
      ensures r.Err? || limitMb <= 0 ==> used == old(used) && mine == old(mine)
      ensures r.Err? ==> r.error == BudgetExceeded(old(used) + size)
    {
      if limitMb <= 0 { return Ok(()); }
      var limit := limitMb * MIB;
      var received := used + size;
      if received > limit { return Err(BudgetExceeded(received)); }
      used := received;
      mine := mine + size;
      return Ok(());
    }

    /** Another download of the request charges in between. */
    method Interfere()
      requires Valid()
      modifies this
      ensures Valid() && mine == old(mine) && turn == old(turn) + 1 && used == Rival(limitMb, old(used), charges(old(turn)))
    {
      var now := Rival(limitMb, used, charges(turn));
      others := others + (now - used);
      used, turn := now, turn + 1;
    }
  }

  // ---- Reading one response -----------------------------------------------------------------

  /** A response: what opening it or its status raised, the advertised length if
      it parses, the chunks it yields, and what iterating raised after them. */
  datatype Response = Response(opening: Option<Error>, contentLength: Option<int>, chunks: seq<Bytes>, failure: Option<Error>)

  function Join(chunks: seq<Bytes>): (b: Bytes) {
    if |chunks| == 0 then [] else Join(chunks[..|chunks|-1]) + chunks[|chunks|-1]
  }

  /** Errors the transport raises are not our own size errors. */
  ghost predicate Transport(r: Response) {
    (r.opening.Some? ==> !SizeError(r.opening.value)) && (r.failure.Some? ==> !SizeError(r.failure.value))
  }

  lemma JoinNext(chunks: seq<Bytes>, i: nat)
    requires i < |chunks|
    ensures Join(chunks[..i + 1]) == Join(chunks[..i]) + chunks[i]
  {
    assert chunks[..i + 1][..i] == chunks[..i];
  }

  lemma JoinGrows(chunks: seq<Bytes>, i: nat)
    requires i <= |chunks|
    ensures |Join(chunks[..i])| <= |Join(chunks)|
    decreases |chunks| - i
  {
    if i < |chunks| {
      JoinNext(chunks, i);
      JoinGrows(chunks, i + 1);
    } else {
      assert chunks[..i] == chunks;
    }
  }

  /** What a budget charges: nothing when there is no budget or no limit. */
  ghost function Billed(budget: Budget?, n: nat): nat {
    if budget != null && budget.limitMb > 0 then n else 0
  }

  /** `used` after the first `n` chunks, another download asking before each. */
  ghost function Spent(limitMb: int, charges: nat -> nat, turn: nat, used: nat, chunks: seq<Bytes>, n: nat): nat
    requires n <= |chunks|
  {
    if n == 0 then used
    else Rival(limitMb, Spent(limitMb, charges, turn, used, chunks, n - 1), charges(turn + n - 1)) + |chunks[n - 1]|
  }

  /** The budget covers every one of the first `n` chunks that is not empty. */
  ghost predicate Covered(limitMb: int, charges: nat -> nat, turn: nat, used: nat, chunks: seq<Bytes>, n: nat)
    requires n <= |chunks|
  {
    limitMb > 0 ==>
      forall i :: 0 <= i < n && |chunks[i]| > 0 ==> Spent(limitMb, charges, turn, used, chunks, i + 1) <= limitMb * 1_048_576
  }

  ghost predicate Affordable(limitMb: int, charges: nat -> nat, turn: nat, used: nat, chunks: seq<Bytes>) {
    Covered(limitMb, charges, turn, used, chunks, |chunks|)
  }

  lemma CoveredNext(limitMb: int, charges: nat -> nat, turn: nat, used: nat, chunks: seq<Bytes>, i: nat)
    requires i < |chunks| && limitMb > 0 && Covered(limitMb, charges, turn, used, chunks, i)
    ensures var now := Rival(limitMb, Spent(limitMb, charges, turn, used, chunks, i), charges(turn + i)) + |chunks[i]|;
      && Spent(limitMb, charges, turn, used, chunks, i + 1) == now
      && (if |chunks[i]| == 0 || now <= limitMb * 1_048_576 then Covered(limitMb, charges, turn, used, chunks, i + 1)
          else !Affordable(limitMb, charges, turn, used, chunks))
  {}

  /** Neither the advertised length nor the body goes over the limit. */
  ghost predicate Admitted(resp: Response, limit: Option<int>) {
    limit.Some? ==>
      && (resp.contentLength.Some? ==> resp.contentLength.value <= limit.value)
      && (|Join(resp.chunks)| == 0 || |Join(resp.chunks)| <= limit.value)
  }

  /** When nobody else charges, the budget covers a body exactly when what is left
      of it is at least as long. */
  lemma AffordableAlone(limitMb: int, charges: nat -> nat, turn: nat, used: nat, chunks: seq<Bytes>)
    requires limitMb > 0 && used <= limitMb * 1_048_576 && forall n :: charges(n) == 0
    ensures Affordable(limitMb, charges, turn, used, chunks) <==> |Join(chunks)| == 0 || used + |Join(chunks)| <= limitMb * 1_048_576
  {
    assert chunks[..|chunks|] == chunks;
    if used + |Join(chunks)| <= limitMb * 1_048_576 {
      forall i | 0 <= i < |chunks| && |chunks[i]| > 0
        ensures Spent(limitMb, charges, turn, used, chunks, i + 1) <= limitMb * 1_048_576
      {
        JoinGrows(chunks, i + 1);
        SpentAlone(limitMb, charges, turn, used, chunks, i + 1);
      }
    } else {
      var i := FirstOver(limitMb, used, chunks);
      JoinNext(chunks, i);
      SpentAlone(limitMb, charges, turn, used, chunks, i);
      assert Spent(limitMb, charges, turn, used, chunks, i + 1) > limitMb * 1_048_576;
    }
  }

  lemma {:induction false} SpentAlone(limitMb: int, charges: nat -> nat, turn: nat, used: nat, chunks: seq<Bytes>, i: nat)
    requires i <= |chunks| && limitMb > 0 && forall n :: charges(n) == 0
    requires used + |Join(chunks[..i])| <= limitMb * 1_048_576
    ensures Spent(limitMb, charges, turn, used, chunks, i) == used + |Join(chunks[..i])|
  {
    if i > 0 {
      JoinNext(chunks, i - 1);
      SpentAlone(limitMb, charges, turn, used, chunks, i - 1);
    }
  }

  lemma SpentNone(budget: Budget?, chunks: seq<Bytes>)
    ensures Join([]) == [] && Join(chunks[..0]) == []
    ensures budget != null ==> Spent(budget.limitMb, budget.charges, budget.turn, budget.used, chunks, 0) == budget.used
  {}

  /** The first chunk that takes the body over what is left. */
  lemma FirstOver(limitMb: int, used: nat, chunks: seq<Bytes>) returns (i: nat)
    requires used <= limitMb * 1_048_576 < used + |Join(chunks)|
    ensures i < |chunks| && used + |Join(chunks[..i])| <= limitMb * 1_048_576 < used + |Join(chunks[..i + 1])|
  {
    i := 0;
    assert chunks[..|chunks|] == chunks;
    while used + |Join(chunks[..i + 1])| <= limitMb * 1_048_576
      invariant i < |chunks| && used + |Join(chunks[..i])| <= limitMb * 1_048_576
      decreases |chunks| - i
    {
      i := i + 1;
    }
  }

  /** `_append_chunk`: size check, charge, append. An empty chunk is passed over; any
      other is taken exactly when it fits the limit and the budget, and a
      rejected one leaves both the budget and the chunk list as they were. */
  method AppendChunk(chunks0: seq<Bytes>, chunk: Bytes, received0: nat, limit: Option<int>, media: bool, budget: Budget?)
    returns (r: Result<nat>, chunks: seq<Bytes>)
    requires budget != null ==> budget.Valid()
    modifies if budget != null then {budget} else {}
    ensures budget != null ==> budget.Valid() && budget.turn == old(budget.turn)
    ensures r.Ok? <==> |chunk| == 0 || ((limit.Some? ==> received0 + |chunk| <= limit.value)
                                        && (budget != null && budget.limitMb > 0 ==> old(budget.used) + |chunk| <= budget.limitMb * 1_048_576))
    ensures r.Ok? ==> r.value == received0 + |chunk| && Join(chunks) == Join(chunks0) + chunk
    ensures r.Ok? && budget != null ==> budget.mine == old(budget.mine) + Billed(budget, |chunk|)
    ensures r.Ok? && budget != null ==> budget.used == old(budget.used) + Billed(budget, |chunk|)
    ensures r.Err? ==> chunks == chunks0 && SizeError(r.error)
    ensures r.Err? && budget != null ==>
      budget.used == old(budget.used) && budget.mine == old(budget.mine) && budget.others == old(budget.others)
  {
    if |chunk| == 0 {
      return Ok(received0), chunks0;
    }
    var received := received0 + |chunk|;
    if Exceeds(limit, received) {
      return Err(SizeExceeded(media, limit.value, received)), chunks0;
    }
    if budget != null {
      var c := budget.Charge(|chunk|);
      if c.Err? { return Err(c.error), chunks0; }
    }
    chunks := chunks0 + [chunk];
    assert chunks[..|chunks0|] == chunks0;
    return Ok(received), chunks;
  }

  /** `_read_response_bytes`, with other downloads charging the same budget. The
      second result is the number of bytes appended before it returned. When the
      response stays within the limit and the budget covers it, the result is the
      whole body, or what the transport raised; otherwise it is a size error. */
  method ReadResponse(resp: Response, maxBytes: Option<int>, maxMb: int, budget: Budget?)
    returns (r: Result<Bytes>, appended: nat)
    requires budget != null ==> budget.Valid()
    requires resp.opening.None? && Transport(resp)
    modifies if budget != null then {budget} else {}
    ensures budget != null ==> budget.Valid() && budget.mine == old(budget.mine) + Billed(budget, appended)
    ensures var fits := Admitted(resp, ResponseLimit(maxBytes, maxMb).0)
                        && (budget != null ==> Affordable(budget.limitMb, budget.charges, old(budget.turn), old(budget.used), resp.chunks));
      if fits then r == (if resp.failure.Some? then Err(resp.failure.value) else Ok(Join(resp.chunks)))
      else r.Err? && SizeError(r.error)
    ensures r.Ok? && (budget != null || ResponseLimit(maxBytes, maxMb).0.Some?) ==> appended == |r.value|
  {
    hide Affordable, Spent, Transport;
    var (limit, media) := ResponseLimit(maxBytes, maxMb);
    appended := 0;
    if limit.None? && budget == null {
      if resp.failure.Some? { return Err(resp.failure.value), 0; }
      return Ok(Join(resp.chunks)), 0;
    }
    if resp.contentLength.Some? && Exceeds(limit, resp.contentLength.value) {
      return Err(SizeExceeded(media, limit.value, resp.contentLength.value)), 0;
    }
    r, appended := ReadChunks(resp, limit, media, budget);
  }

  /** The loop over the chunks, once the advertised length has passed. */
  method ReadChunks(resp: Response, limit: Option<int>, media: bool, budget: Budget?)
    returns (r: Result<Bytes>, appended: nat)
    requires budget != null ==> budget.Valid()
    modifies if budget != null then {budget} else {}
    ensures budget != null ==> budget.Valid() && budget.mine == old(budget.mine) + Billed(budget, appended)
    ensures var fits := (limit.Some? ==> |Join(resp.chunks)| == 0 || |Join(resp.chunks)| <= limit.value)
                        && (budget != null ==> Affordable(budget.limitMb, budget.charges, old(budget.turn), old(budget.used), resp.chunks));
      if fits then r == (if resp.failure.Some? then Err(resp.failure.value) else Ok(Join(resp.chunks)))
      else r.Err? && SizeError(r.error)
    ensures r.Ok? ==> appended == |r.value|
  {
    hide Join, Spent, Rival;
    appended := 0;
    var chunks: seq<Bytes> := [];
    SpentNone(budget, resp.chunks);
    for i := 0 to |resp.chunks|
      invariant Join(chunks) == Join(resp.chunks[..i]) && appended == |Join(chunks)|
      invariant limit.Some? && appended > limit.value ==> appended == 0
      invariant budget != null ==> budget.Valid() && budget.mine == old(budget.mine) + Billed(budget, appended)
      invariant budget != null ==> budget.turn == old(budget.turn) + i
      invariant budget != null && budget.limitMb > 0 ==>
        budget.used == Spent(budget.limitMb, budget.charges, old(budget.turn), old(budget.used), resp.chunks, i)
      invariant budget != null ==> Covered(budget.limitMb, budget.charges, old(budget.turn), old(budget.used), resp.chunks, i)
    {
      if budget != null {
        budget.Interfere();
        if budget.limitMb > 0 { CoveredNext(budget.limitMb, budget.charges, old(budget.turn), old(budget.used), resp.chunks, i); }
      }
      var c;
      c, chunks := AppendChunk(chunks, resp.chunks[i], appended, limit, media, budget);
      JoinNext(resp.chunks, i);
      JoinGrows(resp.chunks, i + 1);
      if c.Err? { return Err(c.error), appended; }
      appended := c.value;
    }
    assert resp.chunks[..|resp.chunks|] == resp.chunks;
    if resp.failure.Some? { return Err(resp.failure.value), appended; }
    return Ok(Join(chunks)), appended;
  }

  // ---- Retrying ------------------------------------------------------------------------------

  const BACKOFF_FACTOR := 4

  function Power(b: int, e: nat): int {
    if e == 0 then 1 else b * Power(b, e - 1)
  }

  function Sum(s: seq<int>): int {
    if |s| == 0 then 0 else Sum(s[..|s|-1]) + s[|s|-1]
  }

  /** k backoffs of 1, 4, 16, ... seconds sum to (4^k - 1) / 3. */
  lemma {:induction false} BackoffSum(s: seq<int>)
    requires forall k :: 0 <= k < |s| ==> s[k] == Power(BACKOFF_FACTOR, k)
    ensures 3 * Sum(s) == Power(BACKOFF_FACTOR, |s|) - 1
  {
    if |s| > 0 { BackoffSum(s[..|s|-1]); }
  }

  function MaxAttempts(retries: int): (n: nat)
    ensures n >= 1
  {
    if retries < 1 then 1 else retries
  }

  function Scaled(timeout: Option<real>, attempt: nat): Option<real> {
    if timeout.Some? then Some(timeout.value * (Power(BACKOFF_FACTOR, attempt) as real)) else None
  }

  /** What one attempt at a response comes to: what opening it raised; a size error
      when it goes over the limit; else the whole body, or what the transport
      raised, unless a budget ran out. */
  ghost predicate Answered(resp: Response, limit: Option<int>, budgeted: bool, out: Result<Bytes>) {
    if resp.opening.Some? then out == Err(resp.opening.value)
    else if !Admitted(resp, limit) then out.Err? && SizeError(out.error)
    else
      || out == (if resp.failure.Some? then Err(resp.failure.value) else Ok(Join(resp.chunks)))
      || (budgeted && out.Err? && SizeError(out.error))
  }

  /** The first timeout is the caller's, and each next one four times the last. */
  lemma TimeoutsGrow(timeout: real, attempt: nat)
    ensures Scaled(None, attempt) == None && Scaled(Some(timeout), 0) == Some(timeout)
    ensures Scaled(Some(timeout), attempt).Some? && Scaled(Some(timeout), attempt + 1).Some?
    ensures Scaled(Some(timeout), attempt + 1).value == 4.0 * Scaled(Some(timeout), attempt).value
  {
    var p := Power(4, attempt);
    FourTimes(timeout, p as real);
    assert Power(4, attempt + 1) == 4 * p && (4 * p) as real == 4.0 * (p as real);
    assert timeout * (Power(4, attempt + 1) as real) == timeout * (4.0 * (p as real));
  }

  lemma FourTimes(x: real, y: real)
    ensures x * (4.0 * y) == 4.0 * (x * y)
  {}

  /** One attempt: open, check the status, read. */
  method Attempt(resp: Response, maxBytes: Option<int>, maxMb: int, budget: Budget?)
    returns (r: Result<Bytes>, appended: nat)
    requires budget != null ==> budget.Valid()
    requires Transport(resp)
    modifies if budget != null then {budget} else {}
    ensures budget != null ==> budget.Valid() && budget.mine == old(budget.mine) + Billed(budget, appended)
    ensures r.Ok? ==> resp.opening.None? && resp.failure.None? && r.value == Join(resp.chunks)
    ensures r.Ok? && budget != null ==> appended == |r.value|
    ensures r.Ok? ==> !Exceeds(ResponseLimit(maxBytes, maxMb).0, |r.value|) || |r.value| == 0
    ensures Answered(resp, ResponseLimit(maxBytes, maxMb).0, budget != null && budget.limitMb > 0, r)
  {
    if resp.opening.Some? { return Err(resp.opening.value), 0; }
    r, appended := ReadResponse(resp, maxBytes, maxMb, budget);
  }

  /** What the retry loop did: outcome, byte count and timeout of each attempt,
      and the backoffs slept between them. */
  datatype Trace = Trace(outcomes: seq<Result<Bytes>>, appended: seq<nat>, timeouts: seq<Option<real>>, backoffs: seq<int>)

  function SumNat(s: seq<nat>): nat {
    if |s| == 0 then 0 else SumNat(s[..|s|-1]) + s[|s|-1]
  }

  lemma SumSnoc(s: seq<nat>, x: nat)
    ensures SumNat(s + [x]) == SumNat(s) + x
  {
    assert (s + [x])[..|s|] == s;
  }

  /** A timeout, a failure of the connection or the transfer, or a 5xx status. */
  ghost predicate Transient(out: Result<Bytes>) {
    && out.Err?
    && (out.error in {TimedOut, ConnectionFailed, PayloadFailed, Disconnected} || (out.error.HttpStatus? && out.error.code >= 500))
  }

  lemma TransientIs(out: Result<Bytes>)
    ensures Transient(out) <==> out.Err? && IsRetryable(out.error)
    ensures Transient(out) ==> !SizeError(out.error)
  {}

  lemma OnlyLast(t: Trace, n: nat, timeout: Option<real>)
    requires Attempted(t, n, timeout)
    ensures forall k :: 0 <= k < n && t.outcomes[k].Err? && SizeError(t.outcomes[k].error) ==> k == n - 1
  {
    forall k | 0 <= k < n - 1 ensures t.outcomes[k].Err? && !SizeError(t.outcomes[k].error) { TransientIs(t.outcomes[k]); }
  }

  /** n attempts were made, and all but the last failed with a transient error. */
  ghost predicate Attempted(t: Trace, n: nat, timeout: Option<real>) {
    && |t.outcomes| == |t.appended| == |t.timeouts| == n
    && (forall k :: 0 <= k < n ==> t.timeouts[k] == Scaled(timeout, k))
    && (forall k :: 0 <= k < n - 1 ==> Transient(t.outcomes[k]))
  }

  ghost predicate Slept(t: Trace, n: nat) {
    |t.backoffs| == n && forall k :: 0 <= k < n ==> t.backoffs[k] == Power(4, k)
  }

  /** `_sync_retry` around `get_bytes`, the budget shared throughout. */
  method GetBytes(responses: seq<Response>, timeout: Option<real>, retries: int,
                  maxBytes: Option<int>, maxMb: int, budget: Budget?)
    returns (r: Result<Bytes>, attempts: nat, t: Trace)
    requires budget != null ==> budget.Valid()
    requires |responses| >= 1 && |responses| >= retries && forall k :: 0 <= k < |responses| ==> Transport(responses[k])
    modifies if budget != null then {budget} else {}
    ensures 1 <= attempts && (attempts == 1 || attempts <= retries)
    ensures Attempted(t, attempts, timeout) && Slept(t, attempts - 1) && t.outcomes[attempts - 1] == r
    ensures forall k :: 0 <= k < attempts && t.outcomes[k].Err? && SizeError(t.outcomes[k].error) ==> k == attempts - 1
    ensures forall k :: 0 <= k < attempts ==>
      Answered(responses[k], ResponseLimit(maxBytes, maxMb).0, budget != null && budget.limitMb > 0, t.outcomes[k])
    ensures 3 * Sum(t.backoffs) == Power(4, attempts - 1) - 1
    ensures r.Ok? ==> r.value == Join(responses[attempts - 1].chunks) && responses[attempts - 1].failure.None?
    ensures r.Ok? ==> !Exceeds(ResponseLimit(maxBytes, maxMb).0, |r.value|) || |r.value| == 0
    ensures Transient(r) ==> attempts >= retries
    ensures r.Ok? && budget != null ==> t.appended[attempts - 1] == |r.value|
    ensures budget != null ==> budget.Valid() && budget.mine == old(budget.mine) + Billed(budget, SumNat(t.appended))
  {
    hide Power, Join, Transport, SumNat, Sum, ResponseLimit, Answered, Scaled, Transient, SizeError;
    t := Trace([], [], [], []);
    NothingYet();
    var maxRetries := MaxAttempts(retries);
    for attempt := 0 to maxRetries
      invariant attempt < maxRetries
      invariant Attempted(t, attempt, timeout) && Slept(t, attempt)
      invariant attempt > 0 ==> Transient(t.outcomes[attempt - 1])
      invariant forall k :: 0 <= k < attempt ==>
        Answered(responses[k], ResponseLimit(maxBytes, maxMb).0, budget != null && budget.limitMb > 0, t.outcomes[k])
      invariant budget != null ==> budget.Valid() && budget.mine == old(budget.mine) + Billed(budget, SumNat(t.appended))
    {
      if budget != null { budget.Interfere(); }
      var attemptTimeout := Scaled(timeout, attempt);
      var appended;
      r, appended := Attempt(responses[attempt], maxBytes, maxMb, budget);
      SumSnoc(t.appended, appended);
      t := t.(outcomes := t.outcomes + [r], appended := t.appended + [appended], timeouts := t.timeouts + [attemptTimeout]);
      BackoffSum(t.backoffs);
      TransientIs(r);
      OnlyLast(t, attempt + 1, timeout);
      if r.Ok? { return r, attempt + 1, t; }
      if !IsRetryable(r.error) || attempt + 1 >= maxRetries { return r, attempt + 1, t; }
      t := t.(backoffs := t.backoffs + [Power(BACKOFF_FACTOR, attempt)]);
    }
    assert false;
  }

  lemma NothingYet()
    ensures SumNat([]) == 0
  {}
}
