/** Bounded restarts of a supervised provider: the backoff calculation and the restart loop. */
module Restart {
  import opened Text
  import opened Octets
  import opened Numbers

  const MAX_BACKOFF_MS: nat := 86_400_000

  datatype Mode = Never | OnFailure | Always

  datatype Config = Config(mode: Mode, maxAttempts: U32, backoffMs: U64)

  datatype Decision = NoRestart | Again(attempt: U32, delayMs: U64) | BudgetExhausted

  function Min(a: int, b: int): int { if a < b then a else b }
  function Max(a: int, b: int): int { if a < b then b else a }

  // ---------------------------------------------------------------- the jitter hash

  const FNV_OFFSET: nat := 0xcbf29ce484222325
  const FNV_PRIME: nat := 0x100000001b3
  const TWO_64: nat := 0x1_0000_0000_0000_0000

  /** One round of 64-bit FNV-1a; the multiplication wraps. */
  function FnvRound(hash: nat, b: byte): (r: nat)
    ensures r <= U64_MAX
  {
    (XorBits(hash, b, 64) * FNV_PRIME) % TWO_64
  }

  function Fnv(bytes: Bytes): (r: nat)
    ensures r <= U64_MAX
  {
    if bytes == [] then FNV_OFFSET else FnvRound(Fnv(bytes[..|bytes| - 1]), bytes[|bytes| - 1])
  }

  method Fnv1a64(bytes: Bytes) returns (hash: nat)
    ensures hash == Fnv(bytes) && hash <= U64_MAX
  {
    hide FnvRound;
    hash := FNV_OFFSET;
    for i := 0 to |bytes|
      invariant hash == Fnv(bytes[..i])
    {
      assert bytes[..i + 1][..i] == bytes[..i];
      hash := FnvRound(hash, bytes[i]);
    }
    assert bytes[..|bytes|] == bytes;
  }

  lemma {:induction false} XorBitsZero(a: nat, k: nat)
    requires a < Pow2(k)
    ensures XorBits(a, 0, k) == a
    decreases k
  {
    if k > 0 { XorBitsZero(a / 2, k - 1); }
  }

  lemma Pow2Of57()
    ensures Pow2(57) == 0x200_0000_0000_0000
  {
    hide Pow2;
    Pow2Of10();
    assert Pow2(7) == 128 by { Pow2Of7(); }
    Pow2Sum(10, 10);
    Pow2Sum(20, 10);
    Pow2Sum(30, 20);
    Pow2Sum(50, 7);
  }

  lemma Pow2Of7()
    ensures Pow2(7) == 128
  {
    assert Pow2(1) == 2 && Pow2(3) == 8 && Pow2(5) == 32;
  }

  lemma Pow2Of10()
    ensures Pow2(10) == 1024
  {
    assert Pow2(1) == 2 && Pow2(3) == 8 && Pow2(5) == 32 && Pow2(7) == 128 && Pow2(9) == 512;
  }

  /** The published FNV-1a vector of the one-letter text "a". */
  lemma FnvOfA()
    ensures Fnv([]) == 0xcbf29ce484222325 && Fnv([97]) == 0xaf63dc4c8601ec8c
  {
    hide XorBits, Pow2;
    assert [97][..0] == [];
    XorBitsParts(0xcbf29ce484222325, 97, 64);
    XorBitsParts(0x65f94e7242111192, 48, 63);
    XorBitsParts(0x32fca739210888c9, 24, 62);
    XorBitsParts(0x197e539c90844464, 12, 61);
    XorBitsParts(0xcbf29ce48422232, 6, 60);
    XorBitsParts(0x65f94e724211119, 3, 59);
    XorBitsParts(0x32fca739210888c, 1, 58);
    Pow2Of57();
    XorBitsZero(0x197e539c9084446, 57);
    assert XorBits(0xcbf29ce484222325, 97, 64) == 0xcbf29ce484222344;
  }

  // ---------------------------------------------------------------- the decision

  /** The backoff before the cap, as the saturating 64-bit arithmetic of the code computes it. */
  function Exponential(backoffMs: U64, attempt: U32): U64
    requires attempt >= 1
  {
    var exponent := if attempt - 1 < 63 then attempt - 1 else 63;
    var product := backoffMs * Pow2(exponent);
    if product > U64_MAX then U64_MAX else product
  }

  function Capped(backoffMs: U64, attempt: U32): U64
    requires attempt >= 1
  {
    if Exponential(backoffMs, attempt) > MAX_BACKOFF_MS then MAX_BACKOFF_MS else Exponential(backoffMs, attempt)
  }

  /** The capped backoff moved by the hash, at most a quarter of it or one millisecond, and clamped. */
  function Jittered(capped: U64, hash: U64): (d: U64)
    requires capped <= MAX_BACKOFF_MS
  {
    var window := if capped / 4 > 1 then capped / 4 else 1;
    var delay := capped + hash % (2 * window + 1) - window;
    if delay < 0 then 0 else if delay > MAX_BACKOFF_MS then MAX_BACKOFF_MS else delay
  }

  /** `decide_restart`; `hash` is the jitter hash of the seed and the attempt. */
  function Decide(config: Config, consumed: U32, success: bool, hash: U32 -> U64): Decision {
    if success || config.mode.Never? then NoRestart
    else if consumed >= config.maxAttempts then BudgetExhausted
    else
      var attempt: U32 := consumed + 1;
      Again(attempt, Jittered(Capped(config.backoffMs, attempt), hash(attempt)))
  }

  lemma {:induction false} Pow2Grows(i: nat, j: nat)
    requires i <= j
    ensures Pow2(i) <= Pow2(j)
    decreases j
  {
    if i < j { Pow2Grows(i, j - 1); }
  }

  lemma Pow2Of63()
    ensures Pow2(63) >= MAX_BACKOFF_MS
  {
    Pow2Of10();
    Pow2Sum(10, 10);
    Pow2Sum(20, 10);
    Pow2Grows(30, 63);
  }

  lemma {:induction false} Pow2Sum(i: nat, j: nat)
    ensures Pow2(i + j) == Pow2(i) * Pow2(j)
  {
    if j > 0 {
      Pow2Sum(i, j - 1);
      assert Pow2(i + j) == 2 * Pow2(i + (j - 1));
    }
  }

  /** The saturating code computes the ideal bounded exponential, for every attempt. */
  lemma BackoffIsExponential(backoffMs: U64, attempt: U32)
    requires attempt >= 1
    ensures Capped(backoffMs, attempt) == Min(backoffMs * Pow2(attempt - 1), MAX_BACKOFF_MS)
  {
    hide Pow2;
    Pow2Of63();
    if attempt - 1 > 63 {
      Pow2Grows(63, attempt - 1);
      TimesGrows(backoffMs, Pow2(63), Pow2(attempt - 1));
      TimesGrows(backoffMs, MAX_BACKOFF_MS, Pow2(63));
    }
  }

  lemma TimesGrows(b: nat, x: nat, y: nat)
    requires x <= y
    ensures b * x <= b * y && (b >= 1 ==> x <= b * x)
  {
  }

  /** Every delay is within a quarter of the backoff, or one millisecond, and never above a day. */
  lemma DelayBounds(config: Config, consumed: U32, hash: U32 -> U64)
    requires Decide(config, consumed, false, hash).Again?
    ensures var d := Decide(config, consumed, false, hash);
            var ideal := Min(config.backoffMs * Pow2(consumed), MAX_BACKOFF_MS);
            && d.attempt == consumed + 1 <= config.maxAttempts
            && 0 <= d.delayMs <= MAX_BACKOFF_MS
            && ideal - Max(1, ideal / 4) <= d.delayMs <= ideal + Max(1, ideal / 4)
  {
    hide Pow2, Exponential;
    BackoffIsExponential(config.backoffMs, consumed + 1);
    JitterBounds(Capped(config.backoffMs, consumed + 1), hash(consumed + 1));
  }

  lemma JitterBounds(capped: U64, hash: U64)
    requires capped <= MAX_BACKOFF_MS
    ensures capped - Max(1, capped / 4) <= Jittered(capped, hash) <= capped + Max(1, capped / 4)
    ensures Jittered(capped, hash) <= MAX_BACKOFF_MS
  {
  }

  lemma Below(x: nat, n: nat)
    requires x < n
    ensures x % n == x
  {
  }

  /** Every delay of that range that is below a day is the delay of some hash: the jitter uses its whole window. */
  lemma JitterReaches(capped: U64, delayMs: U64) returns (hash: U64)
    requires capped <= MAX_BACKOFF_MS && delayMs <= MAX_BACKOFF_MS
    requires capped - Max(1, capped / 4) <= delayMs <= capped + Max(1, capped / 4)
    ensures hash <= 2 * Max(1, capped / 4) && Jittered(capped, hash) == delayMs
  {
    var window := Max(1, capped / 4);
    hash := delayMs - (capped - window);
    Below(hash, 2 * window + 1);
  }

  // ---------------------------------------------------------------- the loop

  /** How one dispatch ends: completed, another status or an error, each with or without a claim to a restart. */
  datatype Dispatch = Completed | Status(eligible: bool) | Failed(eligible: bool)

  /** What the supervisor answers around one dispatch: to complete, to schedule or end the restart, to prepare it. */
  datatype Turn = Turn(dispatch: Dispatch, completeOk: bool, recordOk: bool, prepareOk: bool)

  /** The durable restart budget of the session. */
  datatype Budget = Budget(attempts: U32, maxAttempts: U32)

  /** `mark_restart_pending` */
  function MarkPending(b: Budget, attempt: U32): Result<Budget> {
    if attempt == 0 || attempt <= b.attempts || attempt > b.maxAttempts then Err(Conflict)
        else Ok(b.(attempts := attempt))
  }

  /** An attempt is recorded exactly when it is past those recorded and within the budget. */
  lemma MarkPendingExactly(b: Budget, attempt: U32)
    ensures MarkPending(b, attempt) ==
      if b.attempts < attempt <= b.maxAttempts then Ok(Budget(attempt, b.maxAttempts)) else Err(Conflict)
  {
  }

  /** How an invocation ends. */
  datatype Ending = Done | GaveUp | Broken

  /**
   * `invoke_supervised` after its slot has been acquired. The turns are an oracle; the loop needs no bound of its own,
   * since every restart uses up some of the durable budget.
   */
  method InvokeSupervised(config: Config, budget: Budget, hash: U32 -> U64, turns: nat -> Turn)
    returns (ending: Ending, dispatches: nat, left: Budget, delays: seq<U64>)
    ensures 1 <= dispatches <= 1 + Max(0, Min(budget.maxAttempts, config.maxAttempts) - budget.attempts)
    ensures |delays| == dispatches - 1
    ensures forall i :: 0 <= i < |delays| ==> Waits(config, budget, hash, i, delays[i]) && Eligible(turns(i).dispatch)
    ensures forall i :: 0 <= i < |delays| ==> turns(i).completeOk && turns(i).recordOk && turns(i).prepareOk
    ensures left.maxAttempts == budget.maxAttempts && (ending.Done? ==> left.attempts == 0)
    ensures ending.Done? <==> turns(dispatches - 1).dispatch.Completed? && turns(dispatches - 1).completeOk
    ensures config.mode.Never? ==> dispatches == 1
    ensures ending.GaveUp? <==>
      var last := turns(dispatches - 1);
      && last.completeOk && !last.dispatch.Completed? && left.attempts == budget.attempts + dispatches - 1
      && if !last.dispatch.eligible then last.recordOk
         else config.mode.Never? || (left.attempts >= config.maxAttempts && last.recordOk)
    ensures ending.Broken? ==>
      var last := turns(dispatches - 1);
      !last.completeOk || !last.recordOk || !last.prepareOk || left.attempts >= budget.maxAttempts
  {
    left, dispatches, delays := budget, 0, [];
    while true
      invariant dispatches == |delays| <= Max(0, Min(budget.maxAttempts, config.maxAttempts) - budget.attempts)
      invariant left.attempts == budget.attempts + dispatches && left.maxAttempts == budget.maxAttempts
      invariant dispatches > 0 ==> !config.mode.Never? && left.attempts <= Min(budget.maxAttempts, config.maxAttempts)
      invariant forall i :: 0 <= i < |delays| ==>
        Waits(config, budget, hash, i, delays[i]) && Eligible(turns(i).dispatch)
      invariant forall i :: 0 <= i < |delays| ==> turns(i).completeOk && turns(i).recordOk && turns(i).prepareOk
      decreases U32_MAX - left.attempts
    {
      var turn := turns(dispatches);
      dispatches := dispatches + 1;
      if !turn.completeOk { return Broken, dispatches, left, delays; }
      if turn.dispatch.Completed? {
        left := left.(attempts := 0);
        return Done, dispatches, left, delays;
      }
      if !turn.dispatch.eligible {
        return if turn.recordOk then GaveUp else Broken, dispatches, left, delays;
      }
      var decision := Decide(config, left.attempts, false, hash);
      match decision
      case NoRestart => return GaveUp, dispatches, left, delays;
      case BudgetExhausted => return if turn.recordOk then GaveUp else Broken, dispatches, left, delays;
      case Again(attempt, delayMs) =>
        var pending := MarkPending(left, attempt);
        if pending.Err? || !turn.recordOk { return Broken, dispatches, left, delays; }
        left := pending.value;
        if !turn.prepareOk { return Broken, dispatches, left, delays; }
        delays := delays + [delayMs];
    }
  }

  /** The delay before restart `i` of the invocation is the one decided for the attempts used up by then. */
  predicate Waits(config: Config, budget: Budget, hash: U32 -> U64, i: nat, delayMs: U64) {
    budget.attempts + i < U32_MAX && Decide(config, budget.attempts + i, false, hash) ==
        Again(budget.attempts + i + 1, delayMs)
  }

  predicate Eligible(d: Dispatch) { !d.Completed? && d.eligible }
}
