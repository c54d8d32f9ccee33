/** Waiting for a decision: the polling loops in `cli/internal/cmd/register.go` and `cli/internal/cmd/access.go`,
    and the exit codes of an access request. */
module Polling {
  import opened Text

  // ----- the cadence -----

  /** Nanoseconds, as in Go's `time.Duration`. */
  const SECOND: int := 1_000_000_000
  const INITIAL_DELAY := 2 * SECOND
  const MAX_DELAY := 10 * SECOND
  const DELAY_STEP := 1 * SECOND

  /** The wait before the `i`-th call, counting from zero. */
  function Delay(i: nat): int {
    if 2 + i < 10 then (2 + i) * SECOND else 10 * SECOND
  }

  /** The first `n` waits together. */
  function Total(n: nat): int {
    if n == 0 then 0 else Total(n - 1) + Delay(n - 1)
  }

  /** In closed form: the waits grow for the first eight calls and then stay the same. */
  lemma {:induction false} TotalIs(n: nat)
    ensures Total(n) == if n <= 8 then n * (n + 3) / 2 * SECOND else (44 + 10 * (n - 8)) * SECOND
  {
    if n > 0 {
      TotalIs(n - 1);
      assert n <= 8 ==> n * (n + 3) == (n - 1) * (n + 2) + 2 * (n + 1);
    }
  }

  lemma {:induction false} TotalMonotone(m: nat, n: nat)
    requires m <= n
    ensures Total(m) <= Total(n)
  {
    if m < n { TotalMonotone(m, n - 1); }
  }

  /** How many calls fit: `n` calls need the first `n - 1` waits within the timeout. */
  predicate CallsFit(n: nat, timeout: int) {
    n > 0 ==> Total(n - 1) <= timeout
  }

  // ----- the world outside -----

  /** What a call comes back with: tokens, word that approval is pending, a request's status, or a failure. */
  datatype Reply = Minted | NotYet | Status(status: string) | Failed

  /** A clock, the calls made and the interrupts met, and the time spent on anything but the scheduled waits. */
  class Session {
    var now: int
    ghost var slack: nat
    ghost var calls: seq<Reply>
    ghost var interrupts: nat

    constructor (now: int)
      ensures this.now == now && slack == 0 && calls == [] && interrupts == 0
    {
      this.now := now;
      slack, calls, interrupts := 0, [], 0;
    }

    /** Sleeps at least that long, unless interrupted. */
    method Wait(delay: int) returns (interrupted: bool)
      requires delay >= 0
      modifies this
      ensures slack >= old(slack) && calls == old(calls)
      ensures interrupts == old(interrupts) + if interrupted then 1 else 0
      ensures !interrupted ==> now == old(now) + delay + (slack - old(slack))
    {
      interrupted := *;
      var late :| 0 <= late;
      now := now + delay + late;
      slack := slack + late;
      if interrupted {
        interrupts := interrupts + 1;
      }
    }

    /** Asks for tokens. */
    method Mint() returns (r: Reply)
      modifies this
      ensures r.Minted? || r.NotYet? || r.Failed?
      ensures slack >= old(slack) && now == old(now) + (slack - old(slack))
      ensures calls == old(calls) + [r] && interrupts == old(interrupts)
    {
      r :| r.Minted? || r.NotYet? || r.Failed?;
      var late :| 0 <= late;
      now := now + late;
      slack := slack + late;
      calls := calls + [r];
    }

    /** Asks for the request. */
    method Get() returns (r: Reply)
      modifies this
      ensures r.Status? || r.Failed?
      ensures slack >= old(slack) && now == old(now) + (slack - old(slack))
      ensures calls == old(calls) + [r] && interrupts == old(interrupts)
    {
      r :| r.Status? || r.Failed?;
      var late :| 0 <= late;
      now := now + late;
      slack := slack + late;
      calls := calls + [r];
    }
  }

  datatype Outcome = Granted | TimedOut | Interrupted | Broken | Decided(status: string)

  const PENDING := "pending"

  predicate IsTerminal(status: string) {
    status != PENDING
  }

  /** The reply that an outcome is due to, if it is due to one. */
  function Due(outcome: Outcome): Option<Reply> {
    match outcome
    case Granted => Some(Minted)
    case Decided(s) => Some(Status(s))
    case Broken => Some(Failed)
    case _ => None
  }

  /** All the calls since `from` left things pending, but for the one that the outcome is due to, which is the last. */
  ghost predicate Polled(calls: seq<Reply>, from: nat, pending: Reply, outcome: Outcome)
    requires from <= |calls|
  {
    match Due(outcome)
    case None => AllPending(calls, from, |calls|, pending)
    case Some(r) =>
      && from < |calls| && calls[|calls| - 1] == r && r != pending
      && AllPending(calls, from, |calls| - 1, pending)
  }

  ghost predicate AllPending(calls: seq<Reply>, from: nat, to: int, pending: Reply) {
    forall i :: from <= i < to <= |calls| ==> calls[i] == pending
  }

  /** Polls until tokens are minted, the timeout has passed, or something breaks. */
  method PollForTokens(s: Session, timeout: int) returns (outcome: Outcome)
    modifies s
    ensures old(s.calls) <= s.calls && Polled(s.calls, |old(s.calls)|, NotYet, outcome) && !outcome.Decided?
    ensures CallsFit(|s.calls| - |old(s.calls)|, timeout)
    ensures outcome.TimedOut? ==> timeout < Total(|s.calls| - |old(s.calls)|) + (s.slack - old(s.slack))
    ensures s.interrupts == old(s.interrupts) + (if outcome.Interrupted? then 1 else 0) && s.slack >= old(s.slack)
  {
    var deadline := s.now + timeout;
    var delay := INITIAL_DELAY;
    ghost var n := 0;
    while true
      invariant |s.calls| == |old(s.calls)| + n && old(s.calls) <= s.calls
      invariant AllPending(s.calls, |old(s.calls)|, |s.calls|, NotYet)
      invariant delay == Delay(n) && s.slack >= old(s.slack)
      invariant s.now == deadline - timeout + Total(n) + (s.slack - old(s.slack))
      invariant CallsFit(n, timeout) && s.interrupts == old(s.interrupts)
      decreases deadline - s.now
    {
      if s.now > deadline {
        return TimedOut;
      }
      var interrupted := s.Wait(delay);
      if interrupted {
        return Interrupted;
      }
      if delay < MAX_DELAY {
        delay := delay + DELAY_STEP;
      }
      var r := s.Mint();
      n := n + 1;
      if r == Minted {
        return Granted;
      }
      if r != NotYet {
        return Broken;
      }
    }
  }

  /** An agent that is approved already has its tokens from the first call, without a wait. */
  method WaitForApproval(s: Session, timeout: int) returns (outcome: Outcome)
    modifies s
    ensures old(s.calls) < s.calls && Polled(s.calls, |old(s.calls)|, NotYet, outcome) && !outcome.Decided?
    ensures CallsFit(|s.calls| - |old(s.calls)| - 1, timeout)
    ensures outcome.TimedOut? ==> timeout < Total(|s.calls| - |old(s.calls)| - 1) + (s.slack - old(s.slack))
    ensures s.interrupts == old(s.interrupts) + (if outcome.Interrupted? then 1 else 0)
    ensures s.calls[|old(s.calls)|] != NotYet ==> |s.calls| == |old(s.calls)| + 1 && !outcome.TimedOut?
  {
    var r := s.Mint();
    if r == Minted {
      return Granted;
    }
    if r != NotYet {
      return Broken;
    }
    outcome := PollForTokens(s, timeout);
  }

  /** Polls until the request is decided, the timeout has passed, or something breaks. */
  method PollAccessRequest(s: Session, timeout: int) returns (outcome: Outcome)
    modifies s
    ensures old(s.calls) <= s.calls && Polled(s.calls, |old(s.calls)|, Status(PENDING), outcome) && !outcome.Granted?
    ensures CallsFit(|s.calls| - |old(s.calls)|, timeout)
    ensures outcome.TimedOut? ==> timeout < Total(|s.calls| - |old(s.calls)|) + (s.slack - old(s.slack))
    ensures s.interrupts == old(s.interrupts) + (if outcome.Interrupted? then 1 else 0) && s.slack >= old(s.slack)
  {
    var deadline := s.now + timeout;
    var delay := INITIAL_DELAY;
    ghost var n := 0;
    while true
      invariant |s.calls| == |old(s.calls)| + n && old(s.calls) <= s.calls
      invariant AllPending(s.calls, |old(s.calls)|, |s.calls|, Status(PENDING))
      invariant delay == Delay(n) && s.slack >= old(s.slack)
      invariant s.now == deadline - timeout + Total(n) + (s.slack - old(s.slack))
      invariant CallsFit(n, timeout) && s.interrupts == old(s.interrupts)
      decreases deadline - s.now
    {
      if s.now > deadline {
        return TimedOut;
      }
      var interrupted := s.Wait(delay);
      if interrupted {
        return Interrupted;
      }
      if delay < MAX_DELAY {
        delay := delay + DELAY_STEP;
      }
      var r := s.Get();
      n := n + 1;
      if !r.Status? {
        return Broken;
      }
      if IsTerminal(r.status) {
        return Decided(r.status);
      }
    }
  }

  /** Without delays of its own, a loop that times out has made as many calls as fit. */
  lemma TimedOutExactly(n: nat, timeout: int, m: nat)
    requires CallsFit(n, timeout) && timeout < Total(n)
    ensures CallsFit(m, timeout) <==> m <= n
  {
    if 0 < m <= n {
      TotalMonotone(m - 1, n - 1);
    } else if m > n {
      TotalMonotone(n, m - 1);
    }
  }

  // ----- exit codes -----

  const APPROVED := "approved"
  const PARTIALLY_APPROVED := "partially_approved"
  const DENIED := "denied"
  const WITHDRAWN := "withdrawn"
  const EXPIRED := "expired"
  const STATUSES := {PENDING, APPROVED, PARTIALLY_APPROVED, DENIED, WITHDRAWN, EXPIRED}

  function ExitCode(timedOut: bool, status: string): int {
    if timedOut then 3
    else if status == DENIED then 2
    else if status == EXPIRED || status == WITHDRAWN then 2
    else if status == PARTIALLY_APPROVED then 4
    else 0
  }

  datatype Exit = Exit(code: int, status: string) | Error

  /** What an access request that was filed with this status ends in. */
  method AccessRequest(s: Session, filed: string, wait: bool, timeout: int) returns (r: Exit)
    modifies s
    ensures r.Exit? && r.status in STATUSES ==>
              && (r.code == 0 <==> r.status == APPROVED || (r.status == PENDING && !wait))
              && (r.code == 2 <==> r.status == DENIED || r.status == EXPIRED || r.status == WITHDRAWN)
              && (r.code == 3 <==> r.status == PENDING && wait)
              && (r.code == 4 <==> r.status == PARTIALLY_APPROVED)
    ensures old(s.calls) <= s.calls && s.interrupts >= old(s.interrupts)
    ensures !wait || filed != PENDING ==> r.Exit? && r.status == filed && s.calls == old(s.calls)
    ensures wait && filed == PENDING && r.Exit? ==>
              && Polled(s.calls, |old(s.calls)|, Status(PENDING), if r.code == 3 then TimedOut else Decided(r.status))
              && CallsFit(|s.calls| - |old(s.calls)|, timeout)
              && (r.code == 3 ==> && r.status == PENDING
                                  && timeout < Total(|s.calls| - |old(s.calls)|) + (s.slack - old(s.slack)))
    ensures r.Error? ==> || Polled(s.calls, |old(s.calls)|, Status(PENDING), Broken)
                         || (Polled(s.calls, |old(s.calls)|, Status(PENDING), Interrupted)
                             && s.interrupts > old(s.interrupts))
  {
    var timedOut, status := false, filed;
    if wait && !IsTerminal(status) {
      var outcome := PollAccessRequest(s, timeout);
      match outcome
      case TimedOut => timedOut := true;
      case Decided(waited) => status := waited;
      case _ => return Error;
    }
    return Exit(ExitCode(timedOut, status), status);
  }
}
