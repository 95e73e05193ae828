/**
  The device-flow polling loop of the login command (section 3.5 of RFC 8628). The server's
  replies, scheduling delays and cancellation, before or during the wait for a poll, are
  arbitrary functions of the poll number.
 */
module DeviceLogin {

  datatype Reply = Token(value: string) | Pending | SlowDown | AccessDenied | ExpiredToken | OtherError | TransportError

  datatype Outcome = LoggedIn(token: string) | Cancelled | CodeExpired | Denied | Failed

  /** How often the server has asked to slow down in its first n replies. */
  function SlowDowns(server: nat -> Reply, n: nat): nat {
    if n == 0 then 0 else SlowDowns(server, n - 1) + (if server(n - 1).SlowDown? then 1 else 0)
  }

  /** The wait before poll k: the initial interval and five seconds per earlier slow_down. */
  function Wait(initial: nat, server: nat -> Reply, k: nat): nat {
    initial + 5 * SlowDowns(server, k)
  }

  /** The waits before the first n polls together. */
  function Waited(initial: nat, server: nat -> Reply, n: nat): nat {
    if n == 0 then 0 else Waited(initial, server, n - 1) + Wait(initial, server, n - 1)
  }

  /** The time from the start to the end of poll n - 1: waits, requests and scheduling. */
  function Elapsed(initial: nat, server: nat -> Reply, delay: nat -> nat, n: nat): nat {
    if n == 0 then 0 else Elapsed(initial, server, delay, n - 1) + Wait(initial, server, n - 1) + delay(n - 1)
  }

  /** When poll k is made, if nothing but the prescribed wait holds it up. */
  function PollAt(initial: nat, server: nat -> Reply, delay: nat -> nat, k: nat): nat {
    Elapsed(initial, server, delay, k) + Wait(initial, server, k)
  }

  function InitialInterval(requested: int): (i: nat)
    ensures i >= 1
  {
    if requested <= 0 then 5 else requested
  }

  /** What a decisive reply means for the caller. */
  function Decide(r: Reply): Outcome
    requires !r.Pending? && !r.SlowDown?
  {
    match r
    case Token(t) => LoggedIn(t)
    case AccessDenied => Denied
    case ExpiredToken => CodeExpired
    case OtherError => Failed
    case TransportError => Failed
  }

  predicate Undecided(r: Reply) {
    r.Pending? || r.SlowDown?
  }

  /** The command is cancelled before or during the wait for poll k. */
  predicate Stopped(gone: nat -> bool, interrupted: nat -> bool, k: nat) {
    gone(k) || interrupted(k)
  }

  /** What may be reported after a last reply; those that decide nothing leave it to the clock and the user. */
  ghost predicate Reports(last: Reply, r: Outcome) {
    match last
    case Token(t) => r == LoggedIn(t)
    case AccessDenied => r == Denied
    case ExpiredToken => r == CodeExpired
    case OtherError => r == Failed
    case TransportError => r == Failed
    case Pending => r == Cancelled || r == CodeExpired
    case SlowDown => r == Cancelled || r == CodeExpired
  }

  /** The first n replies decide nothing. */
  ghost predicate AllUndecided(server: nat -> Reply, n: nat) {
    forall k {:trigger server(k)} :: 0 <= k < n ==> Undecided(server(k))
  }

  /**
    The run got as far as n polls: before each it waited as prescribed, from a moment within
    the lifetime, and was not cancelled.
   */
  ghost predicate Polled(initial: nat, lifetime: int, server: nat -> Reply, delay: nat -> nat,
                         gone: nat -> bool, interrupted: nat -> bool, n: nat, waits: seq<nat>)
  {
    && |waits| == n
    && (forall k {:trigger waits[k]} :: 0 <= k < n ==> waits[k] == Wait(initial, server, k))
    && (forall k {:trigger Stopped(gone, interrupted, k)} :: 0 <= k < n ==> !Stopped(gone, interrupted, k))
    && (n > 0 ==> Elapsed(initial, server, delay, n - 1) <= lifetime)
  }

  lemma {:induction false} PolledOnce(initial: nat, lifetime: int, server: nat -> Reply, delay: nat -> nat,
                                      gone: nat -> bool, interrupted: nat -> bool, n: nat, waits: seq<nat>)
    requires Polled(initial, lifetime, server, delay, gone, interrupted, n, waits) && !Stopped(gone, interrupted, n)
    requires Elapsed(initial, server, delay, n) <= lifetime
    ensures Polled(initial, lifetime, server, delay, gone, interrupted, n + 1, waits + [Wait(initial, server, n)])
  {
  }

  /**
    runLogin's loop. Every poll is preceded by exactly the prescribed wait, which begins
    within the code's lifetime though it may end after it; polling stops at
    the first decisive reply, at cancellation (noticed before the deadline is checked or
    during a wait), or when the code's lifetime has passed, whichever comes first.
   */
  method PollForToken(requested: int, expiresIn: int, server: nat -> Reply, delay: nat -> nat,
                      gone: nat -> bool, interrupted: nat -> bool)
    returns (r: Outcome, polls: nat, waits: seq<nat>)
    ensures Polled(InitialInterval(requested), expiresIn, server, delay, gone, interrupted, polls, waits)
    ensures polls > 0 ==> AllUndecided(server, polls - 1)
    ensures polls > 0 ==> waits[0] == if requested > 0 then requested else 5
    ensures forall k {:trigger waits[k]} :: 0 < k < polls ==>
              waits[k] == waits[k - 1] + (if server(k - 1).SlowDown? then 5 else 0)
    ensures polls > 0 ==> Reports(server(polls - 1), r)
    ensures r.LoggedIn? || r.Denied? || r.Failed? ==> polls > 0
    ensures if polls > 0 && !Undecided(server(polls - 1)) then r == Decide(server(polls - 1))
            else if gone(polls) then r == Cancelled
            else if Elapsed(InitialInterval(requested), server, delay, polls) > expiresIn then r == CodeExpired
            else r == Cancelled && interrupted(polls)
  {
    var interval := InitialInterval(requested);
    var initial := interval;
    var now := 0;
    var deadline := expiresIn;
    polls, waits := 0, [];
    while true
      invariant interval == Wait(initial, server, polls) && interval >= 1
      invariant now == Elapsed(initial, server, delay, polls)
      invariant Polled(initial, expiresIn, server, delay, gone, interrupted, polls, waits) && AllUndecided(server, polls)
      decreases deadline - now
    {
      if gone(polls) {
        return Cancelled, polls, waits;
      }
      if now > deadline {
        return CodeExpired, polls, waits;
      }
      if interrupted(polls) {
        return Cancelled, polls, waits;
      }
      PolledOnce(initial, expiresIn, server, delay, gone, interrupted, polls, waits);
      NextPoll(initial, server, delay, polls);
      now := now + interval + delay(polls);
      waits := waits + [interval];
      var reply := server(polls);
      polls := polls + 1;
      if reply.Pending? {
        continue;
      }
      if reply.SlowDown? {
        interval := interval + 5;
        continue;
      }
      return Decide(reply), polls, waits;
    }
  }

  lemma {:induction false} NextPoll(initial: nat, server: nat -> Reply, delay: nat -> nat, n: nat)
    ensures Wait(initial, server, n + 1) == Wait(initial, server, n) + (if server(n).SlowDown? then 5 else 0)
    ensures Elapsed(initial, server, delay, n + 1) == Elapsed(initial, server, delay, n) + Wait(initial, server, n) + delay(n)
  {
  }

  lemma {:induction false} SlowDownsMonotone(server: nat -> Reply, m: nat, n: nat)
    requires m <= n
    ensures SlowDowns(server, m) <= SlowDowns(server, n)
    decreases n
  {
    if m < n { SlowDownsMonotone(server, m, n - 1); }
  }

  /** Waits never get shorter. */
  lemma {:induction false} WaitsNeverShrink(initial: nat, server: nat -> Reply, m: nat, n: nat)
    requires m <= n
    ensures Wait(initial, server, m) <= Wait(initial, server, n)
  {
    SlowDownsMonotone(server, m, n);
  }

  /**
    Polls among which the server asked k times to slow down took at least
    k i + 5 k (k - 1) / 2 seconds of waiting, and n polls at least n i.
   */
  lemma {:induction false} WaitedAtLeast(initial: nat, server: nat -> Reply, n: nat)
    ensures var k := SlowDowns(server, n);
            && 2 * Waited(initial, server, n) >= 2 * k * initial + 5 * k * (k - 1)
            && Waited(initial, server, n) >= n * initial
    decreases n
  {
    if n > 0 {
      WaitedAtLeast(initial, server, n - 1);
      var k := SlowDowns(server, n - 1);
      if server(n - 1).SlowDown? {
        GrowByOne(initial, k);
      }
      assert n * initial == (n - 1) * initial + initial;
    }
  }

  lemma {:induction false} GrowByOne(i: nat, k: nat)
    ensures 2 * (k + 1) * i + 5 * (k + 1) * k == 2 * k * i + 5 * k * (k - 1) + 2 * (i + 5 * k)
  {
    assert 2 * (k + 1) * i == 2 * k * i + 2 * i;
    assert 5 * (k + 1) * k == 5 * k * k + 5 * k;
    assert 5 * k * (k - 1) == 5 * k * k - 5 * k;
  }

  /**
    The polling bound: a run whose last wait began within the code's lifetime made at most
    expiresIn / interval + 1 polls, and k slow_downs before the last one fit the lifetime.
   */
  lemma {:induction false} PollBound(initial: nat, server: nat -> Reply, delay: nat -> nat, polls: nat, expiresIn: nat)
    requires initial >= 1 && polls > 0 && Elapsed(initial, server, delay, polls - 1) <= expiresIn
    ensures polls <= expiresIn / initial + 1
    ensures var k := SlowDowns(server, polls - 1);
            2 * k * initial + 5 * k * (k - 1) <= 2 * expiresIn
  {
    var n := polls - 1;
    WaitedWithin(initial, server, delay, n);
    WaitedAtLeast(initial, server, n);
    PollsFit(n, SlowDowns(server, n), initial, Waited(initial, server, n), expiresIn);
  }

  /** n polls and k slow_downs that were waited for within the lifetime. */
  lemma {:induction false} PollsFit(n: nat, k: nat, i: nat, waited: nat, lifetime: nat)
    requires i >= 1 && n * i <= waited <= lifetime && 2 * k * i + 5 * k * (k - 1) <= 2 * waited
    ensures n <= lifetime / i && 2 * k * i + 5 * k * (k - 1) <= 2 * lifetime
  {
    DivideBound(n, i, lifetime);
  }

  lemma {:induction false} WaitedWithin(initial: nat, server: nat -> Reply, delay: nat -> nat, n: nat)
    ensures Waited(initial, server, n) <= Elapsed(initial, server, delay, n)
    decreases n
  {
    if n > 0 { WaitedWithin(initial, server, delay, n - 1); }
  }

  lemma {:induction false} ElapsedMonotone(initial: nat, server: nat -> Reply, delay: nat -> nat, m: nat, n: nat)
    requires m <= n
    ensures Elapsed(initial, server, delay, m) <= Elapsed(initial, server, delay, n)
    decreases n
  {
    if m < n { ElapsedMonotone(initial, server, delay, m, n - 1); }
  }

  /** Poll k is made within the lifetime. */
  predicate InTime(initial: nat, server: nat -> Reply, delay: nat -> nat, expiresIn: nat, k: nat) {
    PollAt(initial, server, delay, k) <= expiresIn
  }

  /** A poll with another after it is over within the lifetime. */
  lemma {:induction false} EarlierInTime(initial: nat, server: nat -> Reply, delay: nat -> nat, last: nat, expiresIn: nat, k: nat)
    requires k < last && Elapsed(initial, server, delay, last) <= expiresIn
    ensures PollAt(initial, server, delay, k) + delay(k) <= expiresIn
  {
    ElapsedMonotone(initial, server, delay, k + 1, last);
  }

  /**
    How far polling overshoots: the deadline is checked before a wait, so every poll but the
    last is over within the lifetime. All are made within it if and only if the last wait
    still fits, and the last poll is late by no more than that wait.
   */
  lemma {:induction false} Overshoot(initial: nat, server: nat -> Reply, delay: nat -> nat, last: nat, expiresIn: nat)
    requires Elapsed(initial, server, delay, last) <= expiresIn
    ensures (forall k {:trigger InTime(initial, server, delay, expiresIn, k)} :: 0 <= k <= last ==>
               InTime(initial, server, delay, expiresIn, k)) <==>
              Elapsed(initial, server, delay, last) + Wait(initial, server, last) <= expiresIn
    ensures PollAt(initial, server, delay, last) <= expiresIn + Wait(initial, server, last)
  {
    forall k | 0 <= k < last ensures InTime(initial, server, delay, expiresIn, k) {
      EarlierInTime(initial, server, delay, last, expiresIn, k);
    }
    assert InTime(initial, server, delay, expiresIn, last) <==> PollAt(initial, server, delay, last) <= expiresIn;
  }

  /** A code that lives one second is polled all the same, after the five seconds of the first wait. */
  method LatePoll(server: nat -> Reply, delay: nat -> nat) returns (r: Outcome, polls: nat)
    ensures polls >= 1 && PollAt(5, server, delay, 0) == 5 > 1
    ensures polls == 1 && (if Undecided(server(0)) then r == CodeExpired else r == Decide(server(0)))
  {
    var waits;
    r, polls, waits := PollForToken(5, 1, server, delay, (k: nat) => false, (k: nat) => false);
    ElapsedMonotone(5, server, delay, 1, if polls > 1 then polls - 1 else 1);
  }

  lemma {:induction false} DivideBound(n: nat, i: nat, e: nat)
    requires i >= 1 && n * i <= e
    ensures n <= e / i
  {
    MulGap(e / i, n, i);
  }

  lemma {:induction false} MulGap(q: nat, n: nat, i: nat)
    ensures q < n ==> n * i >= q * i + i
  {
    assert n * i == q * i + (n - q) * i;
    assert q < n ==> (n - q) * i == i + (n - q - 1) * i;
    assert q < n ==> (n - q - 1) * i >= 0;
  }
}
