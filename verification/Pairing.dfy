/** The phone pairing window: one token, wrong guesses rationed per address. */
module Pairing {
  import opened Types

  const SECOND: nat := 1_000_000_000
  const WINDOW: nat := 300 * SECOND
  const FREE_FAILURES: nat := 3

  newtype u32 = x: int | 0 <= x < 0x1_0000_0000

  type Token = seq<bv8>
  type Address = string

  datatype Failures = Failures(count: nat, last: nat)

  datatype Outcome = Accepted | Closed | RateLimited | WrongToken

  datatype Window = Window(token: Token, expires: nat, failures: map<Address, Failures>)

  datatype Attempt = Attempt(token: Token, ip: Address, now: nat)

  predicate IsOpen(w: Window, now: nat) {
    now < w.expires
  }

  /** `Instant::duration_since` of an earlier instant is zero. */
  function Since(now: nat, earlier: nat): nat {
    if now < earlier then 0 else now - earlier
  }

  predicate Limited(w: Window, ip: Address, now: nat) {
    && ip in w.failures
    && w.failures[ip].count >= FREE_FAILURES
    && Since(now, w.failures[ip].last) < SECOND
  }

  function Count(w: Window, ip: Address): nat {
    if ip in w.failures then w.failures[ip].count else 0
  }

  /** The answer to an attempt, as the window's documentation describes it. */
  function Answer(w: Window, a: Attempt): Outcome {
    if !IsOpen(w, a.now) then Closed
    else if Limited(w, a.ip, a.now) then RateLimited
    else if a.token == w.token then Accepted
    else WrongToken
  }

  /** Only an evaluated wrong token leaves a trace, at its own address. */
  function After(w: Window, a: Attempt): Window {
    if Answer(w, a) == WrongToken then
      w.(failures := w.failures[a.ip := Failures(Count(w, a.ip) + 1, a.now)])
    else w
  }

  function AfterAll(w: Window, attempts: seq<Attempt>): Window {
    if |attempts| == 0 then w
    else After(AfterAll(w, attempts[..|attempts| - 1]), attempts[|attempts| - 1])
  }

  /** How many attempts from one address were evaluated and found wrong. */
  function WrongFrom(w: Window, attempts: seq<Attempt>, ip: Address): nat {
    if |attempts| == 0 then 0
    else
      var before, last := attempts[..|attempts| - 1], attempts[|attempts| - 1];
      WrongFrom(w, before, ip)
        + if last.ip == ip && Answer(AfterAll(w, before), last) == WrongToken then 1 else 0
  }

  predicate InOrder(attempts: seq<Attempt>) {
    forall i, j :: 0 <= i < j < |attempts| ==> attempts[i].now <= attempts[j].now
  }

  predicate NotBefore(w: Window, attempts: seq<Attempt>) {
    forall ip :: ip in w.failures && |attempts| > 0 ==> w.failures[ip].last <= attempts[0].now
  }

  // ------------------------------------------------------------ the rate bound

  lemma {:induction false} Counting(w: Window, attempts: seq<Attempt>, ip: Address)
    ensures var after := AfterAll(w, attempts);
            && Count(after, ip) == Count(w, ip) + WrongFrom(w, attempts, ip)
            && (WrongFrom(w, attempts, ip) == 0 ==>
                  (ip in after.failures <==> ip in w.failures)
                  && (ip in w.failures ==> after.failures[ip] == w.failures[ip]))
  {
    if |attempts| > 0 {
      Counting(w, attempts[..|attempts| - 1], ip);
    }
  }

  /** The first failure of a span is free and so are the two after it; each further one costs a second. */
  lemma {:induction false} Spaced(w: Window, attempts: seq<Attempt>, ip: Address)
    requires InOrder(attempts) && NotBefore(w, attempts)
    requires WrongFrom(w, attempts, ip) > 0
    ensures var after := AfterAll(w, attempts);
            && ip in after.failures
            && attempts[0].now <= after.failures[ip].last <= attempts[|attempts| - 1].now
            && after.failures[ip].last < w.expires && after.expires == w.expires
            && WrongFrom(w, attempts, ip) <= 3 + (after.failures[ip].last - attempts[0].now) / SECOND
  {
    var before, last := attempts[..|attempts| - 1], attempts[|attempts| - 1];
    var middle := AfterAll(w, before);
    Counting(w, before, ip);
    Constant(w, before);
    if WrongFrom(w, before, ip) > 0 {
      Spaced(w, before, ip);
      assert before[0] == attempts[0];
      assert before[|before| - 1].now <= last.now;
      if last.ip == ip && Answer(middle, last) == WrongToken && Count(middle, ip) >= FREE_FAILURES {
        OneSecondMore(middle.failures[ip].last - attempts[0].now, last.now - attempts[0].now);
      }
    }
  }

  lemma OneSecondMore(earlier: nat, later: nat)
    requires later - earlier >= SECOND
    ensures earlier / SECOND + 1 <= later / SECOND
  {
  }

  /** Neither the token nor the expiry ever changes. */
  lemma {:induction false} Constant(w: Window, attempts: seq<Attempt>)
    ensures AfterAll(w, attempts).token == w.token && AfterAll(w, attempts).expires == w.expires
  {
    if |attempts| > 0 {
      Constant(w, attempts[..|attempts| - 1]);
    }
  }

  /** Over any span of T: at most 3 + floor(T / 1 s) wrong tokens from one address are evaluated. */
  lemma RateBound(w: Window, attempts: seq<Attempt>, ip: Address)
    requires InOrder(attempts) && NotBefore(w, attempts) && |attempts| > 0
    ensures WrongFrom(w, attempts, ip)
         <= 3 + (attempts[|attempts| - 1].now - attempts[0].now) / SECOND
  {
    if WrongFrom(w, attempts, ip) > 0 {
      Spaced(w, attempts, ip);
    }
  }

  /** Over the five minutes of a window: at most 302. */
  lemma WindowBound(token: Token, begun: nat, attempts: seq<Attempt>, ip: Address)
    requires InOrder(attempts) && (|attempts| > 0 ==> begun <= attempts[0].now)
    ensures WrongFrom(Window(token, begun + WINDOW, map[]), attempts, ip) <= 302
  {
    var w := Window(token, begun + WINDOW, map[]);
    if WrongFrom(w, attempts, ip) > 0 {
      Spaced(w, attempts, ip);
    }
  }

  /** The patient guesser: three at once, then one a second. */
  function PatientTime(begun: nat, i: nat): nat {
    if i < 3 then begun else begun + (i - 2) * SECOND
  }

  function Patient(guess: Token, ip: Address, begun: nat, n: nat): (attempts: seq<Attempt>)
    ensures |attempts| == n
    ensures forall i :: 0 <= i < n ==> attempts[i] == Attempt(guess, ip, PatientTime(begun, i))
  {
    seq(n, i requires 0 <= i < n => Attempt(guess, ip, PatientTime(begun, i)))
  }

  /** The window after the first `n` patient guesses. */
  function Guessed(token: Token, ip: Address, begun: nat, n: nat): Window {
    Window(token, begun + WINDOW,
           if n == 0 then map[] else map[ip := Failures(n, PatientTime(begun, n - 1))])
  }

  lemma PatientStep(token: Token, guess: Token, ip: Address, begun: nat, n: nat)
    requires guess != token && n < 302
    ensures var a := Attempt(guess, ip, PatientTime(begun, n));
            && Answer(Guessed(token, ip, begun, n), a) == WrongToken
            && After(Guessed(token, ip, begun, n), a) == Guessed(token, ip, begun, n + 1)
  {
  }

  /** The bound is reached: it is the exact rate, not only a limit. */
  lemma {:induction false} BoundIsReached(token: Token, guess: Token, ip: Address, begun: nat, n: nat)
    requires guess != token && n <= 302
    ensures WrongFrom(Guessed(token, ip, begun, 0), Patient(guess, ip, begun, n), ip) == n
    ensures AfterAll(Guessed(token, ip, begun, 0), Patient(guess, ip, begun, n)) == Guessed(token, ip, begun, n)
  {
    hide Answer, After, Guessed, PatientTime;
    var w := Guessed(token, ip, begun, 0);
    var all := Patient(guess, ip, begun, n);
    if n > 0 {
      BoundIsReached(token, guess, ip, begun, n - 1);
      PatientStep(token, guess, ip, begun, n - 1);
      assert all[..n - 1] == Patient(guess, ip, begun, n - 1);
    }
  }

  // ------------------------------------------------------------ who gets in when

  /** Each answer, on the window's own fields: the token only counts while the window is open. */
  lemma AnsweredExactlyWhen(w: Window, a: Attempt)
    ensures var held := a.ip in w.failures && w.failures[a.ip].count >= 3
                        && a.now < w.failures[a.ip].last + 1_000_000_000;
            && (Answer(w, a) == Closed <==> a.now >= w.expires)
            && (Answer(w, a) == RateLimited <==> a.now < w.expires && held)
            && (Answer(w, a) == Accepted <==> a.now < w.expires && !held && a.token == w.token)
            && (Answer(w, a) == WrongToken <==> a.now < w.expires && !held && a.token != w.token)
  {
  }

  /** An evaluated wrong token from this address among some attempts. */
  predicate WasWrong(w: Window, attempts: seq<Attempt>, i: nat, ip: Address)
    requires i < |attempts|
  {
    attempts[i].ip == ip && Answer(AfterAll(w, attempts[..i]), attempts[i]) == WrongToken
  }

  lemma {:induction false} LastWrong(w: Window, attempts: seq<Attempt>, ip: Address) returns (i: int)
    requires InOrder(attempts) && w.failures == map[]
    ensures -1 <= i < |attempts|
    ensures i < 0 <==> ip !in AfterAll(w, attempts).failures
    ensures i >= 0 ==> WasWrong(w, attempts, i, ip) && AfterAll(w, attempts).failures[ip].last == attempts[i].now
    ensures forall j :: i < j < |attempts| ==> !WasWrong(w, attempts, j, ip)
  {
    hide Answer;
    i := -1;
    if |attempts| > 0 {
      var last := |attempts| - 1;
      var front := attempts[..last];
      if WasWrong(w, attempts, last, ip) {
        i := last;
      } else {
        i := LastWrong(w, front, ip);
        forall j | 0 <= j < last ensures WasWrong(w, front, j, ip) <==> WasWrong(w, attempts, j, ip) {
          assert front[..j] == attempts[..j];
        }
      }
    }
  }

  /**
   Over any run of attempts on a new window: closed five minutes after it opened and never
   before; while open, limited exactly when three wrong tokens from the address have been
   evaluated and one of them less than a second ago; and let in exactly when open, not
   limited and the token is the window's.
   */
  lemma LetInExactlyWhen(token: Token, begun: nat, attempts: seq<Attempt>, next: Attempt)
    requires InOrder(attempts + [next])
    ensures var w := Window(token, begun + WINDOW, map[]);
            var answer := Answer(AfterAll(w, attempts), next);
            var limited := WrongFrom(w, attempts, next.ip) >= 3
              && exists i :: 0 <= i < |attempts| && WasWrong(w, attempts, i, next.ip)
                             && next.now < attempts[i].now + 1_000_000_000;
            && (answer == Closed <==> next.now >= begun + 300 * 1_000_000_000)
            && (answer == RateLimited <==> next.now < begun + 300 * 1_000_000_000 && limited)
            && (answer == Accepted <==>
                  next.now < begun + 300 * 1_000_000_000 && !limited && next.token == token)
  {
    var w, all := Window(token, begun + WINDOW, map[]), attempts + [next];
    forall i, j | 0 <= i < j < |attempts| ensures attempts[i].now <= attempts[j].now {
      assert all[i] == attempts[i] && all[j] == attempts[j];
    }
    Counting(w, attempts, next.ip);
    Constant(w, attempts);
    var last := LastWrong(w, attempts, next.ip);
    AnsweredExactlyWhen(AfterAll(w, attempts), next);
    forall i | 0 <= i < |attempts| && WasWrong(w, attempts, i, next.ip)
      ensures attempts[i].now <= attempts[last].now
    {
      assert i <= last;
    }
    hide Answer, AfterAll, WrongFrom;
  }

  // ---------------------------------------------------------- other addresses

  function OnlyFrom(attempts: seq<Attempt>, ip: Address): seq<Attempt> {
    if |attempts| == 0 then []
    else
      var last := attempts[|attempts| - 1];
      OnlyFrom(attempts[..|attempts| - 1], ip) + if last.ip == ip then [last] else []
  }

  predicate SameAt(a: Window, b: Window, ip: Address) {
    && a.token == b.token && a.expires == b.expires
    && (ip in a.failures <==> ip in b.failures)
    && (ip in a.failures ==> a.failures[ip] == b.failures[ip])
  }

  lemma SameAnswer(a: Window, b: Window, attempt: Attempt)
    requires SameAt(a, b, attempt.ip)
    ensures Answer(a, attempt) == Answer(b, attempt)
    ensures SameAt(After(a, attempt), After(b, attempt), attempt.ip)
  {
  }

  /** An address is answered as if the others had never tried. */
  lemma {:induction false} OthersDoNotMatter(w: Window, attempts: seq<Attempt>, next: Attempt)
    ensures Answer(AfterAll(w, attempts), next) == Answer(AfterAll(w, OnlyFrom(attempts, next.ip)), next)
    ensures SameAt(AfterAll(w, attempts), AfterAll(w, OnlyFrom(attempts, next.ip)), next.ip)
  {
    hide Answer;
    if |attempts| > 0 {
      var before, last := attempts[..|attempts| - 1], attempts[|attempts| - 1];
      var mine := OnlyFrom(before, next.ip);
      OthersDoNotMatter(w, before, next);
      if last.ip == next.ip {
        SameAnswer(AfterAll(w, before), AfterAll(w, mine), last);
        assert (mine + [last])[..|mine|] == mine;
      } else {
        assert OnlyFrom(attempts, next.ip) == mine;
      }
    }
    SameAnswer(AfterAll(w, attempts), AfterAll(w, OnlyFrom(attempts, next.ip)), next);
  }

  // ------------------------------------------------------------------ the code

  /** The comparison looks at every byte whatever it finds, and is equality. */
  method ConstantTimeEq(left: seq<bv8>, right: seq<bv8>) returns (equal: bool)
    ensures equal <==> left == right
  {
    if |left| != |right| {
      return false;
    }
    var difference: bv8 := 0;
    for i := 0 to |left|
      invariant difference == 0 <==> left[..i] == right[..i]
    {
      assert left[..i + 1] == left[..i] + [left[i]] && right[..i + 1] == right[..i] + [right[i]];
      NoDifference(difference, left[i], right[i]);
      difference := difference | (left[i] ^ right[i]);
    }
    assert left[..|left|] == left && right[..|right|] == right;
    equal := difference == 0;
  }

  lemma NoDifference(difference: bv8, a: bv8, b: bv8)
    ensures difference | (a ^ b) == 0 <==> difference == 0 && a == b
  {
  }

  datatype Entry = Entry(count: u32, last: nat)

  class PairingWindow {
    const token: Token
    const expires: nat
    var failures: map<Address, Entry>
    ghost const begun: nat
    ghost var clock: nat  // the latest time seen

    ghost function Value(): Window
      reads this
    {
      Window(token, expires,
             map ip | ip in failures :: Failures(failures[ip].count as nat, failures[ip].last))
    }

    /** What attempts in time order lead to; the counters stay far from wrapping. */
    ghost predicate Valid()
      reads this
    {
      && expires == begun + WINDOW && begun <= clock
      && forall ip :: ip in failures ==> ValidEntry(failures[ip])
    }

    ghost predicate ValidEntry(entry: Entry)
      reads this
    {
      && begun <= entry.last <= clock && entry.last < expires
      && entry.count as nat <= 3 + (entry.last - begun) / SECOND
    }

    constructor (token: Token, now: nat)
      ensures Valid() && clock == now
      ensures Value() == Window(token, now + WINDOW, map[])
    {
      this.token, expires, begun, clock := token, now + WINDOW, now, now;
      failures := map[];
    }

    /** One attempt: accepted exactly when the window is open, the address not limited and the token right. */
    method Check(attempt: Token, ip: Address, now: nat) returns (outcome: Outcome)
      requires Valid() && now >= clock
      modifies this
      ensures Valid() && clock == now
      ensures outcome == Answer(old(Value()), Attempt(attempt, ip, now))
      ensures var held := ip in old(failures) && old(failures)[ip].count >= 3
                          && now < old(failures)[ip].last + 1_000_000_000;
              && (outcome == Closed <==> now >= expires)
              && (outcome == RateLimited <==> now < expires && held)
              && (outcome == Accepted <==> now < expires && !held && attempt == token)
              && (outcome.Accepted? || outcome.Closed? || outcome.RateLimited? ==> failures == old(failures))
      ensures Value() == After(old(Value()), Attempt(attempt, ip, now))
      ensures ip in failures ==> failures[ip].count <= 302
    {
      clock := now;
      if now >= expires {
        return Closed;
      }
      if ip in failures && failures[ip].count >= 3 && Since(now, failures[ip].last) < SECOND {
        return RateLimited;
      }
      var equal := ConstantTimeEq(attempt, token);
      if equal {
        return Accepted;
      }
      if ip in failures && failures[ip].count >= 3 {
        OneSecondMore(failures[ip].last - begun, now - begun);
      }
      var entry := if ip in failures then failures[ip] else Entry(0, now);
      failures := failures[ip := Entry(entry.count + 1, now)];
      outcome := WrongToken;
    }
  }
}
