/** Login with a failed-attempt counter and a temporary lock. Times are in seconds. */
module Lockout {
  import opened Wrappers

  const MAX_FAILED_ATTEMPTS := 10
  const LOCKOUT_DURATION := 900

  datatype State = State(failedAttempts: nat, lockedUntil: Option<int>)

  datatype Outcome = Unverified | Inactive | Locked | WrongPassword | LoggedIn

  /** One login request for an existing user. */
  datatype Request = Request(now: int, passwordValid: bool)

  predicate IsLocked(s: State, now: int) {
    s.lockedUntil.Some? && now < s.lockedUntil.value
  }

  function OutcomeOf(s: State, r: Request): Outcome {
    if IsLocked(s, r.now) then Locked else if r.passwordValid then LoggedIn else WrongPassword
  }

  function Step(s: State, r: Request): State {
    match OutcomeOf(s, r)
    case LoggedIn => State(0, None)
    case WrongPassword =>
      if s.failedAttempts + 1 >= MAX_FAILED_ATTEMPTS then State(0, Some(r.now + LOCKOUT_DURATION))
      else State(s.failedAttempts + 1, s.lockedUntil)
    case _ => s
  }

  class User {
    var isVerified: bool
    var isActive: bool
    var failedAttempts: Option<nat>
    var lockedUntil: Option<int>

    /** The stored counter may be null, which counts as 0. */
    function Stored(): State
      reads this
    {
      State(if failedAttempts.Some? then failedAttempts.value else 0, lockedUntil)
    }

    method Login(r: Request) returns (outcome: Outcome)
      modifies this`failedAttempts, this`lockedUntil
      ensures outcome == if !isVerified then Unverified else if !isActive then Inactive else OutcomeOf(old(Stored()), r)
      ensures Stored() == if isVerified && isActive then Step(old(Stored()), r) else old(Stored())
      ensures outcome == Unverified <==> !isVerified
      ensures outcome == Inactive <==> isVerified && !isActive
      ensures outcome == Locked <==> isVerified && isActive && old(lockedUntil).Some? && r.now < old(lockedUntil).value
      ensures var checked := isVerified && isActive && !(old(lockedUntil).Some? && r.now < old(lockedUntil).value);
              && (outcome == LoggedIn <==> checked && r.passwordValid)
              && (outcome == WrongPassword <==> checked && !r.passwordValid)
      ensures outcome == LoggedIn ==> failedAttempts == Some(0) && lockedUntil == None
      ensures outcome == WrongPassword ==>
                var attempts := 1 + if old(failedAttempts).Some? then old(failedAttempts).value else 0;
                if attempts >= 10 then failedAttempts == Some(0) && lockedUntil == Some(r.now + 900)
                else failedAttempts == Some(attempts) && lockedUntil == old(lockedUntil)
      ensures outcome !in {LoggedIn, WrongPassword} ==>
                failedAttempts == old(failedAttempts) && lockedUntil == old(lockedUntil)
    {
      if !isVerified {
        return Unverified;
      }
      if !isActive {
        return Inactive;
      }
      if lockedUntil.Some? && r.now < lockedUntil.value {
        return Locked;
      }
      if !r.passwordValid {
        var attempts := (if failedAttempts.Some? then failedAttempts.value else 0) + 1;
        failedAttempts := Some(attempts);
        if attempts >= MAX_FAILED_ATTEMPTS {
          lockedUntil := Some(r.now + LOCKOUT_DURATION);
          failedAttempts := Some(0);
        }
        return WrongPassword;
      }
      failedAttempts := Some(0);
      lockedUntil := None;
      return LoggedIn;
    }
  }

  // ---------------------------------------------------------------- runs

  function Run(s: State, requests: seq<Request>): State {
    if requests == [] then s else Step(Run(s, requests[..|requests| - 1]), requests[|requests| - 1])
  }

  /** How many of the requests got as far as a wrong password. */
  function WrongChecks(s: State, requests: seq<Request>): nat {
    if requests == [] then 0
    else
      var before := requests[..|requests| - 1];
      WrongChecks(s, before) +
      if OutcomeOf(Run(s, before), requests[|requests| - 1]) == WrongPassword then 1 else 0
  }

  predicate NoSuccess(s: State, requests: seq<Request>) {
    forall i :: 0 <= i < |requests| ==> OutcomeOf(Run(s, requests[..i]), requests[i]) != LoggedIn
  }

  /** The clock does not go back, and every request falls into the segment. */
  predicate Within(requests: seq<Request>, start: int, length: nat) {
    && (forall i :: 0 <= i < |requests| ==> start <= requests[i].now <= start + length)
    && (forall i, j :: 0 <= i < j < |requests| ==> requests[i].now <= requests[j].now)
  }

  /** The stored counter never reaches the limit. */
  lemma {:induction false} CounterStaysBelowLimit(s: State, requests: seq<Request>)
    requires s.failedAttempts < 10
    ensures Run(s, requests).failedAttempts < 10
  {
    if requests != [] {
      CounterStaysBelowLimit(s, requests[..|requests| - 1]);
    }
  }

  /** Without a wrong password nobody is locked out: from an unlocked state every request is let in. */
  lemma {:induction false} NoWrongPasswordNoLock(s: State, requests: seq<Request>)
    requires forall i :: 0 <= i < |requests| ==> requests[i].passwordValid
    requires forall i :: 0 <= i < |requests| && s.lockedUntil.Some? ==> requests[i].now >= s.lockedUntil.value
    ensures forall i :: 0 <= i < |requests| ==> OutcomeOf(Run(s, requests[..i]), requests[i]) == LoggedIn
    ensures Run(s, requests) == if requests == [] then s else State(0, None)
  {
    if requests != [] {
      var before := requests[..|requests| - 1];
      NoWrongPasswordNoLock(s, before);
      assert forall i :: 0 <= i < |before| ==> before[..i] == requests[..i];
    }
  }

  /** The tenth wrong password in a row locks the user out: from then on and for 15 minutes every request is
      refused, with the right password too. */
  lemma {:induction false} TenWrongPasswordsLock(s: State, wrong: seq<Request>, later: Request)
    requires |wrong| + s.failedAttempts == 10 && wrong != []
    requires forall i :: 0 <= i < |wrong| ==>
               !wrong[i].passwordValid && (s.lockedUntil.Some? ==> wrong[i].now >= s.lockedUntil.value)
    ensures Run(s, wrong) == State(0, Some(wrong[|wrong| - 1].now + 900))
    ensures OutcomeOf(Run(s, wrong), later) == Locked <==> later.now < wrong[|wrong| - 1].now + 900
  {
    CountingUp(s, wrong[..|wrong| - 1]);
  }

  lemma {:induction false} CountingUp(s: State, wrong: seq<Request>)
    requires |wrong| + s.failedAttempts < 10
    requires forall i :: 0 <= i < |wrong| ==>
               !wrong[i].passwordValid && (s.lockedUntil.Some? ==> wrong[i].now >= s.lockedUntil.value)
    ensures Run(s, wrong) == State(s.failedAttempts + |wrong|, s.lockedUntil)
  {
    if wrong != [] {
      CountingUp(s, wrong[..|wrong| - 1]);
    }
  }

  /** Wrong checks come in rounds of ten, and each round ends in a lock that pushes the next one out. */
  lemma {:induction false} Rounds(s: State, requests: seq<Request>, start: int, length: nat) returns (locks: nat)
    requires s.failedAttempts < MAX_FAILED_ATTEMPTS
    requires Within(requests, start, length) && NoSuccess(s, requests)
    ensures var end := Run(s, requests);
            var last := if requests == [] then start else requests[|requests| - 1].now;
            && WrongChecks(s, requests) + s.failedAttempts == MAX_FAILED_ATTEMPTS * locks + end.failedAttempts
            && end.failedAttempts < MAX_FAILED_ATTEMPTS
            && (locks > 0 ==> end.lockedUntil.Some?
                              && start + LOCKOUT_DURATION * locks <= end.lockedUntil.value <= last + LOCKOUT_DURATION)
            && (locks > 0 && end.failedAttempts > 0 ==> start + LOCKOUT_DURATION * locks <= last)
  {
    if requests == [] {
      locks := 0;
    } else {
      var before, r := requests[..|requests| - 1], requests[|requests| - 1];
      forall i | 0 <= i < |before| ensures OutcomeOf(Run(s, before[..i]), before[i]) != LoggedIn {
        assert requests[..i] == before[..i];
      }
      locks := Rounds(s, before, start, length);
      var mid := Run(s, before);
      assert OutcomeOf(mid, r) != LoggedIn;
      if OutcomeOf(mid, r) == WrongPassword && mid.failedAttempts + 1 >= MAX_FAILED_ATTEMPTS {
        locks := locks + 1;
      }
    }
  }

  /** In any run segment of the given length without a successful login, at most ten wrong passwords are
      checked for every started 15 minutes, counting those already stored at its beginning. */
  lemma LockoutBound(s: State, requests: seq<Request>, start: int, length: nat)
    requires s.failedAttempts < 10
    requires Within(requests, start, length) && NoSuccess(s, requests)
    ensures WrongChecks(s, requests) + s.failedAttempts <= 10 * (length / 900 + 1)
  {
    hide Run, WrongChecks, NoSuccess;
    var locks := Rounds(s, requests, start, length);
    var end := Run(s, requests);
    assert requests != [] ==> requests[|requests| - 1].now <= start + length;
    hide Within;
    if locks > 0 {
      if end.failedAttempts > 0 {
        assert LOCKOUT_DURATION * locks <= length;
      } else {
        assert LOCKOUT_DURATION * (locks - 1) <= length;
      }
    }
  }
}
