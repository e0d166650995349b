/** The status poll of the upload page, on a clock in milliseconds. */
module Polling {

  const FAST_INTERVAL := 2_000
  const SLOW_INTERVAL := 5_000
  const FAST_DURATION := 30_000
  const HARD_TIMEOUT := 300_000

  /** What a status request comes back with; Blip is any error but 404, and is swallowed. */
  datatype Reply = Ready | Failed | Working | NotFound | Blip

  datatype Result = IsReady | HasFailed | TimedOut | AbortedInSleep

  /** The i-th round: how long its request takes, what it answers, how late its timer fires, and whether the
      signal is found aborted before the request or fires during the sleep. */
  datatype Round = Round(latency: nat, reply: Reply, lateness: nat, abortedBefore: bool, abortedInSleep: bool)

  predicate Undecided(r: Round) { r.reply == Working || r.reply == Blip }

  /** Every request is answered at once, is never decisive, and nothing is late or aborted. */
  ghost predicate Worst(rounds: nat -> Round) {
    forall i :: rounds(i).latency == 0 && Undecided(rounds(i)) && rounds(i).lateness == 0
                && !rounds(i).abortedBefore && !rounds(i).abortedInSleep
  }

  /** The clock when round n begins, or would. */
  function Elapsed(rounds: nat -> Round, n: nat): nat {
    if n == 0 then 0
    else
      var before := Elapsed(rounds, n - 1);
      before + rounds(n - 1).latency + (if before < 30_000 then 2_000 else 5_000) + rounds(n - 1).lateness
  }

  /** All rounds so far began in time, the first of them in the fast phase and the others after it. */
  predicate Paced(rounds: nat -> Round, fast: nat, slow: nat) {
    forall i: nat :: i < fast + slow ==>
      !rounds(i).abortedBefore && Elapsed(rounds, i) < 300_000 && (i < fast <==> Elapsed(rounds, i) < 30_000)
  }

  lemma NextRound(rounds: nat -> Round, fast: nat, slow: nat)
    ensures var n := fast + slow;
            var e := Elapsed(rounds, n);
            && Elapsed(rounds, n + 1)
                 == e + rounds(n).latency + (if e < 30_000 then 2_000 else 5_000) + rounds(n).lateness
            && Elapsed(rounds, 0) == 0
  {
  }

  /** The next round, if it begins at all, is a fast one exactly before 30 seconds have passed. */
  lemma PacedNext(rounds: nat -> Round, fast: nat, slow: nat)
    requires Paced(rounds, fast, slow) && (slow > 0 ==> Elapsed(rounds, fast + slow) >= 30_000)
    ensures var e := Elapsed(rounds, fast + slow);
            e < 300_000 && !rounds(fast + slow).abortedBefore ==>
              if e < 30_000 then Paced(rounds, fast + 1, slow) else Paced(rounds, fast, slow + 1)
  {
    hide Elapsed;
  }

  lemma NothingYet(rounds: nat -> Round)
    ensures Elapsed(rounds, 0) == 0 && Paced(rounds, 0, 0)
  {
  }

  /** Time passes at least as fast as the intervals. */
  lemma {:induction false} Pace(rounds: nat -> Round, fast: nat, slow: nat)
    requires Paced(rounds, fast, slow)
    ensures Elapsed(rounds, fast + slow) >= if slow == 0 then 2_000 * fast else 30_000 + 5_000 * slow
    decreases fast + slow
  {
    hide Elapsed;
    if slow > 0 {
      Pace(rounds, fast, slow - 1);
      NextRound(rounds, fast, slow - 1);
    } else if fast > 0 {
      Pace(rounds, fast - 1, 0);
      NextRound(rounds, fast - 1, 0);
    }
  }

  lemma Bounds(rounds: nat -> Round, fast: nat, slow: nat)
    requires Paced(rounds, fast, slow)
    ensures fast <= 15 && slow <= 54
    ensures slow > 0 ==> Elapsed(rounds, fast + slow) >= 30_000
  {
    hide Elapsed;
    Pace(rounds, fast, slow);
    if slow > 0 {
      Pace(rounds, fast, slow - 1);
      Pace(rounds, fast, 0);
    }
    if fast > 0 {
      Pace(rounds, fast - 1, 0);
    }
  }

  /** In the worst case it passes exactly as fast, and all requests that may be made are made. */
  lemma {:induction false} WorstPace(rounds: nat -> Round, fast: nat, slow: nat)
    requires Paced(rounds, fast, slow) && Worst(rounds)
    ensures Elapsed(rounds, fast + slow) == if slow == 0 then 2_000 * fast else 30_000 + 5_000 * slow
    ensures slow > 0 ==> fast == 15
    decreases fast + slow
  {
    hide Elapsed;
    NextRound(rounds, 0, 0);
    Bounds(rounds, fast, slow);
    if slow > 0 {
      WorstPace(rounds, fast, slow - 1);
      NextRound(rounds, fast, slow - 1);
    } else if fast > 0 {
      WorstPace(rounds, fast - 1, 0);
      NextRound(rounds, fast - 1, 0);
    }
  }

  lemma WorstIs(rounds: nat -> Round, fast: nat, slow: nat)
    requires Paced(rounds, fast, slow)
    ensures Worst(rounds) ==>
              var r := rounds(fast + slow);
              && Undecided(r) && !r.abortedBefore && !r.abortedInSleep
              && (Elapsed(rounds, fast + slow) >= 300_000 ==> fast == 15 && slow == 54)
  {
    hide Elapsed;
    if Worst(rounds) {
      WorstPace(rounds, fast, slow);
      Bounds(rounds, fast, slow);
    }
  }

  /** For any latencies and any sequence of swallowed errors the loop ends after at most 15 requests in the
      first 30 seconds and 54 more before the hard timeout, and that many can happen. The result is that of the
      last reply, and without a decisive one the loop ends only by an abort or the timeout. */
  method PollDocumentStatus(rounds: nat -> Round) returns (result: Result, fast: nat, slow: nat)
    ensures fast <= 15 && slow <= 54
    ensures Worst(rounds) ==> fast == 15 && slow == 54 && result == TimedOut
    ensures Paced(rounds, fast, slow)
    ensures forall i: nat :: i < fast + slow - 1 ==> Undecided(rounds(i)) && !rounds(i).abortedInSleep
    ensures var n := fast + slow;
            && (result == IsReady <==> n > 0 && rounds(n - 1).reply == Ready)
            && (result == HasFailed <==> n > 0 && (rounds(n - 1).reply == Failed || rounds(n - 1).reply == NotFound))
            && (result == AbortedInSleep <==>
                  n > 0 && Undecided(rounds(n - 1)) && rounds(n - 1).abortedInSleep)
            && (result == TimedOut ==> rounds(n).abortedBefore || Elapsed(rounds, n) >= 300_000)
  {
    hide Elapsed, Worst, Paced;
    NothingYet(rounds);
    fast, slow := 0, 0;
    var elapsed: nat := 0;
    while true
      invariant elapsed == Elapsed(rounds, fast + slow) && Paced(rounds, fast, slow)
      invariant forall i: nat :: i < fast + slow ==> Undecided(rounds(i)) && !rounds(i).abortedInSleep
      decreases 69 - fast - slow
    {
      var round := rounds(fast + slow);
      NextRound(rounds, fast, slow);
      Bounds(rounds, fast, slow);
      PacedNext(rounds, fast, slow);
      WorstIs(rounds, fast, slow);
      if round.abortedBefore {
        return TimedOut, fast, slow;
      }
      if elapsed >= HARD_TIMEOUT {
        return TimedOut, fast, slow;
      }
      var interval := if elapsed < FAST_DURATION then FAST_INTERVAL else SLOW_INTERVAL;
      if elapsed < FAST_DURATION {
        fast := fast + 1;
      } else {
        slow := slow + 1;
      }
      Bounds(rounds, fast, slow);
      if round.reply == Ready {
        return IsReady, fast, slow;
      }
      if round.reply == Failed || round.reply == NotFound {
        return HasFailed, fast, slow;
      }
      if round.abortedInSleep {
        return AbortedInSleep, fast, slow;
      }
      elapsed := elapsed + round.latency + interval + round.lateness;
    }
  }
}
