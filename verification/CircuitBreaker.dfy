/** The circuit breaker kept in expiring keys, and the guarded call around it. */
module CircuitBreaker {
  import opened Wrappers
  import opened Redis

  const FAILURE_THRESHOLD := 3
  const OPEN_SECONDS := 60
  const FAILURE_WINDOW := 120

  predicate IsOpen(db: Db, now: int) {
    var until := Get(db, CircuitOpenUntil, now);
    until.Some? && now < until.value
  }

  function AfterFailure(db: Db, now: int): Db {
    var d := Counted(db, CircuitFailures, FAILURE_WINDOW, now);
    if ValueOrZero(db, CircuitFailures, now) + 1 >= FAILURE_THRESHOLD
    then SetEx(d, CircuitOpenUntil, now + OPEN_SECONDS * SECOND, OPEN_SECONDS + 5, now)
    else d
  }

  method RecordSuccess(redis: Client)
    modifies redis
    ensures redis.db == Del(old(redis.db), CircuitFailures)
  {
    redis.db := Del(redis.db, CircuitFailures);
  }

  method RecordFailure(redis: Client, now: int)
    modifies redis
    ensures redis.db == AfterFailure(old(redis.db), now)
    ensures var failures := 1 + ValueOrZero(old(redis.db), CircuitFailures, now);
            && Get(redis.db, CircuitFailures, now) == Some(failures)
            && redis.db.boards == old(redis.db).boards
            && (forall k :: k !in {CircuitFailures, CircuitOpenUntil} ==>
                  (k in redis.db.keys <==> k in old(redis.db).keys)
                  && (k in redis.db.keys ==> redis.db.keys[k] == old(redis.db).keys[k]))
            && if failures >= 3 then
                 && CircuitOpenUntil in redis.db.keys
                 && redis.db.keys[CircuitOpenUntil] == Entry(now + 60_000, Some(now + 65_000))
               else
                 && (CircuitOpenUntil in redis.db.keys <==> CircuitOpenUntil in old(redis.db).keys)
                 && (CircuitOpenUntil in redis.db.keys ==>
                       redis.db.keys[CircuitOpenUntil] == old(redis.db).keys[CircuitOpenUntil])
  {
    var failures := redis.IncrementCounter(CircuitFailures, FAILURE_WINDOW, now);
    if failures >= FAILURE_THRESHOLD {
      redis.db := SetEx(redis.db, CircuitOpenUntil, now + OPEN_SECONDS * SECOND, OPEN_SECONDS + 5, now);
    }
  }

  // ---------------------------------------------------------------- the history behind it

  /** One recorded outcome of an API call: a success, or a 5xx failure. */
  datatype Outcome = Outcome(now: int, ok: bool)

  type History = seq<Outcome>

  function Replay(db: Db, h: History): Db {
    if h == [] then db
    else
      var before, last := Replay(db, h[..|h| - 1]), h[|h| - 1];
      if last.ok then Del(before, CircuitFailures) else AfterFailure(before, last.now)
  }

  /** The failure that began the count in force at the end of h: the first one after the last success, or
      after the previous count had run for 120 seconds. */
  function CountStart(h: History): (w: Option<nat>)
    ensures w.Some? ==> w.value < |h|
  {
    if h == [] || h[|h| - 1].ok then None
    else
      var w := CountStart(h[..|h| - 1]);
      if w.Some? && h[|h| - 1].now < h[w.value].now + FAILURE_WINDOW * SECOND then w else Some(|h| - 1)
  }

  /** Consecutive failures counted at the end of h; there is no success after the start. */
  function FailureCount(h: History): nat {
    var w := CountStart(h);
    if w.Some? then |h| - w.value else 0
  }

  /** Failure i brought the count to three or more. */
  predicate Trips(h: History, i: nat)
    requires i < |h|
  {
    !h[i].ok && FailureCount(h[..i + 1]) >= FAILURE_THRESHOLD
  }

  predicate OpenByHistory(h: History, now: int) {
    exists i :: 0 <= i < |h| && Trips(h, i) && h[i].now <= now < h[i].now + OPEN_SECONDS * SECOND
  }

  predicate Ordered(h: History) {
    forall i, j :: 0 <= i < j < |h| ==> h[i].now <= h[j].now
  }

  function LastTrip(h: History): (m: Option<nat>)
    ensures m.Some? ==> m.value < |h|
  {
    if h == [] then None
    else if Trips(h, |h| - 1) then Some(|h| - 1)
    else LastTrip(h[..|h| - 1])
  }

  lemma {:induction false} LastTripIsLast(h: History)
    ensures LastTrip(h).Some? ==> Trips(h, LastTrip(h).value)
    ensures forall i :: 0 <= i < |h| && Trips(h, i) ==> LastTrip(h).Some? && i <= LastTrip(h).value
  {
    if h != [] {
      var n := |h| - 1;
      var before := h[..n];
      LastTripIsLast(before);
      forall i | 0 <= i < n ensures Trips(before, i) == Trips(h, i) {
        assert before[..i + 1] == h[..i + 1];
      }
    }
  }

  /** What the two keys hold after a history. */
  predicate Mirrors(db: Db, h: History) {
    && (match CountStart(h)
        case None => CircuitFailures !in db.keys
        case Some(w) =>
          && CircuitFailures in db.keys
          && db.keys[CircuitFailures] == Entry(|h| - w, Some(h[w].now + FAILURE_WINDOW * SECOND)))
    && (match LastTrip(h)
        case None => CircuitOpenUntil !in db.keys
        case Some(m) =>
          && CircuitOpenUntil in db.keys
          && db.keys[CircuitOpenUntil] == Entry(h[m].now + OPEN_SECONDS * SECOND,
                                                Some(h[m].now + (OPEN_SECONDS + 5) * SECOND)))
  }

  predicate NoBreakerKeys(db: Db) {
    CircuitFailures !in db.keys && CircuitOpenUntil !in db.keys
  }

  lemma {:induction false} ReplayMirrors(db: Db, h: History)
    requires NoBreakerKeys(db) && Ordered(h)
    ensures Mirrors(Replay(db, h), h)
  {
    if h != [] {
      var n := |h| - 1;
      var before, last := h[..n], h[n];
      ReplayMirrors(db, before);
      assert h[..n + 1] == h;
      MirrorsStep(Replay(db, before), h);
    }
  }

  lemma MirrorsStep(d: Db, h: History)
    requires h != [] && Mirrors(d, h[..|h| - 1])
    ensures var last := h[|h| - 1];
            Mirrors(if last.ok then Del(d, CircuitFailures) else AfterFailure(d, last.now), h)
  {
    var n := |h| - 1;
    var before, last := h[..n], h[n];
    assert h[..n + 1] == h;
    if !last.ok {
      var w := CountStart(before);
      assert w.Some? ==> h[w.value] == before[w.value];
      assert ValueOrZero(d, CircuitFailures, last.now) + 1 == FailureCount(h);
    }
  }

  /** The expiring keys say open exactly when the history does: key expiry never hides an open breaker and a
      success never closes one. */
  lemma BreakerRefinesHistory(db: Db, h: History, now: int)
    requires NoBreakerKeys(db) && Ordered(h)
    requires h != [] ==> h[|h| - 1].now <= now
    ensures IsOpen(Replay(db, h), now) <==> OpenByHistory(h, now)
  {
    ReplayMirrors(db, h);
    OpenByLastTrip(h, now);
    hide Replay, CountStart, LastTrip;
  }

  lemma OpenByLastTrip(h: History, now: int)
    requires Ordered(h) && (h != [] ==> h[|h| - 1].now <= now)
    ensures OpenByHistory(h, now) <==> LastTrip(h).Some? && now < h[LastTrip(h).value].now + OPEN_SECONDS * SECOND
  {
    hide LastTrip, FailureCount;
    LastTripIsLast(h);
    var m := LastTrip(h);
    if m.Some? {
      assert h[m.value].now <= now;
    }
  }

  /** The count never covers more than 120 seconds and never a success. */
  lemma {:induction false} CountIsRecent(h: History)
    requires Ordered(h) && CountStart(h).Some?
    ensures var w := CountStart(h).value;
            && h[|h| - 1].now < h[w].now + FAILURE_WINDOW * SECOND
            && forall i :: w <= i < |h| ==> !h[i].ok
  {
    var n := |h| - 1;
    var before := h[..n];
    if CountStart(before).Some? {
      CountIsRecent(before);
      forall i | CountStart(before).value <= i < n ensures !h[i].ok {
        assert before[i] == h[i];
      }
    }
  }

  /** Three failures in a row that began within 120 seconds open the breaker for 60 seconds, when nothing was
      counted before them; a success in between starts the count again. */
  lemma ThreeFailuresOpen(h: History, a: int, b: int, c: int, now: int)
    requires CountStart(h) == None && a <= b <= c < a + 120_000 && c <= now < c + 60_000
    ensures OpenByHistory(h + [Outcome(a, false), Outcome(b, false), Outcome(c, false)], now)
  {
    var g := h + [Outcome(a, false), Outcome(b, false), Outcome(c, false)];
    var n := |h|;
    assert g[..n] == h;
    assert g[..n + 1][..n] == h && g[..n + 2][..n + 1] == g[..n + 1] && g[..n + 3][..n + 2] == g[..n + 2];
    assert CountStart(g[..n + 1]) == Some(n);
    assert CountStart(g[..n + 2]) == Some(n);
    assert CountStart(g[..n + 3]) == Some(n);
    assert Trips(g, n + 2);
  }

  /** Nothing is counted right after a success, nor before anything was recorded. */
  lemma NothingCounted(h: History)
    requires h == [] || h[|h| - 1].ok
    ensures CountStart(h) == None
  {
  }

  /** An open breaker has its reason: the last of three failures in a row, all within 120 seconds, is less than
      60 seconds old. */
  lemma OpenNeedsThreeFailures(h: History, now: int)
    requires Ordered(h) && OpenByHistory(h, now)
    ensures exists k: nat :: ThreeInARow(h, k) && h[k].now <= now < h[k].now + 60_000
  {
    var k :| 0 <= k < |h| && Trips(h, k) && h[k].now <= now < h[k].now + OPEN_SECONDS * SECOND;
    var g := h[..k + 1];
    CountIsRecent(g);
    assert g[k - 2] == h[k - 2] && g[k - 1] == h[k - 1] && g[k] == h[k];
    assert ThreeInARow(h, k);
  }

  predicate ThreeInARow(h: History, k: nat) {
    && 2 <= k < |h|
    && !h[k - 2].ok && !h[k - 1].ok && !h[k].ok
    && h[k].now < h[k - 2].now + 120_000
  }

  // ---------------------------------------------------------------- the guarded call

  datatype Reply = Success | RateLimited | Status(code: int) | OtherError

  datatype Result = Returned | BreakerOpen | Exhausted | Reraised

  const RETRY_ATTEMPTS := 3

  /** One attempt of a call: what other callers record until its reply is handled, the reply and that time;
      and for the second look at the breaker after a failure, what they record until then and its time. */
  datatype Attempt = Attempt(others: History, reply: Reply, now: int, later: History, checkedAt: int)

  predicate Fails(a: Attempt) { a.reply.Status? && a.reply.code >= 500 }

  /** How many of the attempts a call makes: up to and with the first that is not rate limited. */
  function Sent(attempts: seq<Attempt>): (n: nat)
    requires attempts != []
    ensures 1 <= n <= |attempts|
    ensures forall i :: 0 <= i < n - 1 ==> attempts[i].reply == RateLimited
    ensures n < |attempts| ==> attempts[n - 1].reply != RateLimited
  {
    if |attempts| == 1 || attempts[0].reply != RateLimited then 1 else 1 + Sent(attempts[1..])
  }

  function Others(attempts: seq<Attempt>): History {
    if attempts == [] then [] else Others(attempts[..|attempts| - 1]) + attempts[|attempts| - 1].others
  }

  /** What the call itself records for its last attempt: at most one outcome. */
  function Own(a: Attempt): (h: History)
    ensures |h| <= 1
  {
    if a.reply == Success then [Outcome(a.now, true)]
    else if Fails(a) then [Outcome(a.now, false)]
    else []
  }

  /** Everything recorded from the start of an attempt to its end. */
  function After(a: Attempt): History {
    a.others + Own(a) + if Fails(a) then a.later else []
  }

  /** Everything recorded, by anyone, between the first request of a call and its end. */
  function Recorded(attempts: seq<Attempt>): History
    requires attempts != []
  {
    var n := Sent(attempts);
    Others(attempts[..n - 1]) + After(attempts[n - 1])
  }

  function ResultOf(last: Attempt, open: bool): Result {
    match last.reply
    case Success => Returned
    case RateLimited => Exhausted
    case OtherError => Reraised
    case Status(_) => if Fails(last) && open then BreakerOpen else Reraised
  }

  /** The n + 1st attempt, made because the first n were rate limited, is the last one or just waits. */
  lemma RecordedIs(attempts: seq<Attempt>, n: nat)
    requires n < |attempts| && forall i :: 0 <= i < n ==> attempts[i].reply == RateLimited
    ensures var h := Others(attempts[..n]) + After(attempts[n]);
            if n + 1 == |attempts| || attempts[n].reply != RateLimited
            then Sent(attempts) == n + 1 && Recorded(attempts) == h
            else Others(attempts[..n + 1]) == h
  {
    assert attempts[..n + 1][..n] == attempts[..n];
    hide After;
    WaitsOnly(attempts[n]);
  }

  lemma WaitsOnly(a: Attempt)
    ensures a.reply == RateLimited ==> After(a) == a.others
  {
  }

  lemma {:induction false} ReplayAppend(db: Db, g: History, h: History)
    ensures Replay(db, g + h) == Replay(Replay(db, g), h)
  {
    if h == [] {
      assert g + h == g;
    } else {
      assert (g + h)[..|g + h| - 1] == g + h[..|h| - 1];
      ReplayAppend(db, g, h[..|h| - 1]);
    }
  }

  /** What other callers do to the store while this one waits. */
  method Wait(redis: Client, others: History, ghost db: Db, ghost h: History)
    requires redis.db == Replay(db, h)
    modifies redis
    ensures redis.db == Replay(db, h + others)
  {
    redis.db := Replay(redis.db, others);
    ReplayAppend(db, h, others);
  }

  /** Recording an outcome extends the history by it. */
  method Record(redis: Client, outcome: Outcome, ghost db: Db, ghost h: History)
    requires redis.db == Replay(db, h)
    modifies redis
    ensures redis.db == Replay(db, h + [outcome])
  {
    if outcome.ok {
      RecordSuccess(redis);
    } else {
      RecordFailure(redis, outcome.now);
    }
    assert (h + [outcome])[..|h|] == h;
  }

  /** One attempt: its wait, the outcome it records, and after a failure the second look at the breaker. */
  method Try(redis: Client, a: Attempt, ghost db: Db, ghost h: History) returns (open: bool)
    requires redis.db == Replay(db, h)
    modifies redis
    ensures redis.db == Replay(db, h + After(a))
    ensures open <==> Fails(a) && IsOpen(redis.db, a.checkedAt)
  {
    hide Replay, IsOpen;
    open := false;
    Wait(redis, a.others, db, h);
    assert h + a.others + [] + [] == h + a.others;
    assert h + After(a) == h + a.others + Own(a) + if Fails(a) then a.later else [];
    if a.reply == Success {
      Record(redis, Outcome(a.now, true), db, h + a.others);
      assert h + a.others + Own(a) + [] == h + a.others + Own(a);
    } else if Fails(a) {
      Record(redis, Outcome(a.now, false), db, h + a.others);
      Wait(redis, a.later, db, h + a.others + Own(a));
      open := IsOpen(redis.db, a.checkedAt);
    }
  }

  /** A success is recorded and returned; rate limits are not recorded; an answer of 500 or more is recorded as
      one failure, any other is not, and either is raised. */
  lemma CallEnds(attempts: seq<Attempt>, open: bool)
    requires attempts != []
    ensures var last := attempts[Sent(attempts) - 1];
            var others := Others(attempts[..Sent(attempts)]);
            match last.reply
            case Success => Recorded(attempts) == others + [Outcome(last.now, true)] && ResultOf(last, open) == Returned
            case RateLimited => Recorded(attempts) == others && ResultOf(last, open) == Exhausted
            case OtherError => Recorded(attempts) == others && ResultOf(last, open) == Reraised
            case Status(code) =>
              if code < 500 then Recorded(attempts) == others && ResultOf(last, open) == Reraised
              else
                && Recorded(attempts) == others + [Outcome(last.now, false)] + last.later
                && ResultOf(last, open) == if open then BreakerOpen else Reraised
  {
    RecordedSplit(attempts);
    hide Others, Sent, Recorded;
    var last, h := attempts[Sent(attempts) - 1], Others(attempts[..Sent(attempts)]);
    Associates(h, Own(last), [], []);
  }

  lemma RecordedSplit(attempts: seq<Attempt>)
    requires attempts != []
    ensures var last := attempts[Sent(attempts) - 1];
            Recorded(attempts)
              == Others(attempts[..Sent(attempts)]) + Own(last) + if Fails(last) then last.later else []
  {
    var n := Sent(attempts);
    var made, last := attempts[..n], attempts[n - 1];
    OthersAre(made[..n - 1], last);
    assert made == made[..n - 1] + [last] && made[..n - 1] == attempts[..n - 1];
    assert Recorded(attempts) == Others(made[..n - 1]) + After(last);
    hide Others, Sent, Recorded, Own, Fails;
    Associates(Others(made[..n - 1]), last.others, Own(last), if Fails(last) then last.later else []);
  }

  lemma Associates(a: History, b: History, c: History, d: History)
    ensures a + (b + c + d) == a + b + c + d
    ensures a + [] == a && a + b + [] == a + b
  {
  }

  /** What other callers record during an attempt comes in order. */
  lemma OthersAre(made: seq<Attempt>, a: Attempt)
    ensures Others([]) == [] && Others(made + [a]) == Others(made) + a.others
  {
    assert (made + [a])[..|made|] == made;
  }

  lemma NothingRecorded(db: Db, attempts: seq<Attempt>)
    ensures Replay(db, Others(attempts[..0])) == db
  {
  }

  /** The breaker is consulted before the first attempt and after a failure, not between rate-limited ones.
      With other callers at work all the time, the call sends at most three requests and records at most one
      outcome, for its last reply. */
  method GuardedCall(redis: Client, start: int, attempts: seq<Attempt>)
    returns (result: Result, sent: nat, slept: nat)
    requires |attempts| == RETRY_ATTEMPTS
    modifies redis
    ensures IsOpen(old(redis.db), start) ==>
              result == BreakerOpen && sent == slept == 0 && redis.db == old(redis.db)
    ensures !IsOpen(old(redis.db), start) ==>
              && sent == Sent(attempts)
              && slept == (match sent case 1 => 0 case 2 => 5 case _ => 15)
              && redis.db == Replay(old(redis.db), Recorded(attempts))
              && result == ResultOf(attempts[sent - 1], IsOpen(redis.db, attempts[sent - 1].checkedAt))
    ensures !IsOpen(old(redis.db), start) ==>
              && 1 <= sent <= 3
              && (forall i :: 0 <= i < sent - 1 ==> attempts[i].reply == RateLimited)
              && (sent < 3 ==> attempts[sent - 1].reply != RateLimited)
    ensures !IsOpen(old(redis.db), start) ==>
              var last := attempts[sent - 1];
              var others := Others(attempts[..sent]);
              match last.reply
              case Success =>
                result == Returned && redis.db == Replay(old(redis.db), others + [Outcome(last.now, true)])
              case RateLimited => result == Exhausted && redis.db == Replay(old(redis.db), others)
              case OtherError => result == Reraised && redis.db == Replay(old(redis.db), others)
              case Status(code) =>
                if code < 500 then result == Reraised && redis.db == Replay(old(redis.db), others)
                else
                  && redis.db == Replay(old(redis.db), others + [Outcome(last.now, false)] + last.later)
                  && result == if IsOpen(redis.db, last.checkedAt) then BreakerOpen else Reraised
  {
    hide Replay, IsOpen, Sent, Recorded, After, Own, Others;
    CallEnds(attempts, true);
    CallEnds(attempts, false);
    ghost var db := redis.db;
    NothingRecorded(db, attempts);
    result, sent, slept := BreakerOpen, 0, 0;
    if IsOpen(redis.db, start) {
      return;
    }
    var delay := 5;
    while sent < RETRY_ATTEMPTS
      invariant 0 <= sent < RETRY_ATTEMPTS
      invariant forall i :: 0 <= i < sent ==> attempts[i].reply == RateLimited
      invariant redis.db == Replay(db, Others(attempts[..sent]))
      invariant delay == (match sent case 0 => 5 case 1 => 10 case _ => 20)
      invariant slept == (match sent case 0 => 0 case 1 => 5 case _ => 15)
    {
      var last := attempts[sent];
      RecordedIs(attempts, sent);
      var open := Try(redis, last, db, Others(attempts[..sent]));
      sent := sent + 1;
      match last.reply {
        case Success => return Returned, sent, slept;
        case RateLimited =>
          if sent == RETRY_ATTEMPTS {
            break;
          }
          slept := slept + delay;
          delay := delay * 2;
        case _ => return if open then BreakerOpen else Reraised, sent, slept;
      }
    }
    result := Exhausted;
  }

  // ---------------------------------------------------------------- runs of guarded calls

  /** A call, and what other callers record between the end of the previous one and its start. */
  datatype Call = Call(others: History, start: int, attempts: seq<Attempt>)

  predicate ThreeAttempts(calls: seq<Call>) {
    forall i :: 0 <= i < |calls| ==> |calls[i].attempts| == RETRY_ATTEMPTS
  }

  /** The store when the last call starts, and after it, as GuardedCall leaves it. */
  function DbBefore(db: Db, calls: seq<Call>): Db
    requires calls != [] && ThreeAttempts(calls)
    decreases |calls|, 0
  {
    Replay(DbAfter(db, calls[..|calls| - 1]), calls[|calls| - 1].others)
  }

  function DbAfter(db: Db, calls: seq<Call>): Db
    requires ThreeAttempts(calls)
    decreases |calls|, 1
  {
    if calls == [] then db
    else
      var d, last := DbBefore(db, calls), calls[|calls| - 1];
      if IsOpen(d, last.start) then d else Replay(d, Recorded(last.attempts))
  }

  /** The same run without a store: what has been recorded when the last call starts, and after it, if a call
      is let through exactly when the history does not say open. */
  function HistoryBefore(calls: seq<Call>): History
    requires calls != [] && ThreeAttempts(calls)
    decreases |calls|, 0
  {
    HistoryAfter(calls[..|calls| - 1]) + calls[|calls| - 1].others
  }

  function HistoryAfter(calls: seq<Call>): History
    requires ThreeAttempts(calls)
    decreases |calls|, 1
  {
    if calls == [] then []
    else
      var h, last := HistoryBefore(calls), calls[|calls| - 1];
      if OpenByHistory(h, last.start) then h else h + Recorded(last.attempts)
  }

  /** The outcomes are recorded in the order of time, all of them by now. */
  predicate InOrder(h: History, now: int) {
    Ordered(h) && (h != [] ==> h[|h| - 1].now <= now)
  }

  /** The clock does not go back in the run. */
  predicate Clocked(calls: seq<Call>)
    requires ThreeAttempts(calls)
  {
    forall n :: 0 < n <= |calls| ==>
      InOrder(HistoryBefore(calls[..n]), calls[n - 1].start) && Ordered(HistoryAfter(calls[..n]))
  }

  lemma ClockedFront(calls: seq<Call>)
    requires calls != [] && ThreeAttempts(calls) && Clocked(calls)
    ensures Clocked(calls[..|calls| - 1])
    ensures InOrder(HistoryBefore(calls), calls[|calls| - 1].start) && Ordered(HistoryAfter(calls))
  {
    var n := |calls| - 1;
    hide Ordered, InOrder, HistoryBefore, HistoryAfter;
    assert forall k :: 0 < k <= n ==> calls[..n][..k] == calls[..k];
    assert calls[..n + 1] == calls;
  }

  lemma LastCall(db: Db, calls: seq<Call>)
    requires calls != [] && ThreeAttempts(calls)
    ensures var front, last := calls[..|calls| - 1], calls[|calls| - 1];
            && DbBefore(db, calls) == Replay(DbAfter(db, front), last.others)
            && HistoryBefore(calls) == HistoryAfter(front) + last.others
            && DbAfter(db, calls) == (if IsOpen(DbBefore(db, calls), last.start) then DbBefore(db, calls)
                                      else Replay(DbBefore(db, calls), Recorded(last.attempts)))
            && HistoryAfter(calls) == (if OpenByHistory(HistoryBefore(calls), last.start) then HistoryBefore(calls)
                                       else HistoryBefore(calls) + Recorded(last.attempts))
  {
    hide Replay, IsOpen, OpenByHistory, Recorded, Sent;
  }

  /** Over any run of guarded calls among other callers, the store follows the history, and so a call sends
      its first request exactly when the history does not say open at its start. */
  lemma {:induction false} NoRequestWhileOpen(db: Db, calls: seq<Call>)
    requires NoBreakerKeys(db) && ThreeAttempts(calls) && Clocked(calls)
    ensures DbAfter(db, calls) == Replay(db, HistoryAfter(calls))
    ensures calls != [] ==>
              var start := calls[|calls| - 1].start;
              IsOpen(DbBefore(db, calls), start) <==> OpenByHistory(HistoryBefore(calls), start)
  {
    hide Replay, IsOpen, OpenByHistory, Recorded, Ordered, Sent, Clocked;
    hide HistoryBefore, HistoryAfter, DbBefore, DbAfter;
    if calls == [] {
      NoCalls(db, calls);
    } else {
      var front, last := calls[..|calls| - 1], calls[|calls| - 1];
      ClockedFront(calls);
      LastCall(db, calls);
      NoRequestWhileOpen(db, front);
      ReplayAppend(db, HistoryAfter(front), last.others);
      BreakerRefinesHistory(db, HistoryBefore(calls), last.start);
      ReplayAppend(db, HistoryBefore(calls), Recorded(last.attempts));
    }
  }

  lemma NoCalls(db: Db, calls: seq<Call>)
    requires calls == []
    ensures DbAfter(db, calls) == Replay(db, HistoryAfter(calls))
  {
  }

  /** A call that meets a 5xx ends with the breaker error exactly when the history up to then says open. */
  lemma FailureResultFollowsHistory(db: Db, calls: seq<Call>)
    requires NoBreakerKeys(db) && ThreeAttempts(calls) && Clocked(calls) && calls != []
    requires !OpenByHistory(HistoryBefore(calls), calls[|calls| - 1].start)
    ensures var attempts := calls[|calls| - 1].attempts;
            var last := attempts[Sent(attempts) - 1];
            Fails(last) && InOrder(HistoryAfter(calls), last.checkedAt) ==>
              (ResultOf(last, IsOpen(DbAfter(db, calls), last.checkedAt)) == BreakerOpen
               <==> OpenByHistory(HistoryAfter(calls), last.checkedAt))
  {
    var attempts := calls[|calls| - 1].attempts;
    var at := attempts[Sent(attempts) - 1].checkedAt;
    NoRequestWhileOpen(db, calls);
    hide Replay, IsOpen, OpenByHistory, Clocked, DbAfter, HistoryAfter;
    if InOrder(HistoryAfter(calls), at) {
      BreakerRefinesHistory(db, HistoryAfter(calls), at);
    }
  }
}
