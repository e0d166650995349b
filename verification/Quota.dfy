/** The daily token quota and its leaderboard. */
module Quota {
  import opened Wrappers
  import opened Redis

  const DAY := 24 * 3600 * SECOND
  const MAX_DAILY_TOKENS := 100000

  function DayOf(now: int): int { now / DAY }

  /** Whole seconds to the next midnight, plus an hour. */
  function SecondsUntilMidnight(now: int): int {
    ((DayOf(now) + 1) * DAY - now) / SECOND + 3600
  }

  function Charged(db: Db, user: User, tokens: int, now: int): Db {
    CountedBy(db, TokenQuota(user, DayOf(now)), tokens, SecondsUntilMidnight(now), Some((DayOf(now), user)), now)
  }

  /** Returns whether the quota exception is raised. */
  method CheckAndIncrementTokenUsage(redis: Client, user: User, tokens: int, now: int) returns (exceeded: bool)
    modifies redis
    ensures redis.db == Charged(old(redis.db), user, tokens, now)
    ensures exceeded <==> ValueOrZero(old(redis.db), TokenQuota(user, DayOf(now)), now) + tokens > 100_000
  {
    var total := redis.IncrementCounterBy(TokenQuota(user, DayOf(now)), tokens, SecondsUntilMidnight(now),
                                          Some((DayOf(now), user)), now);
    exceeded := total > MAX_DAILY_TOKENS;
  }

  datatype Charge = Charge(user: User, tokens: int, now: int)

  function Run(db: Db, charges: seq<Charge>): Db {
    if charges == [] then db
    else
      var last := charges[|charges| - 1];
      Charged(Run(db, charges[..|charges| - 1]), last.user, last.tokens, last.now)
  }

  function TotalOf(charges: seq<Charge>, user: User): int {
    if charges == [] then 0
    else
      var last := charges[|charges| - 1];
      TotalOf(charges[..|charges| - 1], user) + if last.user == user then last.tokens else 0
  }

  function CountOf(charges: seq<Charge>, user: User): nat {
    if charges == [] then 0
    else CountOf(charges[..|charges| - 1], user) + if charges[|charges| - 1].user == user then 1 else 0
  }

  /** Positive charges in order, all on the given day. */
  predicate OnDay(charges: seq<Charge>, day: int) {
    && (forall i :: 0 <= i < |charges| ==> charges[i].tokens > 0 && DayOf(charges[i].now) == day)
    && (forall i, j :: 0 <= i < j < |charges| ==> charges[i].now <= charges[j].now)
  }

  predicate NoKeysOf(db: Db, day: int) {
    day !in db.boards && forall k :: k in db.keys && k.TokenQuota? ==> k.day != day
  }

  predicate OutlivesDay(expiresAt: Option<int>, day: int) {
    expiresAt.None? || expiresAt.value >= (day + 1) * DAY
  }

  /** The user's counter and score after the charges. The key has an expiry after the first charge only. */
  predicate Accounted(db: Db, charges: seq<Charge>, day: int, user: User) {
    var k := TokenQuota(user, day);
    if CountOf(charges, user) == 0 then
      k !in db.keys && (day in db.boards ==> user !in db.boards[day].scores)
    else
      && k in db.keys && day in db.boards && user in db.boards[day].scores
      && db.keys[k].value == TotalOf(charges, user) == db.boards[day].scores[user]
      && OutlivesDay(db.keys[k].expiresAt, day)
      && (db.keys[k].expiresAt.Some? <==> CountOf(charges, user) == 1)
  }

  predicate BoardLasts(db: Db, day: int) {
    day in db.boards ==> OutlivesDay(db.boards[day].expiresAt, day)
  }

  lemma {:induction false} TotalsPositive(charges: seq<Charge>, day: int, user: User)
    requires OnDay(charges, day)
    ensures TotalOf(charges, user) >= CountOf(charges, user)
  {
    if charges != [] {
      TotalsPositive(charges[..|charges| - 1], day, user);
    }
  }

  lemma BeforeMidnight(day: int, now: int)
    requires DayOf(now) == day
    ensures now < (day + 1) * DAY
    ensures now + SecondsUntilMidnight(now) * SECOND > (day + 1) * DAY
    ensures now + 172800 * SECOND > (day + 1) * DAY
  {
  }

  lemma CountedStep(db: Db, before: seq<Charge>, c: Charge, day: int, ttl: int, user: User)
    requires c.tokens > 0 && c.now < (day + 1) * DAY
    requires c.now + ttl * SECOND > (day + 1) * DAY && c.now + 172800 * SECOND > (day + 1) * DAY
    requires Accounted(db, before, day, user) && Accounted(db, before, day, c.user) && BoardLasts(db, day)
    requires TotalOf(before, c.user) >= CountOf(before, c.user)
    ensures var d := CountedBy(db, TokenQuota(c.user, day), c.tokens, ttl, Some((day, c.user)), c.now);
            Accounted(d, before + [c], day, user) && BoardLasts(d, day)
  {
    OneMore(before, c, user);
    hide TotalOf, CountOf;
    if CountOf(before, user) == 0 {
      ZeroTotal(before, user);
    }
  }

  lemma OneMore(before: seq<Charge>, c: Charge, user: User)
    ensures TotalOf(before + [c], user) == TotalOf(before, user) + if c.user == user then c.tokens else 0
    ensures CountOf(before + [c], user) == CountOf(before, user) + if c.user == user then 1 else 0
  {
    assert (before + [c])[..|before|] == before;
  }

  lemma ChargeStep(db: Db, before: seq<Charge>, c: Charge, day: int, user: User)
    requires DayOf(c.now) == day && c.tokens > 0
    requires Accounted(db, before, day, user) && Accounted(db, before, day, c.user) && BoardLasts(db, day)
    requires TotalOf(before, c.user) >= CountOf(before, c.user)
    ensures Accounted(Charged(db, c.user, c.tokens, c.now), before + [c], day, user)
    ensures BoardLasts(Charged(db, c.user, c.tokens, c.now), day)
  {
    BeforeMidnight(day, c.now);
    hide DayOf, SecondsUntilMidnight, Accounted, BoardLasts, CountedBy;
    CountedStep(db, before, c, day, SecondsUntilMidnight(c.now), user);
  }

  lemma NoCharges(db: Db, day: int, user: User)
    requires NoKeysOf(db, day)
    ensures Accounted(db, [], day, user) && BoardLasts(db, day)
  {
  }

  lemma {:induction false} RunAccounts(db: Db, charges: seq<Charge>, day: int, user: User)
    requires NoKeysOf(db, day) && OnDay(charges, day)
    ensures Accounted(Run(db, charges), charges, day, user) && BoardLasts(Run(db, charges), day)
    decreases |charges|
  {
    hide Charged, Accounted, BoardLasts, TotalOf, CountOf, NoKeysOf;
    if charges == [] {
      NoCharges(db, day, user);
    } else {
      var n := |charges| - 1;
      var before, last := charges[..n], charges[n];
      RunAccounts(db, before, day, user);
      RunAccounts(db, before, day, last.user);
      TotalsPositive(before, day, last.user);
      ChargeStep(Run(db, before), before, last, day, user);
      assert charges == before + [last];
    }
  }

  /** With positive charges on one day, each user's counter is the sum of that user's charges and so is the
      leaderboard score, and both are still there at any later time of the day. */
  lemma CountersAreSums(db: Db, charges: seq<Charge>, day: int, user: User, now: int)
    requires NoKeysOf(db, day) && OnDay(charges, day) && DayOf(now) == day
    ensures var d := Run(db, charges);
            && ValueOrZero(d, TokenQuota(user, day), now) == TotalOf(charges, user)
            && (CountOf(charges, user) > 0 ==>
                  && Live(d, TokenQuota(user, day), now)
                  && user in LiveBoard(d, day, now).scores
                  && LiveBoard(d, day, now).scores[user] == TotalOf(charges, user))
  {
    RunAccounts(db, charges, day, user);
    BeforeMidnight(day, now);
    if CountOf(charges, user) == 0 {
      ZeroTotal(charges, user);
    }
  }

  /** A user's total is the sum of the user's charges, one by one. */
  lemma {:induction false} TotalAppend(a: seq<Charge>, b: seq<Charge>, user: User)
    ensures TotalOf(a + b, user) == TotalOf(a, user) + TotalOf(b, user)
    ensures CountOf(a + b, user) == CountOf(a, user) + CountOf(b, user)
    ensures |b| == 1 ==> TotalOf(b, user) == (if b[0].user == user then b[0].tokens else 0)
                         && CountOf(b, user) == if b[0].user == user then 1 else 0
  {
    if b == [] {
      assert a + b == a;
    } else {
      var m := |b| - 1;
      TotalAppend(a, b[..m], user);
      assert (a + b)[..|a + b| - 1] == a + b[..m];
      assert m == 0 ==> b[..m] == [];
    }
  }

  /** Days are those of 86400 seconds, and an expiry set now falls on an hour after the next midnight, up to
      the second. */
  lemma ExpiresAnHourAfterMidnight(now: int)
    ensures var midnight := (DayOf(now) + 1) * 86_400_000;
            var at := now + SecondsUntilMidnight(now) * 1000;
            midnight - 86_400_000 <= now < midnight && midnight + 3_600_000 - 1000 < at <= midnight + 3_600_000
  {
  }

  lemma {:induction false} ZeroTotal(charges: seq<Charge>, user: User)
    requires CountOf(charges, user) == 0
    ensures TotalOf(charges, user) == 0
  {
    if charges != [] {
      ZeroTotal(charges[..|charges| - 1], user);
    }
  }

  /** The quota exception is raised exactly by the charges whose running total passes the limit. */
  lemma RaisedExactlyPastTheLimit(db: Db, charges: seq<Charge>, day: int, c: Charge)
    requires NoKeysOf(db, day) && OnDay(charges + [c], day)
    ensures ValueOrZero(Run(db, charges), TokenQuota(c.user, day), c.now) + c.tokens > 100_000
       <==> TotalOf(charges + [c], c.user) > 100_000
  {
    assert forall i :: 0 <= i < |charges| ==> charges[i] == (charges + [c])[i];
    assert (charges + [c])[|charges|] == c && (charges + [c])[..|charges|] == charges;
    CountersAreSums(db, charges, day, c.user, c.now);
  }

  /** The counter is meant to expire an hour after midnight. It does exactly when the user was charged once:
      the second charge removes the expiry and nothing sets it again. */
  lemma ExpiryLostOnSecondCharge(db: Db, charges: seq<Charge>, day: int, user: User)
    requires NoKeysOf(db, day) && OnDay(charges, day) && CountOf(charges, user) > 0
    ensures var k := TokenQuota(user, day);
            && k in Run(db, charges).keys
            && (Run(db, charges).keys[k].expiresAt.Some? <==> CountOf(charges, user) == 1)
  {
    RunAccounts(db, charges, day, user);
  }
}
