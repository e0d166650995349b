/** The clocked key store behind the circuit breaker and the quotas, and the helpers written on it.
    Times are in milliseconds; a key is gone from the instant it expires. */
module Redis {
  import opened Wrappers

  type User = int

  datatype Key =
    | CircuitFailures
    | CircuitOpenUntil
    | TokenQuota(user: User, day: int)

  datatype Entry = Entry(value: int, expiresAt: Option<int>)

  /** A sorted set with its members' scores. */
  datatype Board = Board(scores: map<User, int>, expiresAt: Option<int>)

  /** The plain keys, and the daily leaderboards by day. */
  datatype Db = Db(keys: map<Key, Entry>, boards: map<int, Board>)

  const SECOND := 1000

  predicate Alive(expiresAt: Option<int>, now: int) {
    expiresAt.None? || now < expiresAt.value
  }

  predicate Live(db: Db, k: Key, now: int) {
    k in db.keys && Alive(db.keys[k].expiresAt, now)
  }

  function Get(db: Db, k: Key, now: int): Option<int> {
    if Live(db, k, now) then Some(db.keys[k].value) else None
  }

  function ValueOrZero(db: Db, k: Key, now: int): int {
    if Live(db, k, now) then db.keys[k].value else 0
  }

  /** INCRBY keeps the key's expiry, a new key has none. */
  function IncrBy(db: Db, k: Key, amount: int, now: int): Db {
    db.(keys := db.keys[k := Entry(ValueOrZero(db, k, now) + amount,
                                   if Live(db, k, now) then db.keys[k].expiresAt else None)])
  }

  function WithExpiry(db: Db, k: Key, expiresAt: Option<int>, now: int): Db {
    if Live(db, k, now) then db.(keys := db.keys[k := db.keys[k].(expiresAt := expiresAt)]) else db
  }

  function Expire(db: Db, k: Key, seconds: int, now: int): Db {
    WithExpiry(db, k, Some(now + seconds * SECOND), now)
  }

  function Persist(db: Db, k: Key, now: int): Db {
    WithExpiry(db, k, None, now)
  }

  function SetEx(db: Db, k: Key, value: int, seconds: int, now: int): Db {
    db.(keys := db.keys[k := Entry(value, Some(now + seconds * SECOND))])
  }

  function Del(db: Db, k: Key): Db {
    db.(keys := db.keys - {k})
  }

  function LiveBoard(db: Db, day: int, now: int): Board {
    if day in db.boards && Alive(db.boards[day].expiresAt, now) then db.boards[day] else Board(map[], None)
  }

  function ZIncrBy(db: Db, day: int, amount: int, member: User, now: int): Db {
    var board := LiveBoard(db, day, now);
    var score := if member in board.scores then board.scores[member] else 0;
    db.(boards := db.boards[day := board.(scores := board.scores[member := score + amount])])
  }

  function ExpireBoard(db: Db, day: int, seconds: int, now: int): Db {
    if day in db.boards && Alive(db.boards[day].expiresAt, now)
    then db.(boards := db.boards[day := db.boards[day].(expiresAt := Some(now + seconds * SECOND))])
    else db
  }

  // ---------------------------------------------------------------- increment_counter and increment_counter_by

  function Counted(db: Db, k: Key, ttl: int, now: int): Db {
    var d := IncrBy(db, k, 1, now);
    if ValueOrZero(db, k, now) + 1 == 1 then Expire(d, k, ttl, now) else d
  }

  function CountedBy(db: Db, k: Key, amount: int, ttl: int, board: Option<(int, User)>, now: int): Db {
    var d := Persist(IncrBy(db, k, amount, now), k, now);
    var e := if board.Some? then ZIncrBy(d, board.value.0, amount, board.value.1, now) else d;
    if ValueOrZero(db, k, now) + amount != amount then e
    else
      var f := Expire(e, k, ttl, now);
      if board.Some? then ExpireBoard(f, board.value.0, 172800, now) else f
  }

  /** The amount is added to the key, which has an expiry only when it was new. */
  lemma CountedByKeys(db: Db, k: Key, amount: int, ttl: int, board: Option<(int, User)>, now: int)
    ensures var count := amount + if Live(db, k, now) then db.keys[k].value else 0;
            CountedBy(db, k, amount, ttl, board, now).keys
              == db.keys[k := Entry(count, if count == amount then Some(now + ttl * 1000) else None)]
  {
    hide LiveBoard;
    var d := Persist(IncrBy(db, k, amount, now), k, now);
    var count := amount + if Live(db, k, now) then db.keys[k].value else 0;
    assert d.keys == db.keys[k := Entry(count, None)];
    hide Persist, IncrBy;
    if board.Some? {
      assert ZIncrBy(d, board.value.0, amount, board.value.1, now).keys == d.keys;
      hide ZIncrBy;
    }
  }

  /** The amount is added to the member's score on the day's board, and nothing else changes. */
  lemma CountedByBoards(db: Db, k: Key, amount: int, ttl: int, board: Option<(int, User)>, now: int)
    ensures var d := CountedBy(db, k, amount, ttl, board, now);
            var count := amount + if Live(db, k, now) then db.keys[k].value else 0;
            if board == None then d.boards == db.boards
            else
              var (day, member) := board.value;
              var was := LiveBoard(db, day, now);
              var score := amount + if member in was.scores then was.scores[member] else 0;
              var expiresAt := if count == amount then Some(now + 172_800_000) else was.expiresAt;
              d.boards == db.boards[day := Board(was.scores[member := score], expiresAt)]
  {
    var d := IncrBy(db, k, amount, now);
    assert d.boards == db.boards && Persist(d, k, now).boards == db.boards;
    if board.Some? {
      var (day, member) := board.value;
      assert LiveBoard(Persist(d, k, now), day, now) == LiveBoard(db, day, now);
      var e := ZIncrBy(Persist(d, k, now), day, amount, member, now);
      assert Alive(e.boards[day].expiresAt, now);
      hide IncrBy, Persist, ZIncrBy, LiveBoard;
    }
  }

  class Client {
    var db: Db

    method IncrementCounter(k: Key, ttl: int, now: int) returns (count: int)
      modifies this
      ensures db == Counted(old(db), k, ttl, now)
      ensures count == 1 + if Live(old(db), k, now) then old(db).keys[k].value else 0
      ensures var expiresAt := if count == 1 then Some(now + ttl * 1000)
                               else if Live(old(db), k, now) then old(db).keys[k].expiresAt else None;
              db == old(db).(keys := old(db).keys[k := Entry(count, expiresAt)])
    {
      db := IncrBy(db, k, 1, now);
      count := db.keys[k].value;
      if count == 1 {
        db := Expire(db, k, ttl, now);
      }
    }

    method IncrementCounterBy(k: Key, amount: int, ttl: int, board: Option<(int, User)>, now: int) returns (count: int)
      modifies this
      ensures db == CountedBy(old(db), k, amount, ttl, board, now)
      ensures count == amount + if Live(old(db), k, now) then old(db).keys[k].value else 0
      ensures db.keys == old(db).keys[k := Entry(count, if count == amount then Some(now + ttl * 1000) else None)]
      ensures board == None ==> db.boards == old(db).boards
      ensures board.Some? ==>
                var (day, member) := board.value;
                var was := LiveBoard(old(db), day, now);
                var score := amount + if member in was.scores then was.scores[member] else 0;
                var expiresAt := if count == amount then Some(now + 172_800_000) else was.expiresAt;
                db.boards == old(db).boards[day := Board(was.scores[member := score], expiresAt)]
    {
      CountedByKeys(db, k, amount, ttl, board, now);
      CountedByBoards(db, k, amount, ttl, board, now);
      db := IncrBy(db, k, amount, now);
      count := db.keys[k].value;
      db := Persist(db, k, now);
      if board.Some? {
        db := ZIncrBy(db, board.value.0, amount, board.value.1, now);
      }
      if count == amount {
        db := Expire(db, k, ttl, now);
        if board.Some? {
          db := ExpireBoard(db, board.value.0, 172800, now);
        }
      }
    }
  }
}
