/** Refresh tokens: rotation with a grace period, logout, sign-out everywhere and password reset.
    A token stands for both its raw form and its hash, the hash being injective. Times are in seconds. */
module RefreshTokens {
  import opened Wrappers

  type Token = int
  type User = int

  const LIFETIME := 7 * 24 * 3600
  const GRACE_PERIOD := 60

  datatype Row = Row(user: User, expiresAt: int, revokedAt: Option<int>)

  type Rows = map<Token, Row>

  // ---------------------------------------------------------------- the table operations

  function Stored(rows: Rows, user: User, token: Token, now: int): Rows {
    rows[token := Row(user, now + LIFETIME, None)]
  }

  /** A presented token is good: known, not expired, and unused or within 60 seconds of its first use. */
  predicate Accepts(rows: Rows, raw: Token, now: int) {
    && raw in rows
    && now <= rows[raw].expiresAt
    && (rows[raw].revokedAt.Some? ==> now <= rows[raw].revokedAt.value + GRACE_PERIOD)
  }

  function Rotated(rows: Rows, raw: Token, token: Token, now: int): Rows {
    if !Accepts(rows, raw, now) then rows - {raw}
    else
      var row := rows[raw];
      var used := row.(revokedAt := if row.revokedAt.Some? then row.revokedAt else Some(now));
      Stored(rows[raw := used], row.user, token, now)
  }

  function WithoutUser(rows: Rows, user: User): Rows {
    map t | t in rows && rows[t].user != user :: rows[t]
  }

  class TokenTable {
    var rows: Rows

    method StoreRefreshToken(user: User, token: Token, now: int)
      modifies this
      ensures rows == Stored(old(rows), user, token, now)
      ensures rows == old(rows)[token := Row(user, now + 604_800, None)]
    {
      rows := rows[token := Row(user, now + LIFETIME, None)];
    }

    /** Returns the user the new pair is for, or None when the token is refused. */
    method ValidateAndRotate(raw: Token, token: Token, now: int) returns (user: Option<User>)
      modifies this
      ensures rows == Rotated(old(rows), raw, token, now)
      ensures user == if Accepts(old(rows), raw, now) then Some(old(rows)[raw].user) else None
      ensures user.Some? <==>
              && raw in old(rows)
              && now <= old(rows)[raw].expiresAt
              && (old(rows)[raw].revokedAt == None || now <= old(rows)[raw].revokedAt.value + 60)
      ensures user == None ==> rows == old(rows) - {raw}
      ensures user.Some? ==>
                var row := old(rows)[raw];
                var firstUse := if row.revokedAt == None then now else row.revokedAt.value;
                && user.value == row.user
                && rows == old(rows)[raw := row.(revokedAt := Some(firstUse))]
                                    [token := Row(row.user, now + 604_800, None)]
    {
      if raw !in rows {
        assert rows - {raw} == rows;
        return None;
      }
      var stored := rows[raw];
      if stored.expiresAt < now {
        rows := rows - {raw};
        return None;
      }
      if stored.revokedAt.Some? {
        if now > stored.revokedAt.value + GRACE_PERIOD {
          rows := rows - {raw};
          return None;
        }
        assert rows[raw := stored] == rows;
      } else {
        rows := rows[raw := stored.(revokedAt := Some(now))];
      }
      StoreRefreshToken(stored.user, token, now);
      user := Some(stored.user);
    }

    method RevokeRefreshToken(raw: Token)
      modifies this
      ensures rows == old(rows) - {raw}
    {
      rows := rows - {raw};
    }

    /** DELETE ... WHERE user_id, as sign-out everywhere and a consumed password reset both do. */
    method RevokeAll(user: User) returns (count: nat)
      modifies this
      ensures rows == WithoutUser(old(rows), user)
      ensures forall t :: t in rows <==> t in old(rows) && old(rows)[t].user != user
      ensures forall t :: t in rows ==> rows[t] == old(rows)[t]
      ensures count == |set t | t in old(rows) && old(rows)[t].user == user|
    {
      var gone := set t | t in rows && rows[t].user == user;
      rows := rows - gone;
      count := |gone|;
    }
  }

  // ---------------------------------------------------------------- runs

  datatype Action =
    | Login(user: User, token: Token)
    | Refresh(raw: Token, token: Token)
    | Logout(raw: Token)
    | SignOutEverywhere(user: User)
    | PasswordReset(user: User)

  datatype Event = Event(action: Action, now: int)

  type Trace = seq<Event>

  function Apply(rows: Rows, e: Event): Rows {
    match e.action
    case Login(user, token) => Stored(rows, user, token, e.now)
    case Refresh(raw, token) => Rotated(rows, raw, token, e.now)
    case Logout(raw) => rows - {raw}
    case SignOutEverywhere(user) => WithoutUser(rows, user)
    case PasswordReset(user) => WithoutUser(rows, user)
  }

  /** The table after a run that began with none. */
  function Table(trace: Trace): Rows {
    if trace == [] then map[] else Apply(Table(trace[..|trace| - 1]), trace[|trace| - 1])
  }

  predicate Accepted(trace: Trace, i: nat)
    requires i < |trace|
  {
    trace[i].action.Refresh? && Accepts(Table(trace[..i]), trace[i].action.raw, trace[i].now)
  }

  /** The token an event hands out if it succeeds. */
  function Issued(a: Action): Option<Token> {
    if a.Login? || a.Refresh? then Some(a.token) else None
  }

  predicate Mentions(a: Action, token: Token) {
    Issued(a) == Some(token) || ((a.Refresh? || a.Logout?) && a.raw == token)
  }

  /** Tokens are random: none is handed out that anybody has presented or been given before, and the raw
      token of a refresh differs from the one it hands out. */
  predicate FreshTokens(trace: Trace) {
    && (forall i, j :: 0 <= i < j < |trace| && Issued(trace[j].action).Some? ==>
          !Mentions(trace[i].action, Issued(trace[j].action).value))
    && (forall i :: 0 <= i < |trace| && trace[i].action.Refresh? ==> trace[i].action.raw != trace[i].action.token)
  }

  lemma FreshPrefix(trace: Trace)
    requires trace != [] && FreshTokens(trace)
    ensures FreshTokens(trace[..|trace| - 1])
  {
  }

  /** The login a token goes back to by rotations. */
  function Root(trace: Trace, token: Token): Option<nat> {
    if trace == [] then None
    else
      var n := |trace| - 1;
      var before, a := trace[..n], trace[n].action;
      if a.Login? && a.token == token then Some(n)
      else if a.Refresh? && a.token == token && Accepts(Table(before), a.raw, trace[n].now) then Root(before, a.raw)
      else Root(before, token)
  }

  predicate EndsSessionsOf(a: Action, user: User) {
    (a.SignOutEverywhere? || a.PasswordReset?) && a.user == user
  }

  /** j is a login of the user after which none of the user's sessions was ended wholesale. */
  predicate LiveLogin(trace: Trace, j: nat, user: User) {
    && j < |trace|
    && trace[j].action.Login? && trace[j].action.user == user
    && forall k :: j < k < |trace| ==> !EndsSessionsOf(trace[k].action, user)
  }

  ghost predicate Rooted(trace: Trace) {
    forall t :: t in Table(trace) ==>
      Root(trace, t).Some? && LiveLogin(trace, Root(trace, t).value, Table(trace)[t].user)
  }

  lemma LiveLoginStep(trace: Trace, j: nat, user: User)
    requires trace != [] && LiveLogin(trace[..|trace| - 1], j, user)
    requires !EndsSessionsOf(trace[|trace| - 1].action, user)
    ensures LiveLogin(trace, j, user)
  {
    var before := trace[..|trace| - 1];
    assert trace[j] == before[j];
    forall k | j < k < |trace| ensures !EndsSessionsOf(trace[k].action, user) {
      if k < |before| {
        assert trace[k] == before[k];
      }
    }
  }

  lemma {:induction false} TableIsRooted(trace: Trace)
    ensures Rooted(trace)
  {
    if trace != [] {
      var n := |trace| - 1;
      var before, e := trace[..n], trace[n];
      TableIsRooted(before);
      forall t | t in Table(trace)
        ensures Root(trace, t).Some? && LiveLogin(trace, Root(trace, t).value, Table(trace)[t].user)
      {
        RootedStep(trace, t);
      }
    }
  }

  lemma RootedStep(trace: Trace, t: Token)
    requires trace != [] && Rooted(trace[..|trace| - 1]) && t in Table(trace)
    ensures Root(trace, t).Some? && LiveLogin(trace, Root(trace, t).value, Table(trace)[t].user)
  {
    var n := |trace| - 1;
    var before, e := trace[..n], trace[n];
    var from := if e.action.Refresh? && e.action.token == t && Accepts(Table(before), e.action.raw, e.now)
                then e.action.raw else t;
    if e.action.Login? && e.action.token == t {
      assert Issued(e.action) == Some(t) && Root(trace, t) == Some(n);
      assert Table(trace) == Stored(Table(before), e.action.user, t, e.now);
      assert LiveLogin(trace, n, e.action.user);
    } else {
      assert from in Table(before) && Table(before)[from].user == Table(trace)[t].user;
      LiveLoginStep(trace, Root(before, from).value, Table(trace)[t].user);
    }
  }

  /** Every accepted refresh token descends by rotations from a login of its user, later than the user's
      last sign-out everywhere or password reset. */
  lemma AcceptedTokensDescendFromALiveLogin(trace: Trace, i: nat)
    requires i < |trace| && Accepted(trace, i)
    ensures var raw := trace[i].action.raw;
            var root := Root(trace[..i], raw);
            root.Some? && LiveLogin(trace[..i], root.value, Table(trace[..i])[raw].user)
  {
    TableIsRooted(trace[..i]);
  }

  /** Once used, and for as long as its row exists, a token carries the time of its first use. */
  lemma {:induction false} UsedTokensKeepTheirMark(trace: Trace, i: nat)
    requires FreshTokens(trace) && i < |trace| && Accepted(trace, i)
    ensures var raw := trace[i].action.raw;
            var first := Table(trace[..i])[raw].revokedAt;
            raw in Table(trace) ==>
              && Table(trace)[raw].revokedAt == (if first.Some? then first else Some(trace[i].now))
              && Table(trace)[raw].expiresAt == Table(trace[..i])[raw].expiresAt
    decreases |trace|
  {
    var n := |trace| - 1;
    var before := trace[..n];
    if i < n {
      assert before[..i] == trace[..i];
      FreshPrefix(trace);
      UsedTokensKeepTheirMark(before, i);
      assert Mentions(trace[i].action, trace[i].action.raw);
    }
  }

  /** A token first used at one time is accepted again exactly while its row exists, it has not expired and
      no more than 60 seconds have passed. */
  lemma ReuseOnlyInGracePeriod(trace: Trace, i: nat, k: nat)
    requires FreshTokens(trace) && i < k < |trace|
    requires Accepted(trace, i) && Table(trace[..i])[trace[i].action.raw].revokedAt == None
    requires trace[k].action.Refresh? && trace[k].action.raw == trace[i].action.raw
    ensures Accepted(trace, k) <==>
            && trace[k].action.raw in Table(trace[..k])
            && trace[k].now <= Table(trace[..i])[trace[i].action.raw].expiresAt
            && trace[k].now <= trace[i].now + 60
  {
    assert trace[..k][..i] == trace[..i] && trace[..k][i] == trace[i];
    UsedTokensKeepTheirMark(trace[..k], i);
  }

  lemma {:induction false} GoneTokensStayGone(trace: Trace, i: nat, raw: Token)
    requires FreshTokens(trace) && i < |trace| && Mentions(trace[i].action, raw)
    requires raw !in Table(trace[..i + 1])
    ensures raw !in Table(trace)
    decreases |trace|
  {
    var n := |trace| - 1;
    if i < n {
      assert trace[..n][..i + 1] == trace[..i + 1];
      FreshPrefix(trace);
      GoneTokensStayGone(trace[..n], i, raw);
    } else {
      assert trace[..i + 1] == trace;
    }
  }

  /** A logged-out token is never accepted again. */
  lemma LoggedOutTokensAreDead(trace: Trace, i: nat, k: nat)
    requires FreshTokens(trace) && i < k < |trace|
    requires trace[i].action.Logout? && trace[k].action.Refresh? && trace[k].action.raw == trace[i].action.raw
    ensures !Accepted(trace, k)
  {
    var early := trace[..k];
    assert early[..i + 1][..i] == early[..i] && early[i] == trace[i];
    GoneTokensStayGone(early, i, trace[i].action.raw);
  }

  /** A refused token is never accepted later. */
  lemma RefusedTokensAreDead(trace: Trace, i: nat, k: nat)
    requires FreshTokens(trace) && i < k < |trace|
    requires trace[i].action.Refresh? && !Accepted(trace, i)
    requires trace[k].action.Refresh? && trace[k].action.raw == trace[i].action.raw
    ensures !Accepted(trace, k)
  {
    var early := trace[..k];
    assert early[..i + 1][..i] == early[..i] == trace[..i] && early[i] == trace[i];
    GoneTokensStayGone(early, i, trace[i].action.raw);
  }

  /** Tokens are not one-time: a token used twice within the grace period is accepted twice. */
  lemma OneTimeUseFails()
    ensures var trace := [Event(Login(1, 10), 0), Event(Refresh(10, 11), 5), Event(Refresh(10, 12), 65)];
            FreshTokens(trace) && Accepted(trace, 1) && Accepted(trace, 2)
  {
    var trace := [Event(Login(1, 10), 0), Event(Refresh(10, 11), 5), Event(Refresh(10, 12), 65)];
    assert trace[..1][..0] == [] && trace[..2][..1] == trace[..1];
    assert Table(trace[..1]) == map[10 := Row(1, LIFETIME, None)];
    assert Table(trace[..2]) == Rotated(Table(trace[..1]), 10, 11, 5);
  }

  /** An event leaves all other tokens as they are: a sign-out everywhere or a reset those of other users, a
      logout, a login and a refresh all but the tokens they name. */
  lemma OtherTokensUntouched(trace: Trace, t: Token)
    requires trace != []
    ensures var before, after := Table(trace[..|trace| - 1]), Table(trace);
            var a := trace[|trace| - 1].action;
            var named := match a
                         case Login(_, token) => t == token
                         case Refresh(raw, token) => t == raw || t == token
                         case Logout(raw) => t == raw
                         case SignOutEverywhere(user) => t in before && before[t].user == user
                         case PasswordReset(user) => t in before && before[t].user == user;
            !named ==> (t in after <==> t in before) && (t in before ==> after[t] == before[t])
  {
  }
}
