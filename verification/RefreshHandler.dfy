/** The refresh handler as it runs when nothing interleaves with it; TokenProtocol
    takes the same handler apart into interleaved steps. */
module RefreshHandler {
  import opened Common
  import opened TokenTable
  import opened TokenProtocol

  /** The body's token when there is one, otherwise the cookie's for a client that
      asked for cookies. */
  function PresentedToken(body: Option<Token>, wantsCookie: bool, cookie: Option<Token>): Option<Token> {
    if body.Some? then body else if wantsCookie then cookie else None
  }

  /** The row gets past the Active check. */
  predicate Spendable(t: Table, token: Token, now: int) {
    token in t && Active(t[token], now)
  }

  /** An active token of an account that can be read: its row is spent, and a row of the same
      user with a full lifetime takes its place. */
  lemma ActiveIsExchanged(db: Store, t: Token, d1: nat, d2: nat, d3: nat)
    requires Issuance(db) && Spendable(db.table, t, db.now + d1)
    ensures var (rows, reply) := LoneRefresh(db, t, d1, d2, d3); var row, next := db.table[t], |db.family|;
      && reply == Issued(next) && rows.Keys == db.table.Keys + {next} && next !in db.table
      && rows[next] == Row(row.user, db.now + d1 + d2 + REFRESH_TOKEN_TTL, None, None)
      && rows[t] == Row(row.user, row.expiresAt, Some(db.now + d1 + d2 + d3), Some(next))
      && (forall x :: x in db.table && x != t ==> rows[x] == db.table[x])
  {}

  /** A token revoked longer ago than the grace: every session of its user ends, and only
      theirs. */
  lemma ReuseEndsEverySession(db: Store, t: Token, d1: nat, d2: nat, d3: nat)
    requires t in db.table && db.table[t].revokedAt.Some?
    requires db.now + d1 - db.table[t].revokedAt.value > ROTATION_GRACE
    ensures var (rows, reply) := LoneRefresh(db, t, d1, d2, d3);
      && reply == Refused && rows.Keys == db.table.Keys
      && (forall x :: x in rows ==>
            rows[x] == if db.table[x].user == db.table[t].user && db.table[x].revokedAt.None?
              then db.table[x].(revokedAt := Some(db.now + d1 + d2 + d3)) else db.table[x])
  {}

  class Handler {
    const repo: TokenRepository

    constructor (repo: TokenRepository)
      ensures this.repo == repo
    {
      this.repo := repo;
    }

    /** Exchange a refresh token. `now` is the clock when the row is read; `d1`, `d2` and
        `d3` are the delays before the Active check, before the new expiry is computed,
        and before the database write; `accountFound` is whether the account could be read. */
    method Refresh(body: Option<Token>, wantsCookie: bool, cookie: Option<Token>, accountFound: bool,
                   now: int, d1: nat, d2: nat, d3: nat, ghost family: seq<Token>)
      returns (reply: Reply)
      requires repo.Valid() && |family| == repo.nextId
      modifies repo
      ensures repo.Valid()
      ensures body.None? && (!wantsCookie || cookie.None?) ==> repo.rows == old(repo.rows) && reply == Refused
      ensures forall t: Token :: body == Some(t) || (body.None? && wantsCookie && cookie == Some(t)) ==>
        if !accountFound && Spendable(old(repo.rows), t, now + d1)
        then repo.rows == old(repo.rows) && reply == Refused
        else (repo.rows, reply) == LoneRefresh(Store(now, old(repo.rows), family, []), t, d1, d2, d3)
    {
      var presented := PresentedToken(body, wantsCookie, cookie);
      if presented.None? {
        return Refused;
      }
      var stored := repo.GetByToken(presented.value);
      if stored.None? {
        return Refused;
      }
      var row := stored.value;
      if !Active(row, now + d1) {
        if row.revokedAt.Some? && now + d1 - row.revokedAt.value > ROTATION_GRACE {
          repo.RevokeAllForUser(row.user, now + d1 + d2 + d3);
        }
        return Refused;
      }
      if !accountFound {
        return Refused;
      }
      var expiresAt := now + d1 + d2 + REFRESH_TOKEN_TTL;
      var next := repo.Rotate(presented.value, row.user, expiresAt, now + d1 + d2 + d3);
      if next.None? {
        return Refused;
      }
      return Issued(next.value);
    }

    /** Sign out: the presented token is revoked, and the answer is the same whether or
        not it existed. */
    method Logout(body: Option<Token>, wantsCookie: bool, cookie: Option<Token>, now: int)
      requires repo.Valid()
      modifies repo`rows
      ensures repo.Valid()
      ensures body.None? && (!wantsCookie || cookie.None?) ==> repo.rows == old(repo.rows)
      ensures forall t: Token :: body == Some(t) || (body.None? && wantsCookie && cookie == Some(t)) ==>
        && repo.rows.Keys == old(repo.rows).Keys
        && (forall x :: x in repo.rows && x != t ==> repo.rows[x] == old(repo.rows)[x])
        && (t in repo.rows ==>
              repo.rows[t] == if old(repo.rows)[t].revokedAt.Some? then old(repo.rows)[t]
                else old(repo.rows)[t].(revokedAt := Some(now)))
    {
      var presented := PresentedToken(body, wantsCookie, cookie);
      if presented.Some? {
        repo.Revoke(presented.value, now);
      }
    }
  }
}
