/** The refresh token table and its repository.

    A token is named by the id of its row: the 256-bit secret and its hash are in
    one-to-one correspondence with the row, so presenting a token is naming a row,
    and presenting garbage is naming a row that does not exist. Times are
    nanoseconds on one clock. */
module TokenTable {
  import opened Common

  const SECOND := 1_000_000_000
  const REFRESH_TOKEN_TTL := 30 * 24 * 3600 * SECOND
  const ROTATION_GRACE := 30 * SECOND

  type Token = nat

  datatype Row = Row(user: string, expiresAt: int, revokedAt: Option<int>, replacedBy: Option<Token>)

  type Table = map<Token, Row>

  /** Whether the token may still be exchanged. */
  predicate Active(row: Row, now: int) {
    row.revokedAt.None? && now < row.expiresAt
  }

  function FreshRow(user: string, expiresAt: int): Row {
    Row(user, expiresAt, None, None)
  }

  /** One transaction: insert the replacement, then revoke the old row where it is not
      revoked yet; when no row matched, the insertion is rolled back. */
  function Rotated(t: Table, spent: Token, next: Token, user: string, expiresAt: int, now: int): Option<Table> {
    if spent in t && t[spent].revokedAt.None? && spent != next then
      Some(t[next := FreshRow(user, expiresAt)][spent := t[spent].(revokedAt := Some(now), replacedBy := Some(next))])
    else
      None
  }

  function Stamped(row: Row, now: int): Row {
    if row.revokedAt.None? then row.(revokedAt := Some(now)) else row
  }

  function RevokedOne(t: Table, token: Token, now: int): Table {
    if token in t then t[token := Stamped(t[token], now)] else t
  }

  function RevokedAll(t: Table, user: string, now: int): Table {
    map id | id in t :: if t[id].user == user then Stamped(t[id], now) else t[id]
  }

  /** The foreign key on replaced_by is ON DELETE SET NULL. */
  function Unlinked(row: Row, gone: set<Token>): Row {
    if row.replacedBy.Some? && row.replacedBy.value in gone then row.(replacedBy := None) else row
  }

  function Deleted(t: Table, gone: set<Token>): Table {
    map id | id in t && id !in gone :: Unlinked(t[id], gone)
  }

  function Expired(t: Table, before: int): set<Token> {
    set id | id in t && t[id].expiresAt < before
  }

  function OfUser(t: Table, user: string): set<Token> {
    set id | id in t && t[id].user == user
  }

  /** The repository: each method is one statement or one transaction on the table. */
  class TokenRepository {
    var rows: Table
    /** Every id below this one may have been handed out; ids are never handed out twice. */
    var nextId: nat

    ghost predicate Valid() reads this {
      forall id :: id in rows ==> id < nextId
    }

    constructor ()
      ensures Valid() && rows == map[] && nextId == 0
    {
      rows, nextId := map[], 0;
    }

    method Create(user: string, expiresAt: int) returns (token: Token)
      requires Valid()
      modifies this
      ensures Valid()
      ensures token == old(nextId) && token !in old(rows)
      ensures rows == old(rows)[token := FreshRow(user, expiresAt)]
      ensures nextId == old(nextId) + 1
    {
      token := nextId;
      nextId := nextId + 1;
      rows := rows[token := FreshRow(user, expiresAt)];
    }

    method GetByToken(token: Token) returns (row: Option<Row>)
      requires Valid()
      ensures row == if token in rows then Some(rows[token]) else None
    {
      if token in rows {
        row := Some(rows[token]);
      } else {
        row := None;
      }
    }

    /** Exactly the first rotation of a token that is still unrevoked succeeds; a loser
        leaves the table as it was. */
    method Rotate(spent: Token, user: string, expiresAt: int, now: int) returns (r: Option<Token>)
      requires Valid()
      modifies this
      ensures Valid()
      ensures r.Some? <==> spent in old(rows) && old(rows)[spent].revokedAt.None?
      ensures r.Some?
        ==> r.value == old(nextId) && Rotated(old(rows), spent, r.value, user, expiresAt, now) == Some(rows)
      ensures r.None? ==> rows == old(rows)
    {
      var before := rows;
      var next := nextId;
      nextId := nextId + 1;
      rows := rows[next := FreshRow(user, expiresAt)];
      var affected := 0;
      if spent in rows && spent != next && rows[spent].revokedAt.None? {
        rows := rows[spent := rows[spent].(revokedAt := Some(now), replacedBy := Some(next))];
        affected := 1;
      }
      if affected == 0 {
        rows := before;
        return None;
      }
      return Some(next);
    }

    method Revoke(token: Token, now: int)
      requires Valid()
      modifies this`rows
      ensures Valid() && rows == RevokedOne(old(rows), token, now)
    {
      if token in rows && rows[token].revokedAt.None? {
        rows := rows[token := rows[token].(revokedAt := Some(now))];
      }
    }

    method RevokeAllForUser(user: string, now: int)
      requires Valid()
      modifies this`rows
      ensures Valid() && rows == RevokedAll(old(rows), user, now) && rows.Keys == old(rows).Keys
      ensures forall id :: id in rows ==>
        rows[id] == if old(rows)[id].user == user && old(rows)[id].revokedAt.None?
          then old(rows)[id].(revokedAt := Some(now)) else old(rows)[id]
    {
      rows := map id | id in rows ::
        if rows[id].user == user && rows[id].revokedAt.None? then rows[id].(revokedAt := Some(now)) else rows[id];
    }

    method DeleteExpired(before: int) returns (removed: nat)
      requires Valid()
      modifies this`rows
      ensures Valid() && rows == Deleted(old(rows), Expired(old(rows), before))
      ensures removed == |Expired(old(rows), before)|
      ensures forall id :: id in rows <==> id in old(rows) && old(rows)[id].expiresAt >= before
    {
      var gone := set id | id in rows && rows[id].expiresAt < before;
      removed := |gone|;
      rows := map id | id in rows && id !in gone :: Unlinked(rows[id], gone);
    }
  }
}
