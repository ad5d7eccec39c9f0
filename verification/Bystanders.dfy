/** Which steps of the other handlers leave a raced session alone: the condition of the
    two-tab results, read off the step before it is taken. */
module Bystanders {
  import opened Common
  import opened TokenTable
  import opened TokenProtocol
  import opened BrowserTabs

  /** The rows a step revokes, exchanges or deletes. */
  function Touched(w: World, a: Action): set<Token> {
    var t := w.db.table;
    match a
    case Rotate(i) =>
      if i in w.frames && w.frames[i].Rotating? then Unrevoked(t) * {w.frames[i].token} else {}
    case EndSessions(i) =>
      if i in w.frames && w.frames[i].Revoking? then Unrevoked(t) * OfUser(t, w.frames[i].user) else {}
    case Logout(token) => Unrevoked(t) * {token}
    case ChangeRole(user) => Unrevoked(t) * OfUser(t, user)
    case Janitor(before) => Expired(t, before)
    case DeleteUser(user) => OfUser(t, user)
    case _ => {}
  }

  function Unrevoked(t: Table): set<Token> {
    set x | x in t && t[x].revokedAt.None?
  }

  /** A step changes or removes exactly the rows it touches: deletions clear no link of a
      row that stays. */
  lemma {:induction false} TouchedRows(w: World, a: Action, x: Token)
    requires Inv(w) && x in w.db.table
    ensures x in Touched(w, a) <==> !(x in Step(w, a).db.table && Step(w, a).db.table[x] == w.db.table[x])
  {
    assert LinkOk(w.db, x);
    if a.Rotate? && a.frame in w.frames && w.frames[a.frame].Rotating? {
      ExchangedRow(w.db, w.frames[a.frame], x);
    }
  }

  lemma {:induction false} ExchangedRow(db: Store, f: Frame, x: Token)
    requires Issuance(db) && x in db.table && f.Rotating?
    ensures match Exchange(db, f.token, f.user, f.expiresAt)
      case None => f.token !in Unrevoked(db.table)
      case Some(db') =>
        f.token in Unrevoked(db.table) && x in db'.table && (x == f.token <==> db'.table[x] != db.table[x])
  {}

  /** An unexpired row of the session in the cookie. */
  predicate InUse(b: Browser, x: Token) {
    var db := b.server.db;
    && b.cookie < |db.family| && x < |db.family| && db.family[x] == db.family[b.cookie]
    && x in db.table && db.table[x].expiresAt > db.now
  }

  /** Sparing the session is touching none of its unexpired rows. */
  lemma {:induction false} SparesIff(b: Browser, a: Action)
    requires Inv(b.server) && b.cookie < |b.server.db.family|
    ensures Spares(b, a) <==> forall x :: x in Touched(b.server, a) ==> !InUse(b, x)
  {
    forall x: Token | x in b.server.db.table
      ensures x in Touched(b.server, a)
        <==> !(x in Step(b.server, a).db.table && Step(b.server, a).db.table[x] == b.server.db.table[x])
    {
      TouchedRows(b.server, a, x);
    }
  }

  /** Signing in, reading, checking and giving up spare every session; so does a janitor
      that deletes only what has expired. */
  lemma {:induction false} MostStepsSpare(b: Browser, a: Action)
    requires Inv(b.server) && b.cookie < |b.server.db.family|
    requires !a.Rotate? && !a.EndSessions? && !a.Logout? && !a.ChangeRole? && !a.DeleteUser?
    requires a.Janitor? ==> a.before <= b.server.db.now
    ensures Spares(b, a)
  {
    SparesIff(b, a);
  }

  /** Whose sessions a step ends, if anybody's. */
  function Victim(w: World, a: Action): Option<string> {
    match a
    case ChangeRole(user) => Some(user)
    case DeleteUser(user) => Some(user)
    case EndSessions(i) => if i in w.frames && w.frames[i].Revoking? then Some(w.frames[i].user) else None
    case _ => None
  }

  /** What is done to one user's sessions spares those of every other user. */
  lemma {:induction false} OtherUsersSpare(b: Browser, a: Action)
    requires Inv(b.server) && b.cookie in b.server.db.table && b.cookie < |b.server.db.family|
    requires a.ChangeRole? || a.DeleteUser? || a.EndSessions?
    requires Victim(b.server, a) != Some(b.server.db.table[b.cookie].user)
    ensures Spares(b, a)
  {
    SparesIff(b, a);
    var db := b.server.db;
    forall x: Token | InUse(b, x) ensures db.table[x].user == db.table[b.cookie].user {
      assert OneUser(db);
    }
  }

  /** The token a logout or the last step of a refresh is about to spend, if any. */
  function Spending(w: World, a: Action): Option<Token> {
    match a
    case Logout(token) => Some(token)
    case Rotate(i) => if i in w.frames && w.frames[i].Rotating? then Some(w.frames[i].token) else None
    case _ => None
  }

  /** A refresh or a logout of another session spares this one, and so does one that presents
      a spent token of it. */
  lemma {:induction false} OtherSessionsSpare(b: Browser, a: Action)
    requires Inv(b.server) && b.cookie < |b.server.db.family| && (a.Logout? || a.Rotate?)
    requires var db := b.server.db;
      match Spending(b.server, a)
      case None => true
      case Some(x) => x < |db.family| && db.family[x] == db.family[b.cookie] ==> !Live(db.table, x)
    ensures Spares(b, a)
  {
    SparesIff(b, a);
  }
}
