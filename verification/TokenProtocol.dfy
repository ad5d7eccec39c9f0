/** Sign-in, refresh, logout, role change, reuse detection and the janitor as one
    interleaved protocol over the token table.

    A handler is a numbered frame that advances one database or clock access at a time; any
    step of any other handler may come in between. `family` and `exchanged` are
    history: the sign-in each token descends from, and the tokens that have been
    successfully exchanged, in order. */
module TokenProtocol {
  import opened Common
  import opened TokenTable

  datatype Frame =
    | SigningIn(user: string, expiresAt: int)              // issueTokens, before its insert
    | Loaded(token: Token, row: Row)                       // Refresh, holding what GetByToken read
    | Granted(token: Token, user: string)                  // Refresh, past the Active check
    | Rotating(token: Token, user: string, expiresAt: int) // Refresh, about to rotate
    | Revoking(user: string)                               // Refresh, about to end every session

  datatype Reply = Refused | Issued(token: Token)

  datatype Store = Store(now: int, table: Table, family: seq<Token>, exchanged: seq<Token>)

  datatype World = World(db: Store, frames: map<int, Frame>, replies: map<int, Reply>)

  datatype Action =
    | Tick(elapsed: nat)
    | BeginSignIn(frame: int, user: string)
    | FinishSignIn(frame: int)
    | Load(frame: int, token: Token)
    | Check(frame: int)
    | Prepare(frame: int)
    | Abandon(frame: int)
    | Rotate(frame: int)
    | EndSessions(frame: int)
    | Logout(token: Token)
    | ChangeRole(user: string)
    | Janitor(before: int)
    | DeleteUser(user: string)

  function Initial(now: int): World {
    World(Store(now, map[], [], []), map[], map[])
  }

  // ------------------------------------------------------------- the steps

  function Answer(w: World, frame: int, reply: Reply): World {
    w.(frames := w.frames - {frame}, replies := w.replies[frame := reply])
  }

  function Advance(w: World, frame: int, next: Frame): World {
    w.(frames := w.frames[frame := next])
  }

  function WithTable(w: World, t: Table): World {
    w.(db := w.db.(table := t))
  }

  function SignIn(db: Store, user: string, expiresAt: int): Store {
    var id := |db.family|;
    db.(table := db.table[id := FreshRow(user, expiresAt)], family := db.family + [id])
  }

  function Exchange(db: Store, spent: Token, user: string, expiresAt: int): Option<Store> {
    var id := |db.family|;
    match Rotated(db.table, spent, id, user, expiresAt, db.now)
    case None => None
    case Some(t) =>
      var parent := if spent < id then db.family[spent] else id;
      Some(db.(table := t, family := db.family + [parent], exchanged := db.exchanged + [spent]))
  }

  function LoadStep(w: World, frame: int, token: Token): World {
    if token in w.db.table then Advance(w, frame, Loaded(token, w.db.table[token])) else Answer(w, frame, Refused)
  }

  /** The Active check and, on a token revoked longer ago than the grace, the decision
      to end every session the user holds. */
  function CheckStep(w: World, frame: int, token: Token, row: Row): World {
    if Active(row, w.db.now) then Advance(w, frame, Granted(token, row.user))
    else if row.revokedAt.Some?
      && w.db.now - row.revokedAt.value > ROTATION_GRACE then Advance(w, frame, Revoking(row.user))
    else Answer(w, frame, Refused)
  }

  function RotateStep(w: World, frame: int, spent: Token, user: string, expiresAt: int): World {
    match Exchange(w.db, spent, user, expiresAt)
    case None => Answer(w, frame, Refused)
    case Some(db) => Answer(w.(db := db), frame, Issued(|w.db.family|))
  }

  /** A step that its frame is not ready for does nothing. */
  function Step(w: World, a: Action): World {
    match a
    case Tick(elapsed) => w.(db := w.db.(now := w.db.now + elapsed))
    case BeginSignIn(i, user) => Advance(w, i, SigningIn(user, w.db.now + REFRESH_TOKEN_TTL))
    case FinishSignIn(i) =>
      if i in w.frames && w.frames[i].SigningIn?
      then Answer(w.(db := SignIn(w.db, w.frames[i].user, w.frames[i].expiresAt)), i, Issued(|w.db.family|)) else w
    case Load(i, token) => LoadStep(w, i, token)
    case Check(i) =>
      if i in w.frames && w.frames[i].Loaded? then CheckStep(w, i, w.frames[i].token, w.frames[i].row) else w
    case Prepare(i) =>
      if i in w.frames && w.frames[i].Granted?
      then Advance(w, i, Rotating(w.frames[i].token, w.frames[i].user, w.db.now + REFRESH_TOKEN_TTL)) else w
    case Abandon(i) => Answer(w, i, Refused)
    case Rotate(i) =>
      if i in w.frames && w.frames[i].Rotating?
      then RotateStep(w, i, w.frames[i].token, w.frames[i].user, w.frames[i].expiresAt) else w
    case EndSessions(i) =>
      if i in w.frames && w.frames[i].Revoking?
      then Answer(WithTable(w, RevokedAll(w.db.table, w.frames[i].user, w.db.now)), i, Refused) else w
    case Logout(token) => WithTable(w, RevokedOne(w.db.table, token, w.db.now))
    case ChangeRole(user) => WithTable(w, RevokedAll(w.db.table, user, w.db.now))
    case Janitor(before) => WithTable(w, Deleted(w.db.table, Expired(w.db.table, before)))
    case DeleteUser(user) => WithTable(w, Deleted(w.db.table, OfUser(w.db.table, user)))
  }

  function Run(w: World, actions: seq<Action>): World
    decreases |actions|
  {
    if actions == [] then w else Run(Step(w, actions[0]), actions[1..])
  }

  // ---------------------------------------------------------- the invariant

  /** Every stored id was handed out. */
  ghost predicate Issuance(db: Store) {
    forall id :: id in db.table ==> id < |db.family|
  }

  /** A link leads from a revoked token to a stored, later token of the same family and
      user that expires no earlier. */
  ghost predicate LinkOk(db: Store, a: Token)
    requires a in db.table
  {
    db.table[a].replacedBy.Some? ==>
      var b := db.table[a].replacedBy.value;
      && db.table[a].revokedAt.Some?
      && b in db.table
      && a < b < |db.family|
      && db.family[a] == db.family[b]
      && db.table[a].user == db.table[b].user
      && db.table[a].expiresAt <= db.table[b].expiresAt
  }

  ghost predicate Links(db: Store) {
    forall a :: a in db.table ==> LinkOk(db, a)
  }

  ghost predicate LinksTo(t: Table, a: Token, b: Token) {
    a in t && t[a].replacedBy == Some(b)
  }

  /** Nothing is the successor of two tokens: the chains are disjoint. */
  ghost predicate Disjoint(t: Table) {
    forall a1, a2, b :: LinksTo(t, a1, b) && LinksTo(t, a2, b) ==> a1 == a2
  }

  ghost predicate Live(t: Table, a: Token) {
    a in t && t[a].revokedAt.None?
  }

  /** An unrevoked token is the newest of its family. */
  ghost predicate Newest(db: Store) {
    forall a: Token, c: Token :: Live(db.table, a) && a < c < |db.family| ==> db.family[c] != db.family[a]
  }

  ghost predicate OneUser(db: Store) {
    forall a, b :: a in db.table && b in db.table && a < |db.family| && b < |db.family| && db.family[a] == db.family[b]
      ==> db.table[a].user == db.table[b].user
  }

  ghost predicate Clock(db: Store) {
    forall a :: a in db.table ==>
      && db.table[a].expiresAt <= db.now + REFRESH_TOKEN_TTL
      && (db.table[a].revokedAt.Some? ==> db.table[a].revokedAt.value <= db.now)
  }

  /** A family is named by the token of its sign-in. */
  ghost predicate Roots(db: Store) {
    forall i :: 0 <= i < |db.family| ==> db.family[i] <= i
  }

  /** No token has been exchanged twice, and an exchanged token is spent. */
  ghost predicate SingleUse(db: Store) {
    && (forall i, j :: 0 <= i < j < |db.exchanged| ==> db.exchanged[i] != db.exchanged[j])
    && (forall i :: 0 <= i < |db.exchanged| ==> db.exchanged[i] < |db.family| && !Live(db.table, db.exchanged[i]))
  }

  ghost predicate Sound(db: Store) {
    Issuance(db) && Links(db) && Disjoint(db.table) && Newest(db) && OneUser(db) && Clock(db) && Roots(db)
      && SingleUse(db)
  }

  /** What a handler holds is stale at worst in the ways the protocol tolerates. */
  ghost predicate FrameOk(db: Store, f: Frame) {
    match f
    case SigningIn(_, expiresAt) => expiresAt <= db.now + REFRESH_TOKEN_TTL
    case Loaded(token, row) => token < |db.family| && (token in db.table ==> db.table[token].user == row.user)
    case Granted(token, user) => token < |db.family| && (token in db.table ==> db.table[token].user == user)
    case Rotating(token, user, expiresAt) =>
      && token < |db.family|
      && expiresAt <= db.now + REFRESH_TOKEN_TTL
      && (token in db.table ==> db.table[token].user == user && db.table[token].expiresAt <= expiresAt)
    case Revoking(_) => true
  }

  ghost predicate Frames(w: World) {
    forall i :: i in w.frames ==> FrameOk(w.db, w.frames[i])
  }

  ghost predicate Inv(w: World) {
    Sound(w.db) && Frames(w)
  }

  // ------------------------------------------------------ every step keeps it

  /** Rows may only be stamped or dropped, and a dropped row takes the links to it along
      or clears them; this covers logout, revoke-all and both deletions. */
  lemma TableKeeps(db: Store, t: Table)
    requires Sound(db)
    requires forall id ::
      id in t ==> id in db.table && t[id].user == db.table[id].user && t[id].expiresAt == db.table[id].expiresAt
    requires forall id :: id in t && t[id].revokedAt != db.table[id].revokedAt ==>
      t[id].revokedAt == Some(db.now) && db.table[id].revokedAt.None?
    requires forall id :: id in t ==>
      t[id].replacedBy.None? || (t[id].replacedBy == db.table[id].replacedBy && t[id].replacedBy.value in t)
    ensures Sound(db.(table := t))
  {
    var db' := db.(table := t);
    forall a | a in t ensures LinkOk(db', a) { assert LinkOk(db, a); }
    forall a1, a2, b | LinksTo(t, a1, b) && LinksTo(t, a2, b) ensures a1 == a2 {
      assert LinksTo(db.table, a1, b) && LinksTo(db.table, a2, b);
    }
    forall a | Live(t, a) ensures Live(db.table, a) {}
    assert OneUser(db');
  }

  lemma StampKeeps(db: Store, t: Table)
    requires Sound(db) && t.Keys == db.table.Keys
    requires forall id :: id in t ==> t[id] == db.table[id] || t[id] == Stamped(db.table[id], db.now)
    ensures Sound(db.(table := t))
  {
    forall id | id in t && t[id].replacedBy.Some? ensures t[id].replacedBy.value in t { assert LinkOk(db, id); }
    TableKeeps(db, t);
  }

  lemma DeleteKeeps(db: Store, gone: set<Token>)
    requires Sound(db)
    ensures Sound(db.(table := Deleted(db.table, gone)))
  {
    var t := Deleted(db.table, gone);
    forall id | id in t && t[id].replacedBy.Some?
      ensures t[id].replacedBy == db.table[id].replacedBy && t[id].replacedBy.value in t
    {
      assert LinkOk(db, id);
    }
    TableKeeps(db, t);
  }

  /** Handlers survive any change of the store that keeps users and expiries, adds rows
      only under new ids, and does not turn the clock back. */
  lemma FramesKeep(w: World, db: Store)
    requires Inv(w)
    requires db.now >= w.db.now && |db.family| >= |w.db.family|
    requires forall id :: id in db.table && id < |w.db.family| ==>
      id in w.db.table && db.table[id].user == w.db.table[id].user && db.table[id].expiresAt == w.db.table[id].expiresAt
    ensures forall i :: i in w.frames ==> FrameOk(db, w.frames[i])
  {
    forall i | i in w.frames ensures FrameOk(db, w.frames[i]) { assert FrameOk(w.db, w.frames[i]); }
  }

  lemma SignInKeeps(db: Store, user: string, expiresAt: int)
    requires Sound(db) && expiresAt <= db.now + REFRESH_TOKEN_TTL
    ensures Sound(SignIn(db, user, expiresAt))
  {
    var db' := SignIn(db, user, expiresAt);
    forall a | a in db'.table ensures LinkOk(db', a) { if a in db.table { assert LinkOk(db, a); } }
    forall a1, a2, b | LinksTo(db'.table, a1, b) && LinksTo(db'.table, a2, b) ensures a1 == a2 {
      assert LinksTo(db.table, a1, b) && LinksTo(db.table, a2, b);
    }
    forall a | Live(db'.table, a) ensures a == |db.family| || Live(db.table, a) {}
  }

  lemma {:induction false} ExchangeLinks(db: Store, spent: Token, user: string, expiresAt: int)
    requires Sound(db) && FrameOk(db, Rotating(spent, user, expiresAt)) && Live(db.table, spent)
    ensures Links(Exchange(db, spent, user, expiresAt).value)
  {
    var db' := Exchange(db, spent, user, expiresAt).value;
    forall a | a in db'.table ensures LinkOk(db', a) { if a in db.table { assert LinkOk(db, a); } }
  }

  lemma {:induction false} ExchangeDisjoint(db: Store, spent: Token, user: string, expiresAt: int)
    requires Sound(db) && Live(db.table, spent)
    ensures Disjoint(Exchange(db, spent, user, expiresAt).value.table)
  {
    var t := Exchange(db, spent, user, expiresAt).value.table;
    assert forall a :: a in db.table ==> LinkOk(db, a);
    forall a, b | LinksTo(t, a, b) ensures if b == |db.family| then a == spent else LinksTo(db.table, a, b) {}
  }

  lemma ExchangeNewest(db: Store, spent: Token, user: string, expiresAt: int)
    requires Sound(db) && Live(db.table, spent)
    ensures Newest(Exchange(db, spent, user, expiresAt).value)
  {
    var db' := Exchange(db, spent, user, expiresAt).value;
    forall a: Token, c: Token | Live(db'.table, a) && a < c < |db'.family| ensures db'.family[c] != db'.family[a] {
      assert Live(db.table, a) && a != spent;
      assert a < spent || spent < a;
    }
  }

  lemma ExchangeUses(db: Store, spent: Token, user: string, expiresAt: int)
    requires Sound(db) && FrameOk(db, Rotating(spent, user, expiresAt)) && Live(db.table, spent)
    ensures OneUser(Exchange(db, spent, user, expiresAt).value)
    ensures SingleUse(Exchange(db, spent, user, expiresAt).value)
  {
    var db' := Exchange(db, spent, user, expiresAt).value;
    assert forall a :: Live(db'.table, a) ==> a == |db.family| || (Live(db.table, a) && a != spent);
    forall a, b | a in db'.table && b in db'.table && db'.family[a] == db'.family[b]
      ensures db'.table[a].user == db'.table[b].user
    {
      assert a in db.table || a == |db.family|;
      assert b in db.table || b == |db.family|;
    }
  }

  lemma {:induction false} ExchangeRows(db: Store, spent: Token, user: string, expiresAt: int)
    requires Sound(db) && FrameOk(db, Rotating(spent, user, expiresAt)) && Live(db.table, spent)
    ensures var db' := Exchange(db, spent, user, expiresAt).value; Issuance(db') && Clock(db') && Roots(db')
  {
  }

  lemma {:induction false} ExchangeKeeps(db: Store, spent: Token, user: string, expiresAt: int)
    requires Sound(db) && FrameOk(db, Rotating(spent, user, expiresAt)) && Live(db.table, spent)
    ensures Exchange(db, spent, user, expiresAt).Some? && Sound(Exchange(db, spent, user, expiresAt).value)
  {
    ExchangeRows(db, spent, user, expiresAt);
    ExchangeLinks(db, spent, user, expiresAt);
    ExchangeDisjoint(db, spent, user, expiresAt);
    ExchangeNewest(db, spent, user, expiresAt);
    ExchangeUses(db, spent, user, expiresAt);
  }

  lemma FinishSignInKeeps(w: World, i: int)
    requires Inv(w) && i in w.frames && w.frames[i].SigningIn?
    ensures Inv(Step(w, FinishSignIn(i)))
  {
    assert FrameOk(w.db, w.frames[i]);
    SignInKeeps(w.db, w.frames[i].user, w.frames[i].expiresAt);
    FramesKeep(w, Step(w, FinishSignIn(i)).db);
  }

  lemma RotateKeeps(w: World, i: int)
    requires Inv(w) && i in w.frames && w.frames[i].Rotating?
    ensures Inv(Step(w, Rotate(i)))
  {
    var f := w.frames[i];
    assert FrameOk(w.db, f);
    if Live(w.db.table, f.token) {
      ExchangeKeeps(w.db, f.token, f.user, f.expiresAt);
      FramesKeep(w, Step(w, Rotate(i)).db);
    }
  }

  lemma {:induction false} HandlerKeeps(w: World, a: Action)
    requires Inv(w) && (a.BeginSignIn? || a.Load? || a.Check? || a.Prepare? || a.Abandon?)
    ensures Inv(Step(w, a))
  {
    var w' := Step(w, a);
    assert w'.db == w.db;
    forall i | i in w'.frames ensures FrameOk(w.db, w'.frames[i]) {
      if i in w.frames { assert FrameOk(w.db, w.frames[i]); }
    }
  }

  lemma {:induction false} TickKeeps(w: World, elapsed: nat)
    requires Inv(w)
    ensures Inv(Step(w, Tick(elapsed)))
  {
    var w' := Step(w, Tick(elapsed));
    forall id | id in w'.db.table ensures LinkOk(w'.db, id) { assert LinkOk(w.db, id); }
    FramesKeep(w, w'.db);
  }

  /** The janitor's deletions, and those that go with an account. */
  lemma {:induction false} RemovalKeeps(w: World, gone: set<Token>)
    requires Inv(w)
    ensures Inv(WithTable(w, Deleted(w.db.table, gone)))
  {
    var w' := WithTable(w, Deleted(w.db.table, gone));
    DeleteKeeps(w.db, gone);
    FramesKeep(w, w'.db);
  }

  /** Revocations, of one token or of all that a user holds. */
  lemma {:induction false} RevocationKeeps(w: World, t: Table)
    requires Inv(w) && t.Keys == w.db.table.Keys
    requires forall id :: id in t ==> t[id] == w.db.table[id] || t[id] == Stamped(w.db.table[id], w.db.now)
    ensures Inv(WithTable(w, t))
  {
    StampKeeps(w.db, t);
    FramesKeep(w, WithTable(w, t).db);
  }

  lemma {:induction false} EndSessionsKeeps(w: World, i: int)
    requires Inv(w)
    ensures Inv(Step(w, EndSessions(i)))
  {
    if i in w.frames && w.frames[i].Revoking? {
      RevocationKeeps(w, RevokedAll(w.db.table, w.frames[i].user, w.db.now));
    }
  }

  lemma StepKeeps(w: World, a: Action)
    requires Inv(w)
    ensures Inv(Step(w, a))
  {
    match a {
      case FinishSignIn(i) => if i in w.frames && w.frames[i].SigningIn? { FinishSignInKeeps(w, i); }
      case Rotate(i) => if i in w.frames && w.frames[i].Rotating? { RotateKeeps(w, i); }
      case BeginSignIn(_, _) => HandlerKeeps(w, a);
      case Load(_, _) => HandlerKeeps(w, a);
      case Check(_) => HandlerKeeps(w, a);
      case Prepare(_) => HandlerKeeps(w, a);
      case Abandon(_) => HandlerKeeps(w, a);
      case Tick(elapsed) => TickKeeps(w, elapsed);
      case EndSessions(i) => EndSessionsKeeps(w, i);
      case Logout(token) => RevocationKeeps(w, RevokedOne(w.db.table, token, w.db.now));
      case ChangeRole(user) => RevocationKeeps(w, RevokedAll(w.db.table, user, w.db.now));
      case Janitor(before) => RemovalKeeps(w, Expired(w.db.table, before));
      case DeleteUser(user) => RemovalKeeps(w, OfUser(w.db.table, user));
    }
  }

  lemma {:induction false} RunKeeps(w: World, actions: seq<Action>)
    requires Inv(w)
    ensures Inv(Run(w, actions))
    decreases |actions|
  {
    if actions != [] {
      StepKeeps(w, actions[0]);
      RunKeeps(Step(w, actions[0]), actions[1..]);
    }
  }

  // -------------------------------------------------------- main results

  lemma InitialInv(now: int)
    ensures Inv(Initial(now))
  {}

  /** In every interleaving: a sign-in's family has at most one unrevoked token, a
      replaced token is revoked, links stay inside one user and one family and lead to
      later tokens, no two chains meet, and no token is exchanged twice. */
  lemma EveryInterleavingIsSafe(now: int, actions: seq<Action>)
    ensures var db := Run(Initial(now), actions).db;
      && Issuance(db)
      && (forall a: Token, b: Token ::
           Live(db.table, a) && Live(db.table, b) && db.family[a] == db.family[b] ==> a == b)
      && (forall a: Token, b: Token :: LinksTo(db.table, a, b) ==>
            && !Live(db.table, a) && b in db.table && a < b
            && db.family[a] == db.family[b] && db.table[a].user == db.table[b].user)
      && Disjoint(db.table)
      && (forall i, j :: 0 <= i < j < |db.exchanged| ==> db.exchanged[i] != db.exchanged[j])
  {
    InitialInv(now);
    RunKeeps(Initial(now), actions);
    var db := Run(Initial(now), actions).db;
    forall a: Token, b: Token | LinksTo(db.table, a, b) ensures LinkOk(db, a) {}
    forall a: Token, b: Token | Live(db.table, a) && Live(db.table, b) && db.family[a] == db.family[b] ensures a == b {
      assert a < b ==> a < b < |db.family|;
      assert b < a ==> b < a < |db.family|;
    }
  }

  /** A chain of links: it climbs through one family from its first token, every token on it
      but the last is spent, and the last has no successor. */
  ghost predicate IsChain(db: Store, chain: seq<Token>)
    requires Issuance(db)
  {
    && |chain| > 0
    && (forall i :: 0 <= i < |chain| ==> chain[i] in db.table)
    && (forall i :: 0 <= i < |chain| ==> db.family[chain[i]] == db.family[chain[0]])
    && (forall i, j :: 0 <= i < j < |chain| ==> chain[i] < chain[j])
    && (forall i :: 0 <= i < |chain| - 1 ==> LinksTo(db.table, chain[i], chain[i + 1]) && !Live(db.table, chain[i]))
    && db.table[chain[|chain| - 1]].replacedBy.None?
  }

  lemma {:induction false} ChainGrows(db: Store, a: Token, rest: seq<Token>)
    requires Sound(db) && IsChain(db, rest) && LinksTo(db.table, a, rest[0])
    ensures IsChain(db, [a] + rest)
  {
    var chain := [a] + rest;
    assert LinkOk(db, a);
    assert forall i :: 0 < i < |chain| ==> chain[i] == rest[i - 1];
    assert forall i :: 0 <= i < |rest| ==> a < rest[0] <= rest[i];
  }

  /** Following the links from a stored token ends. */
  ghost function Chain(db: Store, a: Token): (chain: seq<Token>)
    requires Sound(db) && a in db.table
    ensures IsChain(db, chain) && chain[0] == a
    decreases |db.family| - a
  {
    assert LinkOk(db, a);
    match db.table[a].replacedBy
    case None => [a]
    case Some(b) =>
      ChainGrows(db, a, Chain(db, b));
      [a] + Chain(db, b)
  }

  /** Pruning takes a prefix of each chain: a token goes only if the one before it goes,
      so no kept row loses its successor and every kept row is left untouched. */
  lemma JanitorPrunesPrefixes(db: Store, before: int)
    requires Sound(db)
    ensures forall a: Token, b: Token ::
      LinksTo(db.table, a, b) && b in Expired(db.table, before) ==> a in Expired(db.table, before)
    ensures Deleted(db.table, Expired(db.table, before)) == db.table - Expired(db.table, before)
  {
    var gone := Expired(db.table, before);
    forall a: Token, b: Token | LinksTo(db.table, a, b) && b in gone ensures a in gone { assert LinkOk(db, a); }
    forall a | a in db.table && a !in gone ensures Unlinked(db.table[a], gone) == db.table[a] {
      if db.table[a].replacedBy.Some? { assert LinksTo(db.table, a, db.table[a].replacedBy.value); }
    }
  }

  /** An account takes its tokens along, and leaves every other token as it was. */
  lemma {:induction false} AccountTakesItsTokens(w: World, user: string)
    requires Inv(w)
    ensures var t, t' := w.db.table, Step(w, DeleteUser(user)).db.table;
      && (forall x :: x in t' <==> x in t && t[x].user != user)
      && (forall x :: x in t' ==> t'[x] == t[x])
  {
    forall x | x in w.db.table ensures LinkOk(w.db, x) {}
  }

  /** No token of the family is unrevoked. */
  ghost predicate Dead(db: Store, family: Token) {
    forall a: Token :: Live(db.table, a) ==> a < |db.family| && db.family[a] != family
  }

  /** What has happened since: families and exchanges are only added to, and none of the
      new exchanges belongs to the family. */
  ghost predicate Untouched(db: Store, db': Store, family: Token) {
    && db.family <= db'.family
    && db.exchanged <= db'.exchanged
    && (forall i :: |db.exchanged| <= i < |db'.exchanged| ==>
          db'.exchanged[i] < |db'.family| && db'.family[db'.exchanged[i]] != family)
  }

  lemma {:induction false} DeadStaysDead(w: World, a: Action, family: Token)
    requires Inv(w) && Dead(w.db, family) && family < |w.db.family|
    ensures Dead(Step(w, a).db, family) && Untouched(w.db, Step(w, a).db, family)
  {
    var w' := Step(w, a);
    if a.Rotate? && a.frame in w.frames && w.frames[a.frame].Rotating? {
      var f := w.frames[a.frame];
      assert FrameOk(w.db, f);
      if Live(w.db.table, f.token) {
        assert w'.db == Exchange(w.db, f.token, f.user, f.expiresAt).value;
        forall b: Token | Live(w'.db.table, b) ensures w'.db.family[b] != family {
          assert b == |w.db.family| || Live(w.db.table, b);
        }
      }
    } else {
      forall b: Token | Live(w'.db.table, b) ensures b < |w'.db.family| && w'.db.family[b] != family {
        assert Live(w.db.table, b) || b == |w.db.family|;
      }
    }
  }

  lemma {:induction false} DeadForever(w: World, actions: seq<Action>, family: Token)
    requires Inv(w) && Dead(w.db, family) && family < |w.db.family|
    ensures Dead(Run(w, actions).db, family) && Untouched(w.db, Run(w, actions).db, family)
    decreases |actions|
  {
    if actions != [] {
      var w1 := Step(w, actions[0]);
      StepKeeps(w, actions[0]);
      DeadStaysDead(w, actions[0], family);
      DeadForever(w1, actions[1..], family);
    }
  }

  /** Once every session of a user has been ended, by a role change or on reuse, no
      token of any family the user had is ever active again and no exchange in such a
      family ever succeeds, whatever refreshes were already under way. */
  lemma RevocationIsFinal(w: World, revoke: Action, later: seq<Action>, a: Token)
    requires Inv(w) && a in w.db.table
    requires revoke.ChangeRole? || (revoke.EndSessions? && revoke.frame in w.frames && w.frames[revoke.frame].Revoking?)
    requires w.db.table[a].user == if revoke.ChangeRole? then revoke.user else w.frames[revoke.frame].user
    ensures var w1 := Step(w, revoke); var w2 := Run(w1, later);
      && Dead(w2.db, w.db.family[a])
      && Untouched(w1.db, w2.db, w.db.family[a])
      && (forall b ::
           b in w2.db.table && b < |w2.db.family| && w2.db.family[b] == w.db.family[a] ==>
             !Active(w2.db.table[b], w2.db.now))
  {
    var w1 := Step(w, revoke);
    StepKeeps(w, revoke);
    forall b: Token | Live(w1.db.table, b) ensures w1.db.family[b] != w.db.family[a] {
      assert Live(w.db.table, b) && w.db.table[b].user != w.db.table[a].user;
    }
    assert w.db.family[a] <= a;
    DeadForever(w1, later, w.db.family[a]);
    var w2 := Run(w1, later);
    forall b | b in w2.db.table && b < |w2.db.family| && w2.db.family[b] == w.db.family[a]
      ensures !Active(w2.db.table[b], w2.db.now) {
      assert !Live(w2.db.table, b);
    }
  }

  // ------------------------------------------------- a sign-in and a refresh alone

  /** A sign-in on its own stores an unrevoked token of the user that lasts thirty days from
      the clock reading, and answers with it. */
  lemma {:induction false} LoneSignIn(w: World, i: int, user: string, d: nat)
    ensures var w' := Step(Step(Step(w, BeginSignIn(i, user)), Tick(d)), FinishSignIn(i)); var id := |w.db.family|;
      && w'.db.table == w.db.table[id := Row(user, w.db.now + 30 * 86400 * SECOND, None, None)]
      && i in w'.replies && w'.replies[i] == Issued(id) && w'.db.family == w.db.family + [id]
  {}


  /** The steps of one refresh with nothing in between; the clock is read before the
      check, before the new expiry is computed, and by the database. */
  function RefreshSteps(frame: int, presented: Token, d1: nat, d2: nat, d3: nat): seq<Action> {
    [Load(frame, presented), Tick(d1), Check(frame), Tick(d2), Prepare(frame), Tick(d3), Rotate(frame),
        EndSessions(frame)]
  }

  lemma Peel(w: World, s: seq<Action>, i: nat)
    requires i < |s|
    ensures Run(w, s[i..]) == Run(Step(w, s[i]), s[i + 1..])
  {
    assert s[i..][1..] == s[i + 1..];
  }

  /** What a lone refresh does, said without the steps: an active token is exchanged for
      one that expires a full lifetime after the second clock reading; a token revoked
      longer ago than the grace ends every session of its user; anything else changes
      nothing. Only the first is answered with a token. */
  function LoneRefresh(db: Store, presented: Token, d1: nat, d2: nat, d3: nat): (Table, Reply) {
    if presented !in db.table then (db.table, Refused)
    else
      var row := db.table[presented];
      var checked := db.now + d1;
      var end := checked + d2 + d3;
      if row.revokedAt.None? && checked < row.expiresAt then
        var id := |db.family|;
        (db.table[id := FreshRow(row.user, checked + d2 + REFRESH_TOKEN_TTL)]
                 [presented := row.(revokedAt := Some(end), replacedBy := Some(id))], Issued(id))
      else if row.revokedAt.Some? && checked - row.revokedAt.value > ROTATION_GRACE then
        (RevokedAll(db.table, row.user, end), Refused)
      else (db.table, Refused)
  }

  lemma RunOfEight(w: World, s: seq<Action>)
    requires |s| == 8
    ensures Run(w, s) ==
      Step(Step(Step(Step(Step(Step(Step(Step(w, s[0]), s[1]), s[2]), s[3]), s[4]), s[5]), s[6]), s[7])
  {
    var a1 := Step(w, s[0]);   Peel(w, s, 0);
    var a2 := Step(a1, s[1]);  Peel(a1, s, 1);
    var a3 := Step(a2, s[2]);  Peel(a2, s, 2);
    var a4 := Step(a3, s[3]);  Peel(a3, s, 3);
    var a5 := Step(a4, s[4]);  Peel(a4, s, 4);
    var a6 := Step(a5, s[5]);  Peel(a5, s, 5);
    var a7 := Step(a6, s[6]);  Peel(a6, s, 6);
    Peel(a7, s, 7);
    assert s[0..] == s && s[8..] == [];
  }

  /** Load, wait and check, in one. */
  lemma LoneCheck(w: World, i: int, presented: Token, d1: nat)
    requires i !in w.frames
    ensures var w3 := Step(Step(Step(w, Load(i, presented)), Tick(d1)), Check(i));
      && w3.db == w.db.(now := w.db.now + d1)
      && (presented !in w.db.table ==> i !in w3.frames && i in w3.replies && w3.replies[i] == Refused)
      && (presented in w.db.table ==>
            var row := w.db.table[presented];
            if Active(row, w.db.now + d1) then i in w3.frames && w3.frames[i] == Granted(presented, row.user)
            else if row.revokedAt.Some? && w.db.now + d1 - row.revokedAt.value > ROTATION_GRACE
              then i in w3.frames && w3.frames[i] == Revoking(row.user)
            else i !in w3.frames && i in w3.replies && w3.replies[i] == Refused)
  {}

  lemma LoneWrite(w: World, i: int, d2: nat, d3: nat)
    ensures var w' := Step(Step(Step(Step(Step(w, Tick(d2)), Prepare(i)), Tick(d3)), Rotate(i)), EndSessions(i));
      && (i !in w.frames ==> w'.db.table == w.db.table && w'.replies == w.replies)
      && (i in w.frames && w.frames[i].Revoking? ==>
            w'.db.table == RevokedAll(w.db.table, w.frames[i].user, w.db.now + d2 + d3) && i in w'.replies
              && w'.replies[i] == Refused)
      && (i in w.frames && w.frames[i].Granted? ==>
            match Exchange(w.db.(now := w.db.now + d2 + d3), w.frames[i].token, w.frames[i].user,
                w.db.now + d2 + REFRESH_TOKEN_TTL)
            case None => w'.db.table == w.db.table && i in w'.replies && w'.replies[i] == Refused
            case Some(db) => w'.db == db && i in w'.replies && w'.replies[i] == Issued(|w.db.family|))
  {}

  lemma {:induction false} LoneExchange(db: Store, spent: Token, now: int, expiresAt: int)
    requires Issuance(db) && Live(db.table, spent)
    ensures var row, id := db.table[spent], |db.family|;
      var r := Exchange(db.(now := now), spent, row.user, expiresAt);
      r.Some? && r.value.table == db.table[id := FreshRow(row.user, expiresAt)]
        [spent := row.(revokedAt := Some(now), replacedBy := Some(id))]
  {}

  lemma {:induction false} LoneRefreshRuns(w: World, i: int, presented: Token, d1: nat, d2: nat, d3: nat)
    requires Issuance(w.db) && i !in w.frames
    ensures var w' := Run(w, RefreshSteps(i, presented, d1, d2, d3));
      && i in w'.replies
      && LoneRefresh(w.db, presented, d1, d2, d3) == (w'.db.table, w'.replies[i])
  {
    var w3 := Step(Step(Step(w, Load(i, presented)), Tick(d1)), Check(i));
    RunOfEight(w, RefreshSteps(i, presented, d1, d2, d3));
    LoneCheck(w, i, presented, d1);
    LoneWrite(w3, i, d2, d3);
    if presented in w.db.table && Active(w.db.table[presented], w.db.now + d1) {
      LoneExchange(w.db, presented, w3.db.now + d2 + d3, w3.db.now + d2 + REFRESH_TOKEN_TTL);
    }
  }
}
