/** Browser tabs that share one refresh cookie, over the server protocol.

    Each tab runs at most one refresh at a time (the interceptor's single slot): it
    sends the cookie's token, and when refused waits and tries once more with whatever
    the cookie holds by then. Requests and responses travel independently, so any step
    of any tab or of the server may come in between. Handler i serves tab i; every other
    handler has a negative number. */
module BrowserTabs {
  import opened Common
  import opened TokenTable
  import opened TokenProtocol

  datatype Tab =
    | Idle                               // about to refresh
    | Asked(attempt: nat, token: Token)  // request on its way
    | Pending(attempt: nat)              // at the server, or its response on the way back
    | Backoff                            // refused once, waiting before the retry
    | SignedIn                           // holds a new access token
    | SignedOut                          // refused twice

  datatype Browser = Browser(server: World, cookie: Token, tabs: seq<Tab>)

  datatype Move =
    | Send(tab: nat)
    | Arrive(tab: nat)
    | Serve(tab: nat)
    | Deliver(tab: nat)
    | Retry(tab: nat)
    | Wait(elapsed: nat)
    | Elsewhere(action: Action)

  function WithTab(b: Browser, i: nat, t: Tab): Browser
    requires i < |b.tabs|
  {
    b.(tabs := b.tabs[i := t])
  }

  /** The next step of the handler serving tab i. */
  function ServeAction(f: Frame, i: nat): Action {
    match f
    case SigningIn(_, _) => FinishSignIn(i)
    case Loaded(_, _) => Check(i)
    case Granted(_, _) => Prepare(i)
    case Rotating(_, _, _) => Rotate(i)
    case Revoking(_) => EndSessions(i)
  }

  /** A response reaches the tab: a token lands in the cookie, a refusal costs the tab
      its attempt. */
  function DeliverStep(b: Browser, i: nat, attempt: nat, reply: Reply): Browser
    requires i < |b.tabs|
  {
    var b' := b.(server := b.server.(replies := b.server.replies - {i}));
    match reply
    case Issued(token) => WithTab(b', i, SignedIn).(cookie := token)
    case Refused => WithTab(b', i, if attempt == 1 then Backoff else SignedOut)
  }

  /** A step of some other handler: not one that serves a tab. */
  predicate Foreign(a: Action) {
    match a
    case BeginSignIn(i, _) => i < 0
    case FinishSignIn(i) => i < 0
    case Load(i, _) => i < 0
    case Check(i) => i < 0
    case Prepare(i) => i < 0
    case Abandon(i) => i < 0
    case Rotate(i) => i < 0
    case EndSessions(i) => i < 0
    case _ => true
  }

  /** A move that its tab is not ready for does nothing. */
  function MoveStep(b: Browser, m: Move): Browser {
    match m
    case Send(i) => if i < |b.tabs| && b.tabs[i].Idle? then WithTab(b, i, Asked(1, b.cookie)) else b
    case Arrive(i) =>
      if i < |b.tabs| && b.tabs[i].Asked?
      then WithTab(b, i, Pending(b.tabs[i].attempt)).(server := Step(b.server, Load(i, b.tabs[i].token))) else b
    case Serve(i) =>
      if i < |b.tabs| && i in b.server.frames then b.(server := Step(b.server, ServeAction(b.server.frames[i], i)))
        else b
    case Deliver(i) =>
      if i < |b.tabs| && b.tabs[i].Pending? && i in b.server.replies
      then DeliverStep(b, i, b.tabs[i].attempt, b.server.replies[i]) else b
    case Retry(i) => if i < |b.tabs| && b.tabs[i].Backoff? then WithTab(b, i, Asked(2, b.cookie)) else b
    case Wait(elapsed) => b.(server := Step(b.server, Tick(elapsed)))
    case Elsewhere(a) => if Foreign(a) then b.(server := Step(b.server, a)) else b
  }

  function Play(b: Browser, moves: seq<Move>): Browser
    decreases |moves|
  {
    if moves == [] then b else Play(MoveStep(b, moves[0]), moves[1..])
  }

  /** No handler is at work for a tab. */
  predicate Quiet(s: World) {
    (forall i :: i in s.frames ==> i < 0) && (forall i :: i in s.replies ==> i < 0)
  }

  /** All tabs about to refresh with the same cookie, which holds a token that was still
      unrevoked at the start. Other handlers may be under way at any point of theirs. */
  ghost predicate Start(b: Browser) {
    && Inv(b.server)
    && Quiet(b.server)
    && Live(b.server.db.table, b.cookie)
    && (forall i :: 0 <= i < |b.tabs| ==> b.tabs[i] == Idle)
  }

  lemma {:induction false} TheClockRuns(w: World, a: Action)
    ensures Step(w, a).db.now >= w.db.now
  {}

  lemma {:induction false} ActionKeepsInv(w: World, a: Action)
    requires Inv(w)
    ensures Inv(Step(w, a)) && Step(w, a).db.now >= w.db.now
  {
    StepKeeps(w, a);
    TheClockRuns(w, a);
  }

  lemma {:induction false} MoveKeepsInv(b: Browser, m: Move)
    requires Inv(b.server)
    ensures Inv(MoveStep(b, m).server)
    ensures MoveStep(b, m).server.db.now >= b.server.db.now
    ensures |MoveStep(b, m).tabs| == |b.tabs|
  {
    match m {
      case Arrive(i) => if i < |b.tabs| && b.tabs[i].Asked? { ActionKeepsInv(b.server, Load(i, b.tabs[i].token)); }
      case Serve(i) =>
        if i < |b.tabs| && i in b.server.frames { ActionKeepsInv(b.server, ServeAction(b.server.frames[i], i)); }
      case Wait(elapsed) => ActionKeepsInv(b.server, Tick(elapsed));
      case Elsewhere(a) => if Foreign(a) { ActionKeepsInv(b.server, a); }
      case Deliver(i) => assert MoveStep(b, m).server.db == b.server.db;
      case _ =>
    }
  }

  lemma {:induction false} PlayKeepsInv(b: Browser, moves: seq<Move>)
    requires Inv(b.server)
    ensures Inv(Play(b, moves).server) && Play(b, moves).server.db.now >= b.server.db.now
    decreases |moves|
  {
    if moves != [] {
      MoveKeepsInv(b, moves[0]);
      PlayKeepsInv(MoveStep(b, moves[0]), moves[1..]);
    }
  }

  // ------------------------------------ any number of tabs: no false alarm

  ghost predicate RevokedSince(row: Row, t0: int) {
    row.revokedAt.Some? ==> row.revokedAt.value >= t0
  }

  /** Tokens a tab can have come by since the start: the first cookie, or a later one. */
  predicate Recent(token: Token, first: Token, issued: nat) {
    token == first || token >= issued
  }

  /** Nothing a tab may present was revoked before t0. */
  ghost predicate CalmStore(db: Store, t0: int, first: Token, issued: nat) {
    && Issuance(db)
    && t0 <= db.now && issued <= |db.family|
    && (forall x :: x in db.table && Recent(x, first, issued) ==> RevokedSince(db.table[x], t0))
  }

  /** The handlers that serve the tabs hold nothing that was revoked before t0. */
  ghost predicate CalmFrames(s: World, tabs: nat, t0: int, issued: nat) {
    && (forall i :: i in s.frames && 0 <= i < tabs && s.frames[i].Loaded? ==> RevokedSince(s.frames[i].row, t0))
    && (forall i :: i in s.frames && 0 <= i < tabs && s.frames[i].Revoking? ==> s.db.now > t0 + ROTATION_GRACE)
    && (forall i :: i in s.replies && 0 <= i < tabs && s.replies[i].Issued? ==> s.replies[i].token >= issued)
  }

  ghost predicate Calm(b: Browser, t0: int, first: Token, issued: nat) {
    && CalmStore(b.server.db, t0, first, issued)
    && CalmFrames(b.server, |b.tabs|, t0, issued)
    && Recent(b.cookie, first, issued)
    && (forall i :: 0 <= i < |b.tabs| && b.tabs[i].Asked? ==> Recent(b.tabs[i].token, first, issued))
  }

  /** Whatever happens to a row from now on, it is not revoked before now. */
  lemma {:induction false} StoreStaysCalm(w: World, a: Action, t0: int, first: Token, issued: nat)
    requires CalmStore(w.db, t0, first, issued) && !a.Rotate?
    ensures CalmStore(Step(w, a).db, t0, first, issued)
  {
  }

  lemma {:induction false} RotateStaysCalm(w: World, i: int, t0: int, first: Token, issued: nat)
    requires CalmStore(w.db, t0, first, issued)
    ensures CalmStore(Step(w, Rotate(i)).db, t0, first, issued)
  {
    if i in w.frames && w.frames[i].Rotating? {
      var f, id := w.frames[i], |w.db.family|;
      if Live(w.db.table, f.token) && f.token != id {
        assert Step(w, Rotate(i)).db.table == w.db.table[id := FreshRow(f.user, f.expiresAt)]
          [f.token := w.db.table[f.token].(revokedAt := Some(w.db.now), replacedBy := Some(id))];
      }
    }
  }

  /** A step of a tab's own handler. */
  lemma {:induction false} FramesStayCalm(w: World, a: Action, tabs: nat, t0: int, first: Token, issued: nat)
    requires CalmStore(w.db, t0, first, issued) && CalmFrames(w, tabs, t0, issued)
    requires a.Load? ==> Recent(a.token, first, issued)
    requires a.Load? || a.Check? || a.Prepare? || a.FinishSignIn? || a.EndSessions? || a.Rotate?
    ensures CalmFrames(Step(w, a), tabs, t0, issued)
  {
  }

  /** A step of another handler leaves the tabs' frames and replies alone. */
  lemma {:induction false} ForeignStaysCalm(w: World, a: Action, tabs: nat, t0: int, first: Token, issued: nat)
    requires CalmStore(w.db, t0, first, issued) && CalmFrames(w, tabs, t0, issued) && Foreign(a)
    ensures CalmFrames(Step(w, a), tabs, t0, issued)
  {
  }

  lemma {:induction false} ServerKeepsCalm(w: World, a: Action, tabs: nat, t0: int, first: Token, issued: nat)
    requires CalmStore(w.db, t0, first, issued) && CalmFrames(w, tabs, t0, issued)
    requires a.Load? ==> Recent(a.token, first, issued)
    requires a.Load? || a.Check? || a.Prepare? || a.FinishSignIn? || a.EndSessions? || a.Rotate?
    ensures CalmStore(Step(w, a).db, t0, first, issued) && CalmFrames(Step(w, a), tabs, t0, issued)
  {
    FramesStayCalm(w, a, tabs, t0, first, issued);
    if a.Rotate? { RotateStaysCalm(w, a.frame, t0, first, issued); } else { StoreStaysCalm(w, a, t0, first, issued); }
  }

  lemma {:induction false} ElsewhereKeepsCalm(b: Browser, a: Action, t0: int, first: Token, issued: nat)
    requires Calm(b, t0, first, issued)
    ensures Calm(MoveStep(b, Elsewhere(a)), t0, first, issued)
  {
    if Foreign(a) {
      ForeignStaysCalm(b.server, a, |b.tabs|, t0, first, issued);
      if a.Rotate? { RotateStaysCalm(b.server, a.frame, t0, first, issued); }
        else { StoreStaysCalm(b.server, a, t0, first, issued); }
    }
  }

  lemma {:induction false} MoveKeepsCalm(b: Browser, m: Move, t0: int, first: Token, issued: nat)
    requires Calm(b, t0, first, issued)
    ensures Calm(MoveStep(b, m), t0, first, issued)
  {
    match m {
      case Arrive(i) =>
        if i < |b.tabs| && b.tabs[i].Asked? {
          ServerKeepsCalm(b.server, Load(i, b.tabs[i].token), |b.tabs|, t0, first, issued);
        }
      case Serve(i) =>
        if i < |b.tabs| && i in b.server.frames {
          ServerKeepsCalm(b.server, ServeAction(b.server.frames[i], i), |b.tabs|, t0, first, issued);
        }
      case Wait(elapsed) => StoreStaysCalm(b.server, Tick(elapsed), t0, first, issued);
      case Elsewhere(a) => ElsewhereKeepsCalm(b, a, t0, first, issued);
      case _ =>
    }
  }

  lemma {:induction false} PlayKeepsCalm(b: Browser, moves: seq<Move>, t0: int, first: Token, issued: nat)
    requires Calm(b, t0, first, issued)
    ensures Calm(Play(b, moves), t0, first, issued) && |Play(b, moves).tabs| == |b.tabs|
    decreases |moves|
  {
    if moves != [] {
      MoveKeepsCalm(b, moves[0], t0, first, issued);
      PlayKeepsCalm(MoveStep(b, moves[0]), moves[1..], t0, first, issued);
    }
  }

  /** However many tabs race, and whatever sign-ins, refreshes of other sessions, logouts,
      role changes, deletions and janitors happen meanwhile, inside the grace no handler that
      serves a tab ever decides to end the user's sessions. */
  lemma {:induction false} NoFalseAlarm(b: Browser, moves: seq<Move>)
    requires Start(b)
    requires Play(b, moves).server.db.now <= b.server.db.now + ROTATION_GRACE
    ensures var s := Play(b, moves).server; forall i :: i in s.frames && 0 <= i < |b.tabs| ==> !s.frames[i].Revoking?
  {
    PlayKeepsCalm(b, moves, b.server.db.now, b.cookie, |b.server.db.family|);
  }

  // -------------------------------------------- two tabs: both stay signed in

  /** The first cookie, the session it belongs to, how many tokens had been issued when the
      race began, and the end of the grace. */
  datatype Race = Race(first: Token, family: Token, issued: nat, deadline: int)

  /** The last token issued in a session. */
  function NewestOf(family: seq<Token>, root: Token): Token {
    if family == [] then root
    else if family[|family| - 1] == root then |family| - 1
    else NewestOf(family[..|family| - 1], root)
  }

  lemma {:induction false} NewestIs(family: seq<Token>, root: Token, x: Token)
    requires x < |family| && family[x] == root
    requires forall y: Token :: x < y < |family| ==> family[y] != root
    ensures NewestOf(family, root) == x
  {
    if x < |family| - 1 {
      assert family[|family| - 1] != root;
      NewestIs(family[..|family| - 1], root, x);
    }
  }

  /** The newest token of the raced session. */
  function Current(db: Store, r: Race): Token {
    NewestOf(db.family, r.family)
  }

  /** Issuing one more token makes it the newest of its own session and of no other. */
  lemma {:induction false} IssuingMovesOne(family: seq<Token>, root: Token, x: Token)
    ensures NewestOf(family + [x], root) == if x == root then |family| else NewestOf(family, root)
  {
    assert (family + [x])[..|family|] == family;
  }

  /** A token of the raced session that a tab can have come by. */
  predicate InRace(db: Store, r: Race, x: Token) {
    x < |db.family| && db.family[x] == r.family && Recent(x, r.first, r.issued)
  }

  predicate Undelivered(b: Browser, i: nat) {
    i in b.server.replies && b.server.replies[i].Issued?
  }

  predicate Won(b: Browser, i: nat) {
    i < |b.tabs| && (b.tabs[i].SignedIn? || (b.tabs[i].Pending? && Undelivered(b, i)))
  }

  /** A tab in its attempt holds the newest token, or a spent one on its first attempt
      while the other tab has won. */
  ghost predicate Holds(b: Browser, r: Race, i: nat, attempt: nat, x: Token)
    requires i < 2 && |b.tabs| == 2
  {
    var db := b.server.db;
    && (attempt == 1 || attempt == 2)
    && x in db.table && InRace(db, r, x)
    && (x == Current(db, r) ==> !Undelivered(b, 1 - i))
    && (x != Current(db, r) ==> attempt == 1 && Won(b, 1 - i) && !Live(db.table, x))
    && (attempt == 2 ==> b.tabs[1 - i].SignedIn?)
  }

  ghost predicate RowInTime(row: Row, r: Race) {
    row.expiresAt > r.deadline && (row.revokedAt.Some? ==> r.deadline - row.revokedAt.value <= ROTATION_GRACE)
  }

  ghost predicate Serving(b: Browser, r: Race, i: nat, attempt: nat, f: Frame)
    requires i < 2 && |b.tabs| == 2
  {
    match f
    case Loaded(x, row) =>
      Holds(b, r, i, attempt, x) && RowInTime(row, r) && (row.revokedAt.Some? ==> x != Current(b.server.db, r))
    case Granted(x, _) => Holds(b, r, i, attempt, x)
    case Rotating(x, _, expiresAt) => Holds(b, r, i, attempt, x) && expiresAt > r.deadline
    case _ => false
  }

  ghost predicate TabOk(b: Browser, r: Race, i: nat)
    requires i < 2 && |b.tabs| == 2
  {
    var s := b.server;
    var quiet := i !in s.frames && i !in s.replies;
    match b.tabs[i]
    case Idle => quiet
    case Asked(attempt, x) => quiet && Holds(b, r, i, attempt, x)
    case Pending(attempt) =>
      if i in s.frames then i !in s.replies && Serving(b, r, i, attempt, s.frames[i])
      else i in s.replies && match s.replies[i] {
        case Refused => attempt == 1 && Won(b, 1 - i)
        case Issued(x) => x == Current(s.db, r)
      }
    case Backoff => quiet && Won(b, 1 - i)
    case SignedIn => quiet
    case SignedOut => false
  }

  ghost predicate SessionOk(db: Store, r: Race) {
    && r.family <= r.first < r.issued <= |db.family|
    && InRace(db, r, Current(db, r)) && Live(db.table, Current(db, r))
    && (forall x :: x in db.table && InRace(db, r, x) ==> RowInTime(db.table[x], r))
  }

  ghost predicate CookieOk(b: Browser, r: Race) {
    var db := b.server.db;
    && b.cookie in db.table && InRace(db, r, b.cookie)
    && !(Undelivered(b, 0) && Undelivered(b, 1))
    && (if Undelivered(b, 0) || Undelivered(b, 1) then !Live(db.table, b.cookie) else b.cookie == Current(db, r))
  }

  ghost predicate RaceOk(b: Browser, r: Race) {
    && |b.tabs| == 2
    && Issuance(b.server.db)
    && SessionOk(b.server.db, r)
    && CookieOk(b, r)
    && TabOk(b, r, 0) && TabOk(b, r, 1)
  }

  lemma {:induction false} SendKeepsRace(b: Browser, r: Race, i: nat)
    requires RaceOk(b, r)
    ensures RaceOk(MoveStep(b, Send(i)), r)
  {}

  lemma {:induction false} ArriveKeepsRace(b: Browser, r: Race, i: nat)
    requires RaceOk(b, r)
    ensures RaceOk(MoveStep(b, Arrive(i)), r)
  {
    if i < 2 && b.tabs[i].Asked? {
      assert TabOk(b, r, i) && TabOk(b, r, 1 - i);
      var s := MoveStep(b, Arrive(i)).server;
      assert s.db == b.server.db && s.replies == b.server.replies;
      assert i in s.frames && s.frames[i] == Loaded(b.tabs[i].token, b.server.db.table[b.tabs[i].token]);
    }
  }

  lemma {:induction false} TokenLandsKeepsRace(b: Browser, r: Race, i: nat)
    requires RaceOk(b, r) && i < 2 && b.tabs[i].Pending? && Undelivered(b, i)
    ensures RaceOk(MoveStep(b, Deliver(i)), r)
  {
    assert TabOk(b, r, i) && TabOk(b, r, 1 - i);
    assert b.server.replies[i].token == Current(b.server.db, r);
  }

  lemma {:induction false} RefusalLandsKeepsRace(b: Browser, r: Race, i: nat)
    requires RaceOk(b, r) && i < 2 && b.tabs[i].Pending? && i in b.server.replies && b.server.replies[i].Refused?
    ensures RaceOk(MoveStep(b, Deliver(i)), r)
  {
    assert TabOk(b, r, i) && TabOk(b, r, 1 - i);
  }

  lemma {:induction false} DeliverKeepsRace(b: Browser, r: Race, i: nat)
    requires RaceOk(b, r)
    ensures RaceOk(MoveStep(b, Deliver(i)), r)
  {
    if i < 2 && b.tabs[i].Pending? && i in b.server.replies {
      if b.server.replies[i].Issued? { TokenLandsKeepsRace(b, r, i); } else { RefusalLandsKeepsRace(b, r, i); }
    }
  }

  /** A retry is timely when no winner's cookie is still on its way. */
  lemma {:induction false} RetryKeepsRace(b: Browser, r: Race, i: nat)
    requires RaceOk(b, r) && !Undelivered(b, 0) && !Undelivered(b, 1)
    ensures RaceOk(MoveStep(b, Retry(i)), r)
  {}

  lemma {:induction false} WaitKeepsRace(b: Browser, r: Race, elapsed: nat)
    requires RaceOk(b, r)
    ensures RaceOk(MoveStep(b, Wait(elapsed)), r)
  {
    SparedRaceGoesOn(b, Step(b.server, Tick(elapsed)), r);
  }

  lemma {:induction false} CheckKeepsRace(b: Browser, r: Race, i: nat)
    requires RaceOk(b, r) && b.server.db.now <= r.deadline
    requires i < 2 && i in b.server.frames && b.server.frames[i].Loaded?
    ensures RaceOk(MoveStep(b, Serve(i)), r)
  {
    assert i == 0 || i == 1;
  }

  lemma {:induction false} PrepareKeepsRace(b: Browser, r: Race, i: nat)
    requires RaceOk(b, r) && r.deadline < b.server.db.now + REFRESH_TOKEN_TTL
    requires i < 2 && i in b.server.frames && b.server.frames[i].Granted?
    ensures RaceOk(MoveStep(b, Serve(i)), r)
  {
    assert i == 0 || i == 1;
  }

  /** The token was spent meanwhile: the request is refused. */
  lemma {:induction false} LateRotateKeepsRace(b: Browser, r: Race, i: nat)
    requires RaceOk(b, r) && i < 2 && i in b.server.frames && b.server.frames[i].Rotating?
    requires !Live(b.server.db.table, b.server.frames[i].token)
    ensures RaceOk(MoveStep(b, Serve(i)), r)
  {
    assert i == 0 || i == 1;
  }

  /** The session after a successful exchange of its newest token. */
  lemma {:induction false} ExchangeKeepsSession(db: Store, r: Race, x: Token, user: string, expiresAt: int)
    requires SessionOk(db, r) && Issuance(db) && x == Current(db, r) && Live(db.table, x)
    requires expiresAt > r.deadline && r.deadline <= db.now + ROTATION_GRACE
    ensures var db' := Exchange(db, x, user, expiresAt).value;
      Exchange(db, x, user, expiresAt).Some? && SessionOk(db', r) && Issuance(db') && Current(db', r) == |db.family|
  {
  }

  predicate SameForTab(s: World, s': World, i: nat) {
    && (i in s'.frames <==> i in s.frames) && (i in s.frames ==> s'.frames[i] == s.frames[i])
    && (i in s'.replies <==> i in s.replies) && (i in s.replies ==> s'.replies[i] == s.replies[i])
  }

  /** The exchange by the handler of a tab: the newest token is spent, the tab's answer is on
      its way, and nothing else is different for the tabs. */
  ghost predicate WonBy(b: Browser, b': Browser, r: Race, i: nat)
    requires i < 2 && |b.tabs| == 2
  {
    var db, db' := b.server.db, b'.server.db;
    var x := Current(db, r);
    && b'.tabs == b.tabs && b'.cookie == b.cookie
    && SessionOk(db', r) && Issuance(db') && Current(db', r) == |db.family|
    && db.family <= db'.family && x in db'.table && !Live(db'.table, x)
    && (forall y: Token :: y in db.table && y != x ==> y in db'.table && db'.table[y] == db.table[y])
    && i !in b'.server.frames && i in b'.server.replies && b'.server.replies[i] == Issued(|db.family|)
    && SameForTab(b.server, b'.server, 1 - i)
  }

  lemma {:induction false} TheExchange(b: Browser, r: Race, i: nat)
    requires RaceOk(b, r) && r.deadline <= b.server.db.now + ROTATION_GRACE
    requires i < 2 && i in b.server.frames && b.server.frames[i].Rotating?
    requires Live(b.server.db.table, b.server.frames[i].token)
    ensures b.tabs[i].Pending? && !Undelivered(b, 1 - i) && !Undelivered(b, i) && b.cookie == Current(b.server.db, r)
    ensures WonBy(b, MoveStep(b, Serve(i)), r, i)
  {
    assert TabOk(b, r, i);
    var f := b.server.frames[i];
    assert f.token == Current(b.server.db, r);
    ExchangeKeepsSession(b.server.db, r, f.token, f.user, f.expiresAt);
  }

  lemma {:induction false} OtherTabAfterWin(b: Browser, b': Browser, r: Race, i: nat)
    requires i < 2 && RaceOk(b, r) && WonBy(b, b', r, i) && b.tabs[i].Pending? && !Undelivered(b, 1 - i)
    ensures TabOk(b', r, 1 - i)
  {
    assert TabOk(b, r, 1 - i) && Won(b', i);
  }

  lemma {:induction false} WinningRotateKeepsRace(b: Browser, r: Race, i: nat)
    requires RaceOk(b, r) && r.deadline <= b.server.db.now + ROTATION_GRACE
    requires i < 2 && i in b.server.frames && b.server.frames[i].Rotating?
    requires Live(b.server.db.table, b.server.frames[i].token)
    ensures RaceOk(MoveStep(b, Serve(i)), r)
  {
    TheExchange(b, r, i);
    OtherTabAfterWin(b, MoveStep(b, Serve(i)), r, i);
  }

  lemma {:induction false} RotateKeepsRace(b: Browser, r: Race, i: nat)
    requires RaceOk(b, r) && r.deadline <= b.server.db.now + ROTATION_GRACE
    requires i < 2 && i in b.server.frames && b.server.frames[i].Rotating?
    ensures RaceOk(MoveStep(b, Serve(i)), r)
  {
    if Live(b.server.db.table, b.server.frames[i].token) {
      WinningRotateKeepsRace(b, r, i);
    } else {
      LateRotateKeepsRace(b, r, i);
    }
  }

  /** The step neither changes nor removes an unexpired row of the session in the cookie. */
  ghost predicate Spares(b: Browser, a: Action) {
    var db, db' := b.server.db, Step(b.server, a).db;
    && b.cookie < |db.family|
    && (forall x: Token ::
          x < |db.family| && db.family[x] == db.family[b.cookie] && x in db.table && db.table[x].expiresAt > db.now ==>
            x in db'.table && db'.table[x] == db.table[x])
  }

  /** No handler but the tabs' own touches the session, and a tab retries only when no
      winner's cookie is still on its way. */
  ghost predicate TimelyMove(b: Browser, m: Move) {
    && (m.Elsewhere? && Foreign(m.action) ==> Spares(b, m.action))
    && (m.Retry? ==> forall i :: 0 <= i < |b.tabs| ==> !Undelivered(b, i))
  }

  ghost predicate Timely(b: Browser, moves: seq<Move>)
    decreases |moves|
  {
    moves != [] ==> TimelyMove(b, moves[0]) && Timely(MoveStep(b, moves[0]), moves[1..])
  }

  ghost predicate InGrace(b: Browser, r: Race) {
    b.server.db.now <= r.deadline <= b.server.db.now + ROTATION_GRACE
  }

  /** The rows of the session before and after a step that spares it, and what it may not do:
      issue a token in the session. */
  ghost predicate Spared(db: Store, db': Store, r: Race) {
    && db.family <= db'.family
    && Current(db', r) == Current(db, r)
    && (forall x: Token :: InRace(db', r, x) <==> InRace(db, r, x))
    && (forall x: Token :: InRace(db, r, x) ==> (x in db.table <==> x in db'.table))
    && (forall x: Token :: InRace(db, r, x) && x in db.table ==> db'.table[x] == db.table[x])
  }

  lemma {:induction false} NoSpentToken(b: Browser, r: Race, i: int)
    requires RaceOk(b, r) && Inv(b.server) && InGrace(b, r) && Spares(b, Rotate(i))
    requires i in b.server.frames && b.server.frames[i].Rotating?
    requires Live(b.server.db.table, b.server.frames[i].token)
    ensures b.server.frames[i].token < |b.server.db.family|
    ensures b.server.db.family[b.server.frames[i].token] != r.family
  {
    var db, x := b.server.db, b.server.frames[i].token;
    var c := Current(db, r);
    assert FrameOk(db, b.server.frames[i]);
    RowsSpared(b, r, Rotate(i));
    RotationSpends(b.server, i);
    assert x != c;
    assert x < c ==> x < c < |db.family|;
    assert c < x ==> c < x < |db.family|;
  }

  lemma {:induction false} RotationSpends(w: World, i: int)
    requires Issuance(w.db) && i in w.frames && w.frames[i].Rotating? && Live(w.db.table, w.frames[i].token)
    ensures !Live(Step(w, Rotate(i)).db.table, w.frames[i].token)
  {}

  /** Who gets a new token, if a step issues one. */
  lemma {:induction false} IssuesOne(w: World, a: Action)
    requires Issuance(w.db)
    ensures var family, family' := w.db.family, Step(w, a).db.family;
      family' == family || (a.FinishSignIn? && family' == family + [|family|])
        || (a.Rotate? && a.frame in w.frames && w.frames[a.frame].Rotating?
            && var x := w.frames[a.frame].token;
              Live(w.db.table, x) && x < |family| && family' == family + [family[x]])
  {}

  lemma {:induction false} SpareIssues(b: Browser, r: Race, a: Action)
    requires RaceOk(b, r) && Inv(b.server) && InGrace(b, r) && Spares(b, a)
    ensures var family, family' := b.server.db.family, Step(b.server, a).db.family;
      family' == family || exists x: Token :: family' == family + [x] && x != r.family
  {
    IssuesOne(b.server, a);
    if a.Rotate? && Step(b.server, a).db.family != b.server.db.family { NoSpentToken(b, r, a.frame); }
  }

  lemma {:induction false} OnlyNewRows(w: World, a: Action)
    ensures forall x :: x in Step(w, a).db.table ==> x in w.db.table || x == |w.db.family|
  {}

  lemma {:induction false} SpareStep(b: Browser, r: Race, a: Action)
    requires RaceOk(b, r) && Inv(b.server) && InGrace(b, r) && Spares(b, a)
    ensures Spared(b.server.db, Step(b.server, a).db, r)
  {
    var db, db' := b.server.db, Step(b.server, a).db;
    SpareIssues(b, r, a);
    if db'.family != db.family {
      var x: Token :| db'.family == db.family + [x] && x != r.family;
      IssuingMovesOne(db.family, r.family, x);
    }
    OnlyNewRows(b.server, a);
    RowsSpared(b, r, a);
  }

  lemma {:induction false} RowsSpared(b: Browser, r: Race, a: Action)
    requires RaceOk(b, r) && InGrace(b, r) && Spares(b, a)
    ensures var db, db' := b.server.db, Step(b.server, a).db;
      forall x: Token :: InRace(db, r, x) && x in db.table ==> x in db'.table && db'.table[x] == db.table[x]
  {
    var db := b.server.db;
    forall x: Token | InRace(db, r, x) && x in db.table ensures db.table[x].expiresAt > db.now {
      assert RowInTime(db.table[x], r);
    }
  }

  lemma {:induction false} ForeignLeavesTabs(w: World, a: Action, i: nat)
    requires Foreign(a)
    ensures SameForTab(w, Step(w, a), i)
  {}

  lemma {:induction false} SpareKeepsHolds(b: Browser, b': Browser, r: Race, i: nat, attempt: nat, x: Token)
    requires i < 2 && |b.tabs| == 2 && b'.tabs == b.tabs && Spared(b.server.db, b'.server.db, r)
    requires Holds(b, r, i, attempt, x) && Undelivered(b', 1 - i) == Undelivered(b, 1 - i)
    ensures Holds(b', r, i, attempt, x)
  {}

  lemma {:induction false} SpareKeepsServing(b: Browser, b': Browser, r: Race, i: nat, attempt: nat, f: Frame)
    requires i < 2 && |b.tabs| == 2 && b'.tabs == b.tabs && Spared(b.server.db, b'.server.db, r)
    requires Serving(b, r, i, attempt, f) && Undelivered(b', 1 - i) == Undelivered(b, 1 - i)
    ensures Serving(b', r, i, attempt, f)
  {
    SpareKeepsHolds(b, b', r, i, attempt, f.token);
  }

  lemma {:induction false} SpareKeepsTab(b: Browser, b': Browser, r: Race, i: nat)
    requires i < 2 && |b.tabs| == 2 && b'.tabs == b.tabs && Spared(b.server.db, b'.server.db, r)
    requires SameForTab(b.server, b'.server, i) && SameForTab(b.server, b'.server, 1 - i)
    requires TabOk(b, r, i)
    ensures TabOk(b', r, i)
  {
    match b.tabs[i] {
      case Asked(attempt, x) => SpareKeepsHolds(b, b', r, i, attempt, x);
      case Pending(attempt) =>
        if i in b.server.frames { SpareKeepsServing(b, b', r, i, attempt, b.server.frames[i]); }
      case _ =>
    }
  }

  lemma {:induction false} SpareKeepsSession(db: Store, db': Store, r: Race)
    requires SessionOk(db, r) && Spared(db, db', r)
    ensures SessionOk(db', r)
  {
    assert InRace(db', r, Current(db', r));
  }

  lemma {:induction false} SpareKeepsCookie(b: Browser, b': Browser, r: Race)
    requires |b.tabs| == 2 && b'.tabs == b.tabs && b'.cookie == b.cookie && Spared(b.server.db, b'.server.db, r)
    requires SameForTab(b.server, b'.server, 0) && SameForTab(b.server, b'.server, 1)
    requires CookieOk(b, r)
    ensures CookieOk(b', r)
  {}

  lemma {:induction false} SparedRaceGoesOn(b: Browser, s: World, r: Race)
    requires RaceOk(b, r) && Spared(b.server.db, s.db, r) && Issuance(s.db)
    requires SameForTab(b.server, s, 0) && SameForTab(b.server, s, 1)
    ensures RaceOk(b.(server := s), r)
  {
    SpareKeepsSession(b.server.db, s.db, r);
    SpareKeepsCookie(b, b.(server := s), r);
    SpareKeepsTab(b, b.(server := s), r, 0);
    SpareKeepsTab(b, b.(server := s), r, 1);
  }

  /** Other users' sign-ins, refreshes and logouts, and whatever else leaves the session
      alone, do not disturb the race. */
  lemma {:induction false} SpareKeepsRace(b: Browser, r: Race, a: Action)
    requires RaceOk(b, r) && Inv(b.server) && InGrace(b, r) && Foreign(a) && Spares(b, a)
    ensures RaceOk(b.(server := Step(b.server, a)), r)
  {
    SpareStep(b, r, a);
    StepKeeps(b.server, a);
    ForeignLeavesTabs(b.server, a, 0);
    ForeignLeavesTabs(b.server, a, 1);
    SparedRaceGoesOn(b, Step(b.server, a), r);
  }

  lemma {:induction false} MoveKeepsRace(b: Browser, r: Race, m: Move)
    requires RaceOk(b, r) && Inv(b.server) && TimelyMove(b, m) && InGrace(b, r)
    ensures RaceOk(MoveStep(b, m), r)
  {
    match m {
      case Elsewhere(a) => if Foreign(a) { SpareKeepsRace(b, r, a); }
      case Send(i) => SendKeepsRace(b, r, i);
      case Arrive(i) => ArriveKeepsRace(b, r, i);
      case Deliver(i) => DeliverKeepsRace(b, r, i);
      case Retry(i) => RetryKeepsRace(b, r, i);
      case Wait(elapsed) => WaitKeepsRace(b, r, elapsed);
      case Serve(i) =>
        if i < 2 && i in b.server.frames {
          assert TabOk(b, r, i);
          match b.server.frames[i] {
            case Loaded(_, _) => CheckKeepsRace(b, r, i);
            case Granted(_, _) => PrepareKeepsRace(b, r, i);
            case Rotating(_, _, _) => RotateKeepsRace(b, r, i);
          }
        }
    }
  }

  lemma {:induction false} PlayKeepsRace(b: Browser, r: Race, moves: seq<Move>)
    requires RaceOk(b, r) && Inv(b.server) && Timely(b, moves)
    requires r.deadline <= b.server.db.now + ROTATION_GRACE && Play(b, moves).server.db.now <= r.deadline
    ensures RaceOk(Play(b, moves), r)
    decreases |moves|
  {
    PlayKeepsInv(b, moves);
    if moves != [] {
      MoveKeepsRace(b, r, moves[0]);
      MoveKeepsInv(b, moves[0]);
      PlayKeepsRace(MoveStep(b, moves[0]), r, moves[1..]);
    }
  }

  function RaceFrom(b: Browser): Race
    requires b.cookie < |b.server.db.family|
  {
    var db := b.server.db;
    Race(b.cookie, db.family[b.cookie], |db.family|, db.now + ROTATION_GRACE)
  }

  lemma {:induction false} StartIsARace(b: Browser)
    requires Start(b) && |b.tabs| == 2
    requires b.server.db.table[b.cookie].expiresAt > b.server.db.now + ROTATION_GRACE
    ensures b.cookie < |b.server.db.family| && RaceOk(b, RaceFrom(b)) && InGrace(b, RaceFrom(b))
  {
    var db, r := b.server.db, RaceFrom(b);
    NewestIs(db.family, r.family, b.cookie);
    assert r.family <= b.cookie;
    forall x | x in db.table && InRace(db, r, x) ensures RowInTime(db.table[x], r) { assert x == b.cookie; }
  }

  /** Two tabs that present the same token inside the grace are never signed out, and
      once both are done the cookie holds the only unrevoked token of the session, whatever
      the other handlers do that leaves its rows alone. */
  lemma {:induction false} TwoTabsStaySignedIn(b: Browser, moves: seq<Move>)
    requires Start(b) && |b.tabs| == 2
    requires b.server.db.table[b.cookie].expiresAt > b.server.db.now + ROTATION_GRACE
    requires Timely(b, moves) && Play(b, moves).server.db.now <= b.server.db.now + ROTATION_GRACE
    ensures var b' := Play(b, moves); var db := b'.server.db;
      && |b'.tabs| == 2 && !b'.tabs[0].SignedOut? && !b'.tabs[1].SignedOut?
      && (b'.tabs == [SignedIn, SignedIn] ==>
            && Live(db.table, b'.cookie)
            && b'.cookie < |db.family| && db.family[b'.cookie] == b.server.db.family[b.cookie]
            && forall a: Token ::
                 Live(db.table, a) && a < |db.family| && db.family[a] == db.family[b'.cookie] ==> a == b'.cookie)
  {
    var r := RaceFrom(b);
    StartIsARace(b);
    PlayKeepsRace(b, r, moves);
    PlayKeepsInv(b, moves);
    PlayGrows(b, moves);
    var b' := Play(b, moves);
    forall a: Token | Live(b'.server.db.table, a) && a < |b'.server.db.family| && Live(b'.server.db.table, b'.cookie)
        && b'.server.db.family[a] == b'.server.db.family[b'.cookie]
      ensures a == b'.cookie
    {
      assert Newest(b'.server.db);
      assert a < b'.cookie || b'.cookie < a || a == b'.cookie;
    }
  }

  lemma {:induction false} PlayGrows(b: Browser, moves: seq<Move>)
    ensures b.server.db.family <= Play(b, moves).server.db.family
    decreases |moves|
  {
    if moves != [] {
      PlayGrows(MoveStep(b, moves[0]), moves[1..]);
    }
  }

  // ---------------------------------------------- and the race does finish

  /** Steps the tab and its handler still have in front of them, at most. */
  function Effort(b: Browser, i: nat): nat
    requires i < |b.tabs|
  {
    match b.tabs[i]
    case Idle => 13
    case Asked(attempt, _) => if attempt == 1 then 12 else 5
    case Pending(attempt) =>
      (if attempt == 1 then 7 else 0) +
      (if i !in b.server.frames then 1
       else if b.server.frames[i].Loaded? then 4 else if b.server.frames[i].Granted? then 3 else 2)
    case Backoff => 6
    case SignedIn => 0
    case SignedOut => 0
  }

  function NextMove(b: Browser): Move
    requires |b.tabs| == 2
  {
    if Undelivered(b, 0) then Deliver(0)
    else if Undelivered(b, 1) then Deliver(1)
    else TabMove(b, if b.tabs[0].SignedIn? then 1 else 0)
  }

  function TabMove(b: Browser, i: nat): Move
    requires i < |b.tabs|
  {
    match b.tabs[i]
    case Idle => Send(i)
    case Asked(_, _) => Arrive(i)
    case Pending(_) => if i in b.server.frames then Serve(i) else Deliver(i)
    case _ => Retry(i)
  }

  /** Every effective move of a tab or its handler brings the end nearer, the others cost
      nothing, and until both tabs are done some timely move of a tab or its handler does
      something: both tabs end signed in. */
  lemma {:induction false} TheRaceFinishes(b: Browser, r: Race)
    requires RaceOk(b, r) && InGrace(b, r)
    ensures forall m :: TimelyMove(b, m) && MoveStep(b, m) != b ==>
      var b' := MoveStep(b, m);
      && |b'.tabs| == 2
      && (if m.Wait? || m.Elsewhere? then Effort(b', 0) == Effort(b, 0) && Effort(b', 1) == Effort(b, 1)
          else Effort(b', 0) + Effort(b', 1) < Effort(b, 0) + Effort(b, 1))
    ensures b.tabs != [SignedIn, SignedIn] ==>
      var m := NextMove(b); !m.Wait? && !m.Elsewhere? && TimelyMove(b, m) && MoveStep(b, m) != b
  {
    forall m | TimelyMove(b, m) && MoveStep(b, m) != b
      ensures var b' := MoveStep(b, m);
        && |b'.tabs| == 2
        && (if m.Wait? || m.Elsewhere? then Effort(b', 0) == Effort(b, 0) && Effort(b', 1) == Effort(b, 1)
            else Effort(b', 0) + Effort(b', 1) < Effort(b, 0) + Effort(b, 1))
    {
      if m.Elsewhere? {
        ElsewhereCostsNothing(b, m.action);
      } else if !m.Wait? {
        MoveCosts(b, r, m);
      }
    }
    assert TabOk(b, r, 0) && TabOk(b, r, 1);
  }

  lemma {:induction false} ElsewhereCostsNothing(b: Browser, a: Action)
    requires |b.tabs| == 2
    ensures var b' := MoveStep(b, Elsewhere(a));
      |b'.tabs| == 2 && Effort(b', 0) == Effort(b, 0) && Effort(b', 1) == Effort(b, 1)
  {}

  lemma {:induction false} ServeCosts(b: Browser, r: Race, i: nat)
    requires RaceOk(b, r) && InGrace(b, r) && i < 2 && i in b.server.frames
    ensures var b' := MoveStep(b, Serve(i));
      |b'.tabs| == 2 && Effort(b', 0) + Effort(b', 1) < Effort(b, 0) + Effort(b, 1)
  {
    assert i == 0 || i == 1;
    assert TabOk(b, r, i);
    var b' := MoveStep(b, Serve(i));
    assert b'.tabs == b.tabs;
    assert Effort(b', 1 - i) == Effort(b, 1 - i);
    assert Effort(b', i) < Effort(b, i);
  }

  lemma {:induction false} ArriveCosts(b: Browser, r: Race, i: nat)
    requires RaceOk(b, r) && i < 2 && b.tabs[i].Asked?
    ensures var b' := MoveStep(b, Arrive(i));
      |b'.tabs| == 2 && Effort(b', 0) + Effort(b', 1) < Effort(b, 0) + Effort(b, 1)
  {
    assert TabOk(b, r, i);
    var b' := MoveStep(b, Arrive(i));
    assert Effort(b', 1 - i) == Effort(b, 1 - i);
  }

  lemma {:induction false} MoveCosts(b: Browser, r: Race, m: Move)
    requires RaceOk(b, r) && InGrace(b, r) && TimelyMove(b, m) && !m.Wait? && !m.Elsewhere? && MoveStep(b, m) != b
    ensures var b' := MoveStep(b, m); |b'.tabs| == 2 && Effort(b', 0) + Effort(b', 1) < Effort(b, 0) + Effort(b, 1)
  {
    match m {
      case Serve(i) => ServeCosts(b, r, i);
      case Arrive(i) => ArriveCosts(b, r, i);
      case Deliver(i) => assert TabOk(b, r, i);
      case _ =>
    }
  }
}
