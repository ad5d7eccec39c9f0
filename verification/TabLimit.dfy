/** How many tabs a refresh race can hold: one or two stay signed in over every timely
    course, three or more may not, and two may not when a retry is early or another
    handler ends their session. */
module TabLimit {
  import opened Common
  import opened TokenTable
  import opened TokenProtocol
  import opened BrowserTabs

  lemma {:induction false} PlayAppends(b: Browser, xs: seq<Move>, ys: seq<Move>)
    ensures Play(b, xs + ys) == Play(Play(b, xs), ys)
    ensures Timely(b, xs + ys) <==> Timely(b, xs) && Timely(Play(b, xs), ys)
    decreases |xs|
  {
    if xs == [] {
      assert xs + ys == ys;
    } else {
      assert (xs + ys)[1..] == xs[1..] + ys;
      PlayAppends(MoveStep(b, xs[0]), xs[1..], ys);
    }
  }

  lemma {:induction false} PlayOne(b: Browser, m: Move)
    ensures Play(b, [m]) == MoveStep(b, m)
    ensures Timely(b, [m]) <==> TimelyMove(b, m)
  {
    assert [m][1..] == [];
  }

  lemma {:induction false} PlayMore(b: Browser, m: Move, rest: seq<Move>)
    ensures Play(b, [m] + rest) == Play(MoveStep(b, m), rest)
    ensures Timely(b, [m] + rest) <==> TimelyMove(b, m) && Timely(MoveStep(b, m), rest)
  {
    assert ([m] + rest)[1..] == rest;
  }

  // ---------------------------------------------------- a request's whole journey

  /** The server's part; steps it does not need do nothing. */
  function ThereOnly(i: nat): seq<Move> {
    [Arrive(i), Serve(i), Serve(i), Serve(i)]
  }

  function Journey(i: nat): seq<Move> {
    ThereOnly(i) + [Deliver(i)]
  }

  lemma {:induction false} FourSteps(b: Browser, i: nat)
    ensures Play(b, ThereOnly(i)) == MoveStep(MoveStep(MoveStep(MoveStep(b, Arrive(i)), Serve(i)), Serve(i)), Serve(i))
    ensures Timely(b, ThereOnly(i))
  {
    var b1 := MoveStep(b, Arrive(i));
    var b2 := MoveStep(b1, Serve(i));
    var b3 := MoveStep(b2, Serve(i));
    PlayOne(b3, Serve(i));
    PlayMore(b2, Serve(i), [Serve(i)]);
    PlayMore(b1, Serve(i), [Serve(i)] + [Serve(i)]);
    PlayMore(b, Arrive(i), [Serve(i)] + ([Serve(i)] + [Serve(i)]));
    assert ThereOnly(i) == [Arrive(i)] + ([Serve(i)] + ([Serve(i)] + [Serve(i)]));
  }

  /** The server has nothing to do with the tab. */
  predicate QuietTab(b: Browser, i: nat) {
    i !in b.server.frames && i !in b.server.replies
  }

  /** The cookie holds a token that can be exchanged. */
  ghost predicate Fresh(b: Browser) {
    Issuance(b.server.db) && Exchangeable(b.server.db, b.cookie)
  }

  ghost predicate Exchangeable(db: Store, x: Token) {
    Live(db.table, x) && db.now < db.table[x].expiresAt
  }

  /** Spent at this very instant. */
  predicate JustSpent(db: Store, x: Token) {
    x in db.table && db.table[x].revokedAt == Some(db.now)
  }

  /** An exchange on the server: the new token, and the old one spent. */
  ghost predicate Exchanged(db: Store, x: Token, db': Store) {
    && Issuance(db') && db'.now == db.now && |db'.family| == |db.family| + 1
    && Exchangeable(db', |db.family|) && JustSpent(db', x)
  }

  lemma {:induction false} ServerIssues(b: Browser, i: nat, attempt: nat, x: Token)
    requires QuietTab(b, i) && Issuance(b.server.db) && i < |b.tabs| && b.tabs[i] == Asked(attempt, x)
    requires Exchangeable(b.server.db, x)
    ensures var b', next := Play(b, ThereOnly(i)), |b.server.db.family|;
      && Timely(b, ThereOnly(i))
      && b'.tabs == b.tabs[i := Pending(attempt)] && b'.cookie == b.cookie
      && b'.server.frames == b.server.frames && b'.server.replies == b.server.replies[i := Issued(next)]
      && Exchanged(b.server.db, x, b'.server.db)
  {
    FourSteps(b, i);
    var db, s := b.server.db, b.server;
    var b1 := MoveStep(b, Arrive(i));
    assert b1.server == s.(frames := s.frames[i := Loaded(x, db.table[x])]);
    var b2 := MoveStep(b1, Serve(i));
    assert b2.server == s.(frames := b1.server.frames[i := Granted(x, db.table[x].user)]);
    var b3 := MoveStep(b2, Serve(i));
    assert b3.server == s.(frames := b2.server.frames[i := Rotating(x, db.table[x].user, db.now + REFRESH_TOKEN_TTL)]);
    var b4 := MoveStep(b3, Serve(i));
    assert b4.server.frames == s.frames;
  }

  lemma {:induction false} Wins(b: Browser, i: nat, attempt: nat, x: Token)
    requires QuietTab(b, i) && Issuance(b.server.db) && i < |b.tabs| && b.tabs[i] == Asked(attempt, x)
    requires Exchangeable(b.server.db, x)
    ensures var b' := Play(b, Journey(i));
      && Timely(b, Journey(i)) && Fresh(b')
      && b'.tabs == b.tabs[i := SignedIn]
      && b'.server.frames == b.server.frames && b'.server.replies == b.server.replies
      && Exchanged(b.server.db, x, b'.server.db)
  {
    ServerIssues(b, i, attempt, x);
    var b1 := Play(b, ThereOnly(i));
    PlayOne(b1, Deliver(i));
    PlayAppends(b, ThereOnly(i), [Deliver(i)]);
    assert b1.server.replies - {i} == b.server.replies;
    assert b1.tabs[i := SignedIn] == b.tabs[i := SignedIn];
  }

  lemma {:induction false} Loses(b: Browser, i: nat, attempt: nat, x: Token)
    requires QuietTab(b, i) && i < |b.tabs| && b.tabs[i] == Asked(attempt, x) && JustSpent(b.server.db, x)
    ensures Timely(b, Journey(i))
    ensures Play(b, Journey(i)) == b.(tabs := b.tabs[i := if attempt == 1 then Backoff else SignedOut])
  {
    FourSteps(b, i);
    var s := b.server;
    var b1 := MoveStep(b, Arrive(i));
    assert b1.server == s.(frames := s.frames[i := Loaded(x, s.db.table[x])]);
    var b2 := MoveStep(b1, Serve(i));
    assert b2.server.frames == s.frames && b2.server.replies == s.replies[i := Refused];
    assert MoveStep(b2, Serve(i)) == b2;
    PlayOne(b2, Deliver(i));
    PlayAppends(b, ThereOnly(i), [Deliver(i)]);
    assert b2.server.replies - {i} == s.replies;
    assert b2.tabs == b.tabs[i := Pending(attempt)];
  }

  // ------------------------------------------------------------- three or more

  lemma {:induction false} AllSend(b: Browser, rest: seq<Tab>)
    requires b.tabs == [Idle, Idle, Idle] + rest
    ensures Timely(b, [Send(0), Send(1), Send(2)])
    ensures Play(b, [Send(0), Send(1), Send(2)])
      == b.(tabs := [Asked(1, b.cookie), Asked(1, b.cookie), Asked(1, b.cookie)] + rest)
  {
    var b1 := MoveStep(b, Send(0));
    var b2 := MoveStep(b1, Send(1));
    PlayOne(b2, Send(2));
    PlayMore(b1, Send(1), [Send(2)]);
    PlayMore(b, Send(0), [Send(1)] + [Send(2)]);
    assert [Send(0), Send(1), Send(2)] == [Send(0)] + ([Send(1)] + [Send(2)]);
    assert MoveStep(b2, Send(2)).tabs == [Asked(1, b.cookie), Asked(1, b.cookie), Asked(1, b.cookie)] + rest;
  }

  lemma {:induction false} BothRetry(b: Browser, rest: seq<Tab>)
    requires Quiet(b.server) && b.tabs == [SignedIn, Backoff, Backoff] + rest
    ensures Timely(b, [Retry(1), Retry(2)])
    ensures Play(b, [Retry(1), Retry(2)]) == b.(tabs := [SignedIn, Asked(2, b.cookie), Asked(2, b.cookie)] + rest)
  {
    var b1 := MoveStep(b, Retry(1));
    PlayOne(b1, Retry(2));
    PlayMore(b, Retry(1), [Retry(2)]);
    assert [Retry(1), Retry(2)] == [Retry(1)] + [Retry(2)];
    assert MoveStep(b1, Retry(2)).tabs == [SignedIn, Asked(2, b.cookie), Asked(2, b.cookie)] + rest;
  }

  /** One request of the three wins and one loses, ... */
  lemma {:induction false} OneWinsOneLoses(b: Browser, i: nat, j: nat, attempt: nat, x: Token)
    requires Quiet(b.server) && Issuance(b.server.db) && Exchangeable(b.server.db, x)
    requires i != j && i < |b.tabs| && j < |b.tabs| && b.tabs[i] == Asked(attempt, x) && b.tabs[j] == Asked(attempt, x)
    ensures var b' := Play(b, Journey(i) + Journey(j));
      && Timely(b, Journey(i) + Journey(j)) && Quiet(b'.server) && Fresh(b')
      && b'.tabs == b.tabs[i := SignedIn][j := if attempt == 1 then Backoff else SignedOut]
      && b'.server.db.now == b.server.db.now && JustSpent(b'.server.db, x)
  {
    Wins(b, i, attempt, x);
    var b1 := Play(b, Journey(i));
    Loses(b1, j, attempt, x);
    PlayAppends(b, Journey(i), Journey(j));
  }

  function FirstRound(): seq<Move> {
    [Send(0), Send(1), Send(2)] + (Journey(0) + Journey(1)) + Journey(2)
  }

  function SecondRound(): seq<Move> {
    [Retry(1), Retry(2)] + (Journey(1) + Journey(2))
  }

  /** ... which leaves two tabs to retry, ... */
  lemma {:induction false} AfterFirstRound(b: Browser, rest: seq<Tab>)
    requires Quiet(b.server) && Fresh(b) && b.tabs == [Idle, Idle, Idle] + rest
    ensures var b' := Play(b, FirstRound());
      && Timely(b, FirstRound()) && Quiet(b'.server) && Fresh(b') && b'.tabs == [SignedIn, Backoff, Backoff] + rest
      && b'.server.db.now == b.server.db.now
  {
    var s := [Send(0), Send(1), Send(2)];
    AllSend(b, rest);
    var b1 := Play(b, s);
    OneWinsOneLoses(b1, 0, 1, 1, b.cookie);
    var b2 := Play(b1, Journey(0) + Journey(1));
    Loses(b2, 2, 1, b.cookie);
    PlayAppends(b, s, Journey(0) + Journey(1));
    PlayAppends(b, s + (Journey(0) + Journey(1)), Journey(2));
    assert b2.tabs[2 := Backoff] == [SignedIn, Backoff, Backoff] + rest;
  }

  /** ... of which the last comes too late again. */
  lemma {:induction false} AfterSecondRound(b: Browser, rest: seq<Tab>)
    requires Quiet(b.server) && Fresh(b) && b.tabs == [SignedIn, Backoff, Backoff] + rest
    ensures var b' := Play(b, SecondRound());
      && Timely(b, SecondRound()) && b'.tabs == [SignedIn, SignedIn, SignedOut] + rest
      && b'.server.db.now == b.server.db.now
  {
    BothRetry(b, rest);
    var b1 := Play(b, [Retry(1), Retry(2)]);
    OneWinsOneLoses(b1, 1, 2, 2, b.cookie);
    PlayAppends(b, [Retry(1), Retry(2)], Journey(1) + Journey(2));
    assert b1.tabs[1 := SignedIn][2 := SignedOut] == [SignedIn, SignedIn, SignedOut] + rest;
  }

  /** From every start with three tabs or more there is a timely course, over in no time,
      that signs the third tab out. */
  lemma {:induction false} ThirdTabMaySignOut(b: Browser)
    requires Start(b) && |b.tabs| >= 3 && b.server.db.now < b.server.db.table[b.cookie].expiresAt
    ensures var b' := Play(b, FirstRound() + SecondRound());
      && Timely(b, FirstRound() + SecondRound()) && b'.server.db.now == b.server.db.now
      && |b'.tabs| == |b.tabs| && b'.tabs[2] == SignedOut
  {
    var rest := b.tabs[3..];
    assert b.tabs == [Idle, Idle, Idle] + rest;
    AfterFirstRound(b, rest);
    AfterSecondRound(Play(b, FirstRound()), rest);
    PlayAppends(b, FirstRound(), SecondRound());
  }

  // ----------------------------------------------------- two tabs, an early retry

  /** Tab 1 retries while the token tab 0 has won is still on its way to the cookie. */
  function Hasty(): seq<Move> {
    [Send(0), Send(1)] + ThereOnly(0) + Journey(1) + [Retry(1)] + Journey(1)
  }

  lemma {:induction false} BothSend(b: Browser)
    requires b.tabs == [Idle, Idle]
    ensures Timely(b, [Send(0), Send(1)])
    ensures Play(b, [Send(0), Send(1)]) == b.(tabs := [Asked(1, b.cookie), Asked(1, b.cookie)])
  {
    PlayOne(MoveStep(b, Send(0)), Send(1));
    PlayMore(b, Send(0), [Send(1)]);
    assert [Send(0), Send(1)] == [Send(0)] + [Send(1)];
  }

  /** The token is on its way and the other tab has lost its first attempt. */
  lemma {:induction false} BeforeTheRetry(b: Browser)
    requires Quiet(b.server) && Fresh(b) && b.tabs == [Idle, Idle]
    ensures var moves := [Send(0), Send(1)] + ThereOnly(0) + Journey(1);
      var b' := Play(b, moves);
      && Timely(b, moves) && b'.tabs == [Pending(1), Backoff] && b'.cookie == b.cookie
      && Undelivered(b', 0) && QuietTab(b', 1) && JustSpent(b'.server.db, b.cookie)
          && b'.server.db.now == b.server.db.now
  {
    var x, s := b.cookie, [Send(0), Send(1)];
    BothSend(b);
    var b1 := Play(b, s);
    ServerIssues(b1, 0, 1, x);
    var b2 := Play(b1, ThereOnly(0));
    Loses(b2, 1, 1, x);
    PlayAppends(b, s, ThereOnly(0));
    PlayAppends(b, s + ThereOnly(0), Journey(1));
  }

  /** From every start with two tabs, a retry that does not wait for the winner's cookie
      signs its tab out: timeliness is needed. */
  lemma {:induction false} HastyRetrySignsOut(b: Browser)
    requires Start(b) && |b.tabs| == 2 && b.server.db.now < b.server.db.table[b.cookie].expiresAt
    ensures !Timely(b, Hasty())
    ensures Play(b, Hasty()).tabs == [Pending(1), SignedOut] && Play(b, Hasty()).server.db.now == b.server.db.now
  {
    var moves := [Send(0), Send(1)] + ThereOnly(0) + Journey(1);
    assert b.tabs == [Idle, Idle];
    BeforeTheRetry(b);
    var b3 := Play(b, moves);
    var b4 := MoveStep(b3, Retry(1));
    PlayOne(b3, Retry(1));
    Loses(b4, 1, 2, b.cookie);
    PlayAppends(b, moves, [Retry(1)]);
    PlayAppends(b, moves + [Retry(1)], Journey(1));
    assert !TimelyMove(b3, Retry(1));
  }

  // ------------------------------------------------ the session is not spared

  /** The tab asks, is refused, waits, asks again and is refused again. */
  function AskTwice(): seq<Move> {
    ([Send(0)] + Journey(0)) + ([Retry(0)] + Journey(0))
  }

  lemma {:induction false} AskedOnceInVain(b: Browser, m: Move, attempt: nat)
    requires QuietTab(b, 0) && |b.tabs| >= 1 && JustSpent(b.server.db, b.cookie) && TimelyMove(b, m)
    requires MoveStep(b, m) == b.(tabs := b.tabs[0 := Asked(attempt, b.cookie)])
    ensures var moves := [m] + Journey(0);
      && Timely(b, moves)
      && Play(b, moves) == b.(tabs := b.tabs[0 := if attempt == 1 then Backoff else SignedOut])
  {
    PlayMore(b, m, Journey(0));
    var b1 := MoveStep(b, m);
    Loses(b1, 0, attempt, b.cookie);
    assert forall t: Tab {:trigger b1.tabs[0 := t]} :: b1.tabs[0 := t] == b.tabs[0 := t];
  }

  lemma {:induction false} AskedTwiceInVain(b: Browser)
    requires QuietTab(b, 0) && |b.tabs| >= 1 && b.tabs[0].Idle? && JustSpent(b.server.db, b.cookie)
    requires forall i :: 0 <= i < |b.tabs| ==> !Undelivered(b, i)
    ensures Timely(b, AskTwice()) && Play(b, AskTwice()) == b.(tabs := b.tabs[0 := SignedOut])
  {
    var b1 := b.(tabs := b.tabs[0 := Backoff]);
    AskedOnceInVain(b, Send(0), 1);
    assert forall i :: 0 <= i < |b1.tabs| ==> Undelivered(b1, i) == Undelivered(b, i);
    AskedOnceInVain(b1, Retry(0), 2);
    PlayAppends(b, [Send(0)] + Journey(0), [Retry(0)] + Journey(0));
    assert b1.tabs[0 := SignedOut] == b.tabs[0 := SignedOut];
  }

  /** From every start, one logout of the cookie's token by another handler, the only untimely
      move of the course, signs a tab out in no time: sparing the session is needed. */
  lemma {:induction false} LogoutSignsOut(b: Browser)
    requires Start(b) && |b.tabs| >= 1 && b.server.db.now < b.server.db.table[b.cookie].expiresAt
    ensures var logout := Elsewhere(Logout(b.cookie)); var b' := Play(b, [logout] + AskTwice());
      && Foreign(logout.action) && !TimelyMove(b, logout) && Timely(MoveStep(b, logout), AskTwice())
      && b'.tabs == b.tabs[0 := SignedOut] && b'.server.db.now == b.server.db.now
  {
    var logout := Elsewhere(Logout(b.cookie));
    var b1 := MoveStep(b, logout);
    assert b1.server.frames == b.server.frames && b1.server.replies == b.server.replies;
    assert b1.server.db.table[b.cookie] != b.server.db.table[b.cookie];
    AskedTwiceInVain(b1);
    PlayMore(b, logout, AskTwice());
  }

  // ---------------------------------------------------------------- a tab alone

  /** A tab that never does anything changes nothing for the others. */
  function WithIdler(b: Browser): Browser {
    b.(tabs := b.tabs + [Idle])
  }

  /** Moves of tabs that are not there do nothing. */
  function Alone(m: Move): Move {
    match m
    case Send(i) => if i == 0 then m else Wait(0)
    case Arrive(i) => if i == 0 then m else Wait(0)
    case Serve(i) => if i == 0 then m else Wait(0)
    case Deliver(i) => if i == 0 then m else Wait(0)
    case Retry(i) => if i == 0 then m else Wait(0)
    case Wait(_) => m
    case Elsewhere(_) => m
  }

  function AllAlone(moves: seq<Move>): seq<Move> {
    if moves == [] then [] else [Alone(moves[0])] + AllAlone(moves[1..])
  }

  lemma {:induction false} StepBesideIdler(b: Browser, m: Move)
    requires |b.tabs| == 1 && TimelyMove(b, m) && QuietTab(b, 1)
    ensures MoveStep(WithIdler(b), Alone(m)) == WithIdler(MoveStep(b, m))
    ensures TimelyMove(WithIdler(b), Alone(m)) && |MoveStep(b, m).tabs| == 1 && QuietTab(MoveStep(b, m), 1)
  {
    assert WithIdler(b).tabs[0] == b.tabs[0];
    assert forall t: Tab {:trigger b.tabs[0 := t]} :: WithIdler(b).tabs[0 := t] == b.tabs[0 := t] + [Idle];
    assert !Undelivered(WithIdler(b), 1) && (Undelivered(WithIdler(b), 0) <==> Undelivered(b, 0));
  }

  lemma {:induction false} PlayBesideIdler(b: Browser, moves: seq<Move>)
    requires |b.tabs| == 1 && Timely(b, moves) && QuietTab(b, 1)
    ensures Play(WithIdler(b), AllAlone(moves)) == WithIdler(Play(b, moves)) && Timely(WithIdler(b), AllAlone(moves))
    ensures |Play(b, moves).tabs| == 1
    decreases |moves|
  {
    if moves != [] {
      StepBesideIdler(b, moves[0]);
      PlayBesideIdler(MoveStep(b, moves[0]), moves[1..]);
      PlayMore(WithIdler(b), Alone(moves[0]), AllAlone(moves[1..]));
    }
  }

  // ------------------------------------------------------------ the exact number

  predicate NobodySignedOut(b: Browser) {
    forall i :: 0 <= i < |b.tabs| ==> !b.tabs[i].SignedOut?
  }

  /** A timely course that ends inside the grace. */
  ghost predicate Course(b: Browser, moves: seq<Move>) {
    Timely(b, moves) && Play(b, moves).server.db.now <= b.server.db.now + ROTATION_GRACE
  }

  lemma {:induction false} OneOrTwoStaySignedIn(b: Browser, moves: seq<Move>)
    requires Start(b) && 1 <= |b.tabs| <= 2 && Course(b, moves)
    requires b.server.db.table[b.cookie].expiresAt > b.server.db.now + ROTATION_GRACE
    ensures NobodySignedOut(Play(b, moves))
  {
    if |b.tabs| == 2 {
      TwoTabsStaySignedIn(b, moves);
    } else {
      PlayBesideIdler(b, moves);
      assert Start(WithIdler(b));
      TwoTabsStaySignedIn(WithIdler(b), AllAlone(moves));
      assert Play(b, moves).tabs[0] == WithIdler(Play(b, moves)).tabs[0];
    }
  }

  /** Every timely course of the race inside the grace leaves everybody signed in exactly
      when there are at most two tabs. */
  lemma {:induction false} TwoTabsAtMost(b: Browser)
    requires Start(b) && |b.tabs| >= 1
    requires b.server.db.table[b.cookie].expiresAt > b.server.db.now + ROTATION_GRACE
    ensures |b.tabs| <= 2 <==> forall moves :: Course(b, moves) ==> NobodySignedOut(Play(b, moves))
  {
    if |b.tabs| <= 2 {
      forall moves | Course(b, moves) ensures NobodySignedOut(Play(b, moves)) { OneOrTwoStaySignedIn(b, moves); }
    } else {
      ThirdTabMaySignOut(b);
      assert Course(b, FirstRound() + SecondRound());
    }
  }
}
