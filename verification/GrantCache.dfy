/** The short-lived cache in front of the editor grants.

    An authorization question is several steps: read the clock, look in the cache, and on
    a miss read the database and store the answer. Grant changes are two steps: write the
    table, then invalidate. Any of these interleave. `history` records the table at every
    instant and `decisions` every answer given. */
module GrantCache {
  import opened Common

  const SECOND := 1_000_000_000
  const GRANT_CACHE_TTL := 5 * SECOND
  const SWEEP_SIZE := 1024
  const NUL := '\0'

  type Grants = set<(string, string)>

  datatype CachedGrant = CachedGrant(manages: bool, expiresAt: int)

  type Cache = map<string, CachedGrant>

  // -------------------------------------------------------------- cache keys

  function CacheKey(user: string, team: string): string {
    user + [NUL] + team
  }

  /** Ids as they are: without a NUL. */
  predicate Clean(id: string) {
    NUL !in id
  }

  /** The prefix test of InvalidateUser. */
  predicate UserEntry(key: string, user: string) {
    |key| > |user| && key[..|user|] == user && key[|user|] == NUL
  }

  /** The suffix test of InvalidateTeam. */
  predicate TeamEntry(key: string, team: string) {
    var suffix := [NUL] + team;
    |key| > |suffix| && key[|key| - |suffix|..] == suffix
  }

  function WithoutUser(cache: Cache, user: string): Cache {
    map k | k in cache && !UserEntry(k, user) :: cache[k]
  }

  function WithoutTeam(cache: Cache, team: string): Cache {
    map k | k in cache && !TeamEntry(k, team) :: cache[k]
  }

  function Unexpired(cache: Cache, now: int): Cache {
    map k | k in cache && !(now > cache[k].expiresAt) :: cache[k]
  }

  /** Store an answer; past a size no normal workload reaches, drop what has expired. */
  function Remembered(cache: Cache, key: string, manages: bool, at: int): Cache {
    var c := cache[key := CachedGrant(manages, at + GRANT_CACHE_TTL)];
    if |c| > SWEEP_SIZE then Unexpired(c, at) else c
  }

  lemma CleanAt(id: string)
    requires Clean(id)
    ensures forall i :: 0 <= i < |id| ==> id[i] != NUL
  {
    assert forall i :: 0 <= i < |id| ==> id[i] in id;
  }

  /** The first NUL ends the user: a clean user is a prefix of a key only as its user. */
  lemma UserEntryIsExact(user: string, team: string, other: string)
    requires Clean(user) && Clean(other)
    ensures UserEntry(CacheKey(user, team), other) <==> user == other
  {
    var key := CacheKey(user, team);
    CleanAt(user);
    CleanAt(other);
    assert key[|user|] == NUL && key[..|user|] == user;
    assert forall i :: 0 <= i < |user| ==> key[i] == user[i];
    if UserEntry(key, other) {
      assert forall i :: 0 <= i < |other| ==> key[i] == other[i];
      assert |user| == |other|;
    }
  }

  /** The last NUL starts the team, so a suffix names exactly one team; questions without
      a user are never cached. */
  lemma TeamEntryIsExact(user: string, team: string, other: string)
    requires Clean(team) && Clean(other) && user != ""
    ensures TeamEntry(CacheKey(user, team), other) <==> team == other
  {
    var key := CacheKey(user, team);
    CleanAt(team);
    CleanAt(other);
    var m, n := |user|, |key| - 1 - |other|;
    assert key[m] == NUL && forall i :: m < i < |key| ==> key[i] == team[i - m - 1];
    assert key[m..] == [NUL] + team;
    if TeamEntry(key, other) {
      assert key[n..] == [NUL] + other;
      assert key[n] == key[n..][0] == NUL;
      assert forall i :: n < i < |key| ==> key[i] == key[n..][i - n] == other[i - n - 1];
      assert m == n;
      assert key[m + 1..] == team && key[n + 1..] == key[n..][1..];
    }
  }

  /** Two clean questions never share an entry. */
  lemma KeysAreDistinct(user: string, team: string, user2: string, team2: string)
    requires Clean(user) && Clean(user2) && CacheKey(user, team) == CacheKey(user2, team2)
    ensures user == user2 && team == team2
  {
    UserEntryIsExact(user, team, user2);
    assert CacheKey(user2, team2)[..|user2|] == user2;
    assert UserEntry(CacheKey(user2, team2), user2);
    assert CacheKey(user, team)[|user| + 1..] == team && CacheKey(user2, team2)[|user2| + 1..] == team2;
  }

  /** With a NUL inside an id the prefix test takes another user's entries along. */
  lemma NulBreaksExactness()
    ensures UserEntry(CacheKey("a\0b", "t"), "a")
  {
    var key := CacheKey("a\0b", "t");
    assert key[..1] == "a";
  }

  // ---------------------------------------------------------------- the steps

  datatype Question =
    | Asked(user: string, team: string, at: int)                   // clock read
    | Missed(user: string, team: string, at: int)                  // not in the cache
    | Fetched(user: string, team: string, at: int, manages: bool)  // read from the table

  datatype Scope = User(user: string) | Team(team: string)

  datatype Snapshot = Snapshot(time: int, grants: Grants)

  /** An answer, the clock reading it was decided with, how much of the history there was,
      and whether an invalidation that concerns it was still outstanding. */
  datatype Decision = Decision(user: string, team: string, at: int, answer: bool, seen: nat, grants: Grants,
        outstanding: bool)

  datatype World = World(
    now: int, grants: Grants, cache: Cache, questions: map<nat, Question>, due: multiset<Scope>,
    history: seq<Snapshot>, decisions: seq<Decision>)

  datatype Action =
    | Tick(elapsed: nat)
    | Ask(q: nat, user: string, team: string)
    | Look(q: nat)
    | Read(q: nat)
    | Fail(q: nat)
    | Store(q: nat)
    | Grant(user: string, team: string)
    | Revoke(user: string, team: string)
    | RevokeAll(user: string)
    | DeleteTeam(team: string)
    | Invalidate(scope: Scope)

  function Initial(now: int, grants: Grants): World {
    World(now, grants, map[], map[], multiset{}, [Snapshot(now, grants)], [])
  }

  function Outstanding(due: multiset<Scope>, user: string, team: string): bool {
    User(user) in due || Team(team) in due
  }

  function Decide(w: World, q: nat, user: string, team: string, at: int, answer: bool): World {
    w.(questions := w.questions - {q},
       decisions := w.decisions + [Decision(user, team, at, answer, |w.history|, w.grants,
           Outstanding(w.due, user, team))])
  }

  /** Without a user or a team the answer is no, and nothing is cached. */
  function AskStep(w: World, q: nat, user: string, team: string): World {
    if user == "" || team == "" then w.(questions := w.questions - {q})
    else w.(questions := w.questions[q := Asked(user, team, w.now)])
  }

  function LookStep(w: World, q: nat, user: string, team: string, at: int): World {
    var key := CacheKey(user, team);
    if key in w.cache && at < w.cache[key].expiresAt then Decide(w, q, user, team, at, w.cache[key].manages)
    else w.(questions := w.questions[q := Missed(user, team, at)])
  }

  function StoreStep(w: World, q: nat, user: string, team: string, at: int, manages: bool): World {
    Decide(w.(cache := Remembered(w.cache, CacheKey(user, team), manages, at)), q, user, team, at, manages)
  }

  function Write(w: World, grants: Grants, scope: Scope): World {
    w.(grants := grants, due := w.due + multiset{scope}, history := w.history + [Snapshot(w.now, grants)])
  }

  function InvalidateStep(w: World, scope: Scope): World {
    w.(cache := if scope.User? then WithoutUser(w.cache, scope.user)
      else WithoutTeam(w.cache, scope.team), due := w.due - multiset{scope})
  }

  function Step(w: World, a: Action): World {
    match a
    case Tick(elapsed) => w.(now := w.now + elapsed, history := w.history + [Snapshot(w.now + elapsed, w.grants)])
    case Ask(q, user, team) => AskStep(w, q, user, team)
    case Look(q) =>
      if q in w.questions
        && w.questions[q].Asked? then LookStep(w, q, w.questions[q].user, w.questions[q].team, w.questions[q].at) else w
    case Read(q) =>
      if q in w.questions && w.questions[q].Missed?
      then var m := w.questions[q];
        w.(questions := w.questions[q := Fetched(m.user, m.team, m.at, (m.user, m.team) in w.grants)]) else w
    case Fail(q) => w.(questions := w.questions - {q})
    case Store(q) =>
      if q in w.questions && w.questions[q].Fetched?
      then var f := w.questions[q]; StoreStep(w, q, f.user, f.team, f.at, f.manages) else w
    case Grant(user, team) => Write(w, w.grants + {(user, team)}, User(user))
    case Revoke(user, team) => Write(w, w.grants - {(user, team)}, User(user))
    case RevokeAll(user) => Write(w, (set g | g in w.grants && g.0 != user), User(user))
    case DeleteTeam(team) => Write(w, (set g | g in w.grants && g.1 != team), Team(team))
    case Invalidate(scope) => InvalidateStep(w, scope)
  }

  /** Who manages what after a change of the table. */
  lemma {:induction false} WhatChangesWrite(w: World, a: Action, user: string, team: string)
    ensures (user, team) in Step(w, a).grants <==>
      match a
      case Grant(u, t) => (user == u && team == t) || (user, team) in w.grants
      case Revoke(u, t) => !(user == u && team == t) && (user, team) in w.grants
      case RevokeAll(u) => user != u && (user, team) in w.grants
      case DeleteTeam(t) => team != t && (user, team) in w.grants
      case _ => (user, team) in w.grants
  {}

  function Run(w: World, actions: seq<Action>): World
    decreases |actions|
  {
    if actions == [] then w else Run(Step(w, actions[0]), actions[1..])
  }

  /** Real ids, without a NUL, in every question and change. */
  predicate CleanAction(a: Action) {
    match a
    case Ask(_, user, team) => Clean(user) && Clean(team)
    case Grant(user, team) => Clean(user) && Clean(team)
    case Revoke(user, team) => Clean(user) && Clean(team)
    case RevokeAll(user) => Clean(user)
    case DeleteTeam(team) => Clean(team)
    case Invalidate(scope) => Clean(if scope.User? then scope.user else scope.team)
    case _ => true
  }

  predicate Askable(user: string, team: string) {
    Clean(user) && Clean(team) && user != "" && team != ""
  }

  ghost predicate CleanQuestions(w: World) {
    forall q :: q in w.questions ==> Askable(w.questions[q].user, w.questions[q].team)
  }

  // ---------------------------------------------- never staler than the TTL

  /** At some recorded instant after `since` the table said `answer`. */
  ghost predicate Witnessed(history: seq<Snapshot>, user: string, team: string, answer: bool, since: int) {
    exists i :: 0 <= i < |history| && history[i].time >= since && ((user, team) in history[i].grants) == answer
  }

  lemma WitnessedLater(history: seq<Snapshot>, s: Snapshot, user: string, team: string, answer: bool, since: int)
    requires Witnessed(history, user, team, answer, since)
    ensures Witnessed(history + [s], user, team, answer, since)
  {
    var i :| 0 <= i < |history| && history[i].time >= since && ((user, team) in history[i].grants) == answer;
    assert (history + [s])[i] == history[i];
  }

  ghost predicate QuestionTimely(w: World, q: Question) {
    q.at <= w.now && (q.Fetched? ==> Witnessed(w.history, q.user, q.team, q.manages, q.at))
  }

  ghost predicate EntryTimely(w: World, user: string, team: string) {
    CacheKey(user, team) in w.cache ==>
      var e := w.cache[CacheKey(user, team)];
      Witnessed(w.history, user, team, e.manages, e.expiresAt - GRANT_CACHE_TTL)
  }

  ghost predicate DecisionTimely(w: World, d: Decision) {
    d.seen <= |w.history| && Witnessed(w.history[..d.seen], d.user, d.team, d.answer, d.at - GRANT_CACHE_TTL + 1)
  }

  ghost predicate Timely(w: World) {
    && CleanQuestions(w)
    && |w.history| > 0 && w.history[|w.history| - 1] == Snapshot(w.now, w.grants)
    && (forall q :: q in w.questions ==> QuestionTimely(w, w.questions[q]))
    && (forall user, team :: Clean(user) && Clean(team) ==> EntryTimely(w, user, team))
    && (forall i :: 0 <= i < |w.decisions| ==> DecisionTimely(w, w.decisions[i]))
  }

  /** A new instant in the history spoils nothing already known. */
  lemma HistoryGrows(w: World, s: Snapshot, w': World)
    requires Timely(w) && s.time >= w.now
    requires w' == w.(now := s.time, grants := s.grants, due := w'.due, history := w.history + [s])
    ensures Timely(w')
  {
    forall q | q in w'.questions ensures QuestionTimely(w', w'.questions[q]) {
      assert QuestionTimely(w, w.questions[q]);
      var f := w.questions[q];
      if f.Fetched? { WitnessedLater(w.history, s, f.user, f.team, f.manages, f.at); }
    }
    forall user, team | Clean(user) && Clean(team) ensures EntryTimely(w', user, team) {
      assert EntryTimely(w, user, team);
      if CacheKey(user, team) in w.cache {
        var e := w.cache[CacheKey(user, team)];
        WitnessedLater(w.history, s, user, team, e.manages, e.expiresAt - GRANT_CACHE_TTL);
      }
    }
    forall i | 0 <= i < |w'.decisions| ensures DecisionTimely(w', w'.decisions[i]) {
      assert DecisionTimely(w, w.decisions[i]);
      assert w'.history[..w.decisions[i].seen] == w.history[..w.decisions[i].seen];
    }
  }

  /** Fewer entries, other questions: nothing becomes less timely. */
  lemma CacheShrinks(w: World, w': World)
    requires Timely(w) && w' == w.(cache := w'.cache, due := w'.due)
    requires forall k :: k in w'.cache ==> k in w.cache && w'.cache[k] == w.cache[k]
    ensures Timely(w')
  {
    forall q | q in w'.questions
      ensures QuestionTimely(w', w'.questions[q]) { assert QuestionTimely(w, w.questions[q]); }
    forall user, team | Clean(user) && Clean(team)
      ensures EntryTimely(w', user, team) { assert EntryTimely(w, user, team); }
    forall i | 0 <= i < |w'.decisions|
      ensures DecisionTimely(w', w'.decisions[i]) { assert DecisionTimely(w, w.decisions[i]); }
  }

  lemma QuestionMoves(w: World, questions: map<nat, Question>)
    requires Timely(w)
    requires forall q :: q in questions ==> QuestionTimely(w, questions[q])
    requires forall q :: q in questions ==> Askable(questions[q].user, questions[q].team)
    ensures Timely(w.(questions := questions))
  {
    var w' := w.(questions := questions);
    forall q | q in w'.questions ensures QuestionTimely(w', w'.questions[q]) { assert QuestionTimely(w, questions[q]); }
    forall user, team | Clean(user) && Clean(team)
      ensures EntryTimely(w', user, team) { assert EntryTimely(w, user, team); }
    forall i | 0 <= i < |w'.decisions|
      ensures DecisionTimely(w', w'.decisions[i]) { assert DecisionTimely(w, w.decisions[i]); }
  }

  lemma DecideTimely(w: World, q: nat, user: string, team: string, at: int, answer: bool)
    requires Timely(w) && Witnessed(w.history, user, team, answer, at - GRANT_CACHE_TTL + 1)
    ensures Timely(Decide(w, q, user, team, at, answer))
  {
    var w1 := w.(questions := w.questions - {q});
    forall p | p in w1.questions ensures QuestionTimely(w, w1.questions[p]) {}
    QuestionMoves(w, w.questions - {q});
    var w' := Decide(w, q, user, team, at, answer);
    assert w.history[..|w.history|] == w.history;
    forall p | p in w'.questions
      ensures QuestionTimely(w', w'.questions[p]) { assert QuestionTimely(w1, w1.questions[p]); }
    forall u, t | Clean(u) && Clean(t) ensures EntryTimely(w', u, t) { assert EntryTimely(w1, u, t); }
    forall i | 0 <= i < |w'.decisions| ensures DecisionTimely(w', w'.decisions[i]) {
      if i < |w.decisions| { assert DecisionTimely(w1, w1.decisions[i]); }
    }
  }

  lemma RememberedTimely(w: World, user: string, team: string, manages: bool, at: int)
    requires Timely(w) && Clean(user) && Clean(team) && Witnessed(w.history, user, team, manages, at)
    ensures Timely(w.(cache := Remembered(w.cache, CacheKey(user, team), manages, at)))
  {
    var key := CacheKey(user, team);
    var w1 := w.(cache := w.cache[key := CachedGrant(manages, at + GRANT_CACHE_TTL)]);
    forall p | p in w1.questions
      ensures QuestionTimely(w1, w1.questions[p]) { assert QuestionTimely(w, w.questions[p]); }
    forall u, t | Clean(u) && Clean(t) ensures EntryTimely(w1, u, t) {
      if CacheKey(u, t) == key { KeysAreDistinct(u, t, user, team); } else { assert EntryTimely(w, u, t); }
    }
    forall i | 0 <= i < |w1.decisions|
      ensures DecisionTimely(w1, w1.decisions[i]) { assert DecisionTimely(w, w.decisions[i]); }
    CacheShrinks(w1, w.(cache := Remembered(w.cache, key, manages, at)));
  }

  lemma WitnessedSince(history: seq<Snapshot>, user: string, team: string, answer: bool, since: int, earlier: int)
    requires Witnessed(history, user, team, answer, since) && earlier <= since
    ensures Witnessed(history, user, team, answer, earlier)
  {
    var i :| 0 <= i < |history| && history[i].time >= since && ((user, team) in history[i].grants) == answer;
    assert history[i].time >= earlier;
  }

  lemma LookTimely(w: World, q: nat)
    requires Timely(w) && q in w.questions && w.questions[q].Asked?
    ensures Timely(Step(w, Look(q)))
  {
    var Asked(user, team, at) := w.questions[q];
    var key := CacheKey(user, team);
    assert QuestionTimely(w, w.questions[q]);
    if key in w.cache && at < w.cache[key].expiresAt {
      assert EntryTimely(w, user, team);
      WitnessedSince(w.history, user, team, w.cache[key].manages, w.cache[key].expiresAt - GRANT_CACHE_TTL,
          at - GRANT_CACHE_TTL + 1);
      DecideTimely(w, q, user, team, at, w.cache[key].manages);
    } else {
      QuestionMoves(w, w.questions[q := Missed(user, team, at)]);
    }
  }

  lemma StoreTimely(w: World, q: nat)
    requires Timely(w) && q in w.questions && w.questions[q].Fetched?
    ensures Timely(Step(w, Store(q)))
  {
    var Fetched(user, team, at, manages) := w.questions[q];
    assert QuestionTimely(w, w.questions[q]);
    RememberedTimely(w, user, team, manages, at);
    WitnessedSince(w.history, user, team, manages, at, at - GRANT_CACHE_TTL + 1);
    DecideTimely(w.(cache := Remembered(w.cache, CacheKey(user, team), manages, at)), q, user, team, at, manages);
  }

  lemma ReadTimely(w: World, q: nat)
    requires Timely(w) && q in w.questions && w.questions[q].Missed?
    ensures Timely(Step(w, Read(q)))
  {
    var m := w.questions[q];
    assert QuestionTimely(w, m);
    var f := Fetched(m.user, m.team, m.at, (m.user, m.team) in w.grants);
    assert w.history[|w.history| - 1].time >= m.at;
    assert QuestionTimely(w, f);
    QuestionMoves(w, w.questions[q := f]);
  }

  lemma StepTimely(w: World, a: Action)
    requires Timely(w) && CleanAction(a)
    ensures Timely(Step(w, a))
  {
    var w' := Step(w, a);
    match a {
      case Tick(elapsed) => HistoryGrows(w, Snapshot(w.now + elapsed, w.grants), w');
      case Ask(q, user, team) => QuestionMoves(w, w'.questions);
      case Look(q) => if q in w.questions && w.questions[q].Asked? { LookTimely(w, q); }
      case Read(q) => if q in w.questions && w.questions[q].Missed? { ReadTimely(w, q); }
      case Fail(q) => QuestionMoves(w, w'.questions);
      case Store(q) => if q in w.questions && w.questions[q].Fetched? { StoreTimely(w, q); }
      case Invalidate(scope) => CacheShrinks(w, w');
      case _ => HistoryGrows(w, Snapshot(w.now, w'.grants), w');
    }
  }

  ghost predicate AllClean(actions: seq<Action>) {
    forall i :: 0 <= i < |actions| ==> CleanAction(actions[i])
  }

  lemma {:induction false} RunTimely(w: World, actions: seq<Action>)
    requires Timely(w) && AllClean(actions)
    ensures Timely(Run(w, actions))
    decreases |actions|
  {
    if actions != [] {
      StepTimely(w, actions[0]);
      RunTimely(Step(w, actions[0]), actions[1..]);
    }
  }

  /** In every interleaving of misses, writes and invalidations, each answer is what the
      table said at some instant less than five seconds before the clock reading it was
      decided with, or later. */
  lemma NoAnswerIsStalerThanTheTtl(now: int, grants: Grants, actions: seq<Action>, i: nat)
    requires AllClean(actions) && i < |Run(Initial(now, grants), actions).decisions|
    ensures var w := Run(Initial(now, grants), actions);
      var d := w.decisions[i];
      exists j :: 0 <= j < d.seen <= |w.history|
        && w.history[j].time > d.at - GRANT_CACHE_TTL && ((d.user, d.team) in w.history[j].grants) == d.answer
  {
    RunTimely(Initial(now, grants), actions);
    var w := Run(Initial(now, grants), actions);
    var d := w.decisions[i];
    assert DecisionTimely(w, d);
    var h := w.history[..d.seen];
    var j :| 0 <= j < |h| && h[j].time >= d.at - GRANT_CACHE_TTL + 1 && ((d.user, d.team) in h[j].grants) == d.answer;
    assert w.history[j] == h[j];
  }

  // -------------------------------------------- nothing stale is left behind

  predicate Holds(grants: Grants, user: string, team: string) {
    (user, team) in grants
  }

  /** The step stores an answer that the table has outgrown, with no invalidation that
      concerns it still to come: a change and its invalidation both fell between the read
      and the store. */
  predicate StoresStale(w: World, a: Action) {
    && a.Store? && a.q in w.questions && w.questions[a.q].Fetched?
    && var f := w.questions[a.q];
      f.manages != Holds(w.grants, f.user, f.team) && !Outstanding(w.due, f.user, f.team)
  }

  ghost predicate NeverStoresStale(w: World, actions: seq<Action>)
    decreases |actions|
  {
    actions == [] || (!StoresStale(w, actions[0]) && NeverStoresStale(Step(w, actions[0]), actions[1..]))
  }

  ghost predicate EntryCurrent(w: World, user: string, team: string) {
    var key := CacheKey(user, team);
    key in w.cache ==> w.cache[key].manages == Holds(w.grants, user, team) || Outstanding(w.due, user, team)
  }

  predicate DecisionCurrent(d: Decision) {
    d.answer == Holds(d.grants, d.user, d.team) || d.outstanding
  }

  ghost predicate DecisionsCurrent(w: World) {
    forall i :: 0 <= i < |w.decisions| ==> DecisionCurrent(w.decisions[i])
  }

  /** What the cache says is what the table says, or about to be invalidated. */
  ghost predicate CacheCurrent(w: World) {
    CleanQuestions(w) && forall user, team :: Askable(user, team) ==> EntryCurrent(w, user, team)
  }

  /** A change touches only answers that its invalidation concerns. */
  lemma {:induction false} WriteCurrent(w: World, a: Action)
    requires CacheCurrent(w) && (a.Grant? || a.Revoke? || a.RevokeAll? || a.DeleteTeam?)
    ensures CacheCurrent(Step(w, a))
  {
    var w' := Step(w, a);
    forall user, team | Askable(user, team) ensures EntryCurrent(w', user, team) { assert EntryCurrent(w, user, team); }
  }

  /** Invalidation clears every entry it was outstanding for: the key tests are exact. */
  lemma {:induction false} InvalidateCurrent(w: World, scope: Scope)
    requires CacheCurrent(w) && CleanAction(Invalidate(scope))
    ensures CacheCurrent(InvalidateStep(w, scope))
  {
    var w' := InvalidateStep(w, scope);
    forall user, team | Askable(user, team) ensures EntryCurrent(w', user, team) {
      assert EntryCurrent(w, user, team);
      if scope.User? { UserEntryIsExact(user, team, scope.user); } else { TeamEntryIsExact(user, team, scope.team); }
    }
  }

  lemma {:induction false} StoreCurrent(w: World, q: nat)
    requires CacheCurrent(w) && q in w.questions && w.questions[q].Fetched? && !StoresStale(w, Store(q))
    ensures CacheCurrent(Step(w, Store(q)))
  {
    var Fetched(user, team, at, manages) := w.questions[q];
    var w' := Step(w, Store(q));
    forall u, t | Askable(u, t) ensures EntryCurrent(w', u, t) {
      if CacheKey(u, t) == CacheKey(user, team) { KeysAreDistinct(u, t, user, team); }
        else { assert EntryCurrent(w, u, t); }
    }
  }

  /** Asking, looking, reading, failing and waiting leave the table and the cache alone. */
  lemma {:induction false} QuietCurrent(w: World, a: Action)
    requires CacheCurrent(w) && CleanAction(a) && (a.Tick? || a.Ask? || a.Look? || a.Read? || a.Fail?)
    ensures CacheCurrent(Step(w, a))
  {
    var w' := Step(w, a);
    forall user, team | Askable(user, team) ensures EntryCurrent(w', user, team) { assert EntryCurrent(w, user, team); }
  }

  lemma {:induction false} StepCurrent(w: World, a: Action)
    requires CacheCurrent(w) && CleanAction(a) && !StoresStale(w, a)
    ensures CacheCurrent(Step(w, a))
  {
    if a.Store? {
      if a.q in w.questions && w.questions[a.q].Fetched? { StoreCurrent(w, a.q); }
    } else if a.Invalidate? {
      InvalidateCurrent(w, a.scope);
    } else if a.Tick? || a.Ask? || a.Look? || a.Read? || a.Fail? {
      QuietCurrent(w, a);
    } else {
      WriteCurrent(w, a);
    }
  }

  /** From a cache that is current, a step gives an answer that is not exactly when it
      stores a stale one. */
  lemma {:induction false} StepDecides(w: World, a: Action)
    requires CacheCurrent(w) && CleanAction(a) && DecisionsCurrent(w)
    ensures DecisionsCurrent(Step(w, a)) <==> !StoresStale(w, a)
  {
    var w' := Step(w, a);
    if w'.decisions != w.decisions {
      var d := w'.decisions[|w.decisions|];
      assert w'.decisions == w.decisions + [d];
      if a.Look? { assert EntryCurrent(w, w.questions[a.q].user, w.questions[a.q].team); }
      assert DecisionCurrent(d) <==> !StoresStale(w, a);
      assert DecisionCurrent(d) ==> forall i :: 0 <= i < |w'.decisions| ==> DecisionCurrent(w'.decisions[i]);
    }
  }

  lemma {:induction false} DecisionsStay(w: World, actions: seq<Action>)
    ensures w.decisions <= Run(w, actions).decisions
    decreases |actions|
  {
    if actions != [] { DecisionsStay(Step(w, actions[0]), actions[1..]); }
  }

  lemma {:induction false} RunCurrentIff(w: World, actions: seq<Action>)
    requires CacheCurrent(w) && DecisionsCurrent(w) && AllClean(actions)
    ensures DecisionsCurrent(Run(w, actions)) <==> NeverStoresStale(w, actions)
    decreases |actions|
  {
    if actions != [] {
      var w' := Step(w, actions[0]);
      StepDecides(w, actions[0]);
      if StoresStale(w, actions[0]) {
        var i :| 0 <= i < |w'.decisions| && !DecisionCurrent(w'.decisions[i]);
        DecisionsStay(w', actions[1..]);
        assert Run(w', actions[1..]).decisions[i] == w'.decisions[i];
      } else {
        StepCurrent(w, actions[0]);
        RunCurrentIff(w', actions[1..]);
      }
    }
  }

  /** Over every run: each answer is the table's at that moment, or an invalidation that
      concerns it is still to come, exactly when no step stores an answer that a change and
      its invalidation have both overtaken. */
  lemma AnswersAreCurrentIff(now: int, grants: Grants, actions: seq<Action>)
    requires AllClean(actions)
    ensures NeverStoresStale(Initial(now, grants), actions) <==>
      forall i :: 0 <= i < |Run(Initial(now, grants), actions).decisions| ==>
        DecisionCurrent(Run(Initial(now, grants), actions).decisions[i])
  {
    RunCurrentIff(Initial(now, grants), actions);
  }

  // ------------------------------------------------- changes that overtake nothing

  /** The step changes the answer to a question whose answer was already read but not yet
      stored. */
  ghost predicate Straddles(w: World, a: Action) {
    exists q :: q in w.questions && w.questions[q].Fetched?
      && Holds(Step(w, a).grants, w.questions[q].user, w.questions[q].team) != Holds(w.grants, w.questions[q].user,
          w.questions[q].team)
  }

  ghost predicate NeverStraddles(w: World, actions: seq<Action>)
    decreases |actions|
  {
    actions == [] || (!Straddles(w, actions[0]) && NeverStraddles(Step(w, actions[0]), actions[1..]))
  }

  /** What has been read is still what the table says. */
  ghost predicate ReadsCurrent(w: World) {
    forall q :: q in w.questions && w.questions[q].Fetched?
      ==> w.questions[q].manages == Holds(w.grants, w.questions[q].user, w.questions[q].team)
  }

  lemma {:induction false} OnlyReadsFetch(w: World, a: Action, q: nat)
    requires q in Step(w, a).questions && Step(w, a).questions[q].Fetched?
    ensures q in w.questions
    ensures var before, after := w.questions[q], Step(w, a).questions[q];
      after == before
        || (a == Read(q) && after.manages == Holds(w.grants, after.user, after.team) && Step(w, a).grants == w.grants)
  {}

  lemma {:induction false} StepKeepsReads(w: World, a: Action)
    requires ReadsCurrent(w) && !Straddles(w, a)
    ensures ReadsCurrent(Step(w, a)) && !StoresStale(w, a)
  {
    var w' := Step(w, a);
    forall q | q in w'.questions && w'.questions[q].Fetched?
      ensures w'.questions[q].manages == Holds(w'.grants, w'.questions[q].user, w'.questions[q].team)
    {
      OnlyReadsFetch(w, a, q);
    }
  }

  lemma {:induction false} NoStraddleNoStale(w: World, actions: seq<Action>)
    requires ReadsCurrent(w) && NeverStraddles(w, actions)
    ensures NeverStoresStale(w, actions)
    decreases |actions|
  {
    if actions != [] {
      StepKeepsReads(w, actions[0]);
      NoStraddleNoStale(Step(w, actions[0]), actions[1..]);
    }
  }

  /** So when no grant change falls between a miss's read and its store, every answer is the
      table's, unless an invalidation that concerns it is still to come. */
  lemma AnswersAreCurrent(now: int, grants: Grants, actions: seq<Action>, i: nat)
    requires AllClean(actions) && NeverStraddles(Initial(now, grants), actions)
    requires i < |Run(Initial(now, grants), actions).decisions|
    ensures var d := Run(Initial(now, grants), actions).decisions[i];
      d.answer == ((d.user, d.team) in d.grants) || d.outstanding
  {
    NoStraddleNoStale(Initial(now, grants), actions);
    AnswersAreCurrentIff(now, grants, actions);
    assert DecisionCurrent(Run(Initial(now, grants), actions).decisions[i]);
  }

  lemma {:induction false} RunAppends(w: World, xs: seq<Action>, ys: seq<Action>)
    ensures Run(w, xs + ys) == Run(Run(w, xs), ys)
    decreases |xs|
  {
    if xs == [] {
      assert xs + ys == ys;
    } else {
      assert (xs + ys)[1..] == xs[1..] + ys;
      RunAppends(Step(w, xs[0]), xs[1..], ys);
    }
  }

  lemma RunOfThree(w: World, a: Action, b: Action, c: Action)
    ensures Run(w, [a, b, c]) == Step(Step(Step(w, a), b), c)
  {
    assert [a, b, c][1..] == [b, c] && [b, c][1..] == [c] && [c][1..] == [];
    assert Run(w, [a, b, c]) == Run(Step(w, a), [b, c]);
    assert Run(Step(w, a), [b, c]) == Run(Step(Step(w, a), b), [c]);
  }

  /** A question reads its answer, ... */
  function Reading(user: string, team: string): seq<Action> {
    [Ask(0, user, team), Look(0), Read(0)]
  }

  /** ... a revocation overtakes it, and only then is the answer stored ... */
  function Overtaking(user: string, team: string): seq<Action> {
    [Revoke(user, team), Invalidate(User(user)), Store(0)]
  }

  /** ... for the next question to find. */
  function Overtaken(user: string, team: string): seq<Action> {
    Reading(user, team) + (Overtaking(user, team) + [Ask(1, user, team), Look(1), Tick(0)])
  }

  lemma ReadingReads(now: int, user: string, team: string)
    requires Askable(user, team)
    ensures var w := Initial(now, {(user, team)});
      Run(w, Reading(user, team)) == w.(questions := map[0 := Fetched(user, team, now, true)])
  {
    var w := Initial(now, {(user, team)});
    RunOfThree(w, Ask(0, user, team), Look(0), Read(0));
    assert w.questions[0 := Asked(user, team, now)][0 := Missed(user, team, now)][0 := Fetched(user, team, now, true)]
      == map[0 := Fetched(user, team, now, true)];
  }

  lemma {:induction false} RevokedAndCleared(w: World, user: string, team: string)
    requires w.cache == map[] && w.due == multiset{}
    ensures var w' := Step(Step(w, Revoke(user, team)), Invalidate(User(user)));
      && w'.cache == map[] && w'.due == multiset{} && w'.questions == w.questions && w'.decisions == w.decisions
          && w'.now == w.now
      && (user, team) !in w'.grants
  {
  }

  lemma {:induction false} StoredAlone(w: World, user: string, team: string)
    requires w.questions == map[0 := Fetched(user, team, w.now, true)] && w.cache == map[]
    ensures var w' := Step(w, Store(0));
      && w'.cache == map[CacheKey(user, team) := CachedGrant(true, w.now + GRANT_CACHE_TTL)]
      && w'.now == w.now && w'.due == w.due && w'.questions == map[] && |w'.decisions| == |w.decisions| + 1
          && w'.grants == w.grants
  {
    var c: Cache := map[CacheKey(user, team) := CachedGrant(true, w.now + GRANT_CACHE_TTL)];
    assert |c| == 1;
    assert w.cache[CacheKey(user, team) := CachedGrant(true, w.now + GRANT_CACHE_TTL)] == c;
  }

  lemma {:induction false} OvertakingLeavesItCached(w: World, user: string, team: string)
    requires w.questions == map[0 := Fetched(user, team, w.now, true)] && w.cache == map[] && w.due == multiset{}
      && w.decisions == []
    ensures var w' := Run(w, Overtaking(user, team));
      && w'.cache == map[CacheKey(user, team) := CachedGrant(true, w.now + GRANT_CACHE_TTL)]
      && w'.now == w.now && w'.due == multiset{} && w'.questions == map[] && |w'.decisions| == 1
      && (user, team) !in w'.grants
  {
    RunOfThree(w, Revoke(user, team), Invalidate(User(user)), Store(0));
    RevokedAndCleared(w, user, team);
    StoredAlone(Step(Step(w, Revoke(user, team)), Invalidate(User(user))), user, team);
  }

  lemma NextQuestionIsToldYes(w: World, user: string, team: string)
    requires Askable(user, team) && w.due == multiset{} && |w.decisions| == 1 && (user, team) !in w.grants
    requires w.cache == map[CacheKey(user, team) := CachedGrant(true, w.now + GRANT_CACHE_TTL)]
    ensures var w' := Run(w, [Ask(1, user, team), Look(1), Tick(0)]);
      && |w'.decisions| == 2 && w'.decisions[1].user == user && w'.decisions[1].team == team
      && w'.decisions[1].answer && (user, team) !in w'.decisions[1].grants && !w'.decisions[1].outstanding
  {
    RunOfThree(w, Ask(1, user, team), Look(1), Tick(0));
    assert CacheKey(user, team) in w.cache;
  }

  /** A revoked editor let through, with no invalidation outstanding: it happens to any user
      and team whose miss is overtaken by the revocation and its invalidation. */
  lemma {:induction false} OvertakenMissIsStale(now: int, user: string, team: string)
    requires Askable(user, team)
    ensures AllClean(Overtaken(user, team))
    ensures !NeverStoresStale(Initial(now, {(user, team)}), Overtaken(user, team))
    ensures var w := Run(Initial(now, {(user, team)}), Overtaken(user, team));
      && |w.decisions| == 2 && w.decisions[1].user == user && w.decisions[1].team == team
      && w.decisions[1].answer && (user, team) !in w.decisions[1].grants && !w.decisions[1].outstanding
  {
    var w := Initial(now, {(user, team)});
    var late := [Ask(1, user, team), Look(1), Tick(0)];
    ReadingReads(now, user, team);
    var w3 := Run(w, Reading(user, team));
    OvertakingLeavesItCached(w3, user, team);
    NextQuestionIsToldYes(Run(w3, Overtaking(user, team)), user, team);
    RunAppends(w, Reading(user, team), Overtaking(user, team) + late);
    RunAppends(w3, Overtaking(user, team), late);
    AnswersAreCurrentIff(now, {(user, team)}, Overtaken(user, team));
    assert !DecisionCurrent(Run(w, Overtaken(user, team)).decisions[1]);
  }

  // ------------------------------------------------------------ the authorizer

  datatype Failure = Unauthorized | Forbidden | Unavailable

  datatype Role = Admin | Editor | Member

  datatype Claims = Claims(user: string, role: Role)

  /** The cache tells nothing the table does not. */
  ghost predicate Faithful(cache: Cache, grants: Grants) {
    forall user, team :: Askable(user, team) && CacheKey(user, team) in cache
      ==> cache[CacheKey(user, team)].manages == Holds(grants, user, team)
  }

  /** One question answered with nothing in between; `fetched` is what the table says if it
      is asked, or that it cannot be read. */
  function Asking(cache: Cache, user: string, team: string, now: int, fetched: Result<bool, Failure>)
    : (Result<bool, Failure>, Cache) {
    var key := CacheKey(user, team);
    if user == "" || team == "" then (Ok(false), cache)
    else if key in cache && now < cache[key].expiresAt then (Ok(cache[key].manages), cache)
    else if fetched.Err? then (fetched, cache)
    else (fetched, Remembered(cache, key, fetched.value, now))
  }

  /** What a question is answered and what it leaves in the cache: nothing without a user or a
      team, an unexpired answer from the cache, the failure of a read, or the table's answer,
      kept for five seconds beside everything that has not expired. */
  lemma {:induction false} HowAQuestionIsAnswered(cache: Cache, user: string, team: string, now: int,
        fetched: Result<bool, Failure>)
    ensures var (r, after) := Asking(cache, user, team, now, fetched); var key := user + "\0" + team;
      if user == "" || team == "" then r == Ok(false) && after == cache
      else if key in cache && now < cache[key].expiresAt then r == Ok(cache[key].manages) && after == cache
      else match fetched
        case Err(e) => r == Err(e) && after == cache
        case Ok(manages) =>
          && r == Ok(manages) && key in after && after[key] == CachedGrant(manages, now + 5_000_000_000)
          && (forall k :: k in after && k != key ==> k in cache && after[k] == cache[k])
          && (forall k :: k in cache && k != key && cache[k].expiresAt >= now ==> k in after)
          && (|cache| < 1024 ==> cache.Keys <= after.Keys)
  {
    var key := CacheKey(user, team);
    assert key == user + "\0" + team;
    var c := cache[key := CachedGrant(true, now + GRANT_CACHE_TTL)];
    assert c.Keys == cache.Keys + {key};
  }

  /** Invalidation drops the entries of that user or team, whatever the other half, and keeps
      all others. */
  lemma {:induction false} InvalidationDropsExactly(cache: Cache, user: string, team: string, other: string)
    requires Clean(user) && Clean(team) && Clean(other) && user != ""
    ensures var key := CacheKey(user, team);
      && (key in WithoutUser(cache, other) <==> key in cache && user != other)
      && (key in WithoutTeam(cache, other) <==> key in cache && team != other)
      && (key in WithoutUser(cache, other) ==> WithoutUser(cache, other)[key] == cache[key])
      && (key in WithoutTeam(cache, other) ==> WithoutTeam(cache, other)[key] == cache[key])
  {
    UserEntryIsExact(user, team, other);
    TeamEntryIsExact(user, team, other);
  }

  lemma {:induction false} HitIsARun(w: World, q: nat, user: string, team: string)
    requires user != "" && team != "" && q !in w.questions
    requires CacheKey(user, team) in w.cache && w.now < w.cache[CacheKey(user, team)].expiresAt
    ensures var w' := Step(Step(w, Ask(q, user, team)), Look(q));
      && w' == Decide(w, q, user, team, w.now, w.cache[CacheKey(user, team)].manages)
      && w'.questions == w.questions && Step(w', Read(q)) == w' && Step(w', Store(q)) == w'
  {
    assert w.questions[q := Asked(user, team, w.now)] - {q} == w.questions;
    assert w.questions - {q} == w.questions;
  }

  lemma {:induction false} MissReads(w: World, q: nat, user: string, team: string)
    requires user != "" && team != ""
    requires !(CacheKey(user, team) in w.cache && w.now < w.cache[CacheKey(user, team)].expiresAt)
    ensures Step(Step(Step(w, Ask(q, user, team)), Look(q)), Read(q))
      == w.(questions := w.questions[q := Fetched(user, team, w.now, Holds(w.grants, user, team))])
  {
    var w1 := w.(questions := w.questions[q := Asked(user, team, w.now)]);
    var w2 := w.(questions := w.questions[q := Missed(user, team, w.now)]);
    assert Step(w, Ask(q, user, team)) == w1;
    assert Step(w1, Look(q)) == w2 by {
      assert w1.questions[q := Missed(user, team, w.now)] == w2.questions;
    }
    var f := Fetched(user, team, w.now, Holds(w.grants, user, team));
    assert w2.questions[q := f] == w.questions[q := f];
  }

  lemma {:induction false} MissIsARun(w: World, q: nat, user: string, team: string)
    requires user != "" && team != "" && q !in w.questions
    requires !(CacheKey(user, team) in w.cache && w.now < w.cache[CacheKey(user, team)].expiresAt)
    ensures var w' := Step(Step(Step(Step(w, Ask(q, user, team)), Look(q)), Read(q)), Store(q));
      && w'.cache == Remembered(w.cache, CacheKey(user, team), Holds(w.grants, user, team), w.now)
      && w'.questions == w.questions && w'.grants == w.grants
      && w'.decisions == w.decisions
        + [Decision(user, team, w.now, Holds(w.grants, user, team), |w.history|, w.grants,
            Outstanding(w.due, user, team))]
  {
    MissReads(w, q, user, team);
    var f := Fetched(user, team, w.now, Holds(w.grants, user, team));
    assert w.questions[q := f] - {q} == w.questions;
  }

  /** It is the four steps of a question in a row. */
  lemma {:induction false} LoneIsARun(w: World, q: nat, user: string, team: string)
    requires user != "" && team != "" && q !in w.questions
    ensures var w' := Run(w, [Ask(q, user, team), Look(q), Read(q)] + [Store(q)]);
      var lone := Asking(w.cache, user, team, w.now, Ok(Holds(w.grants, user, team)));
      && lone.0.Ok? && w'.cache == lone.1 && w'.questions == w.questions && w'.grants == w.grants
      && w'.decisions == w.decisions
        + [Decision(user, team, w.now, lone.0.value, |w.history|, w.grants, Outstanding(w.due, user, team))]
  {
    RunOfThree(w, Ask(q, user, team), Look(q), Read(q));
    RunAppends(w, [Ask(q, user, team), Look(q), Read(q)], [Store(q)]);
    var w3 := Step(Step(Step(w, Ask(q, user, team)), Look(q)), Read(q));
    assert Run(w3, [Store(q)]) == Step(w3, Store(q)) by { assert [Store(q)][1..] == []; }
    if CacheKey(user, team) in w.cache && w.now < w.cache[CacheKey(user, team)].expiresAt {
      HitIsARun(w, q, user, team);
    } else {
      MissIsARun(w, q, user, team);
    }
  }

  /** A lone question against a faithful cache is answered as the table says, and leaves
      the cache faithful. */
  lemma {:induction false} LoneIsFaithful(cache: Cache, grants: Grants, user: string, team: string, now: int)
    requires Faithful(cache, grants) && Askable(user, team)
    ensures var lone := Asking(cache, user, team, now, Ok(Holds(grants, user, team)));
      lone.0 == Ok(Holds(grants, user, team)) && Faithful(lone.1, grants)
  {
    var lone := Asking(cache, user, team, now, Ok(Holds(grants, user, team)));
    forall u, t | Askable(u, t) && CacheKey(u, t) in lone.1
      ensures lone.1[CacheKey(u, t)].manages == Holds(grants, u, t)
    {
      if CacheKey(u, t) == CacheKey(user, team) { KeysAreDistinct(u, t, user, team); }
    }
  }

  /** An answer as a permission. */
  function Verdict(answer: Result<bool, Failure>): Result<(), Failure> {
    if answer.Err? then Err(answer.error) else if answer.value then Ok(()) else Err(Forbidden)
  }

  datatype Side = Side(team: string, fetched: Result<bool, Failure>)

  /** The clubs of a move asked in order, a missing one skipped, up to the first that is
      managed or cannot be decided. */
  function AskingSides(cache: Cache, user: string, sides: seq<Option<Side>>, now: int): (Result<(), Failure>, Cache)
    decreases |sides|
  {
    if sides == [] then (Err(Forbidden), cache)
    else if sides[0].None? then AskingSides(cache, user, sides[1..], now)
    else
      var asked := Asking(cache, user, sides[0].value.team, now, sides[0].value.fetched);
      if asked.0.Err? || asked.0.value then (Verdict(asked.0), asked.1) else AskingSides(asked.1, user, sides[1..], now)
  }

  /** One side: its answer is the permission, whatever side is missing next to it. */
  lemma {:induction false} OneSide(cache: Cache, user: string, a: Side, now: int)
    ensures var (answer, after) := Asking(cache, user, a.team, now, a.fetched);
      && AskingSides(cache, user, [Some(a)], now).1 == after
      && (AskingSides(cache, user, [Some(a)], now).0 == Ok(()) <==> answer == Ok(true))
      && (AskingSides(cache, user, [Some(a)], now).0 == Err(Forbidden) <==> answer in {Ok(false), Err(Forbidden)})
      && (answer.Err? ==> AskingSides(cache, user, [Some(a)], now).0 == Err(answer.error))
    ensures AskingSides(cache, user, [Some(a), None], now) == AskingSides(cache, user, [Some(a)], now)
    ensures AskingSides(cache, user, [None, Some(a)], now) == AskingSides(cache, user, [Some(a)], now)
    ensures AskingSides(cache, user, [None, None], now) == (Err(Forbidden), cache)
  {
    var none: Option<Side> := None;
    assert [Some(a)][1..] == [] && [Some(a), none][1..] == [none] && [none, Some(a)][1..] == [Some(a)];
    assert [none, none][1..] == [none] && [none][1..] == [];
    assert AskingSides(cache, user, [none], now) == (Err(Forbidden), cache);
  }

  /** Two sides: the second is asked, of the cache the first left, only if the first said no. */
  lemma {:induction false} TwoSides(cache: Cache, user: string, a: Side, b: Side, now: int)
    ensures var (answer, after) := Asking(cache, user, a.team, now, a.fetched);
      AskingSides(cache, user, [Some(a), Some(b)], now) ==
        if answer == Ok(false) then AskingSides(after, user, [Some(b)], now)
        else AskingSides(cache, user, [Some(a)], now)
  {
    assert [Some(a), Some(b)][1..] == [Some(b)] && [Some(a)][1..] == [];
  }

  predicate HoldsSome(grants: Grants, user: string, sides: seq<Option<Side>>) {
    exists i :: 0 <= i < |sides| && sides[i].Some? && Holds(grants, user, sides[i].value.team)
  }

  /** Against a faithful cache and a readable table, a move is allowed exactly to whoever
      holds a grant for one of its sides. */
  lemma {:induction false} SidesByTheTable(cache: Cache, grants: Grants, user: string, sides: seq<Option<Side>>,
        now: int)
    requires Faithful(cache, grants)
    requires forall i :: 0 <= i < |sides| && sides[i].Some? ==> Askable(user, sides[i].value.team)
    requires forall i ::
      0 <= i < |sides| && sides[i].Some? ==> sides[i].value.fetched == Ok(Holds(grants, user, sides[i].value.team))
    ensures var r := AskingSides(cache, user, sides, now);
      && r.0 == (if HoldsSome(grants, user, sides) then Ok(()) else Err(Forbidden))
      && Faithful(r.1, grants)
    decreases |sides|
  {
    if sides != [] {
      assert HoldsSome(grants, user, sides) <==>
        (sides[0].Some? && Holds(grants, user, sides[0].value.team)) || HoldsSome(grants, user, sides[1..]) by {
        if i :| 0 <= i < |sides| && sides[i].Some? && Holds(grants, user, sides[i].value.team) {
          assert i > 0 ==> sides[1..][i - 1] == sides[i];
        }
        if i :| 0 <= i < |sides[1..]| && sides[1..][i].Some? && Holds(grants, user, sides[1..][i].value.team) {
          assert sides[i + 1] == sides[1..][i];
        }
      }
      if sides[0].None? {
        SidesByTheTable(cache, grants, user, sides[1..], now);
      } else {
        LoneIsFaithful(cache, grants, user, sides[0].value.team, now);
        var asked := Asking(cache, user, sides[0].value.team, now, sides[0].value.fetched);
        SidesByTheTable(asked.1, grants, user, sides[1..], now);
      }
    }
  }

  class Authorizer {
    var cache: Cache

    constructor ()
      ensures cache == map[]
    {
      cache := map[];
    }

    method ManagesTeam(user: string, team: string, now: int, fetched: Result<bool, Failure>)
      returns (r: Result<bool, Failure>)
      modifies this
      ensures (r, cache) == Asking(old(cache), user, team, now, fetched)
    {
      if user == "" || team == "" { return Ok(false); }
      var key := CacheKey(user, team);
      if key in cache && now < cache[key].expiresAt { return Ok(cache[key].manages); }
      if fetched.Err? { return Err(fetched.error); }
      cache := cache[key := CachedGrant(fetched.value, now + GRANT_CACHE_TTL)];
      if |cache| > SWEEP_SIZE {
        ghost var full := cache;
        var keys := cache.Keys;
        while keys != {}
          invariant keys <= full.Keys
          invariant cache == map k | k in full && (k in keys || !(now > full[k].expiresAt)) :: full[k]
          decreases |keys|
        {
          var k :| k in keys;
          keys := keys - {k};
          if now > cache[k].expiresAt { cache := cache - {k}; }
        }
        assert cache == Unexpired(full, now);
      }
      return Ok(fetched.value);
    }

    method InvalidateUser(user: string)
      modifies this
      ensures cache == WithoutUser(old(cache), user)
    {
      var keys := cache.Keys;
      while keys != {}
        invariant keys <= old(cache).Keys
        invariant cache == map k | k in old(cache) && (k in keys || !UserEntry(k, user)) :: old(cache)[k]
        decreases |keys|
      {
        var k :| k in keys;
        keys := keys - {k};
        if |k| > |user| && k[..|user|] == user && k[|user|] == NUL { cache := cache - {k}; }
      }
    }

    method InvalidateTeam(team: string)
      modifies this
      ensures cache == WithoutTeam(old(cache), team)
    {
      var suffix := [NUL] + team;
      var keys := cache.Keys;
      while keys != {}
        invariant keys <= old(cache).Keys
        invariant cache == map k | k in old(cache) && (k in keys || !TeamEntry(k, team)) :: old(cache)[k]
        decreases |keys|
      {
        var k :| k in keys;
        keys := keys - {k};
        if |k| > |suffix| && k[|k| - |suffix|..] == suffix { cache := cache - {k}; }
      }
    }

    /** Administrators, and editors holding a grant for the club. */
    method RequireTeam(claims: Option<Claims>, team: string, now: int, fetched: Result<bool, Failure>)
      returns (r: Result<(), Failure>)
      modifies this
      ensures claims.None? ==> r == Err(Unauthorized) && cache == old(cache)
      ensures claims.Some? && claims.value.role.Admin? ==> r == Ok(()) && cache == old(cache)
      ensures claims.Some? && claims.value.role.Member? ==> r == Err(Forbidden) && cache == old(cache)
      ensures claims.Some? && claims.value.role.Editor? ==>
        var (answer, after) := Asking(old(cache), claims.value.user, team, now, fetched);
        && cache == after && (r.Ok? <==> answer == Ok(true))
        && (answer == Ok(false) ==> r == Err(Forbidden)) && (answer.Err? ==> r == Err(answer.error))
    {
      if claims.None? { return Err(Unauthorized); }
      var c := claims.value;
      if c.role.Admin? { return Ok(()); }
      if !c.role.Editor? { return Err(Forbidden); }
      var manages := ManagesTeam(c.user, team, now, fetched);
      if manages.Err? { return Err(manages.error); }
      if !manages.value { return Err(Forbidden); }
      return Ok(());
    }

    /** A move is allowed to whoever manages either side of it. */
    method RequireEitherTeam(claims: Option<Claims>, current: Option<Side>, target: Option<Side>, now: int)
      returns (r: Result<(), Failure>)
      modifies this
      ensures claims.None? ==> r == Err(Unauthorized) && cache == old(cache)
      ensures claims.Some? && claims.value.role.Admin? ==> r == Ok(()) && cache == old(cache)
      ensures claims.Some? && claims.value.role.Member? ==> r == Err(Forbidden) && cache == old(cache)
      ensures claims.Some? && claims.value.role.Editor? ==>
        (r, cache) == AskingSides(old(cache), claims.value.user, [current, target], now)
    {
      if claims.None? { return Err(Unauthorized); }
      var c := claims.value;
      if c.role.Admin? { return Ok(()); }
      if !c.role.Editor? { return Err(Forbidden); }
      var sides := [current, target];
      for i := 0 to |sides|
        invariant AskingSides(old(cache), c.user, sides, now) == AskingSides(cache, c.user, sides[i..], now)
      {
        assert sides[i..][0] == sides[i] && sides[i..][1..] == sides[i + 1..];
        if sides[i].Some? {
          var manages := ManagesTeam(c.user, sides[i].value.team, now, sides[i].value.fetched);
          if manages.Err? { return Err(manages.error); }
          if manages.value { return Ok(()); }
        }
      }
      return Err(Forbidden);
    }
  }
}
