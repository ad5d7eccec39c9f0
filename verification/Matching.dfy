/** Which local row a club or player of the source is: the row it was imported as before, an
    existing row that fits unambiguously, or a new one.

    Folded names are given; the source's spelling rules are not part of this model. */
module Matching {
  import opened Common

  type Id = nat

  // ------------------------------------------------------- clubs by their name

  /** The existing clubs under each folded name or short name, and their countries, folded. */
  datatype Clubs = Clubs(byKey: map<string, seq<Id>>, country: map<Id, Option<string>>)

  /** A place in the index: one club listed under one name. */
  datatype Place = Place(key: string, at: nat)

  function Free(ids: seq<Id>, taken: set<Id>): (free: seq<Id>)
    ensures forall id :: id in free <==> id in ids && id !in taken
  {
    if ids == [] then []
    else Free(ids[..|ids| - 1], taken) + if ids[|ids| - 1] in taken then [] else [ids[|ids| - 1]]
  }

  function Listed(byKey: map<string, seq<Id>>, key: string): seq<Id> {
    if key in byKey then byKey[key] else []
  }

  /** One name starts with the other, at a word. */
  predicate Extends(key: string, k: string) {
    k != "" && (k + " " <= key || key + " " <= k)
  }

  predicate Compatible(c: Clubs, id: Id, country: string) {
    id in c.country && c.country[id].Some? ==> c.country[id].value == country
  }

  /** A place in the index where a related name lists a free club of the country. */
  predicate Candidate(c: Clubs, key: string, country: string, taken: set<Id>, p: Place) {
    && p.key in c.byKey && Extends(key, p.key) && p.at < |c.byKey[p.key]|
    && c.byKey[p.key][p.at] !in taken && Compatible(c, c.byKey[p.key][p.at], country)
  }

  /** Exactly one place in the index qualifies. */
  ghost predicate OnlyCandidate(c: Clubs, key: string, country: string, taken: set<Id>, p: Place) {
    Candidate(c, key, country, taken, p) && forall q :: Candidate(c, key, country, taken, q) ==> q == p
  }

  /** The club of that name, if it is the only free one; otherwise the only free club of the
      country whose name extends it or is extended by it. */
  ghost predicate Matches(c: Clubs, key: string, country: string, taken: set<Id>, r: Option<Id>) {
    var exact := Free(Listed(c.byKey, key), taken);
    if |exact| == 1 then r == Some(exact[0])
    else
      && (r.Some? ==> exists p :: OnlyCandidate(c, key, country, taken, p) && r.value == c.byKey[p.key][p.at])
      && (r.None? ==> !exists p :: OnlyCandidate(c, key, country, taken, p))
  }

  /** The answer is the same whatever order the names are visited in. */
  lemma MatchIsDetermined(c: Clubs, key: string, country: string, taken: set<Id>, r: Option<Id>, r': Option<Id>)
    requires Matches(c, key, country, taken, r) && Matches(c, key, country, taken, r')
    ensures r == r'
  {
    if |Free(Listed(c.byKey, key), taken)| != 1 && r.Some? && r'.Some? {
      var p :| OnlyCandidate(c, key, country, taken, p) && r.value == c.byKey[p.key][p.at];
      var q :| OnlyCandidate(c, key, country, taken, q) && r'.value == c.byKey[q.key][q.at];
      assert p == q;
    }
  }

  /** A match is always a row nobody in this run has taken. */
  lemma MatchIsFree(c: Clubs, key: string, country: string, taken: set<Id>, r: Option<Id>)
    requires Matches(c, key, country, taken, r) && r.Some?
    ensures r.value !in taken && exists k :: k in c.byKey && r.value in c.byKey[k]
  {
    var exact := Free(Listed(c.byKey, key), taken);
    if |exact| == 1 {
      assert exact[0] in exact;
    } else {
      var p :| OnlyCandidate(c, key, country, taken, p) && r.value == c.byKey[p.key][p.at];
    }
  }

  /** The hits are the candidates at the places visited, each once. */
  ghost predicate Hits(c: Clubs, key: string, country: string, taken: set<Id>, hits: seq<Place>, visited: set<string>) {
    && (forall i, j :: 0 <= i < j < |hits| ==> hits[i] != hits[j])
    && (forall p :: p in hits <==> Candidate(c, key, country, taken, p) && p.key in visited)
  }

  /** The hits under one name, and those under the names before it. */
  ghost predicate Partial(c: Clubs, key: string, country: string, taken: set<Id>, hits: seq<Place>,
        visited: set<string>, k: string, n: nat) {
    && (forall i, j :: 0 <= i < j < |hits| ==> hits[i] != hits[j])
    && (forall p ::
         p in hits <==> Candidate(c, key, country, taken, p) && (p.key in visited || (p.key == k && p.at < n)))
  }

  method HitsUnder(c: Clubs, key: string, country: string, taken: set<Id>, before: seq<Place>, k: string,
        ghost visited: set<string>)
    returns (hits: seq<Place>)
    requires Hits(c, key, country, taken, before, visited) && k in c.byKey && k !in visited
    ensures Hits(c, key, country, taken, hits, visited + {k})
  {
    hits := before;
    if !Extends(key, k) { return; }
    var ids := c.byKey[k];
    for n := 0 to |ids|
      invariant Partial(c, key, country, taken, hits, visited, k, n)
    {
      if ids[n] !in taken && Compatible(c, ids[n], country) {
        hits := hits + [Place(k, n)];
      }
    }
  }

  /** A longer and a shorter name of one club: the one finds the other, at a word and within the
      country, unless the row is taken. */
  lemma {:induction false} LongerNamesMatch(name: string, more: string, country: string, home: Option<string>,
        id: Id, taken: set<Id>, r: Option<Id>, r': Option<Id>)
    requires name != "" && Matches(Clubs(map[name := [id]], map[id := home]), name + " " + more, country, taken, r)
    requires Matches(Clubs(map[name + " " + more := [id]], map[id := home]), name, country, taken, r')
    ensures r == r' == if id !in taken && (home == None || home == Some(country)) then Some(id) else None
  {
    var long := name + " " + more;
    var c, c' := Clubs(map[name := [id]], map[id := home]), Clubs(map[long := [id]], map[id := home]);
    assert |name + " "| == |name| + 1 && name + " " <= long && !(long + " " <= name);
    assert Listed(c.byKey, long) == [] && Listed(c'.byKey, name) == [];
    var fits := id !in taken && (home == None || home == Some(country));
    forall p ensures Candidate(c, long, country, taken, p) <==> p == Place(name, 0) && fits {}
    forall p ensures Candidate(c', name, country, taken, p) <==> p == Place(long, 0) && fits {}
    if fits {
      assert OnlyCandidate(c, long, country, taken, Place(name, 0));
      assert OnlyCandidate(c', name, country, taken, Place(long, 0));
    }
  }

  /** The same name decides, whatever the country, if one free club has it. */
  lemma {:induction false} SameNameMatches(c: Clubs, key: string, country: string, taken: set<Id>, r: Option<Id>)
    requires Matches(c, key, country, taken, r) && key in c.byKey
    ensures forall id: Id :: OnlyFree(c.byKey[key], taken, id) ==> r == Some(id)
  {
    forall id: Id | OnlyFree(c.byKey[key], taken, id) ensures r == Some(id) { OneFree(c.byKey[key], taken, id); }
  }

  /** All names visited: a single hit is the only candidate, and otherwise there is none. */
  lemma HitsDecide(c: Clubs, key: string, country: string, taken: set<Id>, hits: seq<Place>)
    requires Hits(c, key, country, taken, hits, c.byKey.Keys)
    ensures |hits| == 1 ==> OnlyCandidate(c, key, country, taken, hits[0])
    ensures |hits| != 1 ==> !exists p :: OnlyCandidate(c, key, country, taken, p)
  {
    if |hits| > 0 { assert hits[0] in hits; }
    if |hits| > 1 { assert hits[1] in hits; }
    forall q | Candidate(c, key, country, taken, q) ensures q in hits { assert q.key in c.byKey.Keys; }
  }

  /** The names of the index come in no particular order. */
  method AllHits(c: Clubs, key: string, country: string, taken: set<Id>) returns (hits: seq<Place>)
    ensures Hits(c, key, country, taken, hits, c.byKey.Keys)
  {
    hits := [];
    var names := c.byKey.Keys;
    while names != {}
      invariant names <= c.byKey.Keys
      invariant Hits(c, key, country, taken, hits, c.byKey.Keys - names)
      decreases |names|
    {
      var k :| k in names;
      hits := HitsUnder(c, key, country, taken, hits, k, c.byKey.Keys - names);
      assert c.byKey.Keys - names + {k} == c.byKey.Keys - (names - {k});
      names := names - {k};
    }
    assert c.byKey.Keys - names == c.byKey.Keys;
  }

  method MatchClub(c: Clubs, key: string, country: string, taken: set<Id>) returns (r: Option<Id>)
    ensures Matches(c, key, country, taken, r)
  {
    var exact := Free(Listed(c.byKey, key), taken);
    if |exact| == 1 { return Some(exact[0]); }
    var hits := AllHits(c, key, country, taken);
    HitsDecide(c, key, country, taken, hits);
    if |hits| == 1 {
      assert OnlyCandidate(c, key, country, taken, hits[0]);
      return Some(c.byKey[hits[0].key][hits[0].at]);
    }
    return None;
  }

  // ------------------------------------------------------------------ players

  datatype Person = Person(name: string, born: string, team: string)

  /** The existing players by folded name, with date of birth and with club; whether a
      date of birth is known; and how many source players share a name. */
  datatype Players = Players(
    byBirth: map<(string, string), seq<Id>>, byTeam: map<(string, string), seq<Id>>, byName: map<string, seq<Id>>,
    dated: set<Id>, namesakes: map<string, nat>)

  function Named<K>(index: map<K, seq<Id>>, k: K): seq<Id> {
    if k in index then index[k] else []
  }

  /** A unique free hit, or none. */
  function Pick(ids: seq<Id>, taken: set<Id>): (r: Option<Id>)
    ensures r.Some? ==> r.value in ids && r.value !in taken
  {
    var free := Free(ids, taken);
    if |free| == 1 then Some(free[0]) else None
  }

  /** A name alone counts only when nobody else in the source shares it and the existing
      player has no date of birth to contradict it. */
  predicate NameSuffices(c: Players, name: string) {
    var ids := Named(c.byName, name);
    name in c.namesakes && c.namesakes[name] == 1 && |ids| == 1 && ids[0] !in c.dated
  }

  function MatchPlayer(c: Players, p: Person, taken: set<Id>): (r: Option<Id>)
    ensures r.Some? ==> r.value !in taken
  {
    var born := if p.born != "" then Pick(Named(c.byBirth, (p.name, p.born)), taken) else None;
    var team := Pick(Named(c.byTeam, (p.name, p.team)), taken);
    if born.Some? then born
    else if team.Some? then team
    else if NameSuffices(c, p.name) then Pick(Named(c.byName, p.name), taken)
    else None
  }

  /** One place of the list holds a free row, and it is this one. */
  ghost predicate OnlyFree(ids: seq<Id>, taken: set<Id>, id: Id) {
    exists k :: FreePlace(ids, taken, k) && ids[k] == id && forall j :: FreePlace(ids, taken, j) ==> j == k
  }

  predicate FreePlace(ids: seq<Id>, taken: set<Id>, k: int) {
    0 <= k < |ids| && ids[k] !in taken
  }

  lemma {:induction false} FreeStep(front: seq<Id>, last: Id, taken: set<Id>)
    ensures forall k ::
      FreePlace(front + [last], taken, k) <==> FreePlace(front, taken, k) || (k == |front| && last !in taken)
    ensures forall k :: FreePlace(front, taken, k) ==> (front + [last])[k] == front[k]
    ensures Free(front + [last], taken) == Free(front, taken) + if last in taken then [] else [last]
  {
    assert (front + [last])[..|front|] == front;
  }

  lemma {:induction false} NoneFree(ids: seq<Id>, taken: set<Id>)
    ensures Free(ids, taken) == [] <==> forall k :: !FreePlace(ids, taken, k)
    decreases |ids|
  {
    if ids != [] {
      var front, last := ids[..|ids| - 1], ids[|ids| - 1];
      assert ids == front + [last];
      NoneFree(front, taken);
      FreeStep(front, last, taken);
    }
  }

  lemma {:induction false} OneFree(ids: seq<Id>, taken: set<Id>, id: Id)
    ensures Free(ids, taken) == [id] <==> OnlyFree(ids, taken, id)
    decreases |ids|
  {
    if ids != [] {
      var front, last := ids[..|ids| - 1], ids[|ids| - 1];
      assert ids == front + [last];
      OneFree(front, taken, id);
      NoneFree(front, taken);
      FreeStep(front, last, taken);
      if last !in taken && Free(front, taken) == [] { assert FreePlace(ids, taken, |front|); }
    }
  }

  lemma {:induction false} PickIsTheOnlyOne(ids: seq<Id>, taken: set<Id>)
    ensures forall id: Id :: Pick(ids, taken) == Some(id) <==> OnlyFree(ids, taken, id)
  {
    forall id: Id ensures Pick(ids, taken) == Some(id) <==> OnlyFree(ids, taken, id) {
      OneFree(ids, taken, id);
    }
  }

  /** The three rules, each asked only where the ones before it have no unambiguous answer:
      name and date of birth, name and club, name alone. */
  lemma {:induction false} PlayerByTheRules(c: Players, p: Person, taken: set<Id>, id: Id)
    ensures var born := p.born != "" && OnlyFree(Named(c.byBirth, (p.name, p.born)), taken, id);
      var noneBorn := p.born == "" || !exists x :: OnlyFree(Named(c.byBirth, (p.name, p.born)), taken, x);
      var team := OnlyFree(Named(c.byTeam, (p.name, p.team)), taken, id);
      var noneTeam := !exists x :: OnlyFree(Named(c.byTeam, (p.name, p.team)), taken, x);
      var alone := p.name in c.namesakes && c.namesakes[p.name] == 1 && id !in c.dated && id !in taken
        && p.name in c.byName && c.byName[p.name] == [id];
      MatchPlayer(c, p, taken) == Some(id) <==> born || (noneBorn && team) || (noneBorn && noneTeam && alone)
  {
    PickIsTheOnlyOne(Named(c.byBirth, (p.name, p.born)), taken);
    PickIsTheOnlyOne(Named(c.byTeam, (p.name, p.team)), taken);
    if NameSuffices(c, p.name) {
      var only := Named(c.byName, p.name)[0];
      assert Named(c.byName, p.name) == [only] && [only][..0] == [];
      assert Free([only], taken) == if only in taken then [] else [only];
    }
  }

  // ------------------------------------------------------ resolving every source id

  /** What one run of the matching starts from: the source ids in order, the existing
      rows, and which free existing row a source id fits, given the rows taken. */
  datatype Setting = Setting(sources: seq<string>, existing: set<Id>, fits: (string, set<Id>) -> Option<Id>)

  datatype Progress = Progress(
    locals: map<string, Id>, taken: set<Id>, refs: map<string, Id>, newRefs: seq<(string, Id)>, next: Id, matched: nat,
        created: nat)

  ghost predicate Injective(m: map<string, Id>) {
    forall a, b :: a in m && b in m && m[a] == m[b] ==> a == b
  }

  /** Source ids are distinct; a fit is an existing row that is free; ids to come are new. */
  ghost predicate Ready(s: Setting, refs: map<string, Id>, next: Id) {
    Distinct(s.sources) && FitsAreFree(s, next) && Injective(refs)
  }

  ghost predicate Distinct(sources: seq<string>) {
    forall i, j :: 0 <= i < j < |sources| ==> sources[i] != sources[j]
  }

  ghost predicate FitsAreFree(s: Setting, next: Id) {
    && (forall a, taken ::
         s.fits(a, taken).Some? ==> s.fits(a, taken).value in s.existing && s.fits(a, taken).value !in taken)
    && (forall id :: id in s.existing ==> id < next)
  }

  function Start(refs: map<string, Id>, next: Id): Progress {
    Progress(map[], {}, refs, [], next, 0, 0)
  }

  function Remembered(p: Progress, a: string, id: Id): Progress {
    if a in p.refs && p.refs[a] == id then p else p.(refs := p.refs[a := id], newRefs := p.newRefs + [(a, id)])
  }

  /** The row was imported before and still exists. */
  predicate Imported(existing: set<Id>, refs: map<string, Id>, a: string) {
    a in refs && refs[a] in existing
  }

  predicate Known(s: Setting, refs: map<string, Id>, a: string) {
    Imported(s.existing, refs, a)
  }

  function Taking(p: Progress, a: string, id: Id): Progress {
    Remembered(p.(locals := p.locals[a := id], taken := p.taken + {id}), a, id)
  }

  /** A source goes to the row found for it, or to a new one. */
  function Placing(p: Progress, a: string, found: Option<Id>): Progress {
    if found.Some? then Taking(p.(matched := p.matched + 1), a, found.value)
    else Taking(p.(created := p.created + 1, next := p.next + 1), a, p.next)
  }

  function ResolveOne(s: Setting, p: Progress, a: string): Progress {
    Placing(p, a, if Known(s, p.refs, a) then Some(p.refs[a]) else s.fits(a, p.taken))
  }

  /** The first n sources, one after the other. */
  function Resolve(s: Setting, p: Progress, n: nat): Progress
    requires n <= |s.sources|
  {
    if n == 0 then p else ResolveOne(s, Resolve(s, p, n - 1), s.sources[n - 1])
  }

  function ResolveAll(s: Setting, refs: map<string, Id>, next: Id): Progress {
    Resolve(s, Start(refs, next), |s.sources|)
  }

  // ------------------------------------------------------ the clubs and the players

  datatype ClubName = ClubName(key: string, country: string)

  /** The source's clubs in the order of their ids, with folded names, and the table. */
  datatype ClubData = ClubData(order: seq<string>, names: map<string, ClubName>, existing: set<Id>, index: Clubs)

  /** The source's players in its order, and the table. */
  datatype PlayerData = PlayerData(order: seq<string>, people: map<string, Person>, existing: set<Id>, index: Players)

  /** The answer of the club matching, as a function. */
  ghost function ClubFit(c: Clubs, key: string, country: string, taken: set<Id>): (r: Option<Id>)
    ensures Matches(c, key, country, taken, r)
  {
    var exact := Free(Listed(c.byKey, key), taken);
    if |exact| == 1 then Some(exact[0])
    else if exists p :: OnlyCandidate(c, key, country, taken, p)
    then var p :| OnlyCandidate(c, key, country, taken, p); Some(c.byKey[p.key][p.at])
    else None
  }

  ghost function ClubSetting(d: ClubData): Setting {
    Setting(d.order, d.existing, (a: string, taken: set<Id>) =>
      if a in d.names then ClubFit(d.index, d.names[a].key, d.names[a].country, taken) else None)
  }

  function PlayerSetting(d: PlayerData): Setting {
    Setting(d.order, d.existing, (a: string, taken: set<Id>) =>
      if a in d.people then MatchPlayer(d.index, d.people[a], taken) else None)
  }

  predicate Lists<K>(index: map<K, seq<Id>>, k: K, id: Id) {
    k in index && id in index[k]
  }

  /** The index names no row that is not in the table. */
  ghost predicate OnlyOf<K(!new)>(index: map<K, seq<Id>>, existing: set<Id>) {
    forall k, id :: Lists(index, k, id) ==> id in existing
  }

  /** The index is of the whole table, with each club under one name at least. */
  ghost predicate IndexesClubs(c: Clubs, existing: set<Id>) {
    && OnlyOf(c.byKey, existing)
    && (forall id :: id in existing ==> exists k :: Lists(c.byKey, k, id))
    && c.country.Keys == existing
  }

  /** Each player is under its name, and under its date of birth and its club only with that
      name; those with a date of birth are the ones under it. */
  ghost predicate IndexesPlayers(c: Players, existing: set<Id>) {
    && OnlyOf(c.byName, existing) && OnlyOf(c.byTeam, existing) && OnlyOf(c.byBirth, existing)
    && (forall id :: id in existing ==> exists name :: Lists(c.byName, name, id))
    && (forall k, id :: Lists(c.byTeam, k, id) || Lists(c.byBirth, k, id) ==> Lists(c.byName, k.0, id))
    && (forall id :: id in c.dated <==> exists k :: Lists(c.byBirth, k, id))
  }

  /** What the club matching finds is an existing row that nobody in the run has taken. */
  lemma {:induction false} ClubFitsAreFree(d: ClubData, next: Id)
    requires OnlyOf(d.index.byKey, d.existing) && forall id :: id in d.existing ==> id < next
    ensures FitsAreFree(ClubSetting(d), next)
  {
    var s := ClubSetting(d);
    forall a, taken | s.fits(a, taken).Some?
      ensures s.fits(a, taken).value in s.existing && s.fits(a, taken).value !in taken
    {
      MatchIsFree(d.index, d.names[a].key, d.names[a].country, taken, s.fits(a, taken));
      var k :| k in d.index.byKey && s.fits(a, taken).value in d.index.byKey[k];
      assert Lists(d.index.byKey, k, s.fits(a, taken).value);
    }
  }

  lemma {:induction false} PlayerIsListed(c: Players, p: Person, taken: set<Id>)
    requires MatchPlayer(c, p, taken).Some?
    ensures var id := MatchPlayer(c, p, taken).value;
      Lists(c.byBirth, (p.name, p.born), id) || Lists(c.byTeam, (p.name, p.team), id) || Lists(c.byName, p.name, id)
  {}

  /** And so is what the player matching finds. */
  lemma {:induction false} PlayerFitsAreFree(d: PlayerData, next: Id)
    requires OnlyOf(d.index.byName, d.existing) && OnlyOf(d.index.byTeam, d.existing)
    requires OnlyOf(d.index.byBirth, d.existing) && forall id :: id in d.existing ==> id < next
    ensures FitsAreFree(PlayerSetting(d), next)
  {
    var s := PlayerSetting(d);
    forall a, taken | s.fits(a, taken).Some?
      ensures s.fits(a, taken).value in s.existing && s.fits(a, taken).value !in taken
    {
      assert s.fits(a, taken) == MatchPlayer(d.index, d.people[a], taken);
      PlayerIsListed(d.index, d.people[a], taken);
    }
  }

  lemma {:induction false} OneMoreResolved(s: Setting, start: Progress, n: nat)
    requires n < |s.sources|
    ensures Resolve(s, start, n + 1) == ResolveOne(s, Resolve(s, start, n), s.sources[n])
  {}

  lemma {:induction false} PlayerResolved(d: PlayerData, p: Progress, a: string)
    requires a in d.people
    ensures ResolveOne(PlayerSetting(d), p, a) == Placing(p, a,
      if Imported(d.existing, p.refs, a) then Some(p.refs[a]) else MatchPlayer(d.index, d.people[a], p.taken))
  {}

  class Resolver {
    var locals: map<string, Id>
    var taken: set<Id>
    var refs: map<string, Id>
    var newRefs: seq<(string, Id)>
    var next: Id
    var matched: nat
    var created: nat

    constructor (refs: map<string, Id>, next: Id)
      ensures State() == Start(refs, next)
    {
      locals, taken, this.refs, newRefs, this.next, matched, created := map[], {}, refs, [], next, 0, 0;
    }

    function State(): Progress
      reads this
    {
      Progress(locals, taken, refs, newRefs, next, matched, created)
    }

    method Remember(a: string, id: Id)
      modifies this
      ensures State() == Remembered(old(State()), a, id)
    {
      if a in refs && refs[a] == id { return; }
      refs := refs[a := id];
      newRefs := newRefs + [(a, id)];
    }

    method Place(a: string, found: Option<Id>)
      modifies this
      ensures State() == Placing(old(State()), a, found)
    {
      var local := 0;
      if found.Some? {
        matched := matched + 1;
        local := found.value;
      } else {
        created := created + 1;
        local := next;
        next := next + 1;
      }
      taken := taken + {local};
      locals := locals[a := local];
      Remember(a, local);
    }

    /** The clubs of the source, each to its referenced row, a match, or a new row. */
    method ImportClubs(d: ClubData)
      requires forall i :: 0 <= i < |d.order| ==> d.order[i] in d.names
      modifies this
      ensures State() == Resolve(ClubSetting(d), old(State()), |d.order|)
    {
      ghost var s, start := ClubSetting(d), State();
      for i := 0 to |d.order|
        invariant State() == Resolve(s, start, i)
      {
        var a := d.order[i];
        var found: Option<Id> := None;
        if a in refs && refs[a] in d.existing {
          found := Some(refs[a]);
        } else {
          var c := d.names[a];
          found := MatchClub(d.index, c.key, c.country, taken);
          MatchIsDetermined(d.index, c.key, c.country, taken, found, ClubFit(d.index, c.key, c.country, taken));
        }
        OneMoreResolved(s, start, i);
        Place(a, found);
      }
    }

    /** And its players. */
    method ImportPlayers(d: PlayerData)
      requires forall i :: 0 <= i < |d.order| ==> d.order[i] in d.people
      modifies this
      ensures State() == Resolve(PlayerSetting(d), old(State()), |d.order|)
    {
      ghost var s, start := PlayerSetting(d), State();
      for i := 0 to |d.order|
        invariant State() == Resolve(s, start, i)
      {
        var a := d.order[i];
        var found := if a in refs && refs[a] in d.existing then Some(refs[a])
          else MatchPlayer(d.index, d.people[a], taken);
        PlayerResolved(d, State(), a);
        OneMoreResolved(s, start, i);
        Place(a, found);
      }
    }
  }

  // --------------------------------------------------- distinct rows, and when

  function Done(s: Setting, n: nat): set<string>
    requires n <= |s.sources|
  {
    if n == 0 then {} else Done(s, n - 1) + {s.sources[n - 1]}
  }

  lemma {:induction false} DoneIsListed(s: Setting, n: nat)
    requires n <= |s.sources|
    ensures forall a :: a in Done(s, n) <==> exists i :: 0 <= i < n && s.sources[i] == a
    decreases n
  {
    if n > 0 { DoneIsListed(s, n - 1); }
  }

  /** Exactly the sources resolved have a row, marked taken, and a reference to it; the
      references of the others are as they were. */
  ghost predicate Settled(refs: map<string, Id>, p: Progress, done: set<string>) {
    && p.locals.Keys == done
    && (forall a :: a in done ==> p.locals[a] in p.taken && a in p.refs && p.refs[a] == p.locals[a])
    && (forall a :: a !in done ==> (a in p.refs <==> a in refs))
    && (forall a :: a !in done && a in refs ==> p.refs[a] == refs[a])
  }

  /** A known source keeps its row; every row is an existing one or a new one. */
  ghost predicate Placed(s: Setting, refs: map<string, Id>, next: Id, p: Progress) {
    && next <= p.next
    && (forall a :: a in p.locals ==> p.locals[a] < p.next)
    && (forall a :: a in p.locals && Known(s, refs, a) ==> p.locals[a] == refs[a])
  }

  /** A source matched by name took a row that a later source had been imported as. */
  predicate Steals(s: Setting, refs: map<string, Id>, locals: map<string, Id>, i: nat, j: nat) {
    && i < j < |s.sources| && s.sources[i] in locals
    && !Known(s, refs, s.sources[i]) && Known(s, refs, s.sources[j]) && locals[s.sources[i]] == refs[s.sources[j]]
  }

  /** Two sources share a row only by such a theft. */
  ghost predicate SharedByTheft(s: Setting, refs: map<string, Id>, locals: map<string, Id>, n: nat)
    requires n <= |s.sources|
  {
    forall i: nat, j: nat :: i < j < n && Share(locals, s.sources[i], s.sources[j]) ==> Steals(s, refs, locals, i, j)
  }

  predicate Share(locals: map<string, Id>, a: string, b: string) {
    a in locals && b in locals && locals[a] == locals[b]
  }

  lemma {:induction false} NotYet(s: Setting, n: nat)
    requires Distinct(s.sources) && n < |s.sources|
    ensures s.sources[n] !in Done(s, n)
  {
    DoneIsListed(s, n);
  }

  lemma {:induction false} TakingSettles(refs: map<string, Id>, p: Progress, done: set<string>, a: string, id: Id)
    requires Settled(refs, p, done) && a !in done
    ensures Settled(refs, Taking(p, a, id), done + {a})
    ensures Taking(p, a, id).locals == p.locals[a := id] && Taking(p, a, id).next == p.next
  {
  }

  /** One source resolved: to its own row if known, otherwise to a row nobody has. */
  lemma {:induction false} OneSettles(s: Setting, refs: map<string, Id>, next: Id, p: Progress, done: set<string>,
        a: string)
    requires FitsAreFree(s, next) && Settled(refs, p, done) && Placed(s, refs, next, p) && a !in done
    ensures Settled(refs, ResolveOne(s, p, a), done + {a}) && Placed(s, refs, next, ResolveOne(s, p, a))
    ensures OnlyAdds(s, refs, p.locals, ResolveOne(s, p, a).locals, a)
  {
    var found := if Known(s, p.refs, a) then Some(p.refs[a]) else s.fits(a, p.taken);
    assert Known(s, p.refs, a) <==> Known(s, refs, a);
    if found.Some? {
      TakingKeeps(s, refs, next, p.(matched := p.matched + 1), done, a, found.value);
    } else {
      TakingKeeps(s, refs, next, p.(created := p.created + 1, next := p.next + 1), done, a, p.next);
    }
  }

  /** Taking a source's own row, or one that nobody has. */
  lemma {:induction false} TakingKeeps(s: Setting, refs: map<string, Id>, next: Id, p: Progress, done: set<string>,
        a: string, id: Id)
    requires Settled(refs, p, done) && Placed(s, refs, next, p) && a !in done && id < p.next
    requires if Known(s, refs, a) then id == refs[a] else id !in p.locals.Values
    ensures Settled(refs, Taking(p, a, id), done + {a}) && Placed(s, refs, next, Taking(p, a, id))
    ensures OnlyAdds(s, refs, p.locals, Taking(p, a, id).locals, a)
  {
    TakingSettles(refs, p, done, a, id);
  }

  /** The newest source gets its own row if it is known, otherwise one that nobody has. */
  ghost predicate OnlyAdds(s: Setting, refs: map<string, Id>, before: map<string, Id>, after: map<string, Id>,
        a: string) {
    && a !in before && a in after && after == before[a := after[a]]
    && (if Known(s, refs, a) then after[a] == refs[a] else after[a] !in before.Values)
  }

  lemma {:induction false} AllSettles(s: Setting, refs: map<string, Id>, next: Id, n: nat)
    requires Ready(s, refs, next) && n <= |s.sources|
    ensures Settled(refs, Resolve(s, Start(refs, next), n), Done(s, n))
      && Placed(s, refs, next, Resolve(s, Start(refs, next), n))
    decreases n
  {
    if n > 0 {
      AllSettles(s, refs, next, n - 1);
      NotYet(s, n - 1);
      OneSettles(s, refs, next, Resolve(s, Start(refs, next), n - 1), Done(s, n - 1), s.sources[n - 1]);
    }
  }

  lemma {:induction false} LastStep(s: Setting, refs: map<string, Id>, next: Id, n: nat)
    requires Ready(s, refs, next) && 0 < n <= |s.sources|
    ensures var before, after := Resolve(s, Start(refs, next), n - 1).locals, Resolve(s, Start(refs, next), n).locals;
      OnlyAdds(s, refs, before, after, s.sources[n - 1]) && KeepsKnown(s, refs, before)
  {
    AllSettles(s, refs, next, n - 1);
    NotYet(s, n - 1);
    OneSettles(s, refs, next, Resolve(s, Start(refs, next), n - 1), Done(s, n - 1), s.sources[n - 1]);
  }

  ghost predicate KeepsKnown(s: Setting, refs: map<string, Id>, locals: map<string, Id>) {
    forall a :: a in locals && Known(s, refs, a) ==> locals[a] == refs[a]
  }

  lemma {:induction false} AllShareByTheft(s: Setting, refs: map<string, Id>, next: Id, n: nat)
    requires Ready(s, refs, next) && n <= |s.sources|
    ensures SharedByTheft(s, refs, Resolve(s, Start(refs, next), n).locals, n)
    decreases n
  {
    if n > 0 {
      AllShareByTheft(s, refs, next, n - 1);
      LastStep(s, refs, next, n);
      var before, after := Resolve(s, Start(refs, next), n - 1).locals, Resolve(s, Start(refs, next), n).locals;
      forall i: nat, j: nat | i < j < n && Share(after, s.sources[i], s.sources[j])
        ensures Steals(s, refs, after, i, j) {
        OldOrLate(s, refs, before, after, n, i, j);
      }
    }
  }

  /** Sharing among the first n: already there, or with the newest, which is then known. */
  lemma {:induction false} OldOrLate(s: Setting, refs: map<string, Id>, before: map<string, Id>, after: map<string,
        Id>, n: nat, i: nat, j: nat)
    requires i < j < n <= |s.sources| && Injective(refs) && Distinct(s.sources)
    requires SharedByTheft(s, refs, before, n - 1) && OnlyAdds(s, refs, before, after, s.sources[n - 1])
    requires KeepsKnown(s, refs, before) && Share(after, s.sources[i], s.sources[j])
    ensures Steals(s, refs, after, i, j)
  {
    var a, b := s.sources[i], s.sources[j];
    assert a in before && after[a] == before[a];
    if j < n - 1 {
      assert Share(before, a, b);
      assert Steals(s, refs, before, i, j);
    } else {
      assert before[a] in before.Values;
      assert Known(s, refs, b);
    }
  }

  /** What a whole pass leaves, source by source. */
  lemma {:induction false} AfterAll(s: Setting, refs: map<string, Id>, next: Id)
    requires Ready(s, refs, next)
    ensures var p := ResolveAll(s, refs, next);
      && p.locals.Keys == Done(s, |s.sources|)
      && (forall a :: a in p.locals ==> a in p.refs && p.refs[a] == p.locals[a])
      && (forall a :: a in p.locals && Known(s, refs, a) ==> p.locals[a] == refs[a])
      && SharedByTheft(s, refs, p.locals, |s.sources|)
  {
    AllSettles(s, refs, next, |s.sources|);
    AllShareByTheft(s, refs, next, |s.sources|);
  }

  /** Every source is counted once, as matched or as created, and each created one took one of
      the ids to come. */
  lemma {:induction false} EverySourceIsCounted(s: Setting, refs: map<string, Id>, next: Id, n: nat)
    requires n <= |s.sources|
    ensures var p := Resolve(s, Start(refs, next), n); p.matched + p.created == n && p.next == next + p.created
    decreases n
  {
    if n > 0 { EverySourceIsCounted(s, refs, next, n - 1); }
  }

  /** Two sources that share a row are a thief and its victim. */
  lemma {:induction false} NoTheftNoSharing(s: Setting, refs: map<string, Id>, next: Id, a: string, b: string)
    requires Ready(s, refs, next)
    requires var locals := ResolveAll(s, refs, next).locals;
      a in locals && b in locals && locals[a] == locals[b] && a != b
    ensures var locals := ResolveAll(s, refs, next).locals; exists i: nat, j: nat :: Steals(s, refs, locals, i, j)
  {
    AfterAll(s, refs, next);
    DoneIsListed(s, |s.sources|);
    var locals := ResolveAll(s, refs, next).locals;
    var i: nat :| i < |s.sources| && s.sources[i] == a;
    var j: nat :| j < |s.sources| && s.sources[j] == b;
    if i < j { assert Steals(s, refs, locals, i, j); } else { assert Steals(s, refs, locals, j, i); }
  }

  // ----------------------------------------------- the exact condition on the input

  /** No source that is new, or whose row is gone, comes before one that is known. */
  predicate KnownFirst(sources: seq<string>, existing: set<Id>, refs: map<string, Id>) {
    forall i, j :: 0 <= i < j < |sources| && Imported(existing, refs, sources[j])
      ==> Imported(existing, refs, sources[i])
  }

  /** Then distinct sources get distinct rows, whatever fits whatever. */
  lemma {:induction false} KnownFirstIsSafe(s: Setting, refs: map<string, Id>, next: Id)
    requires Ready(s, refs, next) && KnownFirst(s.sources, s.existing, refs)
    ensures Injective(ResolveAll(s, refs, next).locals)
  {
    var locals := ResolveAll(s, refs, next).locals;
    if a, b :| a in locals && b in locals && locals[a] == locals[b] && a != b {
      NoTheftNoSharing(s, refs, next, a, b);
    }
  }

  /** So a first import, and one in which every source is known, are always safe. */
  lemma {:induction false} AllOrNoneKnown(s: Setting, refs: map<string, Id>, next: Id)
    requires Ready(s, refs, next)
    requires (forall a :: a in s.sources ==> Known(s, refs, a)) || (forall a :: a in s.sources ==> !Known(s, refs, a))
    ensures Injective(ResolveAll(s, refs, next).locals)
  {
    assert forall i :: 0 <= i < |s.sources| ==> s.sources[i] in s.sources;
    KnownFirstIsSafe(s, refs, next);
  }

  /** Only this source fits anything, namely this row. */
  ghost predicate FitsOnly(s: Setting, a: string, row: Id) {
    forall b, taken :: s.fits(b, taken) == if b == a && row !in taken then Some(row) else None
  }

  lemma {:induction false} OthersLeaveIt(s: Setting, refs: map<string, Id>, next: Id, p: Progress, done: set<string>,
        b: string, a: string, row: Id)
    requires Settled(refs, p, done) && next <= p.next && b !in done && row !in p.taken && row < next
    requires FitsOnly(s, a, row) && b != a && (b in refs ==> refs[b] != row)
    ensures row !in ResolveOne(s, p, b).taken
  {
  }

  lemma {:induction false} RowStaysFree(s: Setting, refs: map<string, Id>, next: Id, i: nat, j: nat, n: nat)
    requires Ready(s, refs, next) && n <= i < j < |s.sources| && Known(s, refs, s.sources[j])
    requires FitsOnly(s, s.sources[i], refs[s.sources[j]])
    ensures refs[s.sources[j]] !in Resolve(s, Start(refs, next), n).taken
    decreases n
  {
    if n > 0 {
      RowStaysFree(s, refs, next, i, j, n - 1);
      AllSettles(s, refs, next, n - 1);
      NotYet(s, n - 1);
      var b := s.sources[n - 1];
      assert b != s.sources[i] && b != s.sources[j];
      OthersLeaveIt(s, refs, next, Resolve(s, Start(refs, next), n - 1), Done(s, n - 1), b, s.sources[i],
          refs[s.sources[j]]);
    }
  }

  ghost predicate Within(before: map<string, Id>, after: map<string, Id>) {
    forall a :: a in before ==> a in after && after[a] == before[a]
  }

  lemma {:induction false} AddingKeeps(s: Setting, refs: map<string, Id>, first: map<string, Id>,
        before: map<string, Id>, after: map<string, Id>, a: string)
    requires Within(first, before) && OnlyAdds(s, refs, before, after, a)
    ensures Within(first, after)
  {}

  lemma {:induction false} LocalsStay(s: Setting, refs: map<string, Id>, next: Id, m: nat, n: nat)
    requires Ready(s, refs, next) && m <= n <= |s.sources|
    ensures Within(Resolve(s, Start(refs, next), m).locals, Resolve(s, Start(refs, next), n).locals)
    decreases n
  {
    if m < n {
      LocalsStay(s, refs, next, m, n - 1);
      LastStep(s, refs, next, n);
      AddingKeeps(s, refs, Resolve(s, Start(refs, next), m).locals, Resolve(s, Start(refs, next), n - 1).locals,
                  Resolve(s, Start(refs, next), n).locals, s.sources[n - 1]);
    }
  }

  lemma {:induction false} TakesTheRow(s: Setting, refs: map<string, Id>, next: Id, i: nat, j: nat)
    requires Ready(s, refs, next) && i < j < |s.sources| && !Known(s, refs, s.sources[i])
      && Known(s, refs, s.sources[j])
    requires FitsOnly(s, s.sources[i], refs[s.sources[j]])
    ensures var locals := Resolve(s, Start(refs, next), i + 1).locals;
      s.sources[i] in locals && locals[s.sources[i]] == refs[s.sources[j]]
  {
    var p, a, row := Resolve(s, Start(refs, next), i), s.sources[i], refs[s.sources[j]];
    RowStaysFree(s, refs, next, i, j, i);
    AllSettles(s, refs, next, i);
    NotYet(s, i);
    assert !Known(s, p.refs, a) && s.fits(a, p.taken) == Some(row);
    assert ResolveOne(s, p, a) == Taking(p.(matched := p.matched + 1), a, row);
  }

  /** A new source before a known one takes the known one's row if its name fits that. */
  lemma {:induction false} EarlyFitShares(s: Setting, refs: map<string, Id>, next: Id, i: nat, j: nat)
    requires Ready(s, refs, next) && i < j < |s.sources| && !Known(s, refs, s.sources[i])
      && Known(s, refs, s.sources[j])
    requires FitsOnly(s, s.sources[i], refs[s.sources[j]])
    ensures !Injective(ResolveAll(s, refs, next).locals)
  {
    var locals := ResolveAll(s, refs, next).locals;
    TakesTheRow(s, refs, next, i, j);
    LocalsStay(s, refs, next, i + 1, |s.sources|);
    KnownKeepsItsRow(s, refs, next, j);
    assert s.sources[i] != s.sources[j] && locals[s.sources[i]] == locals[s.sources[j]];
  }

  lemma {:induction false} KnownKeepsItsRow(s: Setting, refs: map<string, Id>, next: Id, j: nat)
    requires Ready(s, refs, next) && j < |s.sources| && Known(s, refs, s.sources[j])
    ensures var locals := ResolveAll(s, refs, next).locals;
      s.sources[j] in locals && locals[s.sources[j]] == refs[s.sources[j]]
  {
    AfterAll(s, refs, next);
    DoneIsListed(s, |s.sources|);
  }

  ghost function Listing(ids: set<Id>): (all: seq<Id>)
    ensures forall id :: id in all <==> id in ids
  {
    if ids == {} then [] else var id :| id in ids; [id] + Listing(ids - {id})
  }

  /** One existing club that one source club shares the name of; the rest of either have
      another name, not the same. */
  ghost function Namesakes(order: seq<string>, existing: set<Id>, a: string, row: Id): ClubData {
    ClubData(order, map b | b in order :: ClubName(if b == a then "arsenal" else "boca", "england"), existing,
             Clubs(map["arsenal" := [row], "celta" := Listing(existing - {row})],
                   map id | id in existing :: Some("england")))
  }

  lemma {:induction false} NamesakesIndexed(order: seq<string>, existing: set<Id>, a: string, row: Id)
    requires row in existing
    ensures var d := Namesakes(order, existing, a, row); IndexesClubs(d.index, d.existing)
  {
    var c := Namesakes(order, existing, a, row).index;
    forall id | id in existing ensures exists k :: Lists(c.byKey, k, id) {
      assert Lists(c.byKey, if id == row then "arsenal" else "celta", id);
    }
  }

  lemma {:induction false} NamesakesFit(order: seq<string>, existing: set<Id>, a: string, row: Id)
    requires a in order
    ensures FitsOnly(ClubSetting(Namesakes(order, existing, a, row)), a, row)
  {
    var d := Namesakes(order, existing, a, row);
    var s, c := ClubSetting(d), d.index;
    forall b, taken ensures s.fits(b, taken) == if b == a && row !in taken then Some(row) else None {
      assert Free([row], taken) == if row in taken then [] else [row] by { assert [row][..0] == []; }
      if b in order {
        forall p ensures !Candidate(c, d.names[b].key, "england", taken, p) || (b == a && row !in taken) {
          UnrelatedNames();
        }
      }
    }
  }

  lemma {:induction false} UnrelatedNames()
    ensures !Extends("boca", "arsenal") && !Extends("boca", "celta") && !Extends("arsenal", "celta")
    ensures !Extends("arsenal", "arsenal")
  {
    assert "boca "[0] != "arsenal"[0] && "boca "[0] != "celta"[0] && "arsenal "[0] != "celta"[0];
    assert "arsenal "[0] != "boca"[0] && "celta "[0] != "boca"[0] && "celta "[0] != "arsenal"[0];
    assert |"arsenal "| > |"arsenal"|;
  }

  ghost predicate SafeClubs(refs: map<string, Id>, next: Id, d: ClubData) {
    IndexesClubs(d.index, d.existing) ==> Injective(ResolveAll(ClubSetting(d), refs, next).locals)
  }

  ghost predicate SafePlayers(refs: map<string, Id>, next: Id, d: PlayerData) {
    IndexesPlayers(d.index, d.existing) ==> Injective(ResolveAll(PlayerSetting(d), refs, next).locals)
  }

  /** Distinct source clubs get distinct rows, whatever the clubs are called, exactly when no
      club that is new comes before one that is known. */
  lemma {:induction false} DistinctClubsIff(order: seq<string>, existing: set<Id>, refs: map<string, Id>, next: Id)
    requires Distinct(order) && Injective(refs) && forall id :: id in existing ==> id < next
    ensures KnownFirst(order, existing, refs) <==>
      forall d: ClubData :: d.order == order && d.existing == existing ==> SafeClubs(refs, next, d)
  {
    if KnownFirst(order, existing, refs) {
      forall d: ClubData | d.order == order && d.existing == existing && IndexesClubs(d.index, existing)
        ensures Injective(ResolveAll(ClubSetting(d), refs, next).locals)
      {
        ClubFitsAreFree(d, next);
        KnownFirstIsSafe(ClubSetting(d), refs, next);
      }
    } else {
      var i, j :| 0 <= i < j < |order| && Imported(existing, refs, order[j]) && !Imported(existing, refs, order[i]);
      var d := Namesakes(order, existing, order[i], refs[order[j]]);
      NamesakesIndexed(order, existing, order[i], refs[order[j]]);
      ClubFitsAreFree(d, next);
      NamesakesFit(order, existing, order[i], refs[order[j]]);
      EarlyFitShares(ClubSetting(d), refs, next, i, j);
      assert !SafeClubs(refs, next, d);
    }
  }

  /** One existing player of a club, one source player of that name there; the rest of either
      have another name, not the same. */
  ghost function Lookalikes(order: seq<string>, existing: set<Id>, a: string, row: Id): PlayerData {
    PlayerData(order, map b | b in order :: Person(if b == a then "silva" else "rocha", "", "team"), existing,
               Players(map[], map[("silva", "team") := [row]],
                       map["silva" := [row], "moreno" := Listing(existing - {row})], {}, map["silva" := 1]))
  }

  lemma {:induction false} LookalikesIndexed(order: seq<string>, existing: set<Id>, a: string, row: Id)
    requires row in existing
    ensures var d := Lookalikes(order, existing, a, row); IndexesPlayers(d.index, d.existing)
  {
    var c := Lookalikes(order, existing, a, row).index;
    forall id | id in existing ensures exists name :: Lists(c.byName, name, id) {
      assert Lists(c.byName, if id == row then "silva" else "moreno", id);
    }
  }

  lemma {:induction false} LookalikesFit(order: seq<string>, existing: set<Id>, a: string, row: Id)
    requires a in order
    ensures FitsOnly(PlayerSetting(Lookalikes(order, existing, a, row)), a, row)
  {
    var s := PlayerSetting(Lookalikes(order, existing, a, row));
    forall b, taken ensures s.fits(b, taken) == if b == a && row !in taken then Some(row) else None {
      assert Free([row], taken) == if row in taken then [] else [row] by { assert [row][..0] == []; }
    }
  }

  /** The same holds of players. */
  lemma {:induction false} DistinctPlayersIff(order: seq<string>, existing: set<Id>, refs: map<string, Id>, next: Id)
    requires Distinct(order) && Injective(refs) && forall id :: id in existing ==> id < next
    ensures KnownFirst(order, existing, refs) <==>
      forall d: PlayerData :: d.order == order && d.existing == existing ==> SafePlayers(refs, next, d)
  {
    if KnownFirst(order, existing, refs) {
      forall d: PlayerData | d.order == order && d.existing == existing && IndexesPlayers(d.index, existing)
        ensures Injective(ResolveAll(PlayerSetting(d), refs, next).locals)
      {
        PlayerFitsAreFree(d, next);
        KnownFirstIsSafe(PlayerSetting(d), refs, next);
      }
    } else {
      var i, j :| 0 <= i < j < |order| && Imported(existing, refs, order[j]) && !Imported(existing, refs, order[i]);
      var d := Lookalikes(order, existing, order[i], refs[order[j]]);
      LookalikesIndexed(order, existing, order[i], refs[order[j]]);
      PlayerFitsAreFree(d, next);
      LookalikesFit(order, existing, order[i], refs[order[j]]);
      EarlyFitShares(PlayerSetting(d), refs, next, i, j);
      assert !SafePlayers(refs, next, d);
    }
  }

  /** A concrete table: the club "2" was imported as row 7, a new club "1" of the same folded
      name comes first, and both end up on row 7. */
  lemma {:induction false} NewNamesakeTakesTheRow()
    ensures var d := Namesakes(["1", "2"], {7}, "1", 7);
      IndexesClubs(d.index, d.existing)
        && ResolveAll(ClubSetting(d), map["2" := 7], 8).locals == map["1" := 7, "2" := 7]
  {
    var d := Namesakes(["1", "2"], {7}, "1", 7);
    var s, p0 := ClubSetting(d), Start(map["2" := 7], 8);
    NamesakesIndexed(["1", "2"], {7}, "1", 7);
    NamesakesFit(["1", "2"], {7}, "1", 7);
    assert Resolve(s, p0, 0) == p0;
    var p1 := Resolve(s, p0, 1);
    assert p1 == ResolveOne(s, p0, "1");
    assert p1.locals == map["1" := 7] && p1.refs["2"] == 7;
    assert Resolve(s, p0, 2) == ResolveOne(s, p1, "2");
  }

  // ------------------------------------------------------------ a second run

  /** Every source so far found its row; nothing was created or saved. */
  ghost predicate Replayed(refs: map<string, Id>, p: Progress, done: set<string>, n: nat) {
    && p.refs == refs && p.newRefs == [] && p.created == 0 && p.matched == n
    && p.locals.Keys == done
    && (forall a :: a in done ==> a in refs && p.locals[a] == refs[a])
  }

  lemma {:induction false} Replay(s: Setting, refs: map<string, Id>, next: Id, n: nat)
    requires n <= |s.sources| && forall i :: 0 <= i < |s.sources| ==> Known(s, refs, s.sources[i])
    ensures Replayed(refs, Resolve(s, Start(refs, next), n), Done(s, n), n)
    decreases n
  {
    if n > 0 {
      Replay(s, refs, next, n - 1);
      assert Known(s, refs, s.sources[n - 1]);
    }
  }

  lemma SameDone(s: Setting, s': Setting, n: nat)
    requires s.sources == s'.sources && n <= |s.sources|
    ensures Done(s, n) == Done(s', n)
  {
  }

  /** Running the matching again, with the rows of the first run in place and whatever
      else was added or renamed, resolves every source to the same row and creates nothing
      and changes no reference. */
  lemma {:induction false} SecondRunResolvesAlike(s: Setting, refs: map<string, Id>, next: Id, again: Setting,
        next2: Id)
    requires Ready(s, refs, next) && again.sources == s.sources
    requires var first := ResolveAll(s, refs, next);
      forall a :: a in first.locals ==> first.locals[a] in again.existing
    ensures var first := ResolveAll(s, refs, next);
      var second := ResolveAll(again, first.refs, next2);
      && second.locals == first.locals && second.refs == first.refs && second.newRefs == []
      && second.created == 0 && second.matched == |s.sources|
  {
    var first := ResolveAll(s, refs, next);
    AfterAll(s, refs, next);
    DoneIsListed(s, |s.sources|);
    forall i | 0 <= i < |s.sources| ensures Known(again, first.refs, s.sources[i]) {
      assert s.sources[i] in first.locals;
    }
    Replay(again, first.refs, next2, |s.sources|);
    SameDone(s, again, |s.sources|);
  }
}
