/** An import from the seasons to the transfers: what each step resolves is what the next one
    works on, and importing the same source again changes nothing. */
module WholeImport {
  import opened Common
  import Classify
  import Matching
  import Seasons
  import Merge = TransferMerge
  import MergeProofs = TransferMergeProofs

  type Id = nat

  /** A source player before its club is known here. */
  datatype Listed = Listed(name: string, born: string, clubId: string)

  /** The source: its range of seasons, its clubs and players in the order they are visited,
      and the players' histories. */
  datatype Source = Source(
    firstSeason: nat, latestSeason: nat, clubs: seq<string>, clubNames: map<string, Matching.ClubName>,
    players: seq<string>, people: map<string, Listed>, names: Classify.Names, histories: seq<Merge.History>)

  /** How a local row is written where another table refers to it. */
  datatype Uuids = Uuids(club: Id -> string, player: Id -> string, season: Seasons.Label -> string)

  datatype Database = Database(
    seasons: seq<Seasons.Season>, clubs: set<Id>, players: map<Id, Merge.PlayerDates>,
    transfers: map<Id, Merge.Transfer>,
    clubRefs: map<string, Id>, playerRefs: map<string, Id>, transferRefs: map<Merge.Key, Id>)

  /** What a run finds besides the rows: the indexes of names, the order in which the transfers
      come, the ids that will be generated, and the day. */
  datatype Circumstances = Circumstances(
    clubIndex: Matching.Clubs, playerIndex: Matching.Players, order: seq<Id>,
    nextClub: Id, nextPlayer: Id, nextTransfer: Id, today: int)

  datatype Report = Report(clubs: nat, players: nat, created: nat, adopted: nat, removed: nat)

  // ------------------------------------------------------------------ the steps

  ghost function ClubPass(src: Source, db: Database, c: Circumstances): Matching.Progress {
    var data := Matching.ClubData(src.clubs, src.clubNames, db.clubs, c.clubIndex);
    Matching.ResolveAll(Matching.ClubSetting(data), db.clubRefs, c.nextClub)
  }

  /** A source player with the club it plays for here, if that was imported. */
  function PersonOf(u: Uuids, clubs: map<string, Id>, p: Listed): Matching.Person {
    Matching.Person(p.name, p.born, if p.clubId in clubs then u.club(clubs[p.clubId]) else "")
  }

  function PlayersToMatch(src: Source, u: Uuids, db: Database, c: Circumstances, clubs: map<string, Id>)
    : Matching.PlayerData
  {
    Matching.PlayerData(src.players, map a | a in src.people :: PersonOf(u, clubs, src.people[a]), db.players.Keys,
                        c.playerIndex)
  }

  function PlayerPass(src: Source, u: Uuids, db: Database, c: Circumstances, clubs: map<string, Id>)
    : Matching.Progress
  {
    var data := PlayersToMatch(src, u, db, c, clubs);
    Matching.ResolveAll(Matching.PlayerSetting(data), db.playerRefs, c.nextPlayer)
  }

  /** The players of the table once the new ones are in it. */
  function WithNew(players: map<Id, Merge.PlayerDates>, locals: map<string, Id>, today: int)
    : map<Id, Merge.PlayerDates>
  {
    map id | id in players.Keys + locals.Values ::
      if id in players then players[id] else Merge.PlayerDates(today, None)
  }

  /** What the transfer step works on: the maps of the steps before it, the players that were
      here before this run, and everybody's dates. */
  function TransferSetting(src: Source, u: Uuids, seasons: seq<Seasons.Season>, clubs: map<string, Id>,
        locals: map<string, Id>, before: set<Id>, players: map<Id, Merge.PlayerDates>): Merge.Setting
    requires OneUuidEach(u)
  {
    Merge.Setting(
      src.names, src.histories,
      map a | a in locals :: u.player(locals[a]),
      map a | a in clubs :: u.club(clubs[a]),
      day => SeasonId(u, seasons, day),
      set a | a in locals && locals[a] in before :: u.player(locals[a]),
      map id | id in players :: u.player(id) := players[id])
  }

  ghost predicate OneUuidEach(u: Uuids) {
    forall x, y :: u.player(x) == u.player(y) ==> x == y
  }

  function SeasonId(u: Uuids, seasons: seq<Seasons.Season>, day: int): Option<string> {
    match Seasons.SeasonOn(seasons, day)
    case None => None
    case Some(s) => Some(u.season(s.name))
  }

  /** The transfers, after the steps before them. */
  ghost function TransferPass(src: Source, u: Uuids, db: Database, c: Circumstances, seasons: seq<Seasons.Season>,
        clubs: map<string, Id>, locals: map<string, Id>): Merge.Outcome
    requires OneUuidEach(u)
  {
    var table := WithNew(db.players, locals, c.today);
    var s := TransferSetting(src, u, seasons, clubs, locals, db.players.Keys, table);
    Merge.Import(s, db.transfers, db.transferRefs, c.order, c.nextTransfer)
  }

  /** The tables once every step is done. */
  function Left(db: Database, c: Circumstances, seasons: seq<Seasons.Season>, clubs: Matching.Progress,
        players: Matching.Progress, o: Merge.Outcome): Database
  {
    Database(seasons, db.clubs + clubs.locals.Values, WithNew(db.players, players.locals, c.today), o.rows,
             clubs.refs, players.refs, o.refs)
  }

  /** The whole import; one failure and nothing has happened. */
  ghost function Import(src: Source, u: Uuids, db: Database, c: Circumstances)
    : Result<(Database, Report), Seasons.Failure>
    requires OneUuidEach(u)
  {
    match Seasons.ImportYears(db.seasons, src.firstSeason, src.latestSeason)
    case Err(f) => Err(f)
    case Ok(seasons) =>
      var clubs := ClubPass(src, db, c);
      var players := PlayerPass(src, u, db, c, clubs.locals);
      var o := TransferPass(src, u, db, c, seasons, clubs.locals, players.locals);
      Ok((Left(db, c, seasons, clubs, players, o),
          Report(clubs.created, players.created, o.created, o.adopted, o.removed)))
  }

  // --------------------------------------------------------------- a first run

  /** The schema's rules, references that are one to one, and ids to come that are new. */
  ghost predicate Sound(db: Database, c: Circumstances) {
    && Seasons.Valid(db.seasons)
    && Matching.Injective(db.clubRefs) && Matching.Injective(db.playerRefs) && MergeProofs.Injective(db.transferRefs)
    && (forall id :: id in db.clubs ==> id < c.nextClub)
    && (forall id :: id in db.players ==> id < c.nextPlayer)
    && (forall id :: id in db.transfers ==> id < c.nextTransfer)
    && (forall k :: k in db.transferRefs ==> db.transferRefs[k] < c.nextTransfer)
  }

  /** A transfer belongs to a player of the table. */
  ghost predicate PlayersExist(u: Uuids, db: Database) {
    forall id :: id in db.transfers ==> exists p :: p in db.players && u.player(p) == db.transfers[id].player
  }

  /** The indexes name rows of the tables, and a source's ids are distinct. */
  ghost predicate Indexed(src: Source, db: Database, c: Circumstances) {
    && Matching.Distinct(src.clubs) && Matching.Distinct(src.players)
    && Matching.OnlyOf(c.clubIndex.byKey, db.clubs)
    && Matching.OnlyOf(c.playerIndex.byName, db.players.Keys)
    && Matching.OnlyOf(c.playerIndex.byTeam, db.players.Keys)
    && Matching.OnlyOf(c.playerIndex.byBirth, db.players.Keys)
  }

  /** The transfers of the imported players, in some order. */
  ghost predicate Fetched(u: Uuids, locals: map<string, Id>, transfers: map<Id, Merge.Transfer>, order: seq<Id>) {
    forall id :: id in order <==>
      id in transfers && exists a :: a in locals && u.player(locals[a]) == transfers[id].player
  }

  /** What a first run starts from. */
  ghost predicate Ready(src: Source, u: Uuids, db: Database, c: Circumstances) {
    && OneUuidEach(u) && Sound(db, c) && PlayersExist(u, db) && Indexed(src, db, c)
    && Fetched(u, PlayerPass(src, u, db, c, ClubPass(src, db, c).locals).locals, db.transfers, c.order)
  }

  lemma {:induction false} PassesAreReady(src: Source, u: Uuids, db: Database, c: Circumstances)
    requires Sound(db, c) && Indexed(src, db, c)
    ensures var data := Matching.ClubData(src.clubs, src.clubNames, db.clubs, c.clubIndex);
      Matching.Ready(Matching.ClubSetting(data), db.clubRefs, c.nextClub)
    ensures forall clubs ::
      Matching.Ready(Matching.PlayerSetting(PlayersToMatch(src, u, db, c, clubs)), db.playerRefs, c.nextPlayer)
  {
    Matching.ClubFitsAreFree(Matching.ClubData(src.clubs, src.clubNames, db.clubs, c.clubIndex), c.nextClub);
    forall clubs
      ensures Matching.Ready(Matching.PlayerSetting(PlayersToMatch(src, u, db, c, clubs)), db.playerRefs, c.nextPlayer)
    {
      Matching.PlayerFitsAreFree(PlayersToMatch(src, u, db, c, clubs), c.nextPlayer);
    }
  }

  /** The transfers read are those of players that were here before the run. */
  lemma {:induction false} ReadRowsAreMatched(u: Uuids, db: Database, locals: map<string, Id>, s: Merge.Setting,
        id: Id)
    requires OneUuidEach(u) && PlayersExist(u, db) && id in db.transfers
    requires s.matched == set a | a in locals && locals[a] in db.players :: u.player(locals[a])
    requires exists a :: a in locals && u.player(locals[a]) == db.transfers[id].player
    ensures db.transfers[id].player in s.matched
  {
    var a :| a in locals && u.player(locals[a]) == db.transfers[id].player;
    var p :| p in db.players && u.player(p) == db.transfers[id].player;
    assert locals[a] == p;
  }

  lemma {:induction false} TransfersAreReady(u: Uuids, db: Database, c: Circumstances,
        locals: map<string, Id>, s: Merge.Setting)
    requires OneUuidEach(u) && Sound(db, c) && PlayersExist(u, db) && Fetched(u, locals, db.transfers, c.order)
    requires s.players == map a | a in locals :: u.player(locals[a])
    requires s.matched == set a | a in locals && locals[a] in db.players :: u.player(locals[a])
    ensures MergeProofs.Ready(s, db.transfers, db.transferRefs, c.order, c.nextTransfer)
    ensures forall id :: id in c.order ==> db.transfers[id].player in s.matched
  {
    PlayersAre(u, locals, s);
    forall id | id in c.order ensures db.transfers[id].player in s.matched {
      ReadRowsAreMatched(u, db, locals, s, id);
    }
  }

  lemma {:induction false} PlayersAre(u: Uuids, locals: map<string, Id>, s: Merge.Setting)
    requires s.players == map a | a in locals :: u.player(locals[a])
    ensures forall x :: x in s.players.Values <==> exists a :: a in locals && u.player(locals[a]) == x
  {
    forall x ensures x in s.players.Values <==> exists a :: a in locals && u.player(locals[a]) == x {
      if x in s.players.Values {
        var a :| a in s.players && s.players[a] == x;
        assert a in locals && u.player(locals[a]) == x;
      }
      if a :| a in locals && u.player(locals[a]) == x {
        assert a in s.players && s.players[a] == x;
      }
    }
  }

  const EMPTY := Database([], {}, map[], map[], map[], map[], map[])

  const NOTHING_INDEXED := Matching.Players(map[], map[], map[], {}, map[])

  /** A first import into empty tables starts from what the theorems ask for, and succeeds. */
  lemma {:induction false} FirstImportSucceeds(src: Source, u: Uuids, c: Circumstances)
    requires OneUuidEach(u) && Matching.Distinct(src.clubs) && Matching.Distinct(src.players)
    requires c.clubIndex == Matching.Clubs(map[], map[]) && c.playerIndex == NOTHING_INDEXED && c.order == []
    ensures Ready(src, u, EMPTY, c) && Import(src, u, EMPTY, c).Ok?
  {
    assert forall year: nat :: !Seasons.Blocked(EMPTY.seasons, year);
    Seasons.ImportServesEveryYear(EMPTY.seasons, src.firstSeason, src.latestSeason);
  }

  // ------------------------------------------------- what an import brings in

  /** Move k of history h is of a source player, and it is the first of its date and ends there;
      no earlier history is the same player's, and one of its ends is a source club. */
  ghost predicate Counts(src: Source, h: nat, k: nat) {
    && h < |src.histories| && src.histories[h].player in src.players
    && (forall g :: 0 <= g < h ==> src.histories[g].player != src.histories[h].player)
    && var moves := Classify.Classified(src.names, src.histories[h].moves);
      && k < |moves|
      && (moves[k].raw.fromId in src.clubs || moves[k].raw.toId in src.clubs)
      && forall j :: 0 <= j < k ==>
        !(moves[j].raw.date == moves[k].raw.date && moves[j].raw.fromId == moves[k].raw.fromId
          && moves[j].raw.toId == moves[k].raw.toId)
  }

  ghost function MoveAt(src: Source, h: nat, k: nat): Classify.Move
    requires Counts(src, h, k)
  {
    Classify.Classified(src.names, src.histories[h].moves)[k]
  }

  /** A source id became a row of the table, under the reference kept for it. */
  ghost predicate Became(refs: map<string, Id>, table: set<Id>, a: string) {
    a in refs && refs[a] in table
  }

  /** Every source club and player is in the tables afterwards, and nothing that was there has
      gone. */
  lemma {:induction false} EverySourceIsHere(src: Source, u: Uuids, db: Database, c: Circumstances)
    requires Ready(src, u, db, c) && Import(src, u, db, c).Ok?
    ensures var db' := Import(src, u, db, c).value.0;
      && (forall a :: a in src.clubs ==> Became(db'.clubRefs, db'.clubs, a))
      && (forall a :: a in src.players ==> Became(db'.playerRefs, db'.players.Keys, a))
      && db.clubs <= db'.clubs && db.players.Keys <= db'.players.Keys
      && (forall id :: id in db.players ==> db'.players[id] == db.players[id])
      && (forall id :: id in db'.players && id !in db.players ==> db'.players[id] == Merge.PlayerDates(c.today, None))
  {
    Resolved(src, u, db, c);
  }

  /** A pass keeps the row of each of its sources, and of nothing else, as its reference. */
  ghost predicate Resolves(sources: seq<string>, p: Matching.Progress) {
    && (forall a :: a in p.locals <==> a in sources)
    && (forall a :: a in p.locals ==> a in p.refs && p.refs[a] == p.locals[a])
  }

  lemma {:induction false} PassResolves(s: Matching.Setting, refs: map<string, Id>, next: Id)
    requires Matching.Ready(s, refs, next)
    ensures Resolves(s.sources, Matching.ResolveAll(s, refs, next))
  {
    Matching.AfterAll(s, refs, next);
    Matching.DoneIsListed(s, |s.sources|);
  }

  lemma {:induction false} Resolved(src: Source, u: Uuids, db: Database, c: Circumstances)
    requires Sound(db, c) && Indexed(src, db, c)
    ensures var clubs := ClubPass(src, db, c);
      Resolves(src.clubs, clubs) && Resolves(src.players, PlayerPass(src, u, db, c, clubs.locals))
  {
    PassesAreReady(src, u, db, c);
    var clubs := ClubPass(src, db, c).locals;
    PassResolves(Matching.ClubSetting(Matching.ClubData(src.clubs, src.clubNames, db.clubs, c.clubIndex)),
                 db.clubRefs, c.nextClub);
    PassResolves(Matching.PlayerSetting(PlayersToMatch(src, u, db, c, clubs)), db.playerRefs, c.nextPlayer);
  }

  /** The club of a player counts as the row it became: a new player of no known birthday is the
      only free player of that name there, if there is one. */
  lemma {:induction false} PlayerFollowsTheClub(src: Source, u: Uuids, db: Database, c: Circumstances, a: string,
        id: Id)
    requires Ready(src, u, db, c) && Import(src, u, db, c).Ok? && src.players == [a] && a in src.people
    requires a !in db.playerRefs && src.people[a].born == "" && src.people[a].clubId in src.clubs
    requires var db' := Import(src, u, db, c).value.0; var club := src.people[a].clubId;
      club in db'.clubRefs && Matching.OnlyFree(Matching.Named(c.playerIndex.byTeam,
        (src.people[a].name, u.club(db'.clubRefs[club]))), {}, id)
    ensures var db' := Import(src, u, db, c).value.0; a in db'.playerRefs && db'.playerRefs[a] == id
  {
    var clubs := ClubPass(src, db, c).locals;
    Resolved(src, u, db, c);
    var data := PlayersToMatch(src, u, db, c, clubs);
    Matching.PlayerByTheRules(data.index, data.people[a], {}, id);
    OnlySource(Matching.PlayerSetting(data), db.playerRefs, c.nextPlayer, a);
  }

  lemma {:induction false} OnlySource(s: Matching.Setting, refs: map<string, Id>, next: Id, a: string)
    requires s.sources == [a] && a !in refs && s.fits(a, {}).Some?
    ensures var p := Matching.ResolveAll(s, refs, next); a in p.refs && Some(p.refs[a]) == s.fits(a, {})
  {
    var p0 := Matching.Start(refs, next);
    assert Matching.Resolve(s, p0, 0) == p0;
    assert Matching.Resolve(s, p0, 1) == Matching.ResolveOne(s, p0, a);
  }

  /** An end of a move as the table writes it: the row the source club became, if it is one. */
  function EndOf(u: Uuids, clubRefs: map<string, Id>, clubs: seq<string>, id: string): Option<string> {
    if id in clubs && id in clubRefs then Some(u.club(clubRefs[id])) else None
  }

  /** What the table says of a source move: its date, kind and fee, the clubs its ends became,
      and the season of its day if there is one. */
  ghost predicate Says(u: Uuids, seasons: seq<Seasons.Season>, clubs: seq<string>, clubRefs: map<string, Id>,
        m: Classify.Move, row: Merge.Transfer) {
    && row.date == m.raw.date && row.kind == m.kind && row.fee == m.feeMinor
    && row.from == EndOf(u, clubRefs, clubs, m.raw.fromId)
    && row.to == EndOf(u, clubRefs, clubs, m.raw.toId)
    && (forall s :: s in seasons && s.start <= m.raw.date <= s.end ==> row.season == Some(u.season(s.name)))
  }

  lemma {:induction false} CountsAlike(src: Source, s: Merge.Setting, h: nat, k: nat)
    requires s.names == src.names && s.histories == src.histories && Counts(src, h, k)
    requires forall a :: a in s.players <==> a in src.players
    requires forall a :: a in s.clubs <==> a in src.clubs
    ensures MergeProofs.Counts(s, h, k) && MergeProofs.MoveAt(s, h, k) == MoveAt(src, h, k)
  {}

  lemma {:induction false} SaysWhatItHolds(src: Source, u: Uuids, seasons: seq<Seasons.Season>,
        clubs: Matching.Progress, s: Merge.Setting, rows: map<Id, Merge.Transfer>, m: Classify.Move, id: Id,
        row: Merge.Transfer)
    requires Resolves(src.clubs, clubs) && Seasons.Valid(seasons) && MergeProofs.Holds(s, rows, m, id, row)
    requires s.clubs == map a | a in clubs.locals :: u.club(clubs.locals[a])
    requires s.seasonOn(m.raw.date) == SeasonId(u, seasons, m.raw.date)
    ensures Says(u, seasons, src.clubs, clubs.refs, m, row)
  {
    SeasonOfTheDay(u, seasons, m.raw.date);
  }

  lemma {:induction false} MovePasses(src: Source, u: Uuids, db: Database, c: Circumstances,
        seasons: seq<Seasons.Season>, clubs: Matching.Progress, players: Matching.Progress, h: nat, k: nat)
    requires OneUuidEach(u) && Sound(db, c) && PlayersExist(u, db)
    requires Fetched(u, players.locals, db.transfers, c.order)
    requires Resolves(src.clubs, clubs) && Resolves(src.players, players) && Seasons.Valid(seasons) && Counts(src, h, k)
    ensures var o := TransferPass(src, u, db, c, seasons, clubs.locals, players.locals);
      var m, a := MoveAt(src, h, k), src.histories[h].player;
      var key := Merge.Key(a, m.raw.date, m.raw.fromId, m.raw.toId);
      && key in o.refs && o.refs[key] in o.rows && a in players.refs
      && Says(u, seasons, src.clubs, clubs.refs, m, o.rows[o.refs[key]])
      && (key !in db.transferRefs ==> o.rows[o.refs[key]].player == u.player(players.refs[a]))
  {
    var locals := players.locals;
    var table := WithNew(db.players, locals, c.today);
    var s := TransferSetting(src, u, seasons, clubs.locals, locals, db.players.Keys, table);
    TransfersAreReady(u, db, c, locals, s);
    CountsAlike(src, s, h, k);
    MergeProofs.EveryMoveIsStored(s, db.transfers, db.transferRefs, c.order, c.nextTransfer, h, k);
    var m, o := MoveAt(src, h, k), TransferPass(src, u, db, c, seasons, clubs.locals, locals);
    var id := o.refs[Merge.Key(src.histories[h].player, m.raw.date, m.raw.fromId, m.raw.toId)];
    SaysWhatItHolds(src, u, seasons, clubs, s, db.transfers, m, id, o.rows[id]);
  }

  /** Every source move is on record, between the clubs its ends became and in the season of
      its day, under the player its player became unless a reference from before decided. */
  lemma {:induction false} EveryMoveArrives(src: Source, u: Uuids, db: Database, c: Circumstances, h: nat, k: nat)
    requires Ready(src, u, db, c) && Import(src, u, db, c).Ok? && Counts(src, h, k)
    ensures var db', m, a := Import(src, u, db, c).value.0, MoveAt(src, h, k), src.histories[h].player;
      var key := Merge.Key(a, m.raw.date, m.raw.fromId, m.raw.toId);
      && key in db'.transferRefs && db'.transferRefs[key] in db'.transfers && a in db'.playerRefs
      && Says(u, db'.seasons, src.clubs, db'.clubRefs, m, db'.transfers[db'.transferRefs[key]])
      && (key !in db.transferRefs ==>
            db'.transfers[db'.transferRefs[key]].player == u.player(db'.playerRefs[a]))
  {
    var clubs := ClubPass(src, db, c);
    var players := PlayerPass(src, u, db, c, clubs.locals);
    Resolved(src, u, db, c);
    SeasonsStayValid(src, db.seasons);
    MovePasses(src, u, db, c, Import(src, u, db, c).value.0.seasons, clubs, players, h, k);
  }

  /** The arrival written when a player was entered by hand -- from nowhere, permanent, no fee,
      on the day of entry or of the contract's start -- goes once the player's history has come;
      any other transfer that is no source move stays as it was. */
  lemma {:induction false} PlaceholdersGo(src: Source, u: Uuids, db: Database, c: Circumstances, id: Id, p: Id,
        a: string)
    requires Ready(src, u, db, c) && Import(src, u, db, c).Ok? && id in db.transfers && p in db.players
    requires u.player(p) == db.transfers[id].player && a in src.players
    requires var db' := Import(src, u, db, c).value.0;
      a in db'.playerRefs && db'.playerRefs[a] == p && id !in db'.transferRefs.Values
    ensures var t, db' := db.transfers[id], Import(src, u, db, c).value.0;
      if id !in db.transferRefs.Values
        && t.from == None && t.to != None && t.kind == Classify.Permanent && t.fee == None
        && (t.date == db.players[p].created || db.players[p].contractStart == Some(t.date))
      then id !in db'.transfers
      else id in db'.transfers && db'.transfers[id] == t
  {
    var players := PlayerPass(src, u, db, c, ClubPass(src, db, c).locals);
    Resolved(src, u, db, c);
    PlaceholdersPass(src, u, db, c, Import(src, u, db, c).value.0.seasons, ClubPass(src, db, c).locals, players.locals,
                     id, p, a);
  }

  lemma {:induction false} DatesAreTheTables(u: Uuids, table: map<Id, Merge.PlayerDates>, p: Id)
    requires OneUuidEach(u) && p in table
    ensures var dates := map id | id in table :: u.player(id) := table[id];
      u.player(p) in dates && dates[u.player(p)] == table[p]
  {}

  lemma {:induction false} PlaceholdersPass(src: Source, u: Uuids, db: Database, c: Circumstances,
        seasons: seq<Seasons.Season>, clubs: map<string, Id>, locals: map<string, Id>, id: Id, p: Id, a: string)
    requires OneUuidEach(u) && Sound(db, c) && PlayersExist(u, db) && Fetched(u, locals, db.transfers, c.order)
    requires id in db.transfers && p in db.players && u.player(p) == db.transfers[id].player
    requires a in locals && locals[a] == p
    requires id !in TransferPass(src, u, db, c, seasons, clubs, locals).refs.Values
    ensures var t, o := db.transfers[id], TransferPass(src, u, db, c, seasons, clubs, locals);
      if id !in db.transferRefs.Values
        && t.from == None && t.to != None && t.kind == Classify.Permanent && t.fee == None
        && (t.date == db.players[p].created || db.players[p].contractStart == Some(t.date))
      then id !in o.rows
      else id in o.rows && o.rows[id] == t
  {
    var table := WithNew(db.players, locals, c.today);
    var s := TransferSetting(src, u, seasons, clubs, locals, db.players.Keys, table);
    TransfersAreReady(u, db, c, locals, s);
    assert id in c.order && db.transfers[id].player in s.matched;
    DatesAreTheTables(u, table, p);
    assert s.dates[u.player(p)] == db.players[p];
    MergeProofs.OtherRowsAreUntouched(s, db.transfers, db.transferRefs, c.order, c.nextTransfer, id);
  }

  lemma {:induction false} SeasonsStayValid(src: Source, seasons: seq<Seasons.Season>)
    requires Seasons.Valid(seasons) && Seasons.ImportYears(seasons, src.firstSeason, src.latestSeason).Ok?
    ensures Seasons.Valid(Seasons.ImportYears(seasons, src.firstSeason, src.latestSeason).value)
  {
    Seasons.ImportFailsIff(seasons, src.firstSeason, src.latestSeason);
    Seasons.ImportServesEveryYear(seasons, src.firstSeason, src.latestSeason);
  }

  lemma {:induction false} SeasonOfTheDay(u: Uuids, r: seq<Seasons.Season>, day: int)
    requires Seasons.Valid(r)
    ensures forall s :: s in r && s.start <= day <= s.end ==> SeasonId(u, r, day) == Some(u.season(s.name))
  {
    forall s | s in r && s.start <= day <= s.end ensures SeasonId(u, r, day) == Some(u.season(s.name)) {
      Seasons.OneSeasonPerDay(r, s, day);
    }
  }

  // -------------------------------------------------------------- a second run

  /** The matching of a second run, whatever the tables have come to be called. */
  lemma {:induction false} SameRows(src: Source, u: Uuids, db: Database, c: Circumstances, again: Circumstances)
    requires Ready(src, u, db, c) && Import(src, u, db, c).Ok?
    ensures var db' := Import(src, u, db, c).value.0;
      var clubs, clubs2 := ClubPass(src, db, c), ClubPass(src, db', again);
      var players, players2 := PlayerPass(src, u, db, c, clubs.locals), PlayerPass(src, u, db', again, clubs2.locals);
      && clubs2.locals == clubs.locals && clubs2.refs == clubs.refs && clubs2.created == 0
      && players2.locals == players.locals && players2.refs == players.refs && players2.created == 0
  {
    var db' := Import(src, u, db, c).value.0;
    var clubs := ClubPass(src, db, c);
    PassesAreReady(src, u, db, c);
    Matching.SecondRunResolvesAlike(
      Matching.ClubSetting(Matching.ClubData(src.clubs, src.clubNames, db.clubs, c.clubIndex)), db.clubRefs,
      c.nextClub,
      Matching.ClubSetting(Matching.ClubData(src.clubs, src.clubNames, db'.clubs, again.clubIndex)),
      again.nextClub);
    Matching.SecondRunResolvesAlike(
      Matching.PlayerSetting(PlayersToMatch(src, u, db, c, clubs.locals)), db.playerRefs, c.nextPlayer,
      Matching.PlayerSetting(PlayersToMatch(src, u, db', again, clubs.locals)), again.nextPlayer);
  }

  /** The second run's transfers are read from what the first one left. */
  ghost predicate FetchedAfter(src: Source, u: Uuids, db: Database, c: Circumstances, order: seq<Id>)
    requires OneUuidEach(u) && Import(src, u, db, c).Ok?
  {
    var players := PlayerPass(src, u, db, c, ClubPass(src, db, c).locals);
    Fetched(u, players.locals, Import(src, u, db, c).value.0.transfers, order)
  }

  /** The transfer step of a second run, over the rows the first one left. */
  lemma {:induction false} SameTransfers(src: Source, u: Uuids, db: Database, c: Circumstances,
        seasons: seq<Seasons.Season>, clubs: map<string, Id>, locals: map<string, Id>, db': Database,
        again: Circumstances)
    requires OneUuidEach(u) && Sound(db, c) && PlayersExist(u, db) && Fetched(u, locals, db.transfers, c.order)
    requires var o := TransferPass(src, u, db, c, seasons, clubs, locals);
      db'.transfers == o.rows && db'.transferRefs == o.refs && Fetched(u, locals, o.rows, again.order)
    requires db'.players == WithNew(db.players, locals, c.today)
    ensures var o := TransferPass(src, u, db', again, seasons, clubs, locals);
      && o.rows == db'.transfers && o.refs == db'.transferRefs && o.created == 0 && o.adopted == 0 && o.removed == 0
  {
    NobodyNew(db.players, locals, c.today, again.today);
    var s := TransferSetting(src, u, seasons, clubs, locals, db.players.Keys, db'.players);
    var s2 := TransferSetting(src, u, seasons, clubs, locals, db'.players.Keys, db'.players);
    assert s2 == s.(matched := s2.matched);
    TransfersAreReady(u, db, c, locals, s);
    PlayersAre(u, locals, s);
    MergeProofs.SecondRunChangesNothing(s, db.transfers, db.transferRefs, c.order, c.nextTransfer, s2.matched,
                                        again.order, again.nextTransfer);
  }

  lemma {:induction false} NobodyNew(players: map<Id, Merge.PlayerDates>, locals: map<string, Id>, today: int,
        later: int)
    ensures var after := WithNew(players, locals, today); WithNew(after, locals, later) == after
  {
    assert players.Keys + locals.Values + locals.Values == players.Keys + locals.Values;
  }

  /** Steps that find everything as it is leave it so. */
  lemma {:induction false} NothingLeftToDo(src: Source, u: Uuids, db: Database, c: Circumstances,
        clubs: map<string, Id>, locals: map<string, Id>)
    requires OneUuidEach(u)
    requires Seasons.ImportYears(db.seasons, src.firstSeason, src.latestSeason) == Ok(db.seasons)
    requires var p := ClubPass(src, db, c); p.locals == clubs && p.refs == db.clubRefs && p.created == 0
    requires var p := PlayerPass(src, u, db, c, clubs); p.locals == locals && p.refs == db.playerRefs && p.created == 0
    requires clubs.Values <= db.clubs && WithNew(db.players, locals, c.today) == db.players
    requires var o := TransferPass(src, u, db, c, db.seasons, clubs, locals);
      o.rows == db.transfers && o.refs == db.transferRefs && o.created == 0 && o.adopted == 0 && o.removed == 0
    ensures Import(src, u, db, c) == Ok((db, Report(0, 0, 0, 0, 0)))
  {
    assert db.clubs + clubs.Values == db.clubs;
  }

  /** Importing the same source again, with the names of clubs and players in whatever shape,
      the transfers in whatever order, and no other edits in between, leaves every table and
      every reference as it was: no season, club, player or transfer is created, adopted or
      removed. */
  lemma {:induction false} SecondImportChangesNothing(src: Source, u: Uuids, db: Database, c: Circumstances,
        again: Circumstances)
    requires Ready(src, u, db, c) && Import(src, u, db, c).Ok?
    requires FetchedAfter(src, u, db, c, again.order)
    ensures var db' := Import(src, u, db, c).value.0;
      Import(src, u, db', again) == Ok((db', Report(0, 0, 0, 0, 0)))
  {
    var db' := Import(src, u, db, c).value.0;
    var clubs := ClubPass(src, db, c);
    var players := PlayerPass(src, u, db, c, clubs.locals);
    SameRows(src, u, db, c, again);
    TheSecondRun(src, u, db, c, again, db', clubs, players);
  }

  /** The same, over what the first run left, part by part. */
  lemma {:induction false} TheSecondRun(src: Source, u: Uuids, db: Database, c: Circumstances, again: Circumstances,
        db': Database, clubs: Matching.Progress, players: Matching.Progress)
    requires OneUuidEach(u) && Sound(db, c) && PlayersExist(u, db)
    requires Seasons.ImportYears(db.seasons, src.firstSeason, src.latestSeason) == Ok(db'.seasons)
    requires var o := TransferPass(src, u, db, c, db'.seasons, clubs.locals, players.locals);
      && db' == Left(db, c, db'.seasons, clubs, players, o)
      && Fetched(u, players.locals, db.transfers, c.order) && Fetched(u, players.locals, o.rows, again.order)
    requires var p := ClubPass(src, db', again); p.locals == clubs.locals && p.refs == clubs.refs && p.created == 0
    requires var p := PlayerPass(src, u, db', again, clubs.locals);
      p.locals == players.locals && p.refs == players.refs && p.created == 0
    ensures Import(src, u, db', again) == Ok((db', Report(0, 0, 0, 0, 0)))
  {
    Seasons.SecondImportAddsNothing(db.seasons, src.firstSeason, src.latestSeason);
    NobodyNew(db.players, players.locals, c.today, again.today);
    SameTransfers(src, u, db, c, db'.seasons, clubs.locals, players.locals, db', again);
    NothingLeftToDo(src, u, db', again, clubs.locals, players.locals);
  }

  lemma {:induction false} RunsOfNothing(src: Source, u: Uuids, db: Database, runs: seq<Circumstances>)
    requires OneUuidEach(u)
    requires forall i :: 0 <= i < |runs| ==> Import(src, u, db, runs[i]) == Ok((db, Report(0, 0, 0, 0, 0)))
    ensures ImportAgain(src, u, db, runs) == Ok(db)
    decreases |runs|
  {
    if runs != [] {
      assert Import(src, u, db, runs[0]) == Ok((db, Report(0, 0, 0, 0, 0)));
      RunsOfNothing(src, u, db, runs[1..]);
    }
  }

  ghost function ImportAgain(src: Source, u: Uuids, db: Database, runs: seq<Circumstances>)
    : Result<Database, Seasons.Failure>
    requires OneUuidEach(u)
    decreases |runs|
  {
    if runs == [] then Ok(db)
    else match Import(src, u, db, runs[0])
      case Err(f) => Err(f)
      case Ok(done) => ImportAgain(src, u, done.0, runs[1..])
  }

  /** And so does importing it any number of times. */
  lemma {:induction false} LaterImportsChangeNothing(src: Source, u: Uuids, db: Database, c: Circumstances,
        runs: seq<Circumstances>)
    requires Ready(src, u, db, c) && Import(src, u, db, c).Ok?
    requires forall i :: 0 <= i < |runs| ==> FetchedAfter(src, u, db, c, runs[i].order)
    ensures ImportAgain(src, u, Import(src, u, db, c).value.0, runs) == Ok(Import(src, u, db, c).value.0)
  {
    var db' := Import(src, u, db, c).value.0;
    forall i | 0 <= i < |runs| ensures Import(src, u, db', runs[i]) == Ok((db', Report(0, 0, 0, 0, 0))) {
      SecondImportChangesNothing(src, u, db, c, runs[i]);
    }
    RunsOfNothing(src, u, db', runs);
  }
}
