/** The transfer step of an import: each source move is matched to the row it was
    imported as before, adopts a hand-entered row, or becomes a new row; then the
    placeholder arrivals of players whose real history is now known are removed.

    Rows and references are maps, a statement is one step, and a generated id is one
    that nothing uses yet. */
module TransferMerge {
  import opened Common
  import opened Classify

  type Id = nat

  const ADOPTION_DAYS := 7

  datatype Transfer = Transfer(
    player: string, from: Option<string>, to: Option<string>, season: Option<string>,
    date: int, kind: Kind, fee: Option<int>)

  /** What external_refs knows a move by. */
  datatype Key = Key(player: string, date: int, fromId: string, toId: string)

  datatype History = History(player: string, moves: seq<RawTransfer>)

  datatype PlayerDates = PlayerDates(created: int, contractStart: Option<int>)

  /** What the earlier steps of the run leave for this one: the source histories in
      order, the local player and club of each source id, the season of a date, the
      local players that existed before the run, and their dates. */
  datatype Setting = Setting(
    names: Names, histories: seq<History>, players: map<string, string>, clubs: map<string, string>,
    seasonOn: int -> Option<string>, matched: set<string>, dates: map<string, PlayerDates>)

  /** One source move, translated to local terms. */
  datatype Entry = Entry(
    key: Key, player: string, from: Option<string>, to: Option<string>, season: Option<string>,
    kind: Kind, fee: Option<int>)

  datatype Planned = Planned(id: Id, entry: Entry)

  datatype Progress = Progress(
    refs: map<Key, Id>, newRefs: seq<(Key, Id)>, claimed: set<Id>,
    inserts: seq<Planned>, updates: seq<Planned>, next: Id, created: nat, adopted: nat, updated: nat)

  /** The rows the step starts from, in the order the query happened to return them, and
      the rows that already had a reference. */
  datatype Existing = Existing(rows: map<Id, Transfer>, order: seq<Id>, referenced: set<Id>)

  datatype Outcome = Outcome(
    rows: map<Id, Transfer>, refs: map<Key, Id>, newRefs: seq<(Key, Id)>,
    created: nat, adopted: nat, updated: nat, removed: nat)

  // ------------------------------------------------------------- the worklist

  /** The club a source id became; none is "outside the dataset". */
  function TeamFor(s: Setting, clubId: string): Option<string> {
    if clubId in s.clubs then Some(s.clubs[clubId]) else None
  }

  function EntryFor(s: Setting, sourcePlayer: string, m: Move): Entry
    requires sourcePlayer in s.players
  {
    Entry(Key(sourcePlayer, m.raw.date, m.raw.fromId, m.raw.toId), s.players[sourcePlayer],
          TeamFor(s, m.raw.fromId), TeamFor(s, m.raw.toId), s.seasonOn(m.raw.date), m.kind, m.feeMinor)
  }

  /** A move with neither club in the dataset says nothing here, and a move the source
      lists twice counts once. */
  function WithEntry(es: seq<Entry>, e: Entry): seq<Entry> {
    if (e.from.None? && e.to.None?) || (exists i :: 0 <= i < |es| && es[i].key == e.key) then es else es + [e]
  }

  function EntriesOf(s: Setting, before: seq<Entry>, sourcePlayer: string, moves: seq<Move>): seq<Entry>
    requires sourcePlayer in s.players
  {
    if moves == [] then before
    else WithEntry(EntriesOf(s, before, sourcePlayer, moves[..|moves| - 1]),
        EntryFor(s, sourcePlayer, moves[|moves| - 1]))
  }

  ghost function Worklist(s: Setting, histories: seq<History>): seq<Entry> {
    if histories == [] then []
    else
      var before := Worklist(s, histories[..|histories| - 1]);
      var h := histories[|histories| - 1];
      if h.player in s.players then EntriesOf(s, before, h.player, Classified(s.names, h.moves)) else before
  }

  // ------------------------------------------------------------- one move

  function DaysApart(a: int, b: int): int {
    if a < b then b - a else a - b
  }

  /** The same move entered by hand: the same player and clubs, within a week, and not
      already spoken for. */
  predicate Adoptable(x: Existing, claimed: set<Id>, id: Id, e: Entry) {
    && id in x.rows && x.rows[id].player == e.player
    && id !in claimed && id !in x.referenced
    && x.rows[id].from == e.from && x.rows[id].to == e.to
    && DaysApart(x.rows[id].date, e.key.date) <= ADOPTION_DAYS
  }

  function FirstAdoptable(x: Existing, order: seq<Id>, claimed: set<Id>, e: Entry): (found: Option<Id>)
    ensures found.Some? ==> found.value in order && Adoptable(x, claimed, found.value, e)
    ensures found.None? ==> forall id :: id in order ==> !Adoptable(x, claimed, id, e)
  {
    if order == [] then None
    else if Adoptable(x, claimed, order[0], e) then Some(order[0])
    else FirstAdoptable(x, order[1..], claimed, e)
  }

  function Remembered(p: Progress, key: Key, local: Id): Progress {
    if key in p.refs && p.refs[key] == local then p
    else p.(refs := p.refs[key := local], newRefs := p.newRefs + [(key, local)])
  }

  function Claimed(p: Progress, e: Entry, local: Id): Progress {
    Remembered(p.(claimed := p.claimed + {local}, updates := p.updates + [Planned(local, e)]), e.key, local)
  }

  function Created(p: Progress, e: Entry): Progress {
    Remembered(p.(inserts := p.inserts + [Planned(p.next, e)], next := p.next + 1, created := p.created + 1), e.key,
        p.next)
  }

  function MergeOne(x: Existing, p: Progress, e: Entry): Progress {
    if e.key in p.refs && p.refs[e.key] in x.order then
      Claimed(p, e, p.refs[e.key]).(updated := p.updated + 1)
    else match FirstAdoptable(x, x.order, p.claimed, e)
      case Some(id) => Claimed(p, e, id).(adopted := p.adopted + 1)
      case None => Created(p, e)
  }

  function MergeAll(x: Existing, p: Progress, es: seq<Entry>): Progress {
    if es == [] then p else MergeOne(x, MergeAll(x, p, es[..|es| - 1]), es[|es| - 1])
  }

  // ------------------------------------------------------- the statements

  function RowFor(e: Entry): Transfer {
    Transfer(e.player, e.from, e.to, e.season, e.key.date, e.kind, e.fee)
  }

  /** An update keeps the row's player, and its season when the source move has none. */
  function Corrected(row: Transfer, e: Entry): Transfer {
    row.(from := e.from, to := e.to, season := if e.season.Some? then e.season else row.season,
         date := e.key.date, kind := e.kind, fee := e.fee)
  }

  function InsertAll(rows: map<Id, Transfer>, planned: seq<Planned>): map<Id, Transfer> {
    if planned == [] then rows
    else var p := planned[|planned| - 1]; InsertAll(rows, planned[..|planned| - 1])[p.id := RowFor(p.entry)]
  }

  function UpdateAll(rows: map<Id, Transfer>, planned: seq<Planned>): map<Id, Transfer> {
    if planned == [] then rows
    else
      var p := planned[|planned| - 1];
      var r := UpdateAll(rows, planned[..|planned| - 1]);
      if p.id in r then r[p.id := Corrected(r[p.id], p.entry)] else r
  }

  /** The arrival written when a player is created by hand: from nowhere, permanent, no
      fee, on the day of entry or of the contract's start. */
  predicate Placeholder(s: Setting, row: Transfer) {
    && row.from.None? && row.to.Some? && row.kind == Permanent && row.fee.None?
    && row.player in s.dates
    && (row.date == s.dates[row.player].created || s.dates[row.player].contractStart == Some(row.date))
  }

  function Openings(s: Setting, x: Existing, claimed: set<Id>): set<Id> {
    set id | id in x.order && id in x.rows && x.rows[id].player in s.matched
      && id !in claimed && id !in x.referenced && Placeholder(s, x.rows[id])
  }

  function Start(refs: map<Key, Id>, next: Id): Progress {
    Progress(refs, [], {}, [], [], next, 0, 0, 0)
  }

  ghost function Import(s: Setting, rows: map<Id, Transfer>, refs: map<Key, Id>, order: seq<Id>, next: Id): Outcome {
    var x := Existing(rows, order, refs.Values);
    var p := MergeAll(x, Start(refs, next), Worklist(s, s.histories));
    var openings := Openings(s, x, p.claimed);
    Outcome(UpdateAll(InsertAll(rows, p.inserts), p.updates) - openings, p.refs, p.newRefs,
            p.created, p.adopted, p.updated, |openings|)
  }

  // ---------------------------------------------------------------- the code

  lemma {:induction false} EntriesOneMore(s: Setting, before: seq<Entry>, player: string, moves: seq<Move>, j: nat)
    requires player in s.players && j < |moves|
    ensures EntriesOf(s, before, player, moves[..j + 1])
      == WithEntry(EntriesOf(s, before, player, moves[..j]), EntryFor(s, player, moves[j]))
  {
    assert moves[..j + 1][..j] == moves[..j];
  }

  lemma {:induction false} MergeOneMore(x: Existing, p: Progress, es: seq<Entry>, e: Entry)
    ensures MergeAll(x, p, es + [e]) == MergeOne(x, MergeAll(x, p, es), e)
  {
    assert (es + [e])[..|es|] == es;
  }

  class Merge {
    const setting: Setting
    var rows: map<Id, Transfer>
    var progress: Progress

    constructor (setting: Setting, rows: map<Id, Transfer>, refs: map<Key, Id>, next: Id)
      ensures this.setting == setting && this.rows == rows && progress == Start(refs, next)
    {
      this.setting, this.rows, progress := setting, rows, Start(refs, next);
    }

    method Remember(key: Key, local: Id)
      modifies this`progress
      ensures progress == Remembered(old(progress), key, local)
    {
      if key in progress.refs && progress.refs[key] == local {
        return;
      }
      progress := progress.(refs := progress.refs[key := local], newRefs := progress.newRefs + [(key, local)]);
    }

    /** The first hand-entered row that is the same move. */
    method FindAdoptable(x: Existing, e: Entry) returns (local: Option<Id>)
      ensures local == FirstAdoptable(x, x.order, progress.claimed, e)
    {
      for i := 0 to |x.order|
        invariant FirstAdoptable(x, x.order, progress.claimed, e)
          == FirstAdoptable(x, x.order[i..], progress.claimed, e)
      {
        assert x.order[i..][0] == x.order[i] && x.order[i..][1..] == x.order[i + 1..];
        if Adoptable(x, progress.claimed, x.order[i], e) { return Some(x.order[i]); }
      }
      return None;
    }

    /** Resolve one move to a row: its reference, a row to adopt, or a new one. */
    method Resolve(x: Existing, e: Entry)
      modifies this`progress
      ensures progress == MergeOne(x, old(progress), e)
    {
      var local: Option<Id> := None;
      if e.key in progress.refs && progress.refs[e.key] in x.order {
        local := Some(progress.refs[e.key]);
        progress := progress.(updated := progress.updated + 1);
      } else {
        local := FindAdoptable(x, e);
        if local.Some? {
          progress := progress.(adopted := progress.adopted + 1);
        }
      }
      if local.Some? {
        progress := progress.(claimed := progress.claimed + {local.value},
            updates := progress.updates + [Planned(local.value, e)]);
        Remember(e.key, local.value);
      } else {
        var newId := progress.next;
        progress := progress.(inserts := progress.inserts + [Planned(newId, e)], next := newId + 1,
            created := progress.created + 1);
        Remember(e.key, newId);
      }
    }

    /** The step, over rows returned in any order. One set of seen keys serves all
        players, since a key starts with its player. */
    method ImportTransfers(order: seq<Id>) returns (removed: nat)
      requires progress == Start(progress.refs, progress.next)
      modifies this
      ensures var o := Import(setting, old(rows), old(progress.refs), order, old(progress.next));
        rows == o.rows && progress.refs == o.refs && progress.newRefs == o.newRefs && removed == o.removed
        && progress.created == o.created && progress.adopted == o.adopted && progress.updated == o.updated
    {
      var x := Existing(rows, order, progress.refs.Values);
      var start := progress;
      var done: seq<Entry> := [];
      var i := 0;
      while i < |setting.histories|
        invariant i <= |setting.histories|
        invariant rows == old(rows)
        invariant done == Worklist(setting, setting.histories[..i])
        invariant progress == MergeAll(x, start, done)
      {
        var h := setting.histories[i];
        assert setting.histories[..i + 1][..i] == setting.histories[..i];
        if h.player in setting.players {
          done := ImportPlayer(x, start, done, h);
        }
        i := i + 1;
      }
      assert setting.histories[..i] == setting.histories;
      var openings := Openings(setting, x, progress.claimed);
      rows := UpdateAll(InsertAll(rows, progress.inserts), progress.updates);
      rows := rows - openings;
      removed := |openings|;
    }

    method ImportPlayer(x: Existing, start: Progress, before: seq<Entry>, h: History) returns (done: seq<Entry>)
      requires h.player in setting.players
      requires progress == MergeAll(x, start, before)
      modifies this`progress
      ensures done == EntriesOf(setting, before, h.player, Classified(setting.names, h.moves))
      ensures progress == MergeAll(x, start, done)
    {
      var moves := ClassifyMoves(setting.names, h.moves);
      done := before;
      var j := 0;
      while j < |moves|
        invariant j <= |moves|
        invariant done == EntriesOf(setting, before, h.player, moves[..j])
        invariant progress == MergeAll(x, start, done)
      {
        var e := EntryFor(setting, h.player, moves[j]);
        EntriesOneMore(setting, before, h.player, moves, j);
        if !(e.from.None? && e.to.None?) && !(exists k :: 0 <= k < |done| && done[k].key == e.key) {
          Resolve(x, e);
          MergeOneMore(x, start, done, e);
          done := done + [e];
        }
        j := j + 1;
      }
      assert moves[..j] == moves;
    }
  }
}
