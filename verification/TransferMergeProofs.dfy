/** Why the transfer step can be run again and again: it keeps references injective,
    touches nothing it has no claim to, and a second run finds everything in place. */
module TransferMergeProofs {
  import opened Common
  import opened Classify
  import opened TransferMerge

  ghost predicate Injective(refs: map<Key, Id>) {
    forall k1, k2 :: k1 in refs && k2 in refs && refs[k1] == refs[k2] ==> k1 == k2
  }

  ghost predicate DistinctKeys(es: seq<Entry>) {
    forall i, j :: 0 <= i < j < |es| ==> es[i].key != es[j].key
  }

  function Keys(es: seq<Entry>): set<Key> {
    set e | e in es :: e.key
  }

  lemma KeysGrow(es: seq<Entry>, e: Entry)
    ensures Keys(es + [e]) == Keys(es) + {e.key}
  {
    assert forall f :: f in es + [e] <==> f in es || f == e;
  }

  // ------------------------------------------------------------ the worklist

  /** Entries name players and rows of the setting. */
  ghost predicate Genuine(s: Setting, es: seq<Entry>) {
    forall i :: 0 <= i < |es| ==> es[i].player in s.players.Values
  }

  lemma {:induction false} EntriesOfDistinct(s: Setting, before: seq<Entry>, player: string, moves: seq<Move>)
    requires player in s.players && DistinctKeys(before) && Genuine(s, before)
    ensures DistinctKeys(EntriesOf(s, before, player, moves)) && Genuine(s, EntriesOf(s, before, player, moves))
  {
    if moves != [] {
      EntriesOfDistinct(s, before, player, moves[..|moves| - 1]);
    }
  }

  lemma {:induction false} WorklistDistinct(s: Setting, histories: seq<History>)
    ensures DistinctKeys(Worklist(s, histories)) && Genuine(s, Worklist(s, histories))
  {
    if histories != [] {
      WorklistDistinct(s, histories[..|histories| - 1]);
      var h := histories[|histories| - 1];
      if h.player in s.players {
        EntriesOfDistinct(s, Worklist(s, histories[..|histories| - 1]), h.player, Classified(s.names, h.moves));
      }
    }
  }

  // --------------------------------------------------- what the merge keeps

  /** An entry that has been dealt with has a reference, to a claimed row that is planned
      for update or to a new row that is planned for insertion. */
  ghost predicate Dealt(x: Existing, next: Id, p: Progress, e: Entry) {
    && e.key in p.refs
    && var id := p.refs[e.key];
       (id in x.order && id in p.claimed && Planned(id, e) in p.updates)
         || (next <= id < p.next && Planned(id, e) in p.inserts)
  }

  ghost predicate PlanOk(x: Existing, next: Id, p: Progress, es: seq<Entry>) {
    && (forall q ::
         q in p.updates ==>
           q.entry in es && q.entry.key in p.refs && p.refs[q.entry.key] == q.id && q.id in x.order)
    && (forall q ::
         q in p.inserts ==>
           q.entry in es && q.entry.key in p.refs && p.refs[q.entry.key] == q.id && next <= q.id < p.next)
  }

  ghost predicate RefsOk(x: Existing, refs: map<Key, Id>, p: Progress, es: seq<Entry>) {
    && Injective(p.refs)
    && (forall k :: k in p.refs ==> p.refs[k] < p.next)
    && p.refs.Keys == refs.Keys + Keys(es)
    && (forall k :: k in refs && (k !in Keys(es) || refs[k] in x.order) ==> p.refs[k] == refs[k])
  }

  ghost predicate Tracks(x: Existing, refs: map<Key, Id>, next: Id, p: Progress, es: seq<Entry>) {
    && next <= p.next
    && (forall id :: id in x.order ==> id < next)
    && x.referenced == refs.Values
    && (forall c :: c in p.claimed ==> exists q :: q in p.updates && q.id == c)
    && (forall e :: e in es ==> Dealt(x, next, p, e))
    && PlanOk(x, next, p, es)
    && RefsOk(x, refs, p, es)
  }

  /** The row a move adopts belongs to no other key. */
  lemma AdoptedRowIsFree(x: Existing, refs: map<Key, Id>, next: Id, p: Progress, es: seq<Entry>, e: Entry, id: Id,
        k: Key)
    requires Tracks(x, refs, next, p, es) && e.key !in Keys(es)
    requires k in p.refs && k != e.key && Adoptable(x, p.claimed, id, e) && id in x.order
    ensures p.refs[k] != id
  {
    if k in Keys(es) {
      var f :| f in es && f.key == k;
      assert Dealt(x, next, p, f);
    } else {
      assert p.refs[k] == refs[k] && refs[k] in refs.Values;
    }
  }

  lemma RefsGrow(x: Existing, refs: map<Key, Id>, p: Progress, es: seq<Entry>, e: Entry, id: Id, p': Progress)
    requires RefsOk(x, refs, p, es) && e.key !in Keys(es)
    requires p'.refs == p.refs[e.key := id] && id < p'.next && p.next <= p'.next
    requires e.key in refs && refs[e.key] in x.order ==> id == refs[e.key]
    requires forall k :: k in p.refs && k != e.key ==> p.refs[k] != id
    ensures RefsOk(x, refs, p', es + [e])
  {
    KeysGrow(es, e);
  }

  lemma OthersStayDealt(x: Existing, next: Id, p: Progress, es: seq<Entry>, e: Entry, id: Id, p': Progress)
    requires e.key !in Keys(es) && p'.refs == p.refs[e.key := id] && p.next <= p'.next && p.claimed <= p'.claimed
    requires forall q :: q in p.updates ==> q in p'.updates
    requires forall q :: q in p.inserts ==> q in p'.inserts
    requires forall f :: f in es ==> Dealt(x, next, p, f)
    ensures forall f :: f in es ==> Dealt(x, next, p', f)
  {
    forall f | f in es ensures Dealt(x, next, p', f) {
      assert Dealt(x, next, p, f) && f.key in Keys(es);
    }
  }

  lemma PlanStays(x: Existing, next: Id, p: Progress, es: seq<Entry>, e: Entry, id: Id, p': Progress)
    requires PlanOk(x, next, p, es) && e.key !in Keys(es) && p'.refs == p.refs[e.key := id] && p.next <= p'.next
    requires (p'.updates == p.updates + [Planned(id, e)] && id in x.order && p'.inserts == p.inserts)
      || (p'.inserts == p.inserts + [Planned(id, e)] && next <= id < p'.next && p'.updates == p.updates)
    ensures PlanOk(x, next, p', es + [e])
  {
    forall q | q in p.updates || q in p.inserts ensures q.entry.key != e.key { assert q.entry.key in Keys(es); }
  }

  lemma RememberedRefs(p: Progress, key: Key, local: Id)
    ensures Remembered(p, key, local).refs == p.refs[key := local]
  {}

  lemma ClaimKeeps(x: Existing, refs: map<Key, Id>, next: Id, p: Progress, es: seq<Entry>, e: Entry, id: Id)
    requires Tracks(x, refs, next, p, es) && e.key !in Keys(es)
    requires id in x.order
    requires e.key in refs && refs[e.key] in x.order ==> id == refs[e.key]
    requires forall k :: k in p.refs && k != e.key ==> p.refs[k] != id
    ensures Tracks(x, refs, next, Claimed(p, e, id), es + [e])
  {
    var p' := Claimed(p, e, id);
    assert p'.updates == p.updates + [Planned(id, e)] && p'.inserts == p.inserts && p'.next == p.next;
    assert p'.claimed == p.claimed + {id};
    RememberedRefs(p.(claimed := p.claimed + {id}, updates := p.updates + [Planned(id, e)]), e.key, id);
    assert p'.refs == p.refs[e.key := id];
    assert Planned(id, e) in p'.updates;
    RefsGrow(x, refs, p, es, e, id, p');
    OthersStayDealt(x, next, p, es, e, id, p');
    PlanStays(x, next, p, es, e, id, p');
    forall c | c in p'.claimed ensures exists q :: q in p'.updates && q.id == c {
      if c in p.claimed {
        var q :| q in p.updates && q.id == c;
        assert q in p'.updates;
      }
    }
  }

  lemma CreateKeeps(x: Existing, refs: map<Key, Id>, next: Id, p: Progress, es: seq<Entry>, e: Entry)
    requires Tracks(x, refs, next, p, es) && e.key !in Keys(es)
    requires !(e.key in refs && refs[e.key] in x.order)
    ensures Tracks(x, refs, next, Created(p, e), es + [e])
  {
    var p', id := Created(p, e), p.next;
    assert p'.inserts == p.inserts + [Planned(id, e)] && p'.updates == p.updates && p'.next == p.next + 1;
    assert p'.claimed == p.claimed;
    RememberedRefs(p.(inserts := p.inserts + [Planned(id, e)], next := id + 1, created := p.created + 1), e.key, id);
    assert p'.refs == p.refs[e.key := id];
    assert Planned(id, e) in p'.inserts;
    RefsGrow(x, refs, p, es, e, id, p');
    OthersStayDealt(x, next, p, es, e, id, p');
    PlanStays(x, next, p, es, e, id, p');
  }

  lemma CountersAreIrrelevant(x: Existing, refs: map<Key, Id>, next: Id, p: Progress, es: seq<Entry>, p': Progress)
    requires Tracks(x, refs, next, p, es)
    requires p' == p.(adopted := p'.adopted, updated := p'.updated)
    ensures Tracks(x, refs, next, p', es)
  {
    OthersStayDealtUnder(x, next, p, es, p');
  }

  lemma OthersStayDealtUnder(x: Existing, next: Id, p: Progress, es: seq<Entry>, p': Progress)
    requires p' == p.(adopted := p'.adopted, updated := p'.updated)
    requires forall f :: f in es ==> Dealt(x, next, p, f)
    ensures forall f :: f in es ==> Dealt(x, next, p', f)
  {
    forall f | f in es ensures Dealt(x, next, p', f) { assert Dealt(x, next, p, f); }
  }

  lemma AdoptKeeps(x: Existing, refs: map<Key, Id>, next: Id, p: Progress, es: seq<Entry>, e: Entry, id: Id)
    requires Tracks(x, refs, next, p, es) && e.key !in Keys(es)
    requires !(e.key in refs && refs[e.key] in x.order)
    requires id in x.order && Adoptable(x, p.claimed, id, e)
    ensures Tracks(x, refs, next, Claimed(p, e, id), es + [e])
  {
    forall k | k in p.refs && k != e.key ensures p.refs[k] != id {
      AdoptedRowIsFree(x, refs, next, p, es, e, id, k);
    }
    ClaimKeeps(x, refs, next, p, es, e, id);
  }

  lemma MergeOneKeeps(x: Existing, refs: map<Key, Id>, next: Id, p: Progress, es: seq<Entry>, e: Entry)
    requires Tracks(x, refs, next, p, es) && e.key !in Keys(es)
    ensures Tracks(x, refs, next, MergeOne(x, p, e), es + [e])
  {
    assert e.key in p.refs <==> e.key in refs;
    assert e.key in refs ==> p.refs[e.key] == refs[e.key];
    if e.key in p.refs && p.refs[e.key] in x.order {
      ClaimKeeps(x, refs, next, p, es, e, p.refs[e.key]);
      CountersAreIrrelevant(x, refs, next, Claimed(p, e, p.refs[e.key]), es + [e], MergeOne(x, p, e));
    } else {
      var found := FirstAdoptable(x, x.order, p.claimed, e);
      if found.Some? {
        AdoptKeeps(x, refs, next, p, es, e, found.value);
        CountersAreIrrelevant(x, refs, next, Claimed(p, e, found.value), es + [e], MergeOne(x, p, e));
      } else {
        CreateKeeps(x, refs, next, p, es, e);
      }
    }
  }

  ghost predicate Usable(x: Existing, refs: map<Key, Id>, next: Id) {
    && Injective(refs) && x.referenced == refs.Values
    && (forall id :: id in x.order ==> id < next)
    && (forall k :: k in refs ==> refs[k] < next)
  }

  lemma {:induction false} MergeAllTracks(x: Existing, refs: map<Key, Id>, next: Id, es: seq<Entry>)
    requires Usable(x, refs, next) && DistinctKeys(es)
    ensures Tracks(x, refs, next, MergeAll(x, Start(refs, next), es), es)
  {
    if es != [] {
      var init, e := es[..|es| - 1], es[|es| - 1];
      assert es == init + [e];
      assert e.key !in Keys(init);
      MergeAllTracks(x, refs, next, init);
      MergeOneKeeps(x, refs, next, MergeAll(x, Start(refs, next), init), init, e);
    }
  }

  // ------------------------------------------------- what the statements do

  ghost predicate OneEntryPerRow(planned: seq<Planned>) {
    forall q1, q2 :: q1 in planned && q2 in planned && q1.id == q2.id ==> q1.entry == q2.entry
  }

  predicate Touches(planned: seq<Planned>, id: Id) {
    exists i :: 0 <= i < |planned| && planned[i].id == id
  }

  lemma TouchesGrow(planned: seq<Planned>, q: Planned)
    ensures forall id :: Touches(planned + [q], id) <==> Touches(planned, id) || q.id == id
  {
    var all := planned + [q];
    assert all[|planned|] == q;
    forall id ensures Touches(all, id) <==> Touches(planned, id) || q.id == id {
      if Touches(planned, id) {
        var i :| 0 <= i < |planned| && planned[i].id == id;
        assert all[i].id == id;
      }
    }
  }

  lemma {:induction false} InsertAllEffect(rows: map<Id, Transfer>, planned: seq<Planned>)
    requires OneEntryPerRow(planned)
    ensures var r := InsertAll(rows, planned);
      && (forall q :: q in planned ==> q.id in r && r[q.id] == RowFor(q.entry))
      && (forall id :: !Touches(planned, id) ==> (id in r <==> id in rows) && (id in rows ==> r[id] == rows[id]))
  {
    if planned != [] {
      var init := planned[..|planned| - 1];
      assert planned == init + [planned[|planned| - 1]];
      InsertAllEffect(rows, init);
      TouchesGrow(init, planned[|planned| - 1]);
    }
  }

  lemma CorrectedTwice(row: Transfer, e: Entry)
    ensures Corrected(Corrected(row, e), e) == Corrected(row, e)
  {
  }

  /** What updating so far has done to the rows. */
  ghost predicate UpdatedSoFar(rows: map<Id, Transfer>, planned: seq<Planned>, r: map<Id, Transfer>) {
    && r.Keys == rows.Keys
    && (forall q :: q in planned && q.id in rows ==> r[q.id] == Corrected(rows[q.id], q.entry))
    && (forall id :: id in rows && !Touches(planned, id) ==> r[id] == rows[id])
  }

  lemma {:induction false} UpdateOneMore(rows: map<Id, Transfer>, init: seq<Planned>, last: Planned, r: map<Id,
        Transfer>)
    requires OneEntryPerRow(init + [last]) && UpdatedSoFar(rows, init, r) && last.id in r
    ensures UpdatedSoFar(rows, init + [last], r[last.id := Corrected(r[last.id], last.entry)])
  {
    TouchesGrow(init, last);
    CorrectedTwice(rows[last.id], last.entry);
    if Touches(init, last.id) {
      var i :| 0 <= i < |init| && init[i].id == last.id;
      assert init[i] in init + [last] && last in init + [last] && init[i].entry == last.entry;
      assert r[last.id] == Corrected(rows[last.id], last.entry);
    }
    forall q | q in init + [last] && q.id == last.id ensures q.entry == last.entry { assert last in init + [last]; }
  }

  lemma {:induction false} UpdateAllEffect(rows: map<Id, Transfer>, planned: seq<Planned>)
    requires OneEntryPerRow(planned)
    ensures UpdatedSoFar(rows, planned, UpdateAll(rows, planned))
  {
    if planned != [] {
      var init, last := planned[..|planned| - 1], planned[|planned| - 1];
      assert planned == init + [last];
      UpdateAllEffect(rows, init);
      if last.id in rows { UpdateOneMore(rows, init, last, UpdateAll(rows, init)); } else { TouchesGrow(init, last); }
    }
  }

  lemma PlansAreConsistent(x: Existing, refs: map<Key, Id>, next: Id, p: Progress, es: seq<Entry>)
    requires Tracks(x, refs, next, p, es) && DistinctKeys(es)
    ensures OneEntryPerRow(p.inserts) && OneEntryPerRow(p.updates)
  {
    assert forall e1, e2 :: e1 in es && e2 in es && e1.key == e2.key ==> e1 == e2;
    forall q1, q2 | q1 in p.updates && q2 in p.updates && q1.id == q2.id ensures q1.entry.key == q2.entry.key {}
    forall q1, q2 | q1 in p.inserts && q2 in p.inserts && q1.id == q2.id ensures q1.entry.key == q2.entry.key {}
  }

  /** The rows as the source has them: what the first run leaves and the next finds. */
  ghost predicate InPlace(s: Setting, rows: map<Id, Transfer>, refs: map<Key, Id>, e: Entry) {
    && e.key in refs && refs[e.key] in rows
    && Corrected(rows[refs[e.key]], e) == rows[refs[e.key]]
    && rows[refs[e.key]].player in s.players.Values
  }

  /** What a run starts from: the rows of the imported players in some order, all of
      players that existed before; ids and references below the next id; and no two
      references to one row. */
  ghost predicate Ready(s: Setting, rows: map<Id, Transfer>, refs: map<Key, Id>, order: seq<Id>, next: Id) {
    && Injective(refs)
    && (forall id :: id in order <==> id in rows && rows[id].player in s.players.Values)
    && (forall id :: id in rows ==> id < next)
    && (forall k :: k in refs ==> refs[k] < next)
  }

  // ------------------------------------------------- each source move's row

  /** The rows after both statements: corrected if planned for update, new if planned for
      insertion. */
  lemma {:induction false} StatementsWrite(x: Existing, refs: map<Key, Id>, next: Id, p: Progress, es: seq<Entry>,
        e: Entry)
    requires Tracks(x, refs, next, p, es) && DistinctKeys(es) && e in es
    requires forall id :: id in x.order ==> id in x.rows
    requires forall id :: id in x.rows ==> id < next
    ensures var after, id := UpdateAll(InsertAll(x.rows, p.inserts), p.updates), p.refs[e.key];
      && e.key in p.refs && id in after
      && if id in x.order then id in p.claimed && after[id] == Corrected(x.rows[id], e)
        else id !in x.rows && after[id] == RowFor(e)
  {
    PlansAreConsistent(x, refs, next, p, es);
    InsertAllEffect(x.rows, p.inserts);
    UpdateAllEffect(InsertAll(x.rows, p.inserts), p.updates);
    assert Dealt(x, next, p, e);
    var id := p.refs[e.key];
    if id in x.order { assert !Touches(p.inserts, id); } else { assert !Touches(p.updates, id); }
  }

  /** The row of an entry: corrected if it was read, new otherwise. */
  lemma {:induction false} RowOfEntry(s: Setting, rows: map<Id, Transfer>, refs: map<Key, Id>, order: seq<Id>,
        next: Id, e: Entry)
    requires Ready(s, rows, refs, order, next) && e in Worklist(s, s.histories)
    ensures var o := Import(s, rows, refs, order, next);
      && e.key in o.refs && o.refs[e.key] in o.rows
      && var id := o.refs[e.key];
        if id in order then o.rows[id] == Corrected(rows[id], e) else id !in rows && o.rows[id] == RowFor(e)
  {
    var x, es := Existing(rows, order, refs.Values), Worklist(s, s.histories);
    WorklistDistinct(s, s.histories);
    MergeAllTracks(x, refs, next, es);
    StatementsWrite(x, refs, next, MergeAll(x, Start(refs, next), es), es, e);
  }

  /** A row that a run has written needs no correction from the same entry. */
  lemma {:induction false} EveryMoveIsInPlace(s: Setting, rows: map<Id, Transfer>, refs: map<Key, Id>, order: seq<Id>,
        next: Id, e: Entry)
    requires Ready(s, rows, refs, order, next) && e in Worklist(s, s.histories)
    ensures var o := Import(s, rows, refs, order, next); InPlace(s, o.rows, o.refs, e)
  {
    RowOfEntry(s, rows, refs, order, next, e);
    WorklistDistinct(s, s.histories);
    var es := Worklist(s, s.histories);
    var i :| 0 <= i < |es| && es[i] == e;
    assert e.player in s.players.Values;
  }

  /** The reference a move came with leads to a row that is still there. */
  predicate Referenced(refs: map<Key, Id>, order: seq<Id>, key: Key) {
    key in refs && refs[key] in order
  }

  /** A row entered by hand that is the same move: the same player and clubs, at most a week
      apart, and nothing refers to it. */
  predicate EnteredByHand(rows: map<Id, Transfer>, refs: map<Key, Id>, id: Id, player: string, from: Option<string>,
        to: Option<string>, date: int)
  {
    && id in rows && id !in refs.Values
    && rows[id].player == player && rows[id].from == from && rows[id].to == to
    && date - 7 <= rows[id].date <= date + 7
  }

  /** Where a move without a reference went: to such a row, or to a new one when every such
      row was claimed by then. */
  ghost predicate Placed(rows: map<Id, Transfer>, refs: map<Key, Id>, order: seq<Id>, p: Progress, e: Entry) {
    e.key in p.refs && (!Referenced(refs, order, e.key) ==>
      var id := p.refs[e.key];
      if id in order then EnteredByHand(rows, refs, id, e.player, e.from, e.to, e.key.date)
      else forall c ::
        c in order && EnteredByHand(rows, refs, c, e.player, e.from, e.to, e.key.date) ==> c in p.claimed)
  }

  lemma {:induction false} OneIsPlaced(x: Existing, refs: map<Key, Id>, next: Id, p: Progress, es: seq<Entry>, e: Entry)
    requires Tracks(x, refs, next, p, es) && e.key !in Keys(es) && x.referenced == refs.Values
    ensures Placed(x.rows, refs, x.order, MergeOne(x, p, e), e)
  {
    assert e.key in refs ==> e.key in p.refs && (refs[e.key] in x.order ==> p.refs[e.key] == refs[e.key]);
    assert e.key in p.refs ==> e.key in refs && p.refs[e.key] == refs[e.key];
    if !Referenced(refs, x.order, e.key) {
      forall c | c in x.order && EnteredByHand(x.rows, refs, c, e.player, e.from, e.to, e.key.date) && c !in p.claimed
        ensures Adoptable(x, p.claimed, c, e) {}
    }
  }

  lemma {:induction false} OthersStayPlaced(x: Existing, refs: map<Key, Id>, p: Progress, e: Entry, f: Entry)
    requires Placed(x.rows, refs, x.order, p, f) && f.key != e.key
    ensures Placed(x.rows, refs, x.order, MergeOne(x, p, e), f)
  {
    assert p.claimed <= MergeOne(x, p, e).claimed;
  }

  lemma {:induction false} AllArePlaced(x: Existing, refs: map<Key, Id>, next: Id, es: seq<Entry>)
    requires Usable(x, refs, next) && DistinctKeys(es)
    ensures forall e :: e in es ==> Placed(x.rows, refs, x.order, MergeAll(x, Start(refs, next), es), e)
  {
    if es != [] {
      var init, last := es[..|es| - 1], es[|es| - 1];
      assert es == init + [last];
      assert last.key !in Keys(init);
      var p := MergeAll(x, Start(refs, next), init);
      AllArePlaced(x, refs, next, init);
      MergeAllTracks(x, refs, next, init);
      OneIsPlaced(x, refs, next, p, init, last);
      forall e | e in init ensures Placed(x.rows, refs, x.order, MergeOne(x, p, last), e) {
        assert e.key in Keys(init);
        OthersStayPlaced(x, refs, p, last, e);
      }
    }
  }

  lemma {:induction false} EntriesGrow(s: Setting, before: seq<Entry>, player: string, moves: seq<Move>, n: nat)
    requires player in s.players && n <= |moves|
    ensures EntriesOf(s, before, player, moves[..n]) <= EntriesOf(s, before, player, moves)
    decreases |moves|
  {
    if n == |moves| {
      assert moves[..n] == moves;
    } else {
      EntriesGrow(s, before, player, moves[..|moves| - 1], n);
      assert moves[..|moves| - 1][..n] == moves[..n];
    }
  }

  function KeyOf(player: string, m: Move): Key {
    Key(player, m.raw.date, m.raw.fromId, m.raw.toId)
  }

  /** The entry of a move that has a club in the dataset. */
  ghost predicate EntryOf(s: Setting, player: string, m: Move, e: Entry)
    requires player in s.players
  {
    e == EntryFor(s, player, m) && (m.raw.fromId in s.clubs || m.raw.toId in s.clubs)
  }

  lemma {:induction false} EntriesComeFrom(s: Setting, before: seq<Entry>, player: string, moves: seq<Move>)
    requires player in s.players
    ensures forall e :: e in EntriesOf(s, before, player, moves) ==>
      e in before || exists i :: 0 <= i < |moves| && EntryOf(s, player, moves[i], e)
  {
    if moves != [] {
      var init := moves[..|moves| - 1];
      EntriesComeFrom(s, before, player, init);
      forall e | e in EntriesOf(s, before, player, moves) && e !in before
        ensures exists i :: 0 <= i < |moves| && EntryOf(s, player, moves[i], e)
      {
        if e in EntriesOf(s, before, player, init) {
          var i :| 0 <= i < |init| && EntryOf(s, player, init[i], e);
          assert moves[i] == init[i];
        } else {
          assert EntryOf(s, player, moves[|moves| - 1], e);
        }
      }
    }
  }

  ghost predicate FromHistory(s: Setting, h: History, e: Entry) {
    && h.player in s.players
    && var moves := Classified(s.names, h.moves);
      exists i :: 0 <= i < |moves| && EntryOf(s, h.player, moves[i], e)
  }

  lemma {:induction false} WorklistComesFrom(s: Setting, histories: seq<History>)
    ensures forall e :: e in Worklist(s, histories) ==>
      exists h :: 0 <= h < |histories| && FromHistory(s, histories[h], e)
  {
    if histories != [] {
      var init, last := histories[..|histories| - 1], histories[|histories| - 1];
      WorklistComesFrom(s, init);
      if last.player in s.players {
        EntriesComeFrom(s, Worklist(s, init), last.player, Classified(s.names, last.moves));
      }
      forall e | e in Worklist(s, histories)
        ensures exists h :: 0 <= h < |histories| && FromHistory(s, histories[h], e)
      {
        if e in Worklist(s, init) {
          var h :| 0 <= h < |init| && FromHistory(s, init[h], e);
          assert histories[h] == init[h];
        } else {
          assert FromHistory(s, last, e);
        }
      }
    }
  }

  lemma {:induction false} WorklistGrows(s: Setting, histories: seq<History>, n: nat)
    requires n <= |histories|
    ensures Worklist(s, histories[..n]) <= Worklist(s, histories)
    decreases |histories|
  {
    if n == |histories| {
      assert histories[..n] == histories;
    } else {
      var init, last := histories[..|histories| - 1], histories[|histories| - 1];
      WorklistGrows(s, init, n);
      assert init[..n] == histories[..n];
      if last.player in s.players {
        var moves := Classified(s.names, last.moves);
        EntriesGrow(s, Worklist(s, init), last.player, moves, 0);
        assert moves[..0] == [];
      }
    }
  }

  /** Move k of history h: its player is known, the source lists that player once, one of its
      clubs is known, and no earlier move of the history has the same date and ends. */
  ghost predicate Counts(s: Setting, h: nat, k: nat) {
    && h < |s.histories| && s.histories[h].player in s.players
    && (forall g :: 0 <= g < h ==> s.histories[g].player != s.histories[h].player)
    && var moves := Classified(s.names, s.histories[h].moves);
      && k < |moves|
      && (moves[k].raw.fromId in s.clubs || moves[k].raw.toId in s.clubs)
      && forall j :: 0 <= j < k ==>
        !(moves[j].raw.date == moves[k].raw.date && moves[j].raw.fromId == moves[k].raw.fromId
          && moves[j].raw.toId == moves[k].raw.toId)
  }

  ghost function MoveAt(s: Setting, h: nat, k: nat): Move
    requires Counts(s, h, k)
  {
    Classified(s.names, s.histories[h].moves)[k]
  }

  lemma {:induction false} MoveIsListed(s: Setting, h: nat, k: nat)
    requires Counts(s, h, k)
    ensures EntryFor(s, s.histories[h].player, MoveAt(s, h, k)) in Worklist(s, s.histories)
  {
    var player, moves := s.histories[h].player, Classified(s.names, s.histories[h].moves);
    var before := Worklist(s, s.histories[..h]);
    var e := EntryFor(s, player, moves[k]);
    WorklistComesFrom(s, s.histories[..h]);
    EntriesComeFrom(s, before, player, moves[..k]);
    EntriesOneMore(s, before, player, moves, k);
    var sofar := EntriesOf(s, before, player, moves[..k]);
    assert forall j :: 0 <= j < k ==> moves[..k][j] == moves[j] && KeyOf(player, moves[..k][j]) != e.key;
    forall f | f in before ensures f.key.player != player {
      var g :| 0 <= g < h && FromHistory(s, s.histories[..h][g], f);
      assert s.histories[..h][g] == s.histories[g];
    }
    assert forall f :: f in sofar ==> f.key != e.key;
    EntriesGrow(s, before, player, moves, k + 1);
    assert e in EntriesOf(s, before, player, moves[..k + 1]);
    assert s.histories[..h + 1][..h] == s.histories[..h];
    WorklistGrows(s, s.histories, h + 1);
  }

  function ClubOf(clubs: map<string, string>, id: string): Option<string> {
    if id in clubs then Some(clubs[id]) else None
  }

  /** The content of a source move in the table: its date, clubs, kind and fee; its season, or
      the one the row had if the date has none. */
  ghost predicate Holds(s: Setting, rows: map<Id, Transfer>, m: Move, id: Id, row: Transfer) {
    && row.date == m.raw.date && row.kind == m.kind && row.fee == m.feeMinor
    && row.from == (if m.raw.fromId in s.clubs then Some(s.clubs[m.raw.fromId]) else None)
    && row.to == (if m.raw.toId in s.clubs then Some(s.clubs[m.raw.toId]) else None)
    && row.season == (if s.seasonOn(m.raw.date).Some? then s.seasonOn(m.raw.date)
        else if id in rows then rows[id].season else None)
  }

  /** A run stores every source move: the reference of its player, date and ends leads to a row
      with what the source says. The row is the player's, unless the reference was there before
      and led to somebody else's, whose it stays. */
  lemma {:induction false} EveryMoveIsStored(s: Setting, rows: map<Id, Transfer>, refs: map<Key, Id>, order: seq<Id>,
        next: Id, h: nat, k: nat)
    requires Ready(s, rows, refs, order, next) && Counts(s, h, k)
    ensures var o, m, player := Import(s, rows, refs, order, next), MoveAt(s, h, k), s.histories[h].player;
      var key := Key(player, m.raw.date, m.raw.fromId, m.raw.toId);
      && key in o.refs && o.refs[key] in o.rows
      && var id := o.refs[key];
        && Holds(s, rows, m, id, o.rows[id])
        && (o.rows[id].player == s.players[player] <==>
              !(key in refs && refs[key] in order && rows[refs[key]].player != s.players[player]))
  {
    var e := EntryFor(s, s.histories[h].player, MoveAt(s, h, k));
    MoveIsListed(s, h, k);
    RowOfEntry(s, rows, refs, order, next, e);
    var x, es := Existing(rows, order, refs.Values), Worklist(s, s.histories);
    WorklistDistinct(s, s.histories);
    AllArePlaced(x, refs, next, es);
    MergeAllTracks(x, refs, next, es);
    assert Placed(rows, refs, order, MergeAll(x, Start(refs, next), es), e);
  }

  /** The row holds the move, as the player's, and the move's reference leads to it. */
  ghost predicate StoredAs(s: Setting, rows: map<Id, Transfer>, o: Outcome, player: string, m: Move, id: Id)
    requires player in s.players
  {
    && (m.raw.fromId in s.clubs || m.raw.toId in s.clubs)
    && KeyOf(player, m) in o.refs && o.refs[KeyOf(player, m)] == id
    && id in o.rows && Holds(s, rows, m, id, o.rows[id]) && o.rows[id].player == s.players[player]
  }

  lemma {:induction false} NewRowsAreEntries(s: Setting, rows: map<Id, Transfer>, refs: map<Key, Id>, order: seq<Id>,
        next: Id, id: Id)
    returns (e: Entry)
    requires Ready(s, rows, refs, order, next)
    requires id in Import(s, rows, refs, order, next).rows && id !in rows
    ensures var o := Import(s, rows, refs, order, next);
      e in Worklist(s, s.histories) && e.key in o.refs && o.refs[e.key] == id
  {
    var x, es := Existing(rows, order, refs.Values), Worklist(s, s.histories);
    WorklistDistinct(s, s.histories);
    MergeAllTracks(x, refs, next, es);
    var p := MergeAll(x, Start(refs, next), es);
    InsertedKeys(rows, p.inserts);
    UpdatedKeys(InsertAll(rows, p.inserts), p.updates);
    IdIsPlanned(p.inserts, id);
    var q :| q in p.inserts && q.id == id;
    e := q.entry;
  }

  lemma {:induction false} EntryIsStored(s: Setting, rows: map<Id, Transfer>, refs: map<Key, Id>, order: seq<Id>,
        next: Id, player: string, m: Move, e: Entry)
    requires Ready(s, rows, refs, order, next) && e in Worklist(s, s.histories)
    requires player in s.players && EntryOf(s, player, m, e)
    ensures var o := Import(s, rows, refs, order, next);
      e.key in o.refs && (o.refs[e.key] !in rows ==> StoredAs(s, rows, o, player, m, o.refs[e.key]))
  {
    RowOfEntry(s, rows, refs, order, next, e);
  }

  /** And nothing else is stored: a row that was not there before is a source move of a known
      player with a club in the dataset. */
  lemma {:induction false} NewRowsAreMoves(s: Setting, rows: map<Id, Transfer>, refs: map<Key, Id>, order: seq<Id>,
        next: Id, id: Id)
    requires Ready(s, rows, refs, order, next)
    requires id in Import(s, rows, refs, order, next).rows && id !in rows
    ensures var o := Import(s, rows, refs, order, next);
      exists h, k ::
        && 0 <= h < |s.histories| && s.histories[h].player in s.players
        && 0 <= k < |Classified(s.names, s.histories[h].moves)|
        && StoredAs(s, rows, o, s.histories[h].player, Classified(s.names, s.histories[h].moves)[k], id)
  {
    var e := NewRowsAreEntries(s, rows, refs, order, next, id);
    WorklistComesFrom(s, s.histories);
    var h :| 0 <= h < |s.histories| && FromHistory(s, s.histories[h], e);
    var moves := Classified(s.names, s.histories[h].moves);
    var k :| 0 <= k < |moves| && EntryOf(s, s.histories[h].player, moves[k], e);
    EntryIsStored(s, rows, refs, order, next, s.histories[h].player, moves[k], e);
  }

  lemma {:induction false} IdIsPlanned(planned: seq<Planned>, id: Id)
    requires id in Ids(planned)
    ensures exists q :: q in planned && q.id == id
  {
    var last := planned[|planned| - 1];
    if id == last.id { assert last in planned; } else { IdIsPlanned(planned[..|planned| - 1], id); }
  }

  /** Such a reference, concretely: the move of player "1" was imported as row 0, which is the
      row of player "2" here; it is corrected and stays with "2". */
  lemma {:induction false} AnotherPlayersRow(n: Names, raw: RawTransfer, row: Transfer)
    requires raw.fromId == "A" && row.player == "b"
    ensures var players := map["1" := "a", "2" := "b"];
      var s := Setting(n, [History("1", [raw])], players, map["A" := "x"], _ => None, {}, map[]);
      var o := Import(s, map[0 := row], map[Key("1", raw.date, raw.fromId, raw.toId) := 0], [0], 1);
      0 in o.rows && o.rows[0].player == "b" && o.rows[0].from == Some("x") && o.rows[0].date == raw.date
  {
    var players := map["1" := "a", "2" := "b"];
    var s := Setting(n, [History("1", [raw])], players, map["A" := "x"], _ => None, {}, map[]);
    var refs := map[Key("1", raw.date, raw.fromId, raw.toId) := 0];
    assert [raw][..0] == [] && Sorted([raw]) == [raw];
    assert Counts(s, 0, 0) && MoveAt(s, 0, 0).raw == raw;
    assert players["2"] == "b" && "b" in players.Values;
    EveryMoveIsStored(s, map[0 := row], refs, [0], 1, 0, 0);
    var o := Import(s, map[0 := row], refs, [0], 1);
    RowOfEntry(s, map[0 := row], refs, [0], 1, EntryFor(s, "1", MoveAt(s, 0, 0))) by { MoveIsListed(s, 0, 0); }
    OldReferenceKept(s, map[0 := row], refs, [0], 1, Key("1", raw.date, raw.fromId, raw.toId));
  }

  /** A reference to a row that was read is kept. */
  lemma {:induction false} OldReferenceKept(s: Setting, rows: map<Id, Transfer>, refs: map<Key, Id>, order: seq<Id>,
        next: Id, key: Key)
    requires Ready(s, rows, refs, order, next) && Referenced(refs, order, key)
    ensures var o := Import(s, rows, refs, order, next); key in o.refs && o.refs[key] == refs[key]
  {
    WorklistDistinct(s, s.histories);
    MergeAllTracks(Existing(rows, order, refs.Values), refs, next, Worklist(s, s.histories));
  }

  /** A move without a reference goes to a row entered by hand if one is the same move, and
      makes a new one only when every such row belongs to another move by then. */
  lemma {:induction false} NoNeedlessRow(s: Setting, rows: map<Id, Transfer>, refs: map<Key, Id>, order: seq<Id>,
        next: Id, h: nat, k: nat)
    requires Ready(s, rows, refs, order, next) && Counts(s, h, k)
    ensures var o, m, player := Import(s, rows, refs, order, next), MoveAt(s, h, k), s.histories[h].player;
      var key := Key(player, m.raw.date, m.raw.fromId, m.raw.toId);
      var from, to := ClubOf(s.clubs, m.raw.fromId), ClubOf(s.clubs, m.raw.toId);
      && key in o.refs
      && (!(key in refs && refs[key] in order) ==>
            if o.refs[key] in order
            then EnteredByHand(rows, refs, o.refs[key], s.players[player], from, to, m.raw.date)
            else forall c :: c in order && EnteredByHand(rows, refs, c, s.players[player], from, to, m.raw.date) ==>
              exists key2 :: key2 != key && key2 in o.refs && o.refs[key2] == c)
  {
    var e := EntryFor(s, s.histories[h].player, MoveAt(s, h, k));
    MoveIsListed(s, h, k);
    var x, es := Existing(rows, order, refs.Values), Worklist(s, s.histories);
    WorklistDistinct(s, s.histories);
    AllArePlaced(x, refs, next, es);
    MergeAllTracks(x, refs, next, es);
    var p := MergeAll(x, Start(refs, next), es);
    assert Placed(rows, refs, order, p, e);
    forall c | c in p.claimed && c != p.refs[e.key]
      ensures exists key2 :: key2 != e.key && key2 in p.refs && p.refs[key2] == c
    {
      var q :| q in p.updates && q.id == c;
      assert p.refs[q.entry.key] == c;
    }
  }

  // ----------------------------------------------------------- main results

  /** No two source moves ever share a local row. */
  lemma NoTwoMovesShareARow(s: Setting, rows: map<Id, Transfer>, refs: map<Key, Id>, order: seq<Id>, next: Id)
    requires Ready(s, rows, refs, order, next)
    ensures var o := Import(s, rows, refs, order, next);
      Injective(o.refs) && (forall e :: e in Worklist(s, s.histories) ==> e.key in o.refs)
  {
    WorklistDistinct(s, s.histories);
    var es := Worklist(s, s.histories);
    var x := Existing(rows, order, refs.Values);
    MergeAllTracks(x, refs, next, es);
    var p := MergeAll(x, Start(refs, next), es);
    forall e | e in es ensures e.key in p.refs { assert Dealt(x, next, p, e); }
  }

  /** New rows get the ids to come, one after the other, and every move is counted once. */
  lemma {:induction false} Counted(x: Existing, refs: map<Key, Id>, next: Id, es: seq<Entry>)
    ensures var p := MergeAll(x, Start(refs, next), es);
      && p.next == next + p.created && |p.inserts| == p.created
      && (forall i :: 0 <= i < |p.inserts| ==> p.inserts[i].id == next + i)
      && p.created + p.adopted + p.updated == |es|
  {
    if es != [] { Counted(x, refs, next, es[..|es| - 1]); }
  }

  function Ids(planned: seq<Planned>): set<Id> {
    if planned == [] then {} else Ids(planned[..|planned| - 1]) + {planned[|planned| - 1].id}
  }

  lemma {:induction false} IdsInARow(planned: seq<Planned>, next: Id)
    requires forall i :: 0 <= i < |planned| ==> planned[i].id == next + i
    ensures |Ids(planned)| == |planned| && forall id :: id in Ids(planned) ==> next <= id < next + |planned|
  {
    if planned != [] { IdsInARow(planned[..|planned| - 1], next); }
  }

  lemma {:induction false} InsertedKeys(rows: map<Id, Transfer>, planned: seq<Planned>)
    ensures InsertAll(rows, planned).Keys == rows.Keys + Ids(planned)
  {
    if planned != [] { InsertedKeys(rows, planned[..|planned| - 1]); }
  }

  lemma {:induction false} UpdatedKeys(rows: map<Id, Transfer>, planned: seq<Planned>)
    ensures UpdateAll(rows, planned).Keys == rows.Keys
  {
    if planned != [] { UpdatedKeys(rows, planned[..|planned| - 1]); }
  }

  /** The report: each source move is created, adopted or updated, and the rows that came and
      went are as many as it says. */
  lemma {:induction false} ReportIsRight(s: Setting, rows: map<Id, Transfer>, refs: map<Key, Id>, order: seq<Id>,
        next: Id)
    requires forall id :: id in rows ==> id < next
    ensures var o := Import(s, rows, refs, order, next);
      && o.created + o.adopted + o.updated == |Worklist(s, s.histories)|
      && o.created == |o.rows.Keys - rows.Keys| && o.removed == |rows.Keys - o.rows.Keys|
  {
    var x, es := Existing(rows, order, refs.Values), Worklist(s, s.histories);
    var p := MergeAll(x, Start(refs, next), es);
    Counted(x, refs, next, es);
    IdsInARow(p.inserts, next);
    InsertedKeys(rows, p.inserts);
    UpdatedKeys(InsertAll(rows, p.inserts), p.updates);
    var openings := Openings(s, x, p.claimed);
    assert rows.Keys + Ids(p.inserts) - openings - rows.Keys == Ids(p.inserts);
    assert rows.Keys - (rows.Keys + Ids(p.inserts) - openings) == openings;
  }

  /** A row the import has no reference to is left exactly as it was, unless it is an
      unreferenced placeholder arrival of a matched player, which goes. */
  lemma {:induction false} OtherRowsAreUntouched(s: Setting, rows: map<Id, Transfer>, refs: map<Key, Id>,
        order: seq<Id>, next: Id, id: Id)
    requires Ready(s, rows, refs, order, next) && id in rows
    ensures var o := Import(s, rows, refs, order, next);
      id !in o.refs.Values ==>
        if id in order && rows[id].player in s.matched && id !in refs.Values
          && rows[id].from == None && rows[id].to != None && rows[id].kind == Permanent && rows[id].fee == None
          && rows[id].player in s.dates
          && (rows[id].date == s.dates[rows[id].player].created
              || s.dates[rows[id].player].contractStart == Some(rows[id].date))
        then id !in o.rows
        else id in o.rows && o.rows[id] == rows[id]
  {
    WorklistDistinct(s, s.histories);
    var es := Worklist(s, s.histories);
    var x := Existing(rows, order, refs.Values);
    MergeAllTracks(x, refs, next, es);
    var p := MergeAll(x, Start(refs, next), es);
    PlansAreConsistent(x, refs, next, p, es);
    InsertAllEffect(rows, p.inserts);
    UpdateAllEffect(InsertAll(rows, p.inserts), p.updates);
    if id !in p.refs.Values { PlansOnlyReferenced(x, refs, next, p, es, id); }
  }

  /** What the merge plans or claims, it has a reference to. */
  lemma {:induction false} PlansOnlyReferenced(x: Existing, refs: map<Key, Id>, next: Id, p: Progress, es: seq<Entry>,
        id: Id)
    requires Tracks(x, refs, next, p, es) && id !in p.refs.Values
    ensures !Touches(p.inserts, id) && !Touches(p.updates, id) && id !in p.claimed
  {
    assert forall q :: q in p.inserts || q in p.updates ==> q.id in p.refs.Values;
  }

  /** A run that finds every move in place plans the same content again and nothing else. */
  lemma {:induction false} Replay(s: Setting, x: Existing, refs: map<Key, Id>, next: Id, es: seq<Entry>)
    requires forall e :: e in es ==> InPlace(s, x.rows, refs, e) && refs[e.key] in x.order
    ensures var p := MergeAll(x, Start(refs, next), es);
      && p.refs == refs && p.newRefs == [] && p.inserts == []
      && p.created == 0 && p.adopted == 0 && p.updated == |es|
      && UpdateAll(x.rows, p.updates) == x.rows
  {
    if es != [] {
      var init, e := es[..|es| - 1], es[|es| - 1];
      assert es == init + [e];
      Replay(s, x, refs, next, init);
      var q, p := MergeAll(x, Start(refs, next), init), MergeAll(x, Start(refs, next), es);
      assert InPlace(s, x.rows, refs, e);
      assert p.updates[..|p.updates| - 1] == q.updates;
    }
  }

  /** Running the step again on the same dataset, with the same players and clubs, no
      edits in between, and the rows returned in whatever order, changes nothing: it
      creates, adopts and removes nothing and leaves the same rows and references. */
  lemma SecondRunChangesNothing(s: Setting, rows: map<Id, Transfer>, refs: map<Key, Id>, order: seq<Id>, next: Id,
                                matched: set<string>, order2: seq<Id>, next2: Id)
    requires Ready(s, rows, refs, order, next)
    requires forall id :: id in order ==> rows[id].player in s.matched
    requires var o := Import(s, rows, refs, order, next);
      forall id :: id in order2 <==> id in o.rows && o.rows[id].player in s.players.Values
    ensures var o := Import(s, rows, refs, order, next);
      var again := Import(s.(matched := matched), o.rows, o.refs, order2, next2);
      && again.rows == o.rows && again.refs == o.refs && again.newRefs == []
      && again.created == 0 && again.adopted == 0 && again.removed == 0
      && again.updated == |Worklist(s, s.histories)|
  {
    var o, s2 := Import(s, rows, refs, order, next), s.(matched := matched);
    var es := Worklist(s, s.histories);
    SameWorklist(s, s2, s.histories);
    forall e | e in es ensures InPlace(s2, o.rows, o.refs, e) && o.refs[e.key] in order2 {
      EveryMoveIsInPlace(s, rows, refs, order, next, e);
    }
    var x := Existing(o.rows, order2, o.refs.Values);
    Replay(s2, x, o.refs, next2, es);
    var p := MergeAll(x, Start(o.refs, next2), es);
    forall id | id in Openings(s2, x, p.claimed) ensures false {
      NoOpeningIsLeft(s, rows, refs, order, next, id);
    }
  }

  lemma {:induction false} SameEntries(s: Setting, s2: Setting, before: seq<Entry>, player: string, moves: seq<Move>)
    requires s2 == s.(matched := s2.matched) && player in s.players
    ensures EntriesOf(s, before, player, moves) == EntriesOf(s2, before, player, moves)
  {
    if moves != [] {
      SameEntries(s, s2, before, player, moves[..|moves| - 1]);
    }
  }

  lemma {:induction false} SameWorklist(s: Setting, s2: Setting, histories: seq<History>)
    requires s2 == s.(matched := s2.matched)
    ensures Worklist(s, histories) == Worklist(s2, histories)
  {
    if histories != [] {
      SameWorklist(s, s2, histories[..|histories| - 1]);
      var h := histories[|histories| - 1];
      if h.player in s.players {
        SameEntries(s, s2, Worklist(s, histories[..|histories| - 1]), h.player, Classified(s.names, h.moves));
      }
    }
  }

  /** After one run no imported player has an unreferenced placeholder left. */
  lemma NoOpeningIsLeft(s: Setting, rows: map<Id, Transfer>, refs: map<Key, Id>, order: seq<Id>, next: Id, id: Id)
    requires Ready(s, rows, refs, order, next)
    requires forall id :: id in order ==> rows[id].player in s.matched
    ensures var o := Import(s, rows, refs, order, next);
      id in o.rows && o.rows[id].player in s.players.Values && id !in o.refs.Values ==> !Placeholder(s, o.rows[id])
  {
    var o := Import(s, rows, refs, order, next);
    if id in o.rows && id !in o.refs.Values {
      NewRowsAreReferenced(s, rows, refs, order, next, id);
      OtherRowsAreUntouched(s, rows, refs, order, next, id);
      OldReferencesStay(s, rows, refs, order, next, id);
    }
  }

  lemma NewRowsAreReferenced(s: Setting, rows: map<Id, Transfer>, refs: map<Key, Id>, order: seq<Id>, next: Id, id: Id)
    requires Ready(s, rows, refs, order, next)
    ensures var o := Import(s, rows, refs, order, next); id in o.rows && id !in rows ==> id in o.refs.Values
  {
    WorklistDistinct(s, s.histories);
    var es := Worklist(s, s.histories);
    var x := Existing(rows, order, refs.Values);
    MergeAllTracks(x, refs, next, es);
    var p := MergeAll(x, Start(refs, next), es);
    PlansAreConsistent(x, refs, next, p, es);
    InsertAllEffect(rows, p.inserts);
    UpdateAllEffect(InsertAll(rows, p.inserts), p.updates);
    if Touches(p.inserts, id) {
      var i :| 0 <= i < |p.inserts| && p.inserts[i].id == id;
      assert p.inserts[i] in p.inserts;
    }
  }

  lemma OldReferencesStay(s: Setting, rows: map<Id, Transfer>, refs: map<Key, Id>, order: seq<Id>, next: Id, id: Id)
    requires Ready(s, rows, refs, order, next)
    ensures id in order && id in refs.Values ==> id in Import(s, rows, refs, order, next).refs.Values
  {
    WorklistDistinct(s, s.histories);
    var es := Worklist(s, s.histories);
    var x := Existing(rows, order, refs.Values);
    MergeAllTracks(x, refs, next, es);
    if id in order && id in refs.Values {
      var k :| k in refs && refs[k] == id;
      assert MergeAll(x, Start(refs, next), es).refs[k] == id;
    }
  }

  // ------------------------------------------------------ saving references

  /** The upsert of the collected references into external_refs. */
  function Saved(refs: map<Key, Id>, newRefs: seq<(Key, Id)>): map<Key, Id> {
    if newRefs == [] then refs
    else Saved(refs, newRefs[..|newRefs| - 1])[newRefs[|newRefs| - 1].0 := newRefs[|newRefs| - 1].1]
  }

  ghost predicate SavesAll(refs: map<Key, Id>, p: Progress, es: seq<Entry>) {
    && Saved(refs, p.newRefs) == p.refs
    && (forall i :: 0 <= i < |p.newRefs| ==> p.newRefs[i].0 in Keys(es))
    && (forall i, j :: 0 <= i < j < |p.newRefs| ==> p.newRefs[i].0 != p.newRefs[j].0)
  }

  lemma RememberedSaves(refs: map<Key, Id>, p: Progress, es: seq<Entry>, e: Entry, local: Id, p': Progress)
    requires SavesAll(refs, p, es) && e.key !in Keys(es)
    requires p'.refs == Remembered(p, e.key, local).refs && p'.newRefs == Remembered(p, e.key, local).newRefs
    ensures SavesAll(refs, p', es + [e])
  {
    KeysGrow(es, e);
    if p'.newRefs != p.newRefs {
      assert p'.newRefs[..|p'.newRefs| - 1] == p.newRefs;
    }
  }

  /** Saving only what changed leaves the table equal to the references held in memory,
      and never writes one key twice, which a single upsert could not do. */
  lemma {:induction false} SavedIsEverything(x: Existing, refs: map<Key, Id>, next: Id, es: seq<Entry>)
    requires DistinctKeys(es)
    ensures SavesAll(refs, MergeAll(x, Start(refs, next), es), es)
  {
    if es != [] {
      var init, e := es[..|es| - 1], es[|es| - 1];
      assert es == init + [e];
      assert e.key !in Keys(init);
      SavedIsEverything(x, refs, next, init);
      var q, p := MergeAll(x, Start(refs, next), init), MergeAll(x, Start(refs, next), es);
      RememberedSaves(refs, q, init, e, p.refs[e.key], p);
    }
  }
}
