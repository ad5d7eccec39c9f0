/** A player's current market value, kept in step with the dated valuations. */
module MarketValues {
  import opened Common

  datatype Money = Money(amount: nat, currency: string)

  /** One row per player and day; the id is what a deletion names. */
  datatype Valuation = Valuation(id: nat, money: Money)

  datatype Day = Day(player: string, date: int)

  datatype Error = NoSuchPlayer | NoSuchValuation

  datatype Store = Store(current: map<string, Money>, valuations: map<Day, Valuation>)

  /** The player's latest-dated valuation. */
  ghost predicate IsLatest(v: map<Day, Valuation>, d: Day) {
    d in v && forall e :: e in v && e.player == d.player ==> e.date <= d.date
  }

  ghost predicate HasNone(v: map<Day, Valuation>, player: string) {
    forall d :: d in v ==> d.player != player
  }

  /** What the current value must be: the latest valuation's, or nothing when none
      remain. The currency is then whatever it was. */
  ghost predicate InStep(s: Store, player: string) {
    && player in s.current
    && (HasNone(s.valuations, player) ==> s.current[player].amount == 0)
    && (forall d :: IsLatest(s.valuations, d) && d.player == player ==> s.current[player] == s.valuations[d].money)
  }

  ghost predicate Owned(s: Store) {
    forall d :: d in s.valuations ==> d.player in s.current
  }

  ghost predicate DistinctIds(v: map<Day, Valuation>) {
    forall d, e :: d in v && e in v && v[d].id == v[e].id ==> d == e
  }

  ghost predicate Inv(s: Store) {
    Owned(s) && DistinctIds(s.valuations) && forall p {:trigger InStep(s, p)} :: p in s.current ==> InStep(s, p)
  }

  ghost predicate IdsBelow(v: map<Day, Valuation>, next: nat) {
    forall d :: d in v ==> v[d].id < next
  }

  // ---------------------------------------------------------------- the steps

  function Create(s: Store, player: string, money: Money, today: int, id: nat): Store {
    if player in s.current then s
    else if money.amount > 0 && Day(player, today) !in s.valuations
    then Store(s.current[player := money], s.valuations[Day(player, today) := Valuation(id, money)])
    else s.(current := s.current[player := money])
  }

  predicate LaterExists(v: map<Day, Valuation>, d: Day) {
    exists e :: e in v && e.player == d.player && e.date > d.date
  }

  /** Insert, or replace the day's figure; then follow it if nothing is dated later. */
  function Record(s: Store, d: Day, money: Money, id: nat): Store {
    if d.player !in s.current then s
    else
      var v := s.valuations[d := Valuation(if d in s.valuations then s.valuations[d].id else id, money)];
      Store(if LaterExists(v, d) then s.current else s.current[d.player := money], v)
  }

  function Remaining(v: map<Day, Valuation>, player: string, id: nat): map<Day, Valuation> {
    map d | d in v && !(d.player == player && v[d].id == id) :: v[d]
  }

  /** The player row after a deletion: the latest surviving figure, or 0 in the currency
      the player had. */
  ghost predicate Settles(v: map<Day, Valuation>, player: string, before: Money, after: Money) {
    if HasNone(v, player) then after == Money(0, before.currency)
    else forall d :: IsLatest(v, d) && d.player == player ==> after == v[d].money
  }

  ghost predicate Deletes(s: Store, player: string, id: nat, s': Store) {
    && s'.valuations == Remaining(s.valuations, player, id)
    && s'.current.Keys == s.current.Keys
    && (forall p :: p in s.current && p != player ==> s'.current[p] == s.current[p])
    && (player in s.current ==> Settles(s'.valuations, player, s.current[player], s'.current[player]))
  }

  /** The latest of some days. */
  function LatestOf(days: seq<Day>): (latest: Option<Day>)
    ensures latest.None? <==> days == []
    ensures latest.Some? ==> latest.value in days && forall d :: d in days ==> d.date <= latest.value.date
  {
    if days == [] then None
    else match LatestOf(days[1..])
      case None => Some(days[0])
      case Some(d) => if days[0].date > d.date then Some(days[0]) else Some(d)
  }

  class Market {
    var current: map<string, Money>
    var valuations: map<Day, Valuation>
    var nextId: nat

    function State(): Store reads this { Store(current, valuations) }

    ghost predicate Valid() reads this {
      Inv(State()) && IdsBelow(valuations, nextId)
    }

    constructor ()
      ensures Valid() && State() == Store(map[], map[])
    {
      current, valuations, nextId := map[], map[], 0;
    }

    /** A player comes with an opening valuation behind a positive value. */
    method CreatePlayer(player: string, money: Money, today: int)
      requires Valid() && player !in current
      modifies this
      ensures Valid() && State() == Create(old(State()), player, money, today, old(nextId))
    {
      current := current[player := money];
      if money.amount > 0 {
        valuations := valuations[Day(player, today) := Valuation(nextId, money)];
        nextId := nextId + 1;
      }
      CreateKeeps(old(State()), player, money, today, old(nextId));
    }

    method RecordValue(d: Day, money: Money) returns (error: Option<Error>)
      requires Valid()
      modifies this
      ensures Valid()
      ensures error.None? <==> d.player in old(current)
      ensures State() == Record(old(State()), d, money, old(nextId))
    {
      if d.player !in current {
        return Some(NoSuchPlayer);
      }
      if d in valuations {
        valuations := valuations[d := valuations[d].(money := money)];
      } else {
        valuations := valuations[d := Valuation(nextId, money)];
        nextId := nextId + 1;
      }
      if !LaterExists(valuations, d) {
        current := current[d.player := money];
      }
      RecordKeeps(old(State()), d, money, old(nextId));
      return None;
    }

    /** Delete one valuation of the named player and fall back to what survives, read in
        any order. */
    method DeleteValue(player: string, id: nat, survivors: seq<Day>) returns (error: Option<Error>)
      requires Valid()
      requires forall d :: d in survivors <==> d in Remaining(valuations, player, id) && d.player == player
      modifies this
      ensures Valid()
      ensures error.None? <==> exists d :: d in old(valuations) && d.player == player && old(valuations)[d].id == id
      ensures error.Some? ==> State() == old(State())
      ensures error.None? ==> Deletes(old(State()), player, id, State())
    {
      if !(exists d :: d in valuations && d.player == player && valuations[d].id == id) {
        return Some(NoSuchValuation);
      }
      assert player in current;
      valuations := Remaining(valuations, player, id);
      ResetCurrent(player, survivors);
      assert Deletes(old(State()), player, id, State());
      DeleteKeeps(old(State()), player, id, State());
      return None;
    }

    method ResetCurrent(player: string, survivors: seq<Day>)
      requires player in current
      requires forall d :: d in survivors <==> d in valuations && d.player == player
      modifies this`current
      ensures current.Keys == old(current.Keys)
      ensures forall p :: p in old(current) && p != player ==> current[p] == old(current)[p]
      ensures Settles(valuations, player, old(current)[player], current[player])
    {
      var latest := LatestOf(survivors);
      if latest.Some? {
        current := current[player := valuations[latest.value].money];
        assert latest.value in valuations;
        assert !HasNone(valuations, player);
      } else {
        current := current[player := Money(0, current[player].currency)];
        assert HasNone(valuations, player);
      }
    }
  }

  // ------------------------------------------------------- every step keeps it

  lemma {:induction false} CreateKeeps(s: Store, player: string, money: Money, today: int, id: nat)
    requires Inv(s) && player !in s.current && IdsBelow(s.valuations, id)
    ensures Inv(Create(s, player, money, today, id))
  {
    var s' := Create(s, player, money, today, id);
    assert HasNone(s.valuations, player);
    forall p | p in s'.current ensures InStep(s', p) {
      if p == player {
        assert money.amount > 0 ==> Day(player, today) in s'.valuations;
      } else {
        assert InStep(s, p);
        OthersInStep(s, s', p);
      }
    }
  }

  /** A player whose own rows did not change stays in step. */
  lemma {:induction false} OthersInStep(s: Store, s': Store, p: string)
    requires InStep(s, p) && p in s'.current && s'.current[p] == s.current[p]
    requires forall d: Day :: d.player == p ==> (d in s.valuations <==> d in s'.valuations)
    requires forall d: Day :: d.player == p && d in s.valuations ==> s'.valuations[d] == s.valuations[d]
    ensures InStep(s', p)
  {
    forall d | IsLatest(s'.valuations, d) && d.player == p ensures IsLatest(s.valuations, d) {}
    if HasNone(s'.valuations, p) { assert HasNone(s.valuations, p); }
  }

  lemma {:induction false} RecordKeeps(s: Store, d: Day, money: Money, id: nat)
    requires Inv(s) && d.player in s.current && IdsBelow(s.valuations, id)
    ensures Inv(Record(s, d, money, id))
  {
    var s' := Record(s, d, money, id);
    forall p | p in s'.current ensures InStep(s', p) {
      assert InStep(s, p);
      if p == d.player {
        RecordInStep(s, d, money, id);
      } else {
        OthersInStep(s, s', p);
      }
    }
  }

  lemma {:induction false} RecordInStep(s: Store, d: Day, money: Money, id: nat)
    requires InStep(s, d.player)
    ensures InStep(Record(s, d, money, id), d.player)
  {
    var s' := Record(s, d, money, id);
    assert d in s'.valuations;
    forall e | IsLatest(s'.valuations, e) && e.player == d.player
      ensures s'.current[d.player] == s'.valuations[e].money
    {
      if LaterExists(s'.valuations, d) {
        assert e != d && e in s.valuations;
        assert IsLatest(s.valuations, e);
      } else {
        assert e == d;
      }
    }
  }

  lemma {:induction false} DeleteKeeps(s: Store, player: string, id: nat, s': Store)
    requires Inv(s) && player in s.current && Deletes(s, player, id, s')
    ensures Inv(s')
  {
    forall p | p in s'.current ensures InStep(s', p) {
      assert InStep(s, p);
      if p != player {
        OthersInStep(s, s', p);
      } else {
        forall d | IsLatest(s'.valuations, d) && d.player == p ensures s'.current[p] == s'.valuations[d].money {
          assert Settles(s'.valuations, player, s.current[player], s'.current[player]);
        }
      }
    }
  }

  // ------------------------------------------------------- what each one writes

  /** Recording a figure puts it on its day whatever is on record already, and makes it the
      current value unless a later day is. */
  lemma {:induction false} RecordPutsOnRecord(s: Store, d: Day, money: Money, id: nat)
    ensures var s' := Record(s, d, money, id);
      if d.player !in s.current then s' == s
      else
        && s'.valuations.Keys == s.valuations.Keys + {d} && s'.current.Keys == s.current.Keys
        && s'.valuations[d].money == money
        && s'.valuations[d].id == (if d in s.valuations then s.valuations[d].id else id)
        && (forall e :: e in s.valuations && e != d ==> s'.valuations[e] == s.valuations[e])
        && (forall p :: p in s.current && p != d.player ==> s'.current[p] == s.current[p])
        && s'.current[d.player] == (
             if exists e :: e in s.valuations && e.player == d.player && e.date > d.date
             then s.current[d.player] else money)
  {
    var v := Record(s, d, money, id).valuations;
    if e :| e in s.valuations && e.player == d.player && e.date > d.date { assert e in v; }
  }

  /** A new player's value is current, and on record on the day if it is positive. */
  lemma {:induction false} CreatePutsOnRecord(s: Store, player: string, money: Money, today: int, id: nat)
    requires Owned(s) && player !in s.current
    ensures var s' := Create(s, player, money, today, id);
      && s'.current == s.current[player := money]
      && s'.valuations == if money.amount > 0 then s.valuations[Day(player, today) := Valuation(id, money)]
        else s.valuations
  {}

  /** Deleting a player's valuation takes that one row and leaves the player on the latest that
      remains, or on nothing in the currency there was. */
  lemma {:induction false} DeleteTakesOneRow(s: Store, gone: Day, s': Store)
    requires Inv(s) && gone in s.valuations && Deletes(s, gone.player, s.valuations[gone].id, s')
    ensures s'.valuations == s.valuations - {gone} && s'.current.Keys == s.current.Keys
    ensures forall p :: p in s.current && p != gone.player ==> s'.current[p] == s.current[p]
    ensures var rest := set e | e in s.valuations && e != gone && e.player == gone.player;
      if rest == {} then s'.current[gone.player] == Money(0, s.current[gone.player].currency)
      else exists e ::
        e in rest && s'.current[gone.player] == s.valuations[e].money && forall f :: f in rest ==> f.date <= e.date
  {
    DeleteKeeps(s, gone.player, s.valuations[gone].id, s');
    var rest := set e | e in s.valuations && e != gone && e.player == gone.player;
    if rest == {} {
      assert forall d :: d in s'.valuations && d.player == gone.player ==> d in rest;
    } else {
      var e := LatestIn(rest);
      assert e in s'.valuations && IsLatest(s'.valuations, e);
    }
  }

  lemma {:induction false} LatestIn(days: set<Day>) returns (latest: Day)
    requires days != {}
    ensures latest in days && forall d :: d in days ==> d.date <= latest.date
    decreases |days|
  {
    latest :| latest in days;
    if days != {latest} {
      var other := LatestIn(days - {latest});
      if other.date > latest.date { latest := other; }
    }
  }

  // ------------------------------------------------------------ over every run

  datatype Op =
    | Created(player: string, money: Money, today: int, id: nat)
    | Recorded(day: Day, money: Money, id: nat)
    | Deleted(player: string, id: nat)

  /** A generated id is one no stored row has. */
  ghost predicate Next(s: Store, op: Op, s': Store) {
    match op
    case Created(player, money, today, id) =>
      player !in s.current && (IdsBelow(s.valuations, id)) && s' == Create(s, player, money, today, id)
    case Recorded(day, money, id) =>
      (IdsBelow(s.valuations, id)) && s' == Record(s, day, money, id)
    case Deleted(player, id) =>
      player in s.current && Deletes(s, player, id, s')
  }

  /** After every sequence of creations, recordings, same-day replacements, backfills and
      deletions, every player's current value is the latest valuation's, or 0. */
  lemma {:induction false} CurrentValueFollowsHistory(states: seq<Store>, ops: seq<Op>)
    requires |states| == |ops| + 1 && states[0] == Store(map[], map[])
    requires forall i :: 0 <= i < |ops| ==> Next(states[i], ops[i], states[i + 1])
    ensures Inv(states[|ops|])
    decreases |ops|
  {
    if ops != [] {
      var n := |ops| - 1;
      CurrentValueFollowsHistory(states[..n + 1], ops[..n]);
      var s, s' := states[n], states[n + 1];
      assert Next(s, ops[n], s');
      match ops[n] {
        case Created(player, money, today, id) => CreateKeeps(s, player, money, today, id);
        case Recorded(day, money, id) => if day.player in s.current { RecordKeeps(s, day, money, id); }
        case Deleted(player, id) => DeleteKeeps(s, player, id, s');
      }
    }
  }
}
