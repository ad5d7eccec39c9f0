/** A player's current club, kept in step with the transfer history.

    Transfers are listed in the order they were committed. Recording one is two steps:
    the service checks the stated origin against a read taken outside any transaction,
    and the repository later locks the player, checks again, inserts, and moves the
    player unless a later-dated transfer exists. Any number of recordings interleave. */
module CurrentClub {
  import opened Common

  type Club = Option<string>

  datatype Details = Details(kind: string, fee: Option<int>, currency: string, season: Option<string>)

  datatype Transfer = Transfer(player: string, from: Club, to: Club, date: int, details: Details)

  /** `moved` is history: the transfers, by position, that changed the player's club. */
  datatype World = World(clubs: map<string, Club>, log: seq<Transfer>, moved: map<string, seq<nat>>, checked: map<nat,
        Transfer>)

  datatype Action =
    | CreatePlayer(player: string, club: Club, openingDate: int, opening: Details)
    | Check(frame: nat, transfer: Transfer)
    | Record(frame: nat)
    | UpdateDetails(position: nat, details: Details)

  const Empty := World(map[], [], map[], map[])

  /** A move says something: it has an origin or a destination, and they differ. */
  predicate WellFormed(t: Transfer) {
    !(t.from.None? && t.to.None?) && t.from != t.to
  }

  predicate LaterExists(log: seq<Transfer>, player: string, date: int) {
    exists i :: 0 <= i < |log| && log[i].player == player && log[i].date > date
  }

  function CreateStep(w: World, player: string, club: Club, openingDate: int, opening: Details): World {
    if player in w.clubs then w
    else if club.None? then w.(clubs := w.clubs[player := None], moved := w.moved[player := []])
    else w.(clubs := w.clubs[player := club],
            log := w.log + [Transfer(player, None, club, openingDate, opening)],
            moved := w.moved[player := [|w.log|]])
  }

  function CheckStep(w: World, frame: nat, t: Transfer): World {
    if WellFormed(t) && t.player in w.clubs && w.clubs[t.player] == t.from
    then w.(checked := w.checked[frame := t]) else w.(checked := w.checked - {frame})
  }

  /** The locked transaction: Err when the club changed since the check. */
  function RecordStep(w: World, t: Transfer): World {
    if t.player !in w.clubs || t.player !in w.moved || w.clubs[t.player] != t.from then w
    else if LaterExists(w.log, t.player, t.date) then w.(log := w.log + [t])
    else w.(clubs := w.clubs[t.player := t.to], log := w.log + [t],
        moved := w.moved[t.player := w.moved[t.player] + [|w.log|]])
  }

  function Step(w: World, a: Action): World {
    match a
    case CreatePlayer(player, club, openingDate, opening) => CreateStep(w, player, club, openingDate, opening)
    case Check(frame, t) => CheckStep(w, frame, t)
    case Record(frame) => if frame in w.checked then RecordStep(w, w.checked[frame]).(checked := w.checked - {frame})
      else w
    case UpdateDetails(i, details) => if i < |w.log| then w.(log := w.log[i := w.log[i].(details := details)]) else w
  }

  function Run(w: World, actions: seq<Action>): World
    decreases |actions|
  {
    if actions == [] then w else Run(Step(w, actions[0]), actions[1..])
  }

  /** An accepted move is put on record behind the others whatever is already there, and moves
      the player unless a later date is on record; a refused one leaves everything as it was. */
  lemma {:induction false} RecordPutsOnRecord(w: World, t: Transfer)
    requires w.clubs.Keys == w.moved.Keys
    ensures var w' := RecordStep(w, t);
      if t.player in w.clubs && w.clubs[t.player] == t.from then
        && w'.log == w.log + [t]
        && w'.clubs.Keys == w.clubs.Keys
        && (forall p :: p in w.clubs && p != t.player ==> w'.clubs[p] == w.clubs[p])
        && w'.clubs[t.player] == (
             if exists i :: 0 <= i < |w.log| && w.log[i].player == t.player && w.log[i].date > t.date
             then t.from else t.to)
      else w' == w
  {}

  // ------------------------------------------------------------ what it means

  /** The last-recorded of the player's transfers that share the greatest date. */
  ghost predicate IsLatest(log: seq<Transfer>, player: string, i: nat) {
    && i < |log| && log[i].player == player
    && (forall j :: 0 <= j < |log| && log[j].player == player ==> log[j].date <= log[i].date)
    && (forall j :: i < j < |log| && log[j].player == player ==> log[j].date < log[i].date)
  }

  ghost predicate NoTransfers(log: seq<Transfer>, player: string) {
    forall i :: 0 <= i < |log| ==> log[i].player != player
  }

  /** The later move leaves where the earlier one arrived, and is dated no earlier. */
  predicate Follows(log: seq<Transfer>, earlier: nat, later: nat) {
    && earlier < later < |log|
    && log[later].from == log[earlier].to
    && log[earlier].date <= log[later].date
  }

  /** The moves that changed the club: a chain from nowhere, each leaving where the one
      before arrived, with dates that never go back, ending at the current club. */
  ghost predicate Career(log: seq<Transfer>, player: string, club: Club, moved: seq<nat>) {
    && (forall k :: 0 <= k < |moved| ==> moved[k] < |log| && log[moved[k]].player == player)
    && (forall j, k :: 0 <= j < |moved| && 0 <= k < |moved| && k == j + 1 ==> Follows(log, moved[j], moved[k]))
    && (if moved == [] then club == None && NoTransfers(log, player)
        else
          var last := moved[|moved| - 1];
          log[moved[0]].from == None && log[last].to == club && IsLatest(log, player, last))
  }

  ghost predicate Inv(w: World) {
    && w.clubs.Keys == w.moved.Keys
    && (forall i :: 0 <= i < |w.log| ==> w.log[i].player in w.clubs)
    && (forall p {:trigger CareerOf(w, p)} :: p in w.clubs ==> CareerOf(w, p))
  }

  ghost predicate CareerOf(w: World, p: string) {
    p in w.clubs && p in w.moved && Career(w.log, p, w.clubs[p], w.moved[p])
  }

  /** A further transfer of somebody else, or an older one, changes nobody's career. */
  lemma CareerStays(log: seq<Transfer>, t: Transfer, player: string, club: Club, moved: seq<nat>)
    requires Career(log, player, club, moved)
    requires t.player != player || LaterExists(log, player, t.date)
    ensures Career(log + [t], player, club, moved)
  {
    var log' := log + [t];
    if moved != [] {
      var i := moved[|moved| - 1];
      assert IsLatest(log, player, i);
      assert IsLatest(log', player, i);
    }
  }

  lemma CareerGrows(log: seq<Transfer>, t: Transfer, club: Club, moved: seq<nat>)
    requires Career(log, t.player, club, moved) && t.from == club && !LaterExists(log, t.player, t.date)
    ensures Career(log + [t], t.player, t.to, moved + [|log|])
  {
    var log', moved' := log + [t], moved + [|log|];
    assert IsLatest(log', t.player, |log|);
    if moved != [] {
      assert log[moved[|moved| - 1]].date <= t.date;
    }
  }

  /** A new entry in the log: the career of its player is given, the others carry over. */
  lemma AppendKeeps(w: World, t: Transfer, w': World)
    requires w'.log == w.log + [t]
    requires w'.clubs.Keys == w.clubs.Keys + {t.player} && w'.moved.Keys == w.moved.Keys + {t.player}
    requires forall p ::
      p in w.clubs && p != t.player ==> p in w.moved && w'.clubs[p] == w.clubs[p] && w'.moved[p] == w.moved[p]
    requires Inv(w) && CareerOf(w', t.player)
    ensures Inv(w')
  {
    forall p | p in w'.clubs ensures CareerOf(w', p) {
      if p != t.player {
        assert CareerOf(w, p);
        CareerStays(w.log, t, p, w.clubs[p], w.moved[p]);
      }
    }
    forall i | 0 <= i < |w'.log| ensures w'.log[i].player in w'.clubs {
      assert i == |w.log| || w'.log[i] == w.log[i];
    }
  }

  lemma SignedPlayerKeeps(w: World, t: Transfer)
    requires Inv(w) && t.player !in w.clubs && t.from == None
    ensures Inv(w.(clubs := w.clubs[t.player := t.to], log := w.log + [t], moved := w.moved[t.player := [|w.log|]]))
  {
    assert NoTransfers(w.log, t.player);
    CareerGrows(w.log, t, None, []);
    assert [] + [|w.log|] == [|w.log|];
    AppendKeeps(w, t,
        w.(clubs := w.clubs[t.player := t.to], log := w.log + [t], moved := w.moved[t.player := [|w.log|]]));
  }

  lemma FreeAgentKeeps(w: World, player: string)
    requires Inv(w) && player !in w.clubs
    ensures Inv(w.(clubs := w.clubs[player := None], moved := w.moved[player := []]))
  {
    var w' := w.(clubs := w.clubs[player := None], moved := w.moved[player := []]);
    forall p | p in w'.clubs ensures CareerOf(w', p) { if p != player { assert CareerOf(w, p); } }
  }

  lemma CreateKeeps(w: World, player: string, club: Club, date: int, opening: Details)
    requires Inv(w)
    ensures Inv(CreateStep(w, player, club, date, opening))
  {
    if player !in w.clubs {
      if club.Some? {
        SignedPlayerKeeps(w, Transfer(player, None, club, date, opening));
      } else {
        FreeAgentKeeps(w, player);
      }
    }
  }

  lemma {:induction false} RecordKeeps(w: World, t: Transfer)
    requires Inv(w)
    ensures Inv(RecordStep(w, t))
  {
    if t.player in w.clubs && w.clubs[t.player] == t.from {
      assert CareerOf(w, t.player);
      if LaterExists(w.log, t.player, t.date) {
        CareerStays(w.log, t, t.player, w.clubs[t.player], w.moved[t.player]);
      } else {
        CareerGrows(w.log, t, w.clubs[t.player], w.moved[t.player]);
      }
      AppendKeeps(w, t, RecordStep(w, t));
    }
  }

  lemma {:induction false} UpdateKeeps(w: World, i: nat, details: Details)
    requires Inv(w)
    ensures Inv(Step(w, UpdateDetails(i, details)))
  {
    var w' := Step(w, UpdateDetails(i, details));
    assert |w'.log| == |w.log| && w'.clubs == w.clubs && w'.moved == w.moved;
    assert forall j :: 0 <= j < |w.log| ==> w'.log[j] == w.log[j].(details := w'.log[j].details);
    forall p | p in w.clubs ensures CareerOf(w', p) {
      assert CareerOf(w, p);
      DetailsAreNoMove(w.log, w'.log, p, w.clubs[p], w.moved[p]);
    }
  }

  lemma {:induction false} OnlyCheckedChanges(w: World, w': World)
    requires Inv(w) && w' == w.(checked := w'.checked)
    ensures Inv(w')
  {
    forall p | p in w.clubs ensures CareerOf(w', p) { assert CareerOf(w, p); }
  }

  lemma {:induction false} StepKeeps(w: World, a: Action)
    requires Inv(w)
    ensures Inv(Step(w, a))
  {
    match a {
      case CreatePlayer(player, club, date, opening) => CreateKeeps(w, player, club, date, opening);
      case Check(_, _) => OnlyCheckedChanges(w, Step(w, a));
      case Record(frame) =>
        if frame in w.checked {
          RecordKeeps(w, w.checked[frame]);
          OnlyCheckedChanges(RecordStep(w, w.checked[frame]), Step(w, a));
        }
      case UpdateDetails(i, details) => UpdateKeeps(w, i, details);
    }
  }

  lemma {:induction false} DetailsAreNoMove(log: seq<Transfer>, log': seq<Transfer>, player: string, club: Club,
        moved: seq<nat>)
    requires Career(log, player, club, moved) && |log'| == |log|
    requires forall i :: 0 <= i < |log| ==> log'[i] == log[i].(details := log'[i].details)
    ensures Career(log', player, club, moved)
  {
    if moved != [] {
      assert IsLatest(log, player, moved[|moved| - 1]);
      assert IsLatest(log', player, moved[|moved| - 1]);
    }
  }

  lemma {:induction false} RunKeeps(w: World, actions: seq<Action>)
    requires Inv(w)
    ensures Inv(Run(w, actions))
    decreases |actions|
  {
    if actions != [] {
      StepKeeps(w, actions[0]);
      RunKeeps(Step(w, actions[0]), actions[1..]);
    }
  }

  /** Whatever recordings interleave and however history is backfilled: the current club
      is the destination of the last-recorded transfer among those of the greatest date,
      and the moves that changed it form a chain with dates that never go back. */
  lemma CurrentClubFollowsHistory(actions: seq<Action>, player: string)
    ensures var w := Run(Empty, actions);
      player in w.clubs ==>
        && player in w.moved
        && Career(w.log, player, w.clubs[player], w.moved[player])
        && (NoTransfers(w.log, player) ==> w.clubs[player] == None)
        && (forall i: nat :: IsLatest(w.log, player, i) ==> w.clubs[player] == w.log[i].to)
  {
    RunKeeps(Empty, actions);
    var w := Run(Empty, actions);
    if player in w.clubs {
      assert CareerOf(w, player);
      forall i: nat | IsLatest(w.log, player, i) ensures w.clubs[player] == w.log[i].to {
        assert Career(w.log, player, w.clubs[player], w.moved[player]);
        var last := w.moved[player][|w.moved[player]| - 1];
        assert i < last || last < i || i == last;
      }
    }
  }

  /** Two recordings that both passed the check from the same club: once the first has
      moved the player, the second is refused. */
  lemma OnlyOneOfTwoRacersMoves(w: World, f1: nat, f2: nat)
    requires Inv(w) && f1 != f2 && f1 in w.checked && f2 in w.checked
    requires var t1, t2 := w.checked[f1], w.checked[f2];
      t1.player == t2.player && t1.from == t2.from && WellFormed(t1) && !LaterExists(w.log, t1.player, t1.date)
    requires var t1 := w.checked[f1]; t1.player in w.clubs && w.clubs[t1.player] == t1.from
    ensures var w2 := Step(Step(w, Record(f1)), Record(f2));
      w2.log == w.log + [w.checked[f1]] && w2.clubs == w.clubs[w.checked[f1].player := w.checked[f1].to]
  {}

  // ----------------------------------------------------------------- the code

  lemma LaterGrows(log: seq<Transfer>, t: Transfer, player: string, date: int)
    ensures LaterExists(log + [t], player, date) == (LaterExists(log, player, date)
      || (t.player == player && t.date > date))
  {
    var log' := log + [t];
    assert log'[|log|] == t;
    if LaterExists(log, player, date) {
      var i :| 0 <= i < |log| && log[i].player == player && log[i].date > date;
      assert log'[i] == log[i];
    }
  }

  const KINDS := {"permanent", "loan", "loan_return", "free", "youth_promotion", "released", "retired"}

  /** The day number of a date that was left out: 1 January of year 1. */
  const NO_DATE := -719162

  datatype RecordError =
    | NoPlayer | BadDate | BadKind | NotAClubOrDestination | BadFee
    | NoSuchPlayer | WrongOrigin | Forbidden | ClubChanged | NoSuchTransfer

  /** `latest` is the day a year ahead. */
  function Validate(t: Transfer, latest: int): Option<RecordError> {
    if t.player == "" then Some(NoPlayer)
    else if t.date == NO_DATE || t.date > latest then Some(BadDate)
    else if t.details.kind !in KINDS then Some(BadKind)
    else if !WellFormed(t) then Some(NotAClubOrDestination)
    else if t.details.fee.Some?
      && (t.details.fee.value < 0 || (t.details.kind == "free" && t.details.fee.value != 0)) then Some(BadFee)
    else None
  }

  /** What may be recorded: a named player, a date that is given and not too far ahead, a kind
      there is, two different ends of which one is a club, and a fee that is not negative and
      that a free move does not have. */
  ghost predicate Recordable(t: Transfer, latest: int) {
    && t.player != "" && t.date != NO_DATE && t.date <= latest
    && (t.details.kind == "permanent" || t.details.kind == "loan" || t.details.kind == "loan_return"
        || t.details.kind == "free" || t.details.kind == "youth_promotion" || t.details.kind == "released"
        || t.details.kind == "retired")
    && (t.from.Some? || t.to.Some?) && t.from != t.to
    && (t.details.fee.Some? ==> t.details.fee.value >= 0)
    && (t.details.kind == "free" && t.details.fee.Some? ==> t.details.fee.value == 0)
  }

  /** players and transfers, and the service in front of them. */
  class Registry {
    var clubs: map<string, Club>
    var log: seq<Transfer>

    constructor ()
      ensures clubs == map[] && log == []
    {
      clubs, log := map[], [];
    }

    /** A player comes with the history behind the current club: an arrival from nowhere
        at that club, or nothing for a free agent. */
    method Create(player: string, club: Club, openingDate: int, opening: Details)
      requires player !in clubs
      modifies this
      ensures var w := CreateStep(World(old(clubs), old(log), map[], map[]), player, club, openingDate, opening);
        clubs == w.clubs && log == w.log
      ensures clubs == old(clubs)[player := club]
      ensures log == old(log) + if club.Some? then [Transfer(player, None, club, openingDate, opening)] else []
    {
      clubs := clubs[player := club];
      if club.Some? {
        log := log + [Transfer(player, None, club, openingDate, opening)];
      }
    }

    /** Lock, re-check the origin, insert, and move the player when nothing later is on
        record. */
    method Record(t: Transfer, ghost moved: map<string, seq<nat>>) returns (error: Option<RecordError>)
      requires moved.Keys == clubs.Keys
      modifies this
      ensures error.None? <==> t.player in old(clubs) && old(clubs)[t.player] == t.from
      ensures log == if error.None? then old(log) + [t] else old(log)
      ensures var w := RecordStep(World(old(clubs), old(log), moved, map[]), t); clubs == w.clubs && log == w.log
    {
      if t.player !in clubs {
        return Some(NoSuchPlayer);
      }
      if clubs[t.player] != t.from {
        return Some(ClubChanged);
      }
      log := log + [t];
      var later := false;
      var i := 0;
      while i < |log| - 1
        invariant 0 <= i <= |log| - 1
        invariant log == old(log) + [t] && clubs == old(clubs)
        invariant later == LaterExists(log[..i], t.player, t.date)
      {
        assert log[..i + 1] == log[..i] + [log[i]];
        LaterGrows(log[..i], log[i], t.player, t.date);
        if log[i].player == t.player && log[i].date > t.date {
          later := true;
        }
        i := i + 1;
      }
      assert log[..i] == old(log);
      if !later {
        clubs := clubs[t.player := t.to];
      }
      return None;
    }

    /** The service: validate, check the origin, ask whether the caller manages either side,
        attach the default currency and the season of the date (`seasonOn`, when one is
        defined), record. */
    method RecordTransfer(t: Transfer, latest: int, authorized: bool, seasonOn: Option<string>,
          ghost moved: map<string, seq<nat>>)
      returns (error: Option<RecordError>)
      requires moved.Keys == clubs.Keys
      modifies this
      ensures error ==
        if Validate(t, latest).Some? then Validate(t, latest)
        else if t.player !in old(clubs) then Some(NoSuchPlayer)
        else if old(clubs)[t.player] != t.from then Some(WrongOrigin)
        else if !authorized then Some(Forbidden)
        else None
      ensures error.None? <==>
        Recordable(t, latest) && authorized && t.player in old(clubs) && old(clubs)[t.player] == t.from
      ensures error.Some? ==> clubs == old(clubs) && log == old(log)
      ensures error.None? ==>
        var row := Transfer(t.player, t.from, t.to, t.date, Details(t.details.kind, t.details.fee,
          if t.details.currency == "" then "EUR" else t.details.currency,
          if t.details.season.Some? then t.details.season else seasonOn));
        && log == old(log) + [row]
        && clubs == RecordStep(World(old(clubs), old(log), moved, map[]), row).clubs
    {
      var invalid := Validate(t, latest);
      if invalid.Some? {
        return invalid;
      }
      var t' := t;
      if t'.details.currency == "" {
        t' := t'.(details := t'.details.(currency := "EUR"));
      }
      if t.player !in clubs {
        return Some(NoSuchPlayer);
      }
      if clubs[t.player] != t.from {
        return Some(WrongOrigin);
      }
      if !authorized {
        return Some(Forbidden);
      }
      if t'.details.season.None? {
        t' := t'.(details := t'.details.(season := seasonOn));
      }
      error := Record(t', moved);
    }

    /** Correct a recorded move, named by its place in the log: its player, clubs and date
        come from the stored row. */
    method UpdateTransfer(position: nat, t: Transfer, latest: int, authorized: bool)
      returns (error: Option<RecordError>)
      modifies this`log
      ensures position >= old(|log|) ==> error == Some(NoSuchTransfer)
      ensures position < old(|log|) ==>
        error == if authorized then Validate(old(log)[position].(details := t.details), latest) else Some(Forbidden)
      ensures error.Some? ==> log == old(log)
      ensures error.None? ==>
        var was := old(log)[position];
        && Recordable(was.(details := t.details), latest)
        && log == old(log)[position := was.(details := Details(t.details.kind, t.details.fee,
             if t.details.currency == "" then "EUR" else t.details.currency,
             if t.details.season.Some? then t.details.season else was.details.season))]
    {
      if position >= |log| {
        return Some(NoSuchTransfer);
      }
      var stored := log[position];
      if !authorized {
        return Some(Forbidden);
      }
      var t' := stored.(details := t.details);
      var invalid := Validate(t', latest);
      if invalid.Some? {
        return invalid;
      }
      if t'.details.currency == "" {
        t' := t'.(details := t'.details.(currency := "EUR"));
      }
      if t'.details.season.None? {
        t' := t'.(details := t'.details.(season := stored.details.season));
      }
      log := log[position := t'];
      return None;
    }
  }
}
