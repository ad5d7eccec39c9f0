/** A coach's current appointment, kept in step with the recorded spells.

    Recording a spell is one transaction; spells are kept in the order they were
    recorded, and times are day numbers. */
module CoachSpells {
  import opened Common

  datatype Spell = Spell(coach: string, team: Option<string>, role: string, start: int, end: Option<int>)

  datatype Error = EndBeforeStart | NoSuchCoach | NeedsEndDate

  /** The current club of every coach, and all spells. */
  datatype Store = Store(clubs: map<string, Option<string>>, spells: seq<Spell>)

  predicate LaterExists(spells: seq<Spell>, coach: string, start: int) {
    exists i :: 0 <= i < |spells| && spells[i].coach == coach && spells[i].start > start
  }

  predicate Open(s: Spell, coach: string) {
    s.coach == coach && s.end.None?
  }

  function Closed(s: Spell, coach: string, at: int): Spell {
    if Open(s, coach) && s.start <= at then s.(end := Some(at)) else s
  }

  function CloseAll(spells: seq<Spell>, coach: string, at: int): seq<Spell> {
    seq(|spells|, i requires 0 <= i < |spells| => Closed(spells[i], coach, at))
  }

  function Record(s: Store, n: Spell): Result<Store, Error> {
    if n.end.Some? && n.end.value < n.start then Err(EndBeforeStart)
    else if n.coach !in s.clubs then Err(NoSuchCoach)
    else if LaterExists(s.spells, n.coach, n.start) then
      if n.end.None? then Err(NeedsEndDate) else Ok(s.(spells := s.spells + [n]))
    else
      Ok(Store(if n.end.None? then s.clubs[n.coach := n.team] else s.clubs,
               CloseAll(s.spells, n.coach, n.start) + [n]))
  }

  class Desk {
    var clubs: map<string, Option<string>>
    var spells: seq<Spell>

    function State(): Store reads this { Store(clubs, spells) }

    constructor (clubs: map<string, Option<string>>)
      ensures State() == Store(clubs, [])
    {
      this.clubs, spells := clubs, [];
    }

    /** A failure after the open spell was closed rolls the closing back. */
    method RecordSpell(n: Spell) returns (error: Option<Error>)
      modifies this
      ensures match Record(old(State()), n)
        case Ok(s) => error == None && State() == s
        case Err(e) => error == Some(e) && State() == old(State())
    {
      if n.end.Some? && n.end.value < n.start {
        return Some(EndBeforeStart);
      }
      if n.coach !in clubs {
        return Some(NoSuchCoach);
      }
      var laterExists := LaterExists(spells, n.coach, n.start);
      if !laterExists {
        spells := CloseAll(spells, n.coach, n.start);
      } else if n.end.None? {
        return Some(NeedsEndDate);
      }
      spells := spells + [n];
      if n.end.None? && !laterExists {
        clubs := clubs[n.coach := n.team];
      }
      return None;
    }
  }

  // ------------------------------------------------------------------ what holds

  /** At most one spell of the coach is open, it is the last to begin and names the current
      club, and no spell ends before it begins. */
  ghost predicate Orderly(s: Store, coach: string) {
    && (forall i, j :: 0 <= i < j < |s.spells| && Open(s.spells[i], coach) ==> !Open(s.spells[j], coach))
    && (forall i, j ::
         0 <= i < |s.spells| && 0 <= j < |s.spells| && Open(s.spells[i], coach) && s.spells[j].coach == coach ==>
           s.spells[j].start <= s.spells[i].start)
    && (forall i ::
         0 <= i < |s.spells| && s.spells[i].coach == coach && s.spells[i].end.Some? ==>
           s.spells[i].start <= s.spells[i].end.value)
    && (forall i ::
         0 <= i < |s.spells| && Open(s.spells[i], coach) ==> coach in s.clubs && s.clubs[coach] == s.spells[i].team)
  }

  /** A finished spell behind a later one. */
  lemma BackdatedKeeps(s: Store, n: Spell, coach: string)
    requires Orderly(s, coach) && n.end.Some? && n.start <= n.end.value
    requires LaterExists(s.spells, n.coach, n.start)
    ensures Orderly(s.(spells := s.spells + [n]), coach)
  {
    var later :| 0 <= later < |s.spells| && s.spells[later].coach == n.coach && s.spells[later].start > n.start;
    var all := s.spells + [n];
    forall i, j | 0 <= i < |all| && 0 <= j < |all| && Open(all[i], coach) && all[j].coach == coach
      ensures all[j].start <= all[i].start
    {
      if j == |s.spells| { assert s.spells[later].start <= all[i].start; }
    }
  }

  /** Closing what is open leaves nothing open that began by then. */
  lemma CloseAllKeeps(s: Store, coach: string, who: string, at: int)
    requires Orderly(s, coach) && !LaterExists(s.spells, who, at)
    ensures Orderly(s.(spells := CloseAll(s.spells, who, at)), coach)
    ensures coach == who ==> forall i :: 0 <= i < |s.spells| ==> !Open(CloseAll(s.spells, who, at)[i], coach)
  {
    var closed := CloseAll(s.spells, who, at);
    assert forall i :: 0 <= i < |s.spells| ==> closed[i] == Closed(s.spells[i], who, at);
    assert forall i :: 0 <= i < |s.spells| && s.spells[i].coach == who ==> s.spells[i].start <= at;
  }

  lemma AppendKeeps(s: Store, n: Spell, clubs: map<string, Option<string>>, coach: string)
    requires Orderly(s, coach) && (n.end.Some? ==> n.start <= n.end.value)
    requires n.coach == coach ==> forall i :: 0 <= i < |s.spells| ==> !Open(s.spells[i], coach)
    requires n.coach == coach ==> !LaterExists(s.spells, coach, n.start)
    requires clubs == s.clubs || (n.end.None? && clubs == s.clubs[n.coach := n.team])
    requires n.end.None? ==> clubs == s.clubs[n.coach := n.team]
    ensures Orderly(Store(clubs, s.spells + [n]), coach)
  {
    var all := s.spells + [n];
    assert forall i :: 0 <= i < |s.spells| ==> all[i] == s.spells[i];
    assert n.coach == coach ==> forall j ::
      0 <= j < |s.spells| && s.spells[j].coach == coach ==> s.spells[j].start <= n.start;
  }

  lemma RecordKeeps(s: Store, n: Spell, coach: string)
    requires Orderly(s, coach) && Record(s, n).Ok?
    ensures Orderly(Record(s, n).value, coach)
  {
    if LaterExists(s.spells, n.coach, n.start) {
      BackdatedKeeps(s, n, coach);
    } else {
      CloseAllKeeps(s, coach, n.coach, n.start);
      assert !LaterExists(CloseAll(s.spells, n.coach, n.start), n.coach, n.start) by {
        forall i | 0 <= i < |s.spells| ensures CloseAll(s.spells, n.coach, n.start)[i].start == s.spells[i].start {}
      }
      AppendKeeps(s.(spells := CloseAll(s.spells, n.coach, n.start)), n, Record(s, n).value.clubs, coach);
    }
  }

  function RecordAll(s: Store, spells: seq<Spell>): Store
    decreases |spells|
  {
    if spells == [] then s
    else RecordAll(match Record(s, spells[0]) { case Ok(next) => next case Err(_) => s }, spells[1..])
  }

  /** Over every sequence of recordings, accepted or refused: one open spell at most, none
      after it, dates in order, and the current club is the open spell's. */
  lemma {:induction false} AppointmentsStayOrderly(s: Store, spells: seq<Spell>, coach: string)
    requires Orderly(s, coach)
    ensures Orderly(RecordAll(s, spells), coach)
    decreases |spells|
  {
    if spells != [] {
      match Record(s, spells[0]) {
        case Ok(next) =>
          RecordKeeps(s, spells[0], coach);
          AppointmentsStayOrderly(next, spells[1..], coach);
        case Err(_) =>
          AppointmentsStayOrderly(s, spells[1..], coach);
      }
    }
  }

  /** What is accepted, and what is then on record: the new spell behind the others, the open
      spells ended where nothing begins later, and the coach's club. */
  lemma {:induction false} RecordPutsOnRecord(s: Store, n: Spell)
    ensures var later := exists i :: 0 <= i < |s.spells| && s.spells[i].coach == n.coach && s.spells[i].start > n.start;
      && (Record(s, n).Ok? <==>
            n.coach in s.clubs && (if n.end.Some? then n.start <= n.end.value else !later))
      && (Record(s, n).Ok? ==>
            var s' := Record(s, n).value;
            && |s'.spells| == |s.spells| + 1 && s'.spells[|s.spells|] == n
            && (forall i :: 0 <= i < |s.spells| ==>
                  s'.spells[i] == if !later && s.spells[i].coach == n.coach && s.spells[i].end == None
                    then s.spells[i].(end := Some(n.start)) else s.spells[i])
            && s'.clubs == if n.end == None then s.clubs[n.coach := n.team] else s.clubs)
  {}

  /** Why it is refused otherwise, in the order the reasons are looked for. */
  lemma {:induction false} RefusedBecause(s: Store, n: Spell)
    requires Record(s, n).Err?
    ensures match Record(s, n).error
      case EndBeforeStart => n.end.Some? && n.end.value < n.start
      case NoSuchCoach => n.coach !in s.clubs && (n.end.Some? ==> n.start <= n.end.value)
      case NeedsEndDate => n.coach in s.clubs && n.end == None
  {}

  /** A new appointment ends the previous one the day it begins, and a backdated spell
      leaves the appointment alone. */
  lemma OneAppointmentEndsTheOther(s: Store, n: Spell, i: nat)
    requires Orderly(s, n.coach) && Record(s, n).Ok? && i < |s.spells| && Open(s.spells[i], n.coach)
    ensures var s' := Record(s, n).value;
      if s.spells[i].start <= n.start
      then s'.spells[i] == s.spells[i].(end := Some(n.start))
      else s'.spells[i] == s.spells[i] && s'.clubs == s.clubs
  {
    assert s.spells[i].start > n.start ==> LaterExists(s.spells, n.coach, n.start);
  }
}
