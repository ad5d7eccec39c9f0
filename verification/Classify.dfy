/** How an import types one player's moves: loans and their returns are inferred from a
    date-sorted history, the rest is read off each move.

    A date is a day number, which orders and subtracts as well-formed source dates do.
    The tests on club names (placeholder, retirement, youth side) are folding and a
    regular expression in the source; here they are parameters. */
module Classify {
  import opened Common

  /** Two years and sixty days. */
  const LOAN_WINDOW := 2 * 365 + 60

  datatype RawTransfer = RawTransfer(
    date: int, fromId: string, toId: string, fromName: string, toName: string, fee: Option<int>)

  datatype Kind = Permanent | Loan | LoanReturn | Free | YouthPromotion | Released | Retired

  datatype Move = Move(raw: RawTransfer, kind: Kind, feeMinor: Option<int>)

  datatype Names = Names(noClub: string -> bool, retired: string -> bool, youthSide: string -> bool)

  // ------------------------------------------------------- stable date order

  ghost predicate ByDate(s: seq<RawTransfer>) {
    forall i, j :: 0 <= i < j < |s| ==> s[i].date <= s[j].date
  }

  function OnDay(s: seq<RawTransfer>, day: int): seq<RawTransfer> {
    if s == [] then []
    else (if s[0].date == day then [s[0]] else []) + OnDay(s[1..], day)
  }

  /** Sorted by date, with each day's moves kept in their order: a stable sort. */
  ghost predicate StablySorted(input: seq<RawTransfer>, s: seq<RawTransfer>) {
    && ByDate(s)
    && multiset(s) == multiset(input)
    && forall day :: OnDay(s, day) == OnDay(input, day)
  }

  /** Insertion behind the moves that are not later. */
  function Inserted(s: seq<RawTransfer>, t: RawTransfer): (r: seq<RawTransfer>)
    ensures |r| == |s| + 1
  {
    if s != [] && s[|s| - 1].date > t.date then Inserted(s[..|s| - 1], t) + [s[|s| - 1]] else s + [t]
  }

  function Sorted(input: seq<RawTransfer>): (s: seq<RawTransfer>)
    ensures |s| == |input|
  {
    if input == [] then [] else Inserted(Sorted(input[..|input| - 1]), input[|input| - 1])
  }

  lemma {:induction false} OnDayConcat(a: seq<RawTransfer>, b: seq<RawTransfer>, day: int)
    ensures OnDay(a + b, day) == OnDay(a, day) + OnDay(b, day)
  {
    if a == [] {
      assert a + b == b;
    } else {
      var head := if a[0].date == day then [a[0]] else [];
      assert (a + b)[0] == a[0] && (a + b)[1..] == a[1..] + b;
      assert OnDay(a + b, day) == head + OnDay(a[1..] + b, day);
      OnDayConcat(a[1..], b, day);
      assert head + (OnDay(a[1..], day) + OnDay(b, day)) == (head + OnDay(a[1..], day)) + OnDay(b, day);
    }
  }

  lemma {:induction false} InsertedIsPermutation(s: seq<RawTransfer>, t: RawTransfer)
    ensures multiset(Inserted(s, t)) == multiset(s) + multiset{t}
  {
    if s != [] && s[|s| - 1].date > t.date {
      var init, last := s[..|s| - 1], s[|s| - 1];
      InsertedIsPermutation(init, t);
      assert s == init + [last];
    }
  }

  lemma {:induction false} InsertedIsOrdered(s: seq<RawTransfer>, t: RawTransfer)
    requires ByDate(s)
    ensures ByDate(Inserted(s, t))
  {
    if s != [] && s[|s| - 1].date > t.date {
      var init, last := s[..|s| - 1], s[|s| - 1];
      var r := Inserted(init, t);
      InsertedIsOrdered(init, t);
      InsertedIsPermutation(init, t);
      forall i | 0 <= i < |r| ensures r[i].date <= last.date {
        assert r[i] in multiset(r);
        assert r[i] in init || r[i] == t;
      }
    }
  }

  lemma {:induction false} InsertedKeepsDays(s: seq<RawTransfer>, t: RawTransfer, day: int)
    ensures OnDay(Inserted(s, t), day) == OnDay(s + [t], day)
  {
    if s != [] && s[|s| - 1].date > t.date {
      var init, last := s[..|s| - 1], s[|s| - 1];
      assert s == init + [last];
      InsertedKeepsDays(init, t, day);
      OnDayConcat(Inserted(init, t), [last], day);
      OnDayConcat(init, [t], day);
      OnDayConcat(s, [t], day);
      OnDayConcat(init, [last], day);
      assert OnDay([last], day) == [] || OnDay([t], day) == [];
    }
  }

  lemma {:induction false} SortedIsStable(input: seq<RawTransfer>)
    ensures StablySorted(input, Sorted(input))
  {
    if input != [] {
      var init, last := input[..|input| - 1], input[|input| - 1];
      assert input == init + [last];
      SortedIsStable(init);
      InsertedIsOrdered(Sorted(init), last);
      InsertedIsPermutation(Sorted(init), last);
      forall day ensures OnDay(Sorted(input), day) == OnDay(input, day) {
        InsertedKeepsDays(Sorted(init), last, day);
        OnDayConcat(init, [last], day);
        OnDayConcat(Sorted(init), [last], day);
      }
    }
  }

  lemma OnDayStep(s: seq<RawTransfer>, day: int)
    requires s != []
    ensures OnDay(s[1..], day) == if s[0].date == day then OnDay(s, day)[1..] else OnDay(s, day)
  {
    assert [] + OnDay(s[1..], day) == OnDay(s[1..], day);
    assert ([s[0]] + OnDay(s[1..], day))[1..] == OnDay(s[1..], day);
  }

  /** Nothing else is a stable sort of the same moves. */
  lemma {:induction false} StableSortIsUnique(s: seq<RawTransfer>, s': seq<RawTransfer>)
    requires ByDate(s) && ByDate(s') && (forall day :: OnDay(s, day) == OnDay(s', day))
    ensures s == s'
    decreases |s|
  {
    assert s != [] ==> |OnDay(s, s[0].date)| > 0;
    assert s' != [] ==> |OnDay(s', s'[0].date)| > 0;
    assert s == [] <==> s' == [];
    if s != [] {
      FirstDay(s, s'[0].date);
      FirstDay(s', s[0].date);
      assert OnDay(s, s[0].date)[0] == s[0] && OnDay(s', s[0].date)[0] == s'[0];
      forall day ensures OnDay(s[1..], day) == OnDay(s'[1..], day) {
        OnDayStep(s, day);
        OnDayStep(s', day);
      }
      StableSortIsUnique(s[1..], s'[1..]);
    }
  }

  /** No move of a sorted history falls before its first. */
  lemma {:induction false} FirstDay(s: seq<RawTransfer>, day: int)
    requires ByDate(s) && s != [] && OnDay(s, day) != []
    ensures s[0].date <= day
    decreases |s|
  {
    if s[0].date != day { FirstDay(s[1..], day); }
  }

  // ------------------------------------------------------------- the rules

  predicate NoFee(t: RawTransfer) {
    t.fee.None? || t.fee.value == 0
  }

  predicate FreeMove(t: RawTransfer) {
    t.fee == Some(0)
  }

  /** A free move between two real clubs: the only kind that can be a loan. */
  predicate Eligible(n: Names, t: RawTransfer) {
    FreeMove(t) && t.fromId != "" && t.toId != "" && !n.noClub(t.toName) && !n.noClub(t.fromName)
  }

  /** j is the first later departure from the club move i went to, it goes back to where
      i came from, within the window, and without a fee. */
  predicate Reverses(s: seq<RawTransfer>, i: nat, j: nat) {
    && i < j < |s|
    && s[j].fromId == s[i].toId
    && (forall k :: i < k < j ==> s[k].fromId != s[i].toId)
    && s[j].date - s[i].date <= LOAN_WINDOW
    && s[j].toId == s[i].fromId
    && NoFee(s[j])
  }

  ghost predicate IsLoan(n: Names, s: seq<RawTransfer>, i: nat)
    requires i < |s|
    decreases i, 1
  {
    Eligible(n, s[i]) && !IsReturn(n, s, i) && exists j: nat :: Reverses(s, i, j)
  }

  ghost predicate IsReturn(n: Names, s: seq<RawTransfer>, j: nat)
    requires j < |s|
    decreases j, 0
  {
    exists i: nat :: i < j && IsLoan(n, s, i) && Reverses(s, i, j)
  }

  /** The kind of a move that is neither half of a loan. */
  function PlainKind(n: Names, t: RawTransfer): Kind {
    if n.retired(t.toName) then Retired
    else if n.noClub(t.toName) then Released
    else if n.youthSide(t.fromName) && NoFee(t) then YouthPromotion
    else if FreeMove(t) then Free
    else Permanent
  }

  ghost function KindOf(n: Names, s: seq<RawTransfer>, i: nat): Kind
    requires i < |s|
  {
    if IsReturn(n, s, i) then LoanReturn else if IsLoan(n, s, i) then Loan else PlainKind(n, s[i])
  }

  /** Minor units: 0 for a loan return, none for an undisclosed fee. */
  ghost function FeeOf(n: Names, s: seq<RawTransfer>, i: nat): Option<int>
    requires i < |s|
  {
    if IsReturn(n, s, i) then Some(0) else if s[i].fee.None? then None else Some(s[i].fee.value * 100)
  }

  /** The whole classification: every move of the stably sorted history, typed. */
  ghost function Classified(n: Names, moves: seq<RawTransfer>): seq<Move> {
    var s := Sorted(moves);
    seq(|s|, i requires 0 <= i < |s| => Move(s[i], KindOf(n, s, i), FeeOf(n, s, i)))
  }

  // ---------------------------------------------------------- the algorithm

  /** The scan for a reversal: it stops at the window, at the reversal, or at the first
      other departure. */
  method FindReversal(s: seq<RawTransfer>, i: nat) returns (found: Option<nat>)
    requires i < |s| && ByDate(s)
    ensures found.Some? ==> Reverses(s, i, found.value)
    ensures found.None? ==> forall j: nat :: !Reverses(s, i, j)
  {
    var j := i + 1;
    while j < |s|
      invariant i < j <= |s|
      invariant forall k :: i < k < j ==> s[k].fromId != s[i].toId
    {
      if s[j].date - s[i].date > LOAN_WINDOW {
        return None;
      }
      if s[j].fromId == s[i].toId && s[j].toId == s[i].fromId && NoFee(s[j]) {
        return Some(j);
      }
      if s[j].fromId == s[i].toId {
        return None;
      }
      j := j + 1;
    }
    return None;
  }

  method MarkLoans(n: Names, s: seq<RawTransfer>) returns (loans: set<nat>, returnOf: set<nat>)
    requires ByDate(s)
    ensures forall i: nat :: i in loans <==> i < |s| && IsLoan(n, s, i)
    ensures forall j: nat :: j in returnOf <==> j < |s| && IsReturn(n, s, j)
  {
    loans, returnOf := {}, {};
    var i := 0;
    while i < |s|
      invariant i <= |s|
      invariant forall k: nat :: k in loans <==> k < i && IsLoan(n, s, k)
      invariant forall j: nat :: j in returnOf <==> exists k :: k in loans && Reverses(s, k, j)
    {
      assert i in returnOf <==> IsReturn(n, s, i);
      if i !in returnOf && Eligible(n, s[i]) {
        var found := FindReversal(s, i);
        if found.Some? {
          assert Reverses(s, i, found.value);
          assert forall j: nat :: Reverses(s, i, j) ==> j == found.value;
          loans := loans + {i};
          returnOf := returnOf + {found.value};
        }
      }
      i := i + 1;
    }
    forall j: nat | j < |s| ensures j in returnOf <==> IsReturn(n, s, j) {}
  }

  function Typed(n: Names, t: RawTransfer, isLoan: bool, isReturn: bool): Move {
    if isReturn then Move(t, LoanReturn, Some(0))
    else
      var kind := if isLoan then Loan else PlainKind(n, t);
      Move(t, kind, if t.fee.Some? then Some(t.fee.value * 100) else None)
  }

  lemma TypedAsSpecified(n: Names, s: seq<RawTransfer>, i: nat)
    requires i < |s|
    ensures Typed(n, s[i], IsLoan(n, s, i), IsReturn(n, s, i)) == Move(s[i], KindOf(n, s, i), FeeOf(n, s, i))
  {}

  method ClassifyMoves(n: Names, moves: seq<RawTransfer>) returns (out: seq<Move>)
    ensures out == Classified(n, moves)
  {
    var s := Sorted(moves);
    SortedIsStable(moves);
    var loans, returnOf := MarkLoans(n, s);
    out := [];
    var i := 0;
    while i < |s|
      invariant i <= |s| == |moves|
      invariant |out| == i
      invariant forall k :: 0 <= k < i ==> out[k] == Typed(n, s[k], k in loans, k in returnOf)
    {
      out := out + [Typed(n, s[i], i in loans, i in returnOf)];
      i := i + 1;
    }
    forall k: nat | k < |s| ensures out[k] == Move(s[k], KindOf(n, s, k), FeeOf(n, s, k)) {
      TypedAsSpecified(n, s, k);
    }
  }

  // ----------------------------------------------- what the types amount to

  /** The order in which moves of different days arrive does not matter. */
  lemma ArrivalOrderIsIrrelevant(n: Names, moves: seq<RawTransfer>, moves': seq<RawTransfer>)
    requires forall day :: OnDay(moves, day) == OnDay(moves', day)
    ensures Classified(n, moves) == Classified(n, moves')
  {
    SortedIsStable(moves);
    SortedIsStable(moves');
    forall day ensures OnDay(Sorted(moves), day) == OnDay(Sorted(moves'), day) {
      assert OnDay(moves, day) == OnDay(moves', day);
    }
    StableSortIsUnique(Sorted(moves), Sorted(moves'));
  }

  ghost predicate OnlyReversal(s: seq<RawTransfer>, i: nat, j: nat) {
    Reverses(s, i, j) && forall k: nat :: Reverses(s, i, k) ==> k == j
  }

  /** Every loan is ended by exactly one return, which brings the player back within the
      window; and every return ends an earlier loan. */
  lemma LoansAndReturnsPairUp(n: Names, s: seq<RawTransfer>)
    ensures forall i: nat :: i < |s| && KindOf(n, s, i) == Loan ==>
      (exists j: nat :: i < j < |s| && KindOf(n, s, j) == LoanReturn && OnlyReversal(s, i, j))
    ensures forall j: nat :: j < |s| && KindOf(n, s, j) == LoanReturn ==>
      exists i: nat :: i < j && KindOf(n, s, i) == Loan && Reverses(s, i, j)
  {
    forall i: nat | i < |s| && KindOf(n, s, i) == Loan
      ensures exists j: nat :: i < j < |s| && KindOf(n, s, j) == LoanReturn && OnlyReversal(s, i, j)
    {
      PlainKindIsPlain(n, s[i]);
      var j: nat :| Reverses(s, i, j);
      assert IsReturn(n, s, j) && OnlyReversal(s, i, j);
    }
    forall j: nat | j < |s| && KindOf(n, s, j) == LoanReturn
      ensures exists i: nat :: i < j && KindOf(n, s, i) == Loan && Reverses(s, i, j)
    {
      PlainKindIsPlain(n, s[j]);
      var i: nat :| i < j && IsLoan(n, s, i) && Reverses(s, i, j);
      assert KindOf(n, s, i) == Loan;
    }
  }

  /** A half of a loan, said on the moves themselves: move i leaves a real club for another
      without a fee, and move j is the first departure from there, straight back, undisclosed
      or free, within two years and sixty days. */
  ghost predicate LoanPair(n: Names, s: seq<RawTransfer>, i: nat, j: nat) {
    && i < j < |s|
    && s[i].fee == Some(0) && s[i].fromId != "" && s[i].toId != ""
    && !n.noClub(s[i].fromName) && !n.noClub(s[i].toName)
    && s[j].fromId == s[i].toId && s[j].toId == s[i].fromId
    && (forall k :: i < k < j ==> s[k].fromId != s[i].toId)
    && s[j].date <= s[i].date + 790
    && (s[j].fee == None || s[j].fee == Some(0))
  }

  /** The loans are the outbound halves that do not themselves end a loan, and the returns
      are what they pair with. */
  lemma {:induction false} LoansByTheMoves(n: Names, s: seq<RawTransfer>, i: nat)
    requires i < |s|
    ensures KindOf(n, s, i) == LoanReturn <==>
      exists k: nat :: k < i && KindOf(n, s, k) == Loan && LoanPair(n, s, k, i)
    ensures KindOf(n, s, i) == Loan <==>
      KindOf(n, s, i) != LoanReturn && exists j: nat :: LoanPair(n, s, i, j)
  {
    PlainKindIsPlain(n, s[i]);
    forall k: nat, j: nat ensures LoanPair(n, s, k, j) <==> Reverses(s, k, j) && Eligible(n, s[k]) {}
    forall k: nat | k < i ensures KindOf(n, s, k) == Loan <==> IsLoan(n, s, k) && !IsReturn(n, s, k) {
      PlainKindIsPlain(n, s[k]);
    }
  }

  /** What the other moves are called, in order of precedence, and what each cost. */
  lemma {:induction false} PlainMovesByTheFields(n: Names, s: seq<RawTransfer>, i: nat)
    requires i < |s| && !IsLoan(n, s, i) && !IsReturn(n, s, i)
    ensures var t := s[i];
      var youth := n.youthSide(t.fromName) && (t.fee == None || t.fee == Some(0));
      && (KindOf(n, s, i) == Retired <==> n.retired(t.toName))
      && (KindOf(n, s, i) == Released <==> !n.retired(t.toName) && n.noClub(t.toName))
      && (KindOf(n, s, i) == YouthPromotion <==> !n.retired(t.toName) && !n.noClub(t.toName) && youth)
      && (KindOf(n, s, i) == Free <==>
            !n.retired(t.toName) && !n.noClub(t.toName) && !youth && t.fee == Some(0))
      && (KindOf(n, s, i) == Permanent <==>
            !n.retired(t.toName) && !n.noClub(t.toName) && !youth && t.fee != Some(0))
  {}

  /** A return costs nothing; any other fee is in hundredths, and undisclosed stays so. */
  lemma {:induction false} FeesInHundredths(n: Names, moves: seq<RawTransfer>, i: nat)
    requires i < |moves|
    ensures var m := Classified(n, moves)[i]; var raw := Sorted(moves)[i];
      && m.raw == raw
      && (m.kind == LoanReturn ==> m.feeMinor == Some(0))
      && (m.kind != LoanReturn ==> (m.feeMinor.None? <==> raw.fee.None?))
      && (m.kind != LoanReturn && raw.fee.Some? ==> m.feeMinor == Some(100 * raw.fee.value))
  {
    PlainKindIsPlain(n, Sorted(moves)[i]);
  }

  lemma PlainKindIsPlain(n: Names, t: RawTransfer)
    ensures PlainKind(n, t) != Loan && PlainKind(n, t) != LoanReturn
  {}

  /** A sale that is later bought back for a fee stays two plain moves: when the first
      later departure carries a fee, the outbound move is no loan. */
  lemma BuyBackIsNoLoan(n: Names, s: seq<RawTransfer>, i: nat, j: nat)
    requires i < j < |s| && s[j].fromId == s[i].toId && !NoFee(s[j])
    requires forall k :: i < k < j ==> s[k].fromId != s[i].toId
    ensures KindOf(n, s, i) != Loan && KindOf(n, s, j) != LoanReturn
  {
    PlainKindIsPlain(n, s[i]);
    PlainKindIsPlain(n, s[j]);
    assert forall k: nat :: !Reverses(s, i, k);
  }

  /** Once the window after a move has passed, later history cannot change its type. */
  lemma {:induction false} SettledAfterTheWindow(n: Names, s: seq<RawTransfer>, more: seq<RawTransfer>, i: nat)
    requires i < |s| && ByDate(s)
    requires forall k :: 0 <= k < |more| ==> more[k].date > s[i].date + LOAN_WINDOW
    ensures IsLoan(n, s + more, i) == IsLoan(n, s, i)
    ensures IsReturn(n, s + more, i) == IsReturn(n, s, i)
    ensures KindOf(n, s + more, i) == KindOf(n, s, i)
    decreases i
  {
    var all := s + more;
    assert forall x :: 0 <= x < |s| ==> s[x] == all[x];
    assert forall x :: |s| <= x < |all| ==> all[x] == more[x - |s|];
    forall k: nat, j: nat | k <= i ensures Reverses(all, k, j) == Reverses(s, k, j) {}
    forall k: nat | k < i ensures IsLoan(n, all, k) == IsLoan(n, s, k) {
      SettledAfterTheWindow(n, s, more, k);
    }
    assert all[i] == s[i];
    assert IsReturn(n, all, i) == IsReturn(n, s, i);
    assert (exists j: nat :: Reverses(all, i, j)) == (exists j: nat :: Reverses(s, i, j));
  }
}
