/** The law of balances: what the statuses of the rows say against what really moved. */
module LedgerLaw {
  import opened Ledger
  import opened JobService
  import opened LedgerRuns
  import opened CallbackRuns

  // --- What a status says is held ----------------------------------------------------

  /** Running and completed jobs paid with credits hold their charge. */
  function HeldOf(status: JobStatus, h: History, c: Currency): int {
    if h.mode == Credits && (status == JobRunning || status == JobCompleted) then In(h.charge, c) else 0
  }

  function HeldBy(j: JobRecord, h: History, user: User, c: Currency): int {
    if h.user == user then HeldOf(j.status, h, c) else 0
  }

  function Held(jobs: seq<JobRecord>, histories: seq<History>, user: User, c: Currency): int
    requires |jobs| == |histories|
  {
    if jobs == [] then 0
    else
      var n := |jobs| - 1;
      Held(jobs[..n], histories[..n], user, c) + HeldBy(jobs[n], histories[n], user, c)
  }

  type Fault = (History, CompleteReply) -> bool

  ghost predicate Has(h: History, fault: Fault) {
    !RowWithout(h, fault)
  }

  ghost function ChargeIf(h: History, fault: Fault, user: User, c: Currency): int {
    if h.user == user && Has(h, fault) then In(h.charge, c) else 0
  }

  /** The charges of the user's rows for which such a settlement was made. */
  ghost function Total(histories: seq<History>, fault: Fault, user: User, c: Currency): int {
    if histories == [] then 0
    else
      var n := |histories| - 1;
      Total(histories[..n], fault, user, c) + ChargeIf(histories[n], fault, user, c)
  }

  // --- One row -----------------------------------------------------------------------

  /** For a row that nothing is under way for and that was settled at most once. */
  ghost predicate Quiet(status: JobStatus, h: History) {
    && |h.settlements| <= 1 && h.charge.NonNegative()
    && (h.settlements == [] <==> status == JobRunning)
    && (status != JobRunning ==> Explained(h.settlements, status))
    && (forall s :: s in h.settlements ==> SettlementOk(h, s))
  }

  ghost function ExpectedNet(h: History, status: JobStatus, c: Currency): int {
    HeldOf(status, h, c) - (if Has(h, IsEscrowReturn) then In(h.charge, c) else 0) + (if Has(h, IsKept) then In(h.charge, c) else 0)
  }

  lemma OneSettlement(h: History, s: CompleteReply, fault: Fault, c: Currency)
    requires h.settlements == [s]
    ensures Has(h, fault) <==> fault(h, s)
    ensures Returned(h.settlements, c) == if s.ChargeReturned? then In(s.amount, c) else 0
    ensures forall status :: Explained(h.settlements, status) <==> Matches(s, status)
  {
    assert s in h.settlements;
    assert h.settlements == [] + [s];
    ReturnedAppend([], s, c);
  }

  /**
   * The status tells the truth about the money, apart from an escrow charge that was paid
   * out and a charge whose refund failed.
   */
  lemma QuietRow(h: History, status: JobStatus, c: Currency)
    requires Quiet(status, h)
    ensures NetOf(h, c) == ExpectedNet(h, status, c)
  {
    if h.settlements != [] {
      var s := h.settlements[0];
      assert h.settlements == [s] && s in h.settlements;
      OneSettlement(h, s, IsEscrowReturn, c);
      OneSettlement(h, s, IsKept, c);
    }
  }

  // --- All rows ----------------------------------------------------------------------

  ghost predicate AllQuiet(jobs: seq<JobRecord>, histories: seq<History>) {
    |jobs| == |histories| && forall i :: 0 <= i < |jobs| ==> Quiet(jobs[i].status, histories[i])
  }

  lemma {:induction false} HeldIsNet(jobs: seq<JobRecord>, histories: seq<History>, user: User, c: Currency)
    requires AllQuiet(jobs, histories)
    ensures Held(jobs, histories, user, c) ==
              Net(histories, user, c) + Total(histories, IsEscrowReturn, user, c) - Total(histories, IsKept, user, c)
  {
    if jobs != [] {
      var n := |jobs| - 1;
      HeldIsNet(jobs[..n], histories[..n], user, c);
      QuietRow(histories[n], jobs[n].status, c);
    }
  }

  lemma SettledRowsAreQuiet(w: World)
    requires Sound(w) && w.flight == map[] && EachSettledOnce(w)
    ensures AllQuiet(w.books.jobs, w.histories)
  {
    forall i | 0 <= i < |w.histories| ensures Quiet(w.books.jobs[i].status, w.histories[i]) {
      assert RowStatusOk(w, i) && RowSettledOnce(w.histories[i]);
      assert RowOk(w.books.accounts, w.books.jobs[i], w.histories[i]);
      assert !PaidOn(w.flight, i);
    }
  }

  /** What the ledger owes its users, and what they owe it. */
  ghost predicate Law(w: World, user: User, c: Currency)
    requires |w.histories| == |w.books.jobs|
  {
    In(BalanceOf(w.books.accounts, user), c) + Held(w.books.jobs, w.histories, user, c)
    == In(BalanceOf(w.deposited, user), c)
       + Total(w.histories, IsEscrowReturn, user, c)
       - (Total(w.histories, IsKept, user, c) + In(BalanceOf(w.lost, user), c))
  }

  /**
   * After a run in which nothing was settled over something else and everything has finished: balance
   * plus what running and completed credits-mode jobs hold equals deposits, plus escrow
   * charges that were paid out, less what failed submissions and failed refunds kept.
   */
  lemma LawOfBalances(events: seq<Event>, user: User, c: Currency)
    requires Legal(EMPTY, events) && Run(EMPTY, events).flight == map[] && Never(EMPTY, events, Overlaps)
    ensures Sound(Run(EMPTY, events)) && Law(Run(EMPTY, events), user, c)
  {
    EmptyIsSound();
    RunsAreExact(EMPTY, events);
    SettledOnceExactly(events);
    var end := Run(EMPTY, events);
    SettledRowsAreQuiet(end);
    HeldIsNet(end.books.jobs, end.histories, user, c);
    assert Balanced(end, user, c);
  }

  // --- When the plain law holds ------------------------------------------------------

  /** Every fault concerns a positive charge. */
  ghost predicate Matters(fault: Fault) {
    forall h: History, s: CompleteReply :: fault(h, s) ==> Positive(h.charge)
  }

  ghost predicate ChargesOk(histories: seq<History>) {
    forall i :: 0 <= i < |histories| ==> histories[i].charge.NonNegative()
  }

  lemma {:induction false} TotalBounds(histories: seq<History>, fault: Fault, user: User, c: Currency)
    requires ChargesOk(histories)
    ensures Total(histories, fault, user, c) >= 0
    ensures forall i :: 0 <= i < |histories| ==> Total(histories, fault, user, c) >= ChargeIf(histories[i], fault, user, c)
    ensures RowsFree(histories, fault) ==> Total(histories, fault, user, c) == 0
  {
    if histories != [] {
      var n := |histories| - 1;
      TotalBounds(histories[..n], fault, user, c);
      assert In(histories[n].charge, c) >= 0;
      assert RowsFree(histories, fault) ==> !Has(histories[n], fault);
      assert forall i :: 0 <= i < n ==> histories[..n][i] == histories[i];
    }
  }

  ghost predicate RowsFree(histories: seq<History>, fault: Fault) {
    forall i :: 0 <= i < |histories| ==> !Has(histories[i], fault)
  }

  ghost predicate ZeroTotal(histories: seq<History>, fault: Fault, user: User, c: Currency) {
    Total(histories, fault, user, c) == 0
  }

  /** All totals vanish exactly if there is no such settlement. */
  lemma TotalsVanishExactly(histories: seq<History>, fault: Fault)
    requires ChargesOk(histories) && Matters(fault)
    ensures (forall u, c :: ZeroTotal(histories, fault, u, c)) <==> RowsFree(histories, fault)
  {
    forall u, c ensures RowsFree(histories, fault) ==> ZeroTotal(histories, fault, u, c) {
      TotalBounds(histories, fault, u, c);
    }
    if !RowsFree(histories, fault) {
      var i :| 0 <= i < |histories| && Has(histories[i], fault);
      var h := histories[i];
      var s :| s in h.settlements && fault(h, s);
      var c := if h.charge.cusdc > 0 then Cusdc else Blind;
      TotalBounds(histories, fault, h.user, c);
      assert ChargeIf(h, fault, h.user, c) > 0;
      assert !ZeroTotal(histories, fault, h.user, c);
    }
  }

  predicate PlainFor(w: World, user: User, c: Currency)
    requires |w.histories| == |w.books.jobs|
  {
    In(BalanceOf(w.books.accounts, user), c) == In(BalanceOf(w.deposited, user), c) - Held(w.books.jobs, w.histories, user, c)
  }

  /** The law one would want: every balance is the deposits less the outstanding charges. */
  ghost predicate PlainlyBalanced(w: World)
    requires |w.histories| == |w.books.jobs|
  {
    forall u, c :: PlainFor(w, u, c)
  }

  lemma RowsFreeIsWithout(w: World, fault: Fault)
    ensures RowsFree(w.histories, fault) <==> RowsWithout(w, fault)
  {
  }

  lemma NothingKeptExactly(w: World)
    requires Aligned(w) && RowsOk(w) && NonNegative(w.lost)
    ensures NothingKept(w) <==>
              forall u, c :: KeptIsZero(w, u, c)
  {
    assert ChargesOk(w.histories) by {
      assert forall i :: 0 <= i < |w.histories| ==> RowOk(w.books.accounts, w.books.jobs[i], w.histories[i]);
    }
    TotalsVanishExactly(w.histories, IsKept);
    RowsFreeIsWithout(w, IsKept);
    forall u, c ensures KeptIsZero(w, u, c) <==> ZeroTotal(w.histories, IsKept, u, c) && LostNothing(w.lost, u, c) {
      TotalBounds(w.histories, IsKept, u, c);
      assert In(BalanceOf(w.lost, u), c) >= 0;
    }
  }

  ghost predicate KeptIsZero(w: World, user: User, c: Currency) {
    Total(w.histories, IsKept, user, c) + In(BalanceOf(w.lost, user), c) == 0
  }

  lemma ReturnsVanishExactly(w: World)
    requires Aligned(w) && RowsOk(w)
    ensures RowsWithout(w, IsEscrowReturn) <==> forall u, c :: ZeroTotal(w.histories, IsEscrowReturn, u, c)
  {
    assert ChargesOk(w.histories) by {
      assert forall i :: 0 <= i < |w.histories| ==> RowOk(w.books.accounts, w.books.jobs[i], w.histories[i]);
    }
    TotalsVanishExactly(w.histories, IsEscrowReturn);
    RowsFreeIsWithout(w, IsEscrowReturn);
  }

  /**
   * The plain law, for runs without overlaps in which everything has finished. If no
   * escrow charge was paid out, it holds exactly if no submission broke after a positive
   * deduction and no refund failed. If nothing was kept so, it holds exactly if no callback
   * returned a charge to an escrow-mode job, whose row has lost its payment mode.
   */
  lemma PlainLawExactly(events: seq<Event>)
    requires Legal(EMPTY, events) && Run(EMPTY, events).flight == map[] && Never(EMPTY, events, Overlaps)
    ensures Sound(Run(EMPTY, events))
    ensures Never(EMPTY, events, ReturnsEscrowCharge) ==>
              (PlainlyBalanced(Run(EMPTY, events)) <==> Never(EMPTY, events, KeepsMoney))
    ensures Never(EMPTY, events, KeepsMoney) ==>
              (PlainlyBalanced(Run(EMPTY, events)) <==> Never(EMPTY, events, ReturnsEscrowCharge))
  {
    EmptyIsSound();
    RunsAreExact(EMPTY, events);
    var end := Run(EMPTY, events);
    NothingKeptExactly(end);
    ReturnsVanishExactly(end);
    forall u, c ensures ZeroTotal(end.histories, IsEscrowReturn, u, c) ==> (PlainFor(end, u, c) <==> KeptIsZero(end, u, c))
      ensures KeptIsZero(end, u, c) ==> (PlainFor(end, u, c) <==> ZeroTotal(end.histories, IsEscrowReturn, u, c))
    {
      LawOfBalances(events, u, c);
    }
  }

  // --- Settled once and true to every row --------------------------------------------

  ghost predicate TrueRow(j: JobRecord, h: History) {
    RowSettledOnce(h) && NetOf(h, Cusdc) == HeldOf(j.status, h, Cusdc) && NetOf(h, Blind) == HeldOf(j.status, h, Blind)
  }

  /** Every row was settled at most once and holds exactly what its status says, and nothing was taken without a row. */
  ghost predicate Clean(w: World)
    requires |w.histories| == |w.books.jobs|
  {
    NothingLost(w.lost) && forall i :: 0 <= i < |w.histories| ==> TrueRow(w.books.jobs[i], w.histories[i])
  }

  lemma TrueRowExactly(j: JobRecord, h: History)
    requires Quiet(j.status, h)
    ensures TrueRow(j, h) <==> !Has(h, IsEscrowReturn) && !Has(h, IsKept)
  {
    QuietRow(h, j.status, Cusdc);
    QuietRow(h, j.status, Blind);
    if h.settlements != [] {
      assert h.settlements == [h.settlements[0]];
      OneSettlement(h, h.settlements[0], IsEscrowReturn, Cusdc);
      OneSettlement(h, h.settlements[0], IsKept, Cusdc);
      assert IsEscrowReturn(h, h.settlements[0]) || IsKept(h, h.settlements[0]) ==>
          In(h.charge, Cusdc) > 0 || In(h.charge, Blind) > 0;
    }
  }

  /**
   * The books are clean exactly if no callback or submission settled a row over another
   * one, none returned a charge to an escrow-mode job, and no call failed between taking a
   * positive charge and giving it back.
   */
  lemma CleanExactly(events: seq<Event>)
    requires Legal(EMPTY, events) && Run(EMPTY, events).flight == map[]
    ensures Sound(Run(EMPTY, events))
    ensures Clean(Run(EMPTY, events)) <==>
              Never(EMPTY, events, Overlaps) && Never(EMPTY, events, ReturnsEscrowCharge) && Never(EMPTY, events, KeepsMoney)
  {
    EmptyIsSound();
    RunsAreExact(EMPTY, events);
    SettledOnceExactly(events);
    var end := Run(EMPTY, events);
    if EachSettledOnce(end) {
      SettledRowsAreQuiet(end);
      forall i | 0 <= i < |end.histories|
        ensures TrueRow(end.books.jobs[i], end.histories[i]) <==>
                  RowWithout(end.histories[i], IsEscrowReturn) && RowWithout(end.histories[i], IsKept)
      {
        TrueRowExactly(end.books.jobs[i], end.histories[i]);
      }
    } else {
      var i :| 0 <= i < |end.histories| && !RowSettledOnce(end.histories[i]);
      assert !TrueRow(end.books.jobs[i], end.histories[i]);
    }
  }
}
