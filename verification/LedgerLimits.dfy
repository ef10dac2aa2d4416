/** Runs that break the plain law of balances, for every job and every amount. */
module LedgerLimits {
  import opened Prelude
  import opened Ledger
  import opened JobService
  import opened LedgerRuns
  import opened CallbackRuns

  // --- The guards of the failing branches --------------------------------------------

  /** A charge is paid out to an escrow job exactly if it has a price, its user an account, and the callback is no success. */
  lemma EscrowReturnGuard(w: World, v: nat, ok: bool)
    requires Sound(w) && Possible(w, Pays(v, ok))
    ensures
      var h := w.histories[w.flight[v].row];
      ReturnsEscrowCharge(w, Pays(v, ok)) <==>
        h.mode == Escrow && w.flight[v].callback.status != SuccessCallback && Positive(h.charge) && ok && h.user in w.books.accounts
  {
    assert ReadOk(w.flight[v], w.histories[w.flight[v].row]);
  }

  /** A refund keeps money exactly if it fails for a job that was charged. */
  lemma FailedRefundGuard(w: World, v: nat, ok: bool)
    requires Sound(w) && Possible(w, Pays(v, ok))
    ensures
      var h := w.histories[w.flight[v].row];
      KeepsMoney(w, Pays(v, ok)) <==>
        h.mode == Credits && w.flight[v].callback.status != SuccessCallback && Positive(h.charge) && !ok
  {
    assert ReadOk(w.flight[v], w.histories[w.flight[v].row]);
  }

  // --- Overlapping callbacks ---------------------------------------------------------

  /** Nothing keeps a second callback from beginning while a first one is under way with the row. */
  lemma CallbacksCanOverlap(w: World, i: nat, identifier: string, a: nat, b: nat, c1: Callback, c2: Callback)
    requires Sound(w) && i < |w.histories| && w.books.jobs[i].status == JobRunning
    requires Lookup(w.books.jobs, identifier) == Some(i) && a != b && a !in w.flight && b !in w.flight
    ensures
      var w' := After(w, Begins(a, identifier, c1));
      && Aligned(w') && Possible(w', Begins(b, identifier, c2)) && Overlaps(w', Begins(b, identifier, c2))
      && Begin(w'.books, identifier, c2) == Ok(Reading(i, w.books.jobs[i], c2))
  {
    assert RowOk(w.books.accounts, w.books.jobs[i], w.histories[i]);
    var w' := After(w, Begins(a, identifier, c1));
    AfterConserves(w, Begins(a, identifier, c1));
    assert a in w'.flight && w'.flight[a].row == i;
    assert Doubles(w', Begins(b, identifier, c2), i);
  }

  /**
   * Whatever job it is, if two callbacks both read it as running before either writes it,
   * both pay. Two refusals give the user the charge back twice, and two successes offer the
   * reward twice; the row shows the status of whichever writes last.
   */
  lemma OverlappingCallbacksSettleTwice(b: Books, identifier: string, c1: Callback, c2: Callback)
    requires Begin(b, identifier, c1).Ok? && Begin(b, identifier, c2).Ok?
    ensures
      var v := Begin(b, identifier, c1).value;
      var (once, one) := Pay(b, v.job, c1, true);
      var (twice, two) := Pay(once, v.job, c2, true);
      var end := WriteRow(WriteRow(twice, v.row, c1), v.row, c2);
      && Begin(b, identifier, c2).value.job == v.job && Settles(one) && Settles(two)
      && end.jobs[v.row].status == FinalStatus(c2.status)
      && (OwesRefund(v.job, c1) && OwesRefund(v.job, c2) && v.job.user in b.accounts ==>
            end.accounts[v.job.user] == b.accounts[v.job.user].Plus(StoredAmounts(v.job).value).Plus(StoredAmounts(v.job).value))
      && (c1.status == SuccessCallback && c2.status == SuccessCallback ==> one.RewardPaid? && two == one)
  {
    var j := Begin(b, identifier, c1).value.job;
    PayEffect(b, j, c1, true);
    PayEffect(Pay(b, j, c1, true).0, j, c2, true);
  }

  // --- Submissions that give up ------------------------------------------------------

  /**
   * A submission whose forwarding only seemed to fail marks its row and returns the charge
   * without looking at the row: if a callback has written it by then, the job is settled
   * once more, and a COMPLETED job becomes FAILED with its charge returned.
   */
  lemma GivingUpOverridesSettlement(w: World, v: nat)
    requires Sound(w) && v in w.flight && w.flight[v].Forwarding? && w.books.jobs[w.flight[v].row].status != JobRunning
    requires w.flight[v].request.mode == Credits
    ensures
      var i, h := w.flight[v].row, w.histories[w.flight[v].row];
      && Possible(w, GivesUp(v)) && Overlaps(w, GivesUp(v))
      && var w1 := After(w, GivesUp(v));
      && Aligned(w1) && Possible(w1, Unwinds(v, true)) && w1.books.jobs[i].status == JobFailed
      && After(w1, Unwinds(v, true)).histories[i].settlements == h.settlements + [ChargeReturned(h.charge)]
      && BalanceOf(After(w1, Unwinds(v, true)).books.accounts, h.user) == BalanceOf(w.books.accounts, h.user).Plus(h.charge)
  {
    var i := w.flight[v].row;
    assert Doubles(w, GivesUp(v), i);
    TermsOf(w, v);
    assert RowOk(w.books.accounts, w.books.jobs[i], w.histories[i]);
    GivingUpConserves(w, v);
    UnwindEffect(After(w, GivesUp(v)).books, w.flight[v].request, true);
  }

  // --- Escrow jobs -------------------------------------------------------------------

  /**
   * Whatever is running against an escrow and has a price: rejecting it, with nothing
   * overlapping, pays its user credits that were never charged.
   */
  lemma EscrowRejectionPaysUnearnedCredits(w: World, i: nat, identifier: string, v: nat, c: Callback)
    requires Sound(w) && i < |w.histories| && w.books.jobs[i].status == JobRunning && v !in w.flight
    requires Lookup(w.books.jobs, identifier) == Some(i) && c.status != SuccessCallback
    requires w.histories[i].mode == Escrow && Positive(w.histories[i].charge) && w.histories[i].user in w.books.accounts
    ensures
      var w1 := After(w, Begins(v, identifier, c));
      && Aligned(w1) && Possible(w1, Pays(v, true)) && ReturnsEscrowCharge(w1, Pays(v, true))
      && var w2 := After(w1, Pays(v, true));
      && Aligned(w2) && Possible(w2, Writes(v))
      && BalanceOf(After(w2, Writes(v)).books.accounts, w.histories[i].user) ==
           w.books.accounts[w.histories[i].user].Plus(w.histories[i].charge)
  {
    assert RowOk(w.books.accounts, w.books.jobs[i], w.histories[i]);
    AfterKeepsSound(w, Begins(v, identifier, c));
    var w1 := After(w, Begins(v, identifier, c));
    EscrowReturnGuard(w1, v, true);
    PayEffect(w1.books, w.books.jobs[i], c, true);
    AfterKeepsSound(w1, Pays(v, true));
  }
}
