/**
 * What overlapping callbacks and submissions, and lost calls, do to the rows: exactly when
 * every row is settled once, and which steps return or keep what they should not.
 */
module CallbackRuns {
  import opened Prelude
  import opened Ledger
  import opened JobService
  import opened LedgerRuns

  // --- Rows and what is under way for them -------------------------------------------

  /** This callback has paid for row `i` and not yet written it. */
  predicate PaysFor(flight: map<nat, Visit>, v: nat, i: nat) {
    v in flight && flight[v].Paid? && flight[v].row == i
  }

  ghost predicate PaidOn(flight: map<nat, Visit>, i: nat) {
    exists v :: PaysFor(flight, v, i)
  }

  /** This submission has marked row `i` failed and not yet returned the charge. */
  predicate GivesFor(flight: map<nat, Visit>, v: nat, i: nat) {
    v in flight && flight[v].GivenUp? && flight[v].row == i
  }

  ghost predicate GivenOn(flight: map<nat, Visit>, i: nat) {
    exists v :: GivesFor(flight, v, i)
  }

  /** Callbacks that have found the row running and submissions that have given it up, and have yet to pay. */
  function Bound(flight: map<nat, Visit>, i: nat): set<nat> {
    set v | v in flight && (flight[v].Reading? || flight[v].GivenUp?) && flight[v].row == i
  }

  /** Some callback is between its read and its write of the row, or a submission between its mark and its refund. */
  ghost predicate Busy(flight: map<nat, Visit>, i: nat) {
    exists v :: v in flight && flight[v].row == i && !flight[v].Forwarding?
  }

  /** A settlement and the status that its callback writes. */
  predicate Matches(s: CompleteReply, status: JobStatus) {
    Rewards(s) <==> status == JobCompleted
  }

  ghost predicate Explained(settlements: seq<CompleteReply>, status: JobStatus) {
    exists s :: s in settlements && Matches(s, status)
  }

  /** What a settlement says about the charge. */
  predicate SettlementOk(h: History, s: CompleteReply) {
    && Settles(s)
    && (s.ChargeReturned? ==> s.amount == h.charge)
    && (s.NothingReturned? && h.mode == Credits ==> !Positive(h.charge))
  }

  predicate Positive(a: Amounts) {
    a.cusdc > 0 || a.blind > 0
  }

  /**
   * A row is running exactly as long as nothing has been settled for it and no submission
   * has given it up, apart from callbacks that have paid and not yet written; a status, and
   * what a callback is about to write, is explained by some settlement.
   */
  ghost predicate StatusOk(h: History, status: JobStatus, flight: map<nat, Visit>, i: nat) {
    && (h.settlements == [] && !GivenOn(flight, i) <==> status == JobRunning && !PaidOn(flight, i))
    && (GivenOn(flight, i) ==> status != JobRunning)
    && (status != JobRunning ==> Explained(h.settlements, status) || (status == JobFailed && GivenOn(flight, i)))
    && (forall v :: PaysFor(flight, v, i) ==> Explained(h.settlements, FinalStatus(flight[v].callback.status)))
    && (forall s :: s in h.settlements ==> SettlementOk(h, s))
  }

  ghost predicate RowStatusOk(w: World, i: nat)
    requires i < |w.histories| == |w.books.jobs|
  {
    StatusOk(w.histories[i], w.books.jobs[i].status, w.flight, i)
  }

  ghost predicate StatusesOk(w: World)
    requires |w.histories| == |w.books.jobs|
  {
    forall i :: 0 <= i < |w.histories| ==> RowStatusOk(w, i)
  }

  ghost predicate Sound(w: World) {
    Conserved(w) && StatusesOk(w)
  }

  /** Neither a payment nor a refund of row `i` begins or ends between the two. */
  ghost predicate SameActors(flight: map<nat, Visit>, flight': map<nat, Visit>, i: nat) {
    && (forall v :: PaysFor(flight', v, i) <==> PaysFor(flight, v, i))
    && (forall v :: PaysFor(flight, v, i) ==> flight'[v].callback == flight[v].callback)
    && (forall v :: GivesFor(flight', v, i) <==> GivesFor(flight, v, i))
  }

  lemma Unconcerned(h: History, status: JobStatus, flight: map<nat, Visit>, flight': map<nat, Visit>, i: nat)
    requires StatusOk(h, status, flight, i) && SameActors(flight, flight', i)
    ensures StatusOk(h, status, flight', i)
  {
  }

  lemma MoreExplained(settlements: seq<CompleteReply>, reply: CompleteReply, status: JobStatus)
    ensures Explained(settlements, status) ==> Explained(settlements + [reply], status)
    ensures Matches(reply, status) ==> Explained(settlements + [reply], status)
  {
    assert reply in settlements + [reply];
  }

  lemma SubmitKeepsStatuses(w: World, v: nat, jobId: string, r: JobRequest, luck: Luck)
    requires Aligned(w) && StatusesOk(w) && v !in w.flight
    ensures |AfterSubmit(w, v, jobId, r, luck).histories| == |AfterSubmit(w, v, jobId, r, luck).books.jobs|
    ensures StatusesOk(AfterSubmit(w, v, jobId, r, luck))
  {
    var w' := AfterSubmit(w, v, jobId, r, luck);
    EnrollEffect(w.books, jobId, r, luck);
    forall i | 0 <= i < |w'.histories| ensures RowStatusOk(w', i) {
      if i < |w.histories| {
        assert RowStatusOk(w, i);
        Unconcerned(w.histories[i], w.books.jobs[i].status, w.flight, w'.flight, i);
      }
    }
  }

  /** Steps that neither pay, refund nor write. */
  lemma FlightKeepsStatuses(w: World, flight: map<nat, Visit>)
    requires |w.histories| == |w.books.jobs| && StatusesOk(w)
    requires forall i :: 0 <= i < |w.histories| ==> SameActors(w.flight, flight, i)
    ensures StatusesOk(w.(flight := flight))
  {
    var w' := w.(flight := flight);
    forall i | 0 <= i < |w'.histories| ensures RowStatusOk(w', i) {
      assert RowStatusOk(w, i) && SameActors(w.flight, flight, i);
      Unconcerned(w.histories[i], w.books.jobs[i].status, w.flight, flight, i);
    }
  }

  lemma GivingUpKeepsStatus(h: History, status: JobStatus, flight: map<nat, Visit>, v: nat, i: nat)
    requires StatusOk(h, status, flight, i) && v in flight && flight[v].Forwarding? && flight[v].row == i
    ensures StatusOk(h, JobFailed, flight[v := GivenUp(i, flight[v].request)], i)
  {
    var flight' := flight[v := GivenUp(i, flight[v].request)];
    assert GivesFor(flight', v, i);
    assert forall u :: PaysFor(flight', u, i) ==> PaysFor(flight, u, i);
  }

  /** Only one row is concerned. */
  lemma OthersUnconcerned(w: World, w': World, row: nat)
    requires row < |w.histories| == |w.books.jobs| == |w'.histories| == |w'.books.jobs|
    requires StatusesOk(w) && RowStatusOk(w', row)
    requires forall i :: 0 <= i < |w.histories| && i != row ==>
               w'.histories[i] == w.histories[i] && w'.books.jobs[i] == w.books.jobs[i] && SameActors(w.flight, w'.flight, i)
    ensures StatusesOk(w')
  {
    forall i | 0 <= i < |w'.histories| ensures RowStatusOk(w', i) {
      assert RowStatusOk(w, i);
      if i != row {
        Unconcerned(w.histories[i], w.books.jobs[i].status, w.flight, w'.flight, i);
      }
    }
  }

  lemma GivingUpKeepsStatuses(w: World, v: nat)
    requires Aligned(w) && StatusesOk(w) && Possible(w, GivesUp(v))
    ensures StatusesOk(AfterGivingUp(w, v))
  {
    var row := w.flight[v].row;
    assert RowStatusOk(w, row);
    GivingUpKeepsStatus(w.histories[row], w.books.jobs[row].status, w.flight, v, row);
    OthersUnconcerned(w, AfterGivingUp(w, v), row);
  }

  lemma UnwindKeepsStatus(h: History, status: JobStatus, flight: map<nat, Visit>, v: nat, i: nat, reply: CompleteReply)
    requires StatusOk(h, status, flight, i) && GivesFor(flight, v, i) && SettlementOk(h, reply) && !Rewards(reply)
    ensures StatusOk(h.(settlements := h.settlements + [reply]), status, flight - {v}, i)
  {
    var more := h.(settlements := h.settlements + [reply]);
    assert GivenOn(flight, i);
    MoreExplained(h.settlements, reply, status);
    forall u | PaysFor(flight - {v}, u, i) ensures Explained(more.settlements, FinalStatus(flight[u].callback.status)) {
      assert PaysFor(flight, u, i);
      MoreExplained(h.settlements, reply, FinalStatus(flight[u].callback.status));
    }
    assert SettlementOk(more, reply);
  }

  lemma UnwindingIsOk(b: Books, r: JobRequest, ok: bool, h: History)
    requires ReadOk(GivenUp(0, r), h)
    ensures SettlementOk(h, Unwind(b, r, ok).1) && !Rewards(Unwind(b, r, ok).1)
  {
    UnwindEffect(b, r, ok);
  }

  lemma UnwindKeepsStatuses(w: World, v: nat, ok: bool)
    requires Aligned(w) && StatusesOk(w) && Possible(w, Unwinds(v, ok)) && ReadOk(w.flight[v], w.histories[w.flight[v].row])
    ensures StatusesOk(AfterUnwind(w, v, ok))
  {
    var visit := w.flight[v];
    assert RowStatusOk(w, visit.row);
    UnwindingIsOk(w.books, visit.request, ok, w.histories[visit.row]);
    UnwindEffect(w.books, visit.request, ok);
    var reply := Unwind(w.books, visit.request, ok).1;
    UnwindKeepsStatus(w.histories[visit.row], w.books.jobs[visit.row].status, w.flight, v, visit.row, reply);
    OthersUnconcerned(w, AfterUnwind(w, v, ok), visit.row);
  }

  lemma PayKeepsStatus(h: History, status: JobStatus, flight: map<nat, Visit>, v: nat, i: nat, reply: CompleteReply)
    requires StatusOk(h, status, flight, i) && v in flight && flight[v].Reading? && flight[v].row == i
    requires SettlementOk(h, reply) && Matches(reply, FinalStatus(flight[v].callback.status))
    ensures StatusOk(h.(settlements := h.settlements + [reply]), status, flight[v := Paid(i, flight[v].callback)], i)
  {
    var more := h.settlements + [reply];
    var flight' := flight[v := Paid(i, flight[v].callback)];
    MoreExplained(h.settlements, reply, status);
    forall u | PaysFor(flight', u, i) ensures Explained(more, FinalStatus(flight'[u].callback.status)) {
      assert u != v ==> PaysFor(flight, u, i);
      MoreExplained(h.settlements, reply, FinalStatus(flight'[u].callback.status));
    }
    assert PaysFor(flight', v, i);
    assert forall u :: GivesFor(flight', u, i) <==> GivesFor(flight, u, i);
  }

  lemma PaymentIsOk(b: Books, j: JobRecord, c: Callback, ok: bool, h: History)
    requires StoredAmounts(j) == Some(h.charge) && j.storedMode == None && h.charge.NonNegative()
    ensures SettlementOk(h, Pay(b, j, c, ok).1) && Matches(Pay(b, j, c, ok).1, FinalStatus(c.status))
  {
    PayEffect(b, j, c, ok);
  }

  lemma PayKeepsStatuses(w: World, v: nat, ok: bool)
    requires Aligned(w) && StatusesOk(w) && Possible(w, Pays(v, ok))
    requires ReadOk(w.flight[v], w.histories[w.flight[v].row]) && w.histories[w.flight[v].row].charge.NonNegative()
    ensures StatusesOk(AfterPay(w, v, ok))
  {
    var visit := w.flight[v];
    assert RowStatusOk(w, visit.row);
    PaymentIsOk(w.books, visit.job, visit.callback, ok, w.histories[visit.row]);
    PayEffect(w.books, visit.job, visit.callback, ok);
    var reply := Pay(w.books, visit.job, visit.callback, ok).1;
    PayKeepsStatus(w.histories[visit.row], w.books.jobs[visit.row].status, w.flight, v, visit.row, reply);
    OthersUnconcerned(w, AfterPay(w, v, ok), visit.row);
  }

  lemma TermsOf(w: World, v: nat)
    requires Conserved(w) && v in w.flight
    ensures ReadOk(w.flight[v], w.histories[w.flight[v].row]) && w.histories[w.flight[v].row].charge.NonNegative()
  {
    assert RowOk(w.books.accounts, w.books.jobs[w.flight[v].row], w.histories[w.flight[v].row]);
  }

  lemma WriteKeepsStatus(h: History, status: JobStatus, flight: map<nat, Visit>, v: nat, i: nat)
    requires StatusOk(h, status, flight, i) && PaysFor(flight, v, i)
    ensures StatusOk(h, FinalStatus(flight[v].callback.status), flight - {v}, i)
  {
    assert forall u :: PaysFor(flight - {v}, u, i) ==> PaysFor(flight, u, i);
    assert PaidOn(flight, i);
  }

  lemma WriteKeepsStatuses(w: World, v: nat)
    requires Aligned(w) && StatusesOk(w) && v in w.flight && w.flight[v].Paid?
    ensures
      var visit := w.flight[v];
      StatusesOk(w.(books := WriteRow(w.books, visit.row, visit.callback), flight := w.flight - {v}))
  {
    var visit := w.flight[v];
    assert RowStatusOk(w, visit.row);
    WriteKeepsStatus(w.histories[visit.row], w.books.jobs[visit.row].status, w.flight, v, visit.row);
    OthersUnconcerned(w, w.(books := WriteRow(w.books, visit.row, visit.callback), flight := w.flight - {v}), visit.row);
  }

  lemma DepositKeepsStatuses(w: World, e: Event)
    requires Aligned(w) && StatusesOk(w) && e.Deposits? && Possible(w, e)
    ensures StatusesOk(After(w, e))
  {
    forall i | 0 <= i < |w.histories| ensures RowStatusOk(After(w, e), i) {
      assert RowStatusOk(w, i);
    }
  }

  lemma BeginKeepsStatuses(w: World, v: nat, identifier: string, c: Callback)
    requires Aligned(w) && StatusesOk(w) && v !in w.flight
    ensures StatusesOk(After(w, Begins(v, identifier, c)))
  {
    var begun := Begin(w.books, identifier, c);
    if begun.Ok? {
      FlightKeepsStatuses(w, w.flight[v := begun.value]);
    }
  }

  lemma LeaveKeepsStatuses(w: World, v: nat)
    requires Aligned(w) && StatusesOk(w) && Possible(w, Leaves(v))
    ensures StatusesOk(w.(flight := w.flight - {v}))
  {
    FlightKeepsStatuses(w, w.flight - {v});
  }

  lemma AfterKeepsStatuses(w: World, e: Event)
    requires Conserved(w) && StatusesOk(w) && Possible(w, e)
    ensures |After(w, e).histories| == |After(w, e).books.jobs| && StatusesOk(After(w, e))
  {
    match e
    case Deposits(_, _) => DepositKeepsStatuses(w, e);
    case Submits(v, jobId, r, luck) => SubmitKeepsStatuses(w, v, jobId, r, luck);
    case Leaves(v) => LeaveKeepsStatuses(w, v);
    case GivesUp(v) => GivingUpKeepsStatuses(w, v);
    case Unwinds(v, ok) =>
      TermsOf(w, v);
      UnwindKeepsStatuses(w, v, ok);
    case Begins(v, identifier, c) => BeginKeepsStatuses(w, v, identifier, c);
    case Pays(v, ok) =>
      TermsOf(w, v);
      PayKeepsStatuses(w, v, ok);
    case Writes(v) => WriteKeepsStatuses(w, v);
  }

  lemma AfterKeepsSound(w: World, e: Event)
    requires Sound(w) && Possible(w, e)
    ensures Sound(After(w, e))
  {
    AfterConserves(w, e);
    AfterKeepsStatuses(w, e);
  }

  // --- Settled once ------------------------------------------------------------------

  /** Settlements made, and settlements that are sure to come. */
  function Commitments(w: World, i: nat): nat
    requires i < |w.histories|
  {
    |w.histories[i].settlements| + |Bound(w.flight, i)|
  }

  /** This event is a callback that finds row `i` running. */
  ghost predicate Enters(w: World, e: Event, i: nat) {
    e.Begins? && Begin(w.books, e.identifier, e.callback).Ok? && Begin(w.books, e.identifier, e.callback).value.row == i
  }

  /** This event is a submission that gives up forwarding the job of row `i`, without looking at the row. */
  ghost predicate Drops(w: World, e: Event, i: nat) {
    e.GivesUp? && e.visit in w.flight && w.flight[e.visit].Forwarding? && w.flight[e.visit].row == i
  }

  /**
   * A callback finds the row running, or a submission gives it up, while a callback is
   * between its read and its write of it; or a submission gives up a row that has been
   * written already.
   */
  ghost predicate Doubles(w: World, e: Event, i: nat) {
    || (Enters(w, e, i) && Busy(w.flight, i))
    || (Drops(w, e, i) && i < |w.books.jobs| && (Busy(w.flight, i) || w.books.jobs[i].status != JobRunning))
  }

  ghost predicate Overlaps(w: World, e: Event) {
    exists i :: Doubles(w, e, i)
  }

  lemma ActorsAreBusy(flight: map<nat, Visit>, i: nat)
    ensures PaidOn(flight, i) || Bound(flight, i) != {} <==> Busy(flight, i)
    ensures GivenOn(flight, i) ==> Bound(flight, i) != {}
  {
    assert forall v :: v in flight && flight[v].row == i && !flight[v].Forwarding? ==> v in Bound(flight, i) || PaysFor(flight, v, i);
    assert forall v :: v in Bound(flight, i) || PaysFor(flight, v, i) ==> v in flight && flight[v].row == i && !flight[v].Forwarding?;
    assert forall v :: GivesFor(flight, v, i) ==> v in Bound(flight, i);
  }

  /** Nothing is committed for a row exactly as long as it is running and nobody is busy with it. */
  lemma UncommittedExactly(w: World, i: nat)
    requires Sound(w) && i < |w.histories|
    ensures Commitments(w, i) == 0 <==> w.books.jobs[i].status == JobRunning && !Busy(w.flight, i)
  {
    assert RowStatusOk(w, i);
    ActorsAreBusy(w.flight, i);
  }

  lemma BoundWith(flight: map<nat, Visit>, v: nat, visit: Visit, i: nat)
    requires v !in flight || flight[v].Forwarding?
    ensures |Bound(flight[v := visit], i)| ==
              |Bound(flight, i)| + if visit.row == i && (visit.Reading? || visit.GivenUp?) then 1 else 0
  {
    assert Bound(flight[v := visit], i) ==
           Bound(flight, i) + if visit.row == i && (visit.Reading? || visit.GivenUp?) then {v} else {};
  }

  lemma BoundAfterPay(flight: map<nat, Visit>, v: nat, paid: Visit, i: nat)
    requires v in flight && flight[v].Reading? && paid.Paid?
    ensures |Bound(flight[v := paid], i)| == |Bound(flight, i)| - if flight[v].row == i then 1 else 0
  {
    assert Bound(flight[v := paid], i) == Bound(flight, i) - {v};
    assert v in Bound(flight, i) <==> flight[v].row == i;
  }

  lemma BoundWithout(flight: map<nat, Visit>, v: nat, i: nat)
    requires v in flight
    ensures |Bound(flight - {v}, i)| ==
              |Bound(flight, i)| - if flight[v].row == i && (flight[v].Reading? || flight[v].GivenUp?) then 1 else 0
  {
    assert Bound(flight - {v}, i) == Bound(flight, i) - {v};
    assert v in Bound(flight, i) <==> flight[v].row == i && (flight[v].Reading? || flight[v].GivenUp?);
  }

  /** Only such steps commit the service to one more settlement of a row. */
  lemma CommitmentsGrow(w: World, e: Event, i: nat)
    requires Aligned(w) && Possible(w, e) && i < |w.histories|
    ensures i < |After(w, e).histories|
    ensures Commitments(After(w, e), i) == Commitments(w, i) + if Enters(w, e, i) || Drops(w, e, i) then 1 else 0
  {
    match e
    case Submits(v, jobId, r, luck) =>
      EnrollEffect(w.books, jobId, r, luck);
      BoundWith(w.flight, v, Forwarding(|w.books.jobs|, r), i);
    case Leaves(v) => BoundWithout(w.flight, v, i);
    case GivesUp(v) => BoundWith(w.flight, v, GivenUp(w.flight[v].row, w.flight[v].request), i);
    case Unwinds(v, _) => BoundWithout(w.flight, v, i);
    case Begins(v, identifier, c) =>
      if Begin(w.books, identifier, c).Ok? {
        BoundWith(w.flight, v, Begin(w.books, identifier, c).value, i);
      }
    case Pays(v, _) => BoundAfterPay(w.flight, v, Paid(w.flight[v].row, w.flight[v].callback), i);
    case Writes(v) => BoundWithout(w.flight, v, i);
    case Deposits(_, _) =>
  }

  ghost predicate CommittedOnce(w: World, i: nat)
    requires i < |w.histories|
  {
    Commitments(w, i) <= 1
  }

  ghost predicate SettledOnce(w: World) {
    forall i :: 0 <= i < |w.histories| ==> CommittedOnce(w, i)
  }

  lemma EntersRunning(w: World, e: Event, i: nat)
    requires Enters(w, e, i)
    ensures i < |w.books.jobs| && w.books.jobs[i].status == JobRunning
  {
  }

  lemma RowSettlesOnceExactly(w: World, e: Event, i: nat)
    requires Sound(w) && Possible(w, e) && i < |w.histories|
    ensures i < |After(w, e).histories|
    ensures CommittedOnce(After(w, e), i) <==> CommittedOnce(w, i) && !Doubles(w, e, i)
  {
    CommitmentsGrow(w, e, i);
    UncommittedExactly(w, i);
    if Enters(w, e, i) {
      EntersRunning(w, e, i);
    }
  }

  /** One step commits the service to at most one settlement of every row exactly if it did before and the step doubles none. */
  lemma StepSettlesOnceExactly(w: World, e: Event)
    requires Sound(w) && Possible(w, e)
    ensures SettledOnce(After(w, e)) <==> SettledOnce(w) && !Overlaps(w, e)
  {
    var w' := After(w, e);
    RowsOnlyGrow(w, e);
    forall i | 0 <= i < |w'.histories|
      ensures CommittedOnce(w', i) <==> (i < |w.histories| ==> CommittedOnce(w, i) && !Doubles(w, e, i))
    {
      if i < |w.histories| {
        RowSettlesOnceExactly(w, e, i);
      } else {
        NewRowIsCommittedOnce(w, e, i);
      }
    }
    if Overlaps(w, e) {
      var i :| Doubles(w, e, i);
      DoublesARow(w, e, i);
      assert !CommittedOnce(w', i);
    }
  }

  lemma DoublesARow(w: World, e: Event, i: nat)
    requires Doubles(w, e, i)
    ensures i < |w.books.jobs|
  {
  }

  lemma RowsOnlyGrow(w: World, e: Event)
    requires Aligned(w) && Possible(w, e)
    ensures |w.histories| <= |After(w, e).histories|
  {
  }

  lemma NewRowIsCommittedOnce(w: World, e: Event, i: nat)
    requires Aligned(w) && Possible(w, e) && |w.histories| <= i < |After(w, e).histories|
    ensures Commitments(After(w, e), i) <= 1
  {
    assert e.Submits?;
    assert After(w, e).histories[i].settlements == [];
    assert Bound(After(w, e).flight, i) == {};
  }

  // --- Money that should not have moved, and money that should have ------------------

  /** Pays out a charge that was never taken. */
  ghost predicate ReturnsEscrowCharge(w: World, e: Event) {
    && e.Pays? && e.visit in w.flight && w.flight[e.visit].Reading? && w.flight[e.visit].row < |w.histories|
    && w.histories[w.flight[e.visit].row].mode == Escrow
    && OwesRefund(w.flight[e.visit].job, w.flight[e.visit].callback)
    && e.ok && w.flight[e.visit].job.user in w.books.accounts
  }

  /** Keeps a positive charge for nothing: a submission that breaks after its deduction, or a refund that fails. */
  ghost predicate KeepsMoney(w: World, e: Event) {
    match e
    case Submits(_, jobId, r, luck) => Positive(Charge(r)) && LosesCharge(r, Enroll(w.books, jobId, r, luck).1)
    case Unwinds(v, ok) =>
      v in w.flight && w.flight[v].GivenUp? && w.flight[v].request.mode == Credits && Positive(Charge(w.flight[v].request)) && !ok
    case Pays(v, ok) =>
      && v in w.flight && w.flight[v].Reading? && w.flight[v].row < |w.histories|
      && w.histories[w.flight[v].row].mode == Credits
      && OwesRefund(w.flight[v].job, w.flight[v].callback) && !ok
    case _ => false
  }

  predicate IsEscrowReturn(h: History, s: CompleteReply) {
    Positive(h.charge) && h.mode == Escrow && s.ChargeReturned?
  }

  predicate IsKept(h: History, s: CompleteReply) {
    Positive(h.charge) && h.mode == Credits && s.RefundFailed?
  }

  ghost predicate RowWithout(h: History, bad: (History, CompleteReply) -> bool) {
    forall s :: s in h.settlements ==> !bad(h, s)
  }

  ghost predicate RowsWithout(w: World, bad: (History, CompleteReply) -> bool) {
    forall i :: 0 <= i < |w.histories| ==> RowWithout(w.histories[i], bad)
  }

  predicate LostNothing(lost: map<User, Amounts>, user: User, c: Currency) {
    In(BalanceOf(lost, user), c) == 0
  }

  ghost predicate NothingLost(lost: map<User, Amounts>) {
    forall u, c :: LostNothing(lost, u, c)
  }

  /** Neither has a submission lost a charge, nor has a refund of one failed. */
  ghost predicate NothingKept(w: World) {
    NothingLost(w.lost) && RowsWithout(w, IsKept)
  }

  lemma BookingAdds(histories: seq<History>, row: nat, reply: CompleteReply, bad: (History, CompleteReply) -> bool)
    requires row < |histories|
    requires forall h: History, more, s :: bad(h.(settlements := more), s) == bad(h, s)
    ensures (forall i :: 0 <= i < |histories| ==> RowWithout(Booked(histories, row, reply)[i], bad)) <==>
              (forall i :: 0 <= i < |histories| ==> RowWithout(histories[i], bad)) && !bad(histories[row], reply)
  {
    var h, after := histories[row], Booked(histories, row, reply);
    assert after[row].settlements == h.settlements + [reply];
    forall i | 0 <= i < |histories|
      ensures RowWithout(after[i], bad) <==> RowWithout(histories[i], bad) && (i == row ==> !bad(h, reply))
    {
      if i == row {
        assert reply in after[i].settlements;
        assert forall s :: s in after[i].settlements <==> s in h.settlements || s == reply;
      }
    }
  }

  lemma NewRowIsWithout(histories: seq<History>, h: History, bad: (History, CompleteReply) -> bool)
    requires h.settlements == []
    ensures (forall i :: 0 <= i < |histories + [h]| ==> RowWithout((histories + [h])[i], bad)) <==>
              (forall i :: 0 <= i < |histories| ==> RowWithout(histories[i], bad))
  {
    assert forall i :: 0 <= i < |histories| ==> (histories + [h])[i] == histories[i];
  }

  lemma SubmitReturnsNothing(w: World, v: nat, jobId: string, r: JobRequest, luck: Luck)
    ensures RowsWithout(AfterSubmit(w, v, jobId, r, luck), IsEscrowReturn) <==> RowsWithout(w, IsEscrowReturn)
  {
    NewRowIsWithout(w.histories, History(r.user, r.mode, Charge(r), []), IsEscrowReturn);
  }

  lemma UnwindReturnsNothing(w: World, v: nat, ok: bool)
    requires Conserved(w) && Possible(w, Unwinds(v, ok))
    ensures RowsWithout(AfterUnwind(w, v, ok), IsEscrowReturn) <==> RowsWithout(w, IsEscrowReturn)
  {
    var visit := w.flight[v];
    assert ReadOk(visit, w.histories[visit.row]);
    BookingAdds(w.histories, visit.row, Unwind(w.books, visit.request, ok).1, IsEscrowReturn);
  }

  lemma PayReturnsExactly(w: World, v: nat, ok: bool)
    requires Conserved(w) && Possible(w, Pays(v, ok))
    ensures RowsWithout(AfterPay(w, v, ok), IsEscrowReturn) <==> RowsWithout(w, IsEscrowReturn) && !ReturnsEscrowCharge(w, Pays(v, ok))
  {
    var visit := w.flight[v];
    assert ReadOk(visit, w.histories[visit.row]);
    PayEffect(w.books, visit.job, visit.callback, ok);
    BookingAdds(w.histories, visit.row, Pay(w.books, visit.job, visit.callback, ok).1, IsEscrowReturn);
  }

  lemma StepReturnsExactly(w: World, e: Event)
    requires Sound(w) && Possible(w, e)
    ensures RowsWithout(After(w, e), IsEscrowReturn) <==> RowsWithout(w, IsEscrowReturn) && !ReturnsEscrowCharge(w, e)
  {
    match e
    case Submits(v, jobId, r, luck) => SubmitReturnsNothing(w, v, jobId, r, luck);
    case Unwinds(v, ok) => UnwindReturnsNothing(w, v, ok);
    case Pays(v, ok) => PayReturnsExactly(w, v, ok);
    case _ =>
  }

  lemma AddedLoss(lost: map<User, Amounts>, user: User, charge: Amounts, u: User, c: Currency)
    requires NonNegative(lost) && charge.NonNegative()
    ensures LostNothing(lost[user := BalanceOf(lost, user).Plus(charge)], u, c) <==>
              LostNothing(lost, u, c) && (u == user ==> In(charge, c) == 0)
  {
    assert In(BalanceOf(lost, u), c) >= 0;
  }

  lemma PointwiseLoss(lost: map<User, Amounts>, more: map<User, Amounts>, user: User, charge: Amounts)
    requires charge.NonNegative()
    requires forall u, c :: LostNothing(more, u, c) <==> LostNothing(lost, u, c) && (u == user ==> In(charge, c) == 0)
    ensures NothingLost(more) <==> NothingLost(lost) && !Positive(charge)
  {
    assert Positive(charge) <==> In(charge, Cusdc) != 0 || In(charge, Blind) != 0;
    if NothingLost(more) {
      assert LostNothing(more, user, Cusdc) && LostNothing(more, user, Blind);
    }
  }

  lemma AddingLosesExactly(lost: map<User, Amounts>, user: User, charge: Amounts)
    requires NonNegative(lost) && charge.NonNegative()
    ensures NothingLost(lost[user := BalanceOf(lost, user).Plus(charge)]) <==> NothingLost(lost) && !Positive(charge)
  {
    var more := lost[user := BalanceOf(lost, user).Plus(charge)];
    forall u, c ensures LostNothing(more, u, c) <==> LostNothing(lost, u, c) && (u == user ==> In(charge, c) == 0) {
      AddedLoss(lost, user, charge, u, c);
    }
    PointwiseLoss(lost, more, user, charge);
  }

  lemma SubmitKeepsExactly(w: World, v: nat, jobId: string, r: JobRequest, luck: Luck)
    requires NonNegative(w.lost)
    ensures NothingKept(AfterSubmit(w, v, jobId, r, luck)) <==>
              NothingKept(w) && !(Positive(Charge(r)) && LosesCharge(r, Enroll(w.books, jobId, r, luck).1))
  {
    NewRowIsWithout(w.histories, History(r.user, r.mode, Charge(r), []), IsKept);
    AddingLosesExactly(w.lost, r.user, Charge(r));
  }

  lemma PayKeepsExactly(w: World, v: nat, ok: bool)
    requires Sound(w) && Possible(w, Pays(v, ok))
    ensures NothingKept(AfterPay(w, v, ok)) <==> NothingKept(w) && !KeepsMoney(w, Pays(v, ok))
  {
    var visit := w.flight[v];
    BookingAdds(w.histories, visit.row, Pay(w.books, visit.job, visit.callback, ok).1, IsKept);
    PayEffect(w.books, visit.job, visit.callback, ok);
    assert ReadOk(visit, w.histories[visit.row]) && RowOk(w.books.accounts, w.books.jobs[visit.row], w.histories[visit.row]);
  }

  lemma UnwindKeepsExactly(w: World, v: nat, ok: bool)
    requires Sound(w) && Possible(w, Unwinds(v, ok))
    ensures NothingKept(AfterUnwind(w, v, ok)) <==> NothingKept(w) && !KeepsMoney(w, Unwinds(v, ok))
  {
    var visit := w.flight[v];
    BookingAdds(w.histories, visit.row, Unwind(w.books, visit.request, ok).1, IsKept);
    assert ReadOk(visit, w.histories[visit.row]) && RowOk(w.books.accounts, w.books.jobs[visit.row], w.histories[visit.row]);
  }

  lemma StepKeepsExactly(w: World, e: Event)
    requires Sound(w) && Possible(w, e)
    ensures NothingKept(After(w, e)) <==> NothingKept(w) && !KeepsMoney(w, e)
  {
    match e
    case Submits(v, jobId, r, luck) => SubmitKeepsExactly(w, v, jobId, r, luck);
    case Unwinds(v, ok) => UnwindKeepsExactly(w, v, ok);
    case Pays(v, ok) => PayKeepsExactly(w, v, ok);
    case _ =>
  }

  // --- Runs --------------------------------------------------------------------------

  ghost predicate Never(w: World, events: seq<Event>, bad: (World, Event) -> bool)
    requires Legal(w, events)
    decreases events
  {
    events == [] || (!bad(w, events[0]) && Never(After(w, events[0]), events[1..], bad))
  }

  lemma {:induction false} RunsAreExact(w: World, events: seq<Event>)
    requires Sound(w) && Legal(w, events)
    ensures Sound(Run(w, events))
    ensures SettledOnce(Run(w, events)) <==> SettledOnce(w) && Never(w, events, Overlaps)
    ensures RowsWithout(Run(w, events), IsEscrowReturn) <==> RowsWithout(w, IsEscrowReturn) && Never(w, events, ReturnsEscrowCharge)
    ensures NothingKept(Run(w, events)) <==> NothingKept(w) && Never(w, events, KeepsMoney)
    decreases events
  {
    if events != [] {
      AfterKeepsSound(w, events[0]);
      StepSettlesOnceExactly(w, events[0]);
      StepReturnsExactly(w, events[0]);
      StepKeepsExactly(w, events[0]);
      RunsAreExact(After(w, events[0]), events[1..]);
    }
  }

  lemma EmptyIsSound()
    ensures Sound(EMPTY) && SettledOnce(EMPTY) && RowsWithout(EMPTY, IsEscrowReturn) && NothingKept(EMPTY)
  {
    EmptyIsConserved();
  }

  predicate RowSettledOnce(h: History) {
    |h.settlements| <= 1
  }

  ghost predicate EachSettledOnce(w: World) {
    forall i :: 0 <= i < |w.histories| ==> RowSettledOnce(w.histories[i])
  }

  lemma QuietCommitments(w: World)
    requires w.flight == map[]
    ensures EachSettledOnce(w) <==> SettledOnce(w)
  {
    forall i | 0 <= i < |w.histories| ensures CommittedOnce(w, i) <==> RowSettledOnce(w.histories[i]) {
      assert Bound(w.flight, i) == {};
    }
  }

  /**
   * When nothing is under way, every row has been paid or refunded at most once exactly if
   * no callback ever found a row running, and no submission ever gave one up, while another
   * callback was between its read and its write of it, and no submission gave up a row that
   * was already written.
   */
  lemma SettledOnceExactly(events: seq<Event>)
    requires Legal(EMPTY, events) && Run(EMPTY, events).flight == map[]
    ensures EachSettledOnce(Run(EMPTY, events)) <==> Never(EMPTY, events, Overlaps)
  {
    EmptyIsSound();
    RunsAreExact(EMPTY, events);
    QuietCommitments(Run(EMPTY, events));
  }
}
