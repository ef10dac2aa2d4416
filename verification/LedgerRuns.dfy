/**
 * The ledger over every run of deposits, submissions and completion callbacks, all of whose
 * steps interleave and all of whose calls may fail.
 */
module LedgerRuns {
  import opened Prelude
  import opened Ledger
  import opened JobService

  /** How a row was really submitted, and every payment or refund made for it, in order. */
  datatype History = History(user: User, mode: PaymentMode, charge: Amounts, settlements: seq<CompleteReply>)

  /**
   * The books, the submissions and callbacks under way, and what the service does not store: the histories of
   * the rows, what each user has deposited, and what submissions took without leaving a row.
   */
  datatype World = World(
    books: Books,
    histories: seq<History>,
    deposited: map<User, Amounts>,
    lost: map<User, Amounts>,
    flight: map<nat, Visit>)

  datatype Event =
    | Deposits(user: User, amount: Amounts)
    | Submits(visit: nat, jobId: string, request: JobRequest, luck: Luck)
    | Leaves(visit: nat)
    | GivesUp(visit: nat)
    | Unwinds(visit: nat, ok: bool)
    | Begins(visit: nat, identifier: string, callback: Callback)
    | Pays(visit: nat, ok: bool)
    | Writes(visit: nat)

  const EMPTY := World(Books(map[], []), [], map[], map[], map[])

  /** Whatever is under way refers to a row, and a callback has read its amounts. */
  ghost predicate Aligned(w: World) {
    && |w.histories| == |w.books.jobs|
    && (forall v :: v in w.flight ==> w.flight[v].row < |w.books.jobs|)
    && (forall v :: v in w.flight && w.flight[v].Reading? ==> StoredAmounts(w.flight[v].job).Some?)
  }

  /** Deposits are not negative, job ids are never reused, and submissions and callbacks take their steps in order. */
  ghost predicate Possible(w: World, e: Event) {
    match e
    case Deposits(_, amount) => amount.NonNegative()
    case Submits(v, jobId, _, _) => v !in w.flight && forall j :: j in w.books.jobs ==> j.jobId != jobId
    case Leaves(v) => v in w.flight && w.flight[v].Forwarding?
    case GivesUp(v) => v in w.flight && w.flight[v].Forwarding?
    case Unwinds(v, _) => v in w.flight && w.flight[v].GivenUp?
    case Begins(v, _, _) => v !in w.flight
    case Pays(v, _) => v in w.flight && w.flight[v].Reading?
    case Writes(v) => v in w.flight && w.flight[v].Paid?
  }

  function AfterSubmit(w: World, v: nat, jobId: string, r: JobRequest, luck: Luck): World {
    var (books, reply) := Enroll(w.books, jobId, r, luck);
    Entered(w, v, r, books, reply)
  }

  /** A submission that has enrolled tries to forward its job; one that has not may have lost its charge. */
  function Entered(w: World, v: nat, r: JobRequest, books: Books, reply: SubmitReply): World {
    if reply == Submitted then
      w.(books := books,
         histories := w.histories + [History(r.user, r.mode, Charge(r), [])],
         flight := w.flight[v := Forwarding(|w.books.jobs|, r)])
    else if LosesCharge(r, reply) then
      w.(books := books, lost := w.lost[r.user := BalanceOf(w.lost, r.user).Plus(Charge(r))])
    else w.(books := books)
  }

  function AfterGivingUp(w: World, v: nat): World
    requires v in w.flight && w.flight[v].Forwarding? && w.flight[v].row < |w.books.jobs|
  {
    var visit := w.flight[v];
    w.(books := MarkRow(w.books, visit.row), flight := w.flight[v := GivenUp(visit.row, visit.request)])
  }

  /** One more payment or refund for a row. */
  function Booked(histories: seq<History>, row: nat, reply: CompleteReply): seq<History>
    requires row < |histories|
  {
    histories[row := histories[row].(settlements := histories[row].settlements + [reply])]
  }

  function AfterUnwind(w: World, v: nat, ok: bool): World
    requires v in w.flight && w.flight[v].GivenUp? && w.flight[v].row < |w.histories|
  {
    var visit := w.flight[v];
    var (books, reply) := Unwind(w.books, visit.request, ok);
    w.(books := books, histories := Booked(w.histories, visit.row, reply), flight := w.flight - {v})
  }

  function AfterPay(w: World, v: nat, ok: bool): World
    requires v in w.flight && w.flight[v].Reading? && w.flight[v].row < |w.histories| && StoredAmounts(w.flight[v].job).Some?
  {
    var visit := w.flight[v];
    var (books, reply) := Pay(w.books, visit.job, visit.callback, ok);
    w.(books := books, histories := Booked(w.histories, visit.row, reply), flight := w.flight[v := Paid(visit.row, visit.callback)])
  }

  ghost function After(w: World, e: Event): World
    requires Aligned(w) && Possible(w, e)
  {
    match e
    case Deposits(user, amount) =>
      w.(books := Books(DepositRpc(w.books.accounts, user, amount), w.books.jobs),
         deposited := w.deposited[user := BalanceOf(w.deposited, user).Plus(amount)])
    case Submits(v, jobId, r, luck) => AfterSubmit(w, v, jobId, r, luck)
    case Leaves(v) => w.(flight := w.flight - {v})
    case GivesUp(v) => AfterGivingUp(w, v)
    case Unwinds(v, ok) => AfterUnwind(w, v, ok)
    case Begins(v, identifier, c) =>
      var begun := Begin(w.books, identifier, c);
      if begun.Ok? then w.(flight := w.flight[v := begun.value]) else w
    case Pays(v, ok) => AfterPay(w, v, ok)
    case Writes(v) => w.(books := WriteRow(w.books, w.flight[v].row, w.flight[v].callback), flight := w.flight - {v})
  }

  // --- Sums --------------------------------------------------------------------------

  datatype Currency = Cusdc | Blind

  function In(a: Amounts, c: Currency): int {
    if c == Cusdc then a.cusdc else a.blind
  }

  function Returned(settlements: seq<CompleteReply>, c: Currency): int {
    if settlements == [] then 0
    else
      var last := settlements[|settlements| - 1];
      Returned(settlements[..|settlements| - 1], c) + if last.ChargeReturned? then In(last.amount, c) else 0
  }

  /** What has been taken for a row less what has been given back for it. */
  function NetOf(h: History, c: Currency): int {
    (if h.mode == Credits then In(h.charge, c) else 0) - Returned(h.settlements, c)
  }

  function NetBy(h: History, user: User, c: Currency): int {
    if h.user == user then NetOf(h, c) else 0
  }

  function Net(histories: seq<History>, user: User, c: Currency): int {
    if histories == [] then 0
    else Net(histories[..|histories| - 1], user, c) + NetBy(histories[|histories| - 1], user, c)
  }

  lemma NetAppend(histories: seq<History>, h: History, user: User, c: Currency)
    ensures Net(histories + [h], user, c) == Net(histories, user, c) + NetBy(h, user, c)
  {
    assert (histories + [h])[..|histories|] == histories;
  }

  lemma {:induction false} NetUpdate(histories: seq<History>, i: nat, h: History, user: User, c: Currency)
    requires i < |histories|
    ensures Net(histories[i := h], user, c) == Net(histories, user, c) - NetBy(histories[i], user, c) + NetBy(h, user, c)
  {
    var n := |histories| - 1;
    var after := histories[i := h];
    if i == n {
      assert after[..n] == histories[..n];
    } else {
      NetUpdate(histories[..n], i, h, user, c);
      assert after[..n] == histories[..n][i := h];
    }
  }

  lemma ReturnedAppend(settlements: seq<CompleteReply>, reply: CompleteReply, c: Currency)
    ensures Returned(settlements + [reply], c) == Returned(settlements, c) + if reply.ChargeReturned? then In(reply.amount, c) else 0
  {
    assert (settlements + [reply])[..|settlements|] == settlements;
  }

  // --- The identity ------------------------------------------------------------------

  predicate Balanced(w: World, user: User, c: Currency) {
    In(BalanceOf(w.books.accounts, user), c) + Net(w.histories, user, c) + In(BalanceOf(w.lost, user), c)
    == In(BalanceOf(w.deposited, user), c)
  }

  ghost predicate NonNegative(accounts: map<User, Amounts>) {
    forall u :: u in accounts ==> accounts[u].NonNegative()
  }

  ghost predicate Sums(w: World) {
    && NonNegative(w.books.accounts) && NonNegative(w.lost)
    && forall u, c :: Balanced(w, u, c)
  }

  /** Rows carry no mode and read back what was charged; whoever paid with credits has an account. */
  ghost predicate RowOk(accounts: Accounts, j: JobRecord, h: History) {
    && j.user == h.user && j.storedMode == None
    && StoredAmounts(j) == Some(h.charge) && h.charge.NonNegative()
    && (h.mode == Credits ==> h.user in accounts)
  }

  /** What a callback has read, and what a submission charged, are the terms of its row. */
  ghost predicate ReadOk(v: Visit, h: History) {
    match v
    case Reading(_, job, _) => job.user == h.user && job.storedMode == None && StoredAmounts(job) == Some(h.charge)
    case Paid(_, _) => true
    case Forwarding(_, r) => r.user == h.user && r.mode == h.mode && Charge(r) == h.charge
    case GivenUp(_, r) => r.user == h.user && r.mode == h.mode && Charge(r) == h.charge
  }

  ghost predicate RowsOk(w: World)
    requires Aligned(w)
  {
    && (forall i :: 0 <= i < |w.histories| ==> RowOk(w.books.accounts, w.books.jobs[i], w.histories[i]))
    && (forall v :: v in w.flight ==> ReadOk(w.flight[v], w.histories[w.flight[v].row]))
  }

  ghost predicate Conserved(w: World) {
    Aligned(w) && RowsOk(w) && Sums(w)
  }

  lemma DepositKeepsSums(w: World, user: User, amount: Amounts)
    requires Aligned(w) && Sums(w) && amount.NonNegative()
    ensures Sums(After(w, Deposits(user, amount)))
  {
    forall u, c ensures Balanced(After(w, Deposits(user, amount)), u, c) {
      assert Balanced(w, u, c);
    }
  }

  lemma DepositConserves(w: World, user: User, amount: Amounts)
    requires Conserved(w) && amount.NonNegative()
    ensures Conserved(After(w, Deposits(user, amount)))
  {
    DepositKeepsSums(w, user, amount);
  }

  predicate Takes(r: JobRequest, reply: SubmitReply) {
    r.mode == Credits && (reply == Submitted || LosesCharge(r, reply))
  }

  lemma EnrollTakes(b: Books, jobId: string, r: JobRequest, luck: Luck, u: User, c: Currency)
    requires NonNegative(b.accounts)
    ensures
      var (after, reply) := Enroll(b, jobId, r, luck);
      && NonNegative(after.accounts)
      && In(BalanceOf(after.accounts, u), c) ==
           In(BalanceOf(b.accounts, u), c) - if Takes(r, reply) && u == r.user then In(Charge(r), c) else 0
  {
    EnrollEffect(b, jobId, r, luck);
  }

  lemma NewRowNet(histories: seq<History>, r: JobRequest, u: User, c: Currency)
    ensures Net(histories + [History(r.user, r.mode, Charge(r), [])], u, c) ==
              Net(histories, u, c) + if u == r.user && r.mode == Credits then In(Charge(r), c) else 0
  {
    NetAppend(histories, History(r.user, r.mode, Charge(r), []), u, c);
  }

  lemma AddedIn(balances: map<User, Amounts>, user: User, amount: Amounts, u: User, c: Currency)
    ensures In(BalanceOf(balances[user := BalanceOf(balances, user).Plus(amount)], u), c) ==
              In(BalanceOf(balances, u), c) + if u == user then In(amount, c) else 0
  {
  }

  /** A charge that is taken goes to a new row or is lost. */
  lemma EnteringBalances(w: World, v: nat, r: JobRequest, books: Books, reply: SubmitReply, u: User, c: Currency)
    requires Balanced(w, u, c)
    requires In(BalanceOf(books.accounts, u), c) ==
               In(BalanceOf(w.books.accounts, u), c) - if Takes(r, reply) && u == r.user then In(Charge(r), c) else 0
    ensures Balanced(Entered(w, v, r, books, reply), u, c)
  {
    NewRowNet(w.histories, r, u, c);
    AddedIn(w.lost, r.user, Charge(r), u, c);
  }

  lemma SubmitKeepsSums(w: World, v: nat, jobId: string, r: JobRequest, luck: Luck)
    requires Sums(w)
    ensures Sums(AfterSubmit(w, v, jobId, r, luck))
  {
    EnrollTakes(w.books, jobId, r, luck, r.user, Cusdc);
    var (books, reply) := Enroll(w.books, jobId, r, luck);
    forall u, c ensures Balanced(Entered(w, v, r, books, reply), u, c) {
      EnrollTakes(w.books, jobId, r, luck, u, c);
      EnteringBalances(w, v, r, books, reply, u, c);
    }
  }

  lemma SubmitKeepsRows(w: World, v: nat, jobId: string, r: JobRequest, luck: Luck)
    requires Aligned(w) && RowsOk(w)
    ensures Aligned(AfterSubmit(w, v, jobId, r, luck)) && RowsOk(AfterSubmit(w, v, jobId, r, luck))
  {
    EnrollEffect(w.books, jobId, r, luck);
    StoredChargeReadsBack(jobId, r, JobRunning);
  }

  lemma SameSums(w: World, w': World)
    requires Sums(w) && w'.books.accounts == w.books.accounts
    requires w'.histories == w.histories && w'.deposited == w.deposited && w'.lost == w.lost
    ensures Sums(w')
  {
    forall u, c ensures Balanced(w', u, c) {
      assert Balanced(w, u, c);
    }
  }

  lemma LeaveConserves(w: World, v: nat)
    requires Conserved(w)
    ensures Conserved(w.(flight := w.flight - {v}))
  {
    SameSums(w, w.(flight := w.flight - {v}));
  }

  /** Marking changes a status and nothing that is read back. */
  lemma GivingUpConserves(w: World, v: nat)
    requires Conserved(w) && Possible(w, GivesUp(v))
    ensures Conserved(AfterGivingUp(w, v))
  {
    var w' := AfterGivingUp(w, v);
    assert ReadOk(w.flight[v], w.histories[w.flight[v].row]);
    forall i | 0 <= i < |w'.histories| ensures RowOk(w'.books.accounts, w'.books.jobs[i], w'.histories[i]) {
      SameTerms(w.books.jobs[i], w'.books.jobs[i]);
    }
    SameSums(w, w');
  }

  lemma UnwindConserves(w: World, v: nat, ok: bool)
    requires Conserved(w) && Possible(w, Unwinds(v, ok))
    ensures Conserved(AfterUnwind(w, v, ok))
  {
    var visit := w.flight[v];
    assert ReadOk(visit, w.histories[visit.row]) && RowOk(w.books.accounts, w.books.jobs[visit.row], w.histories[visit.row]);
    UnwindEffect(w.books, visit.request, ok);
    BookingKeepsSums(w, AfterUnwind(w, v, ok), visit.row, Unwind(w.books, visit.request, ok).1);
  }

  lemma BeginConserves(w: World, v: nat, identifier: string, c: Callback)
    requires Conserved(w) && v !in w.flight
    ensures Conserved(After(w, Begins(v, identifier, c)))
  {
    var w' := After(w, Begins(v, identifier, c));
    if w' != w {
      assert ReadOk(w'.flight[v], w.histories[w'.flight[v].row]);
      SameSums(w, w');
    }
  }

  lemma NetOfAfterPay(h: History, reply: CompleteReply, c: Currency)
    ensures NetOf(h.(settlements := h.settlements + [reply]), c) == NetOf(h, c) - if reply.ChargeReturned? then In(reply.amount, c) else 0
  {
    ReturnedAppend(h.settlements, reply, c);
  }

  lemma NetAfterBooking(histories: seq<History>, i: nat, reply: CompleteReply, user: User, c: Currency)
    requires i < |histories|
    ensures Net(Booked(histories, i, reply), user, c) ==
              Net(histories, user, c) - if histories[i].user == user && reply.ChargeReturned? then In(reply.amount, c) else 0
  {
    var h := histories[i];
    NetUpdate(histories, i, h.(settlements := h.settlements + [reply]), user, c);
    NetOfAfterPay(h, reply, c);
  }

  /** What is given back is booked on the row it was given back for. */
  lemma BookingKeepsSums(w: World, w': World, row: nat, reply: CompleteReply)
    requires Sums(w) && row < |w.histories|
    requires w'.histories == Booked(w.histories, row, reply) && w'.deposited == w.deposited && w'.lost == w.lost
    requires reply.ChargeReturned? ==> w.histories[row].user in w.books.accounts && reply.amount.NonNegative()
    requires var user := w.histories[row].user;
             w'.books.accounts == if reply.ChargeReturned? then w.books.accounts[user := w.books.accounts[user].Plus(reply.amount)]
                                  else w.books.accounts
    ensures Sums(w')
  {
    forall u, c ensures Balanced(w', u, c) {
      assert Balanced(w, u, c);
      NetAfterBooking(w.histories, row, reply, u, c);
    }
  }

  lemma PayKeepsSums(w: World, v: nat, ok: bool)
    requires Conserved(w) && Possible(w, Pays(v, ok))
    ensures Sums(AfterPay(w, v, ok))
  {
    var visit := w.flight[v];
    assert ReadOk(visit, w.histories[visit.row]) && RowOk(w.books.accounts, w.books.jobs[visit.row], w.histories[visit.row]);
    PayEffect(w.books, visit.job, visit.callback, ok);
    BookingKeepsSums(w, AfterPay(w, v, ok), visit.row, Pay(w.books, visit.job, visit.callback, ok).1);
  }

  /** Neither more accounts nor more settlements change the terms of a row. */
  lemma TermsStay(accounts: Accounts, accounts': Accounts, j: JobRecord, h: History, h': History)
    requires RowOk(accounts, j, h) && accounts.Keys <= accounts'.Keys && h' == h.(settlements := h'.settlements)
    ensures RowOk(accounts', j, h')
  {
  }

  lemma ReadTermsStay(v: Visit, h: History, h': History)
    requires ReadOk(v, h) && h' == h.(settlements := h'.settlements)
    ensures ReadOk(v, h')
  {
  }

  lemma PayKeepsRows(w: World, v: nat, ok: bool)
    requires Aligned(w) && RowsOk(w) && Possible(w, Pays(v, ok))
    ensures Aligned(AfterPay(w, v, ok)) && RowsOk(AfterPay(w, v, ok))
  {
    var w' := AfterPay(w, v, ok);
    PayEffect(w.books, w.flight[v].job, w.flight[v].callback, ok);
    forall i | 0 <= i < |w'.histories| ensures RowOk(w'.books.accounts, w'.books.jobs[i], w'.histories[i]) {
      TermsStay(w.books.accounts, w'.books.accounts, w.books.jobs[i], w.histories[i], w'.histories[i]);
    }
    forall u | u in w'.flight && u != v ensures ReadOk(w'.flight[u], w'.histories[w'.flight[u].row]) {
      ReadTermsStay(w.flight[u], w.histories[w.flight[u].row], w'.histories[w.flight[u].row]);
    }
  }

  lemma SameTerms(j: JobRecord, j': JobRecord)
    requires j' == j.(status := j'.status, resultHash := j'.resultHash)
    ensures StoredAmounts(j') == StoredAmounts(j)
  {
  }

  lemma WriteConserves(w: World, v: nat)
    requires Conserved(w) && Possible(w, Writes(v))
    ensures Conserved(After(w, Writes(v)))
  {
    var w' := After(w, Writes(v));
    forall i | 0 <= i < |w'.histories| ensures RowOk(w'.books.accounts, w'.books.jobs[i], w'.histories[i]) {
      SameTerms(w.books.jobs[i], w'.books.jobs[i]);
    }
    SameSums(w, w');
  }

  lemma AfterConserves(w: World, e: Event)
    requires Conserved(w) && Possible(w, e)
    ensures Conserved(After(w, e))
  {
    match e
    case Deposits(user, amount) => DepositConserves(w, user, amount);
    case Submits(v, jobId, r, luck) =>
      SubmitKeepsSums(w, v, jobId, r, luck);
      SubmitKeepsRows(w, v, jobId, r, luck);
    case Leaves(v) => LeaveConserves(w, v);
    case GivesUp(v) => GivingUpConserves(w, v);
    case Unwinds(v, ok) => UnwindConserves(w, v, ok);
    case Begins(v, identifier, c) => BeginConserves(w, v, identifier, c);
    case Pays(v, ok) =>
      PayKeepsSums(w, v, ok);
      PayKeepsRows(w, v, ok);
    case Writes(v) => WriteConserves(w, v);
  }

  /** A callback that has begun pays and writes, whatever has become of the row. */
  lemma VisitRunsOut(w: World, v: nat, ok: bool)
    requires Conserved(w) && Possible(w, Pays(v, ok))
    ensures Aligned(AfterPay(w, v, ok)) && Possible(AfterPay(w, v, ok), Writes(v))
    ensures
      var visit, end := w.flight[v], After(AfterPay(w, v, ok), Writes(v));
      |end.books.jobs| == |w.books.jobs| && end.books.jobs[visit.row].status == FinalStatus(visit.callback.status)
  {
    PayEffect(w.books, w.flight[v].job, w.flight[v].callback, ok);
  }

  // --- Runs --------------------------------------------------------------------------

  /** Every event of the run is possible in the state it happens in. */
  ghost predicate Legal(w: World, events: seq<Event>)
    decreases events
  {
    && Aligned(w)
    && (events == [] || (Possible(w, events[0]) && Legal(After(w, events[0]), events[1..])))
  }

  ghost function Run(w: World, events: seq<Event>): World
    requires Legal(w, events)
    decreases events
  {
    if events == [] then w else Run(After(w, events[0]), events[1..])
  }

  /**
   * Over every run, with any interleaving of submissions and callbacks and any failing calls: what a user
   * holds, what is taken for their rows less what was given back, and what failed
   * submissions kept add up to what they deposited, in each currency, and no balance is
   * negative.
   */
  lemma {:induction false} CreditsAreAccountedFor(w: World, events: seq<Event>)
    requires Conserved(w) && Legal(w, events)
    ensures Conserved(Run(w, events))
    decreases events
  {
    if events != [] {
      AfterConserves(w, events[0]);
      CreditsAreAccountedFor(After(w, events[0]), events[1..]);
    }
  }

  lemma EmptyIsConserved()
    ensures Conserved(EMPTY)
  {
  }
}
