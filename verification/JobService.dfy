/** Job submission and the completion callback, as functions on the books and as a service object. */
module JobService {
  import opened Prelude
  import opened Numerals
  import opened Ledger

  datatype PaymentMode = Credits | Escrow

  datatype JobStatus = JobRunning | JobCompleted | JobFailed | JobRefunded

  /**
   * A stored job row. Amounts are stored as decimal strings, the premium included. The mode
   * column does not exist: it is dropped before the insert, so the field is never filled in.
   */
  datatype JobRecord = JobRecord(
    jobId: string,
    taskId: Option<string>,
    user: User,
    amountCusdc: string,
    amountBlind: string,
    storedMode: Option<PaymentMode>,
    status: JobStatus,
    resultHash: Option<string>)

  datatype Books = Books(accounts: Accounts, jobs: seq<JobRecord>)

  /** A submission with its quoted price; the quotes are what the pricing service returned. */
  datatype JobRequest = JobRequest(
    user: User,
    taskId: Option<string>,
    mode: PaymentMode,
    hasEscrowId: bool,
    insured: bool,
    priceCusdc: nat,
    priceBlind: nat,
    premiumQuote: nat)

  /**
   * What the calls that a submission makes come to: whether the escrow is created, the reply
   * to a deduction arrives, the row is inserted, the job is forwarded, the row can be marked
   * failed, and a refund takes effect.
   */
  datatype Luck = Luck(escrowOk: bool, deductAnswered: bool, inserted: bool, forwarded: bool, marked: bool, refunded: bool)

  datatype SubmitReply =
    | Submitted
    | Insufficient
    | EscrowIdMissing
    | DeductUnanswered
    | EscrowFailed(refunded: bool)
    | InsertFailed
    | MarkFailed
    | ForwardFailed(refunded: bool)

  datatype CallbackStatus = SuccessCallback | TimeoutCallback | RejectedCallback

  datatype Callback = Callback(status: CallbackStatus, resultHash: Option<string>)

  datatype CompleteReply =
    | JobNotFound
    | UnreadableAmounts
    | AlreadyFinal(status: JobStatus)
    | RewardPaid(blindWei: nat)
    | RewardFailed
    | ChargeReturned(amount: Amounts)
    | RefundFailed
    | NothingReturned

  /**
   * Something under way that concerns a row. A completion callback has read the row and
   * found it running, or it has paid or refunded and has yet to write the row. A submission
   * has inserted the row and tries to forward the job, or it has given up and marked the row
   * failed, and has yet to return the charge. Whatever breaks off stays under way.
   */
  datatype Visit =
    | Reading(row: nat, job: JobRecord, callback: Callback)
    | Paid(row: nat, callback: Callback)
    | Forwarding(row: nat, request: JobRequest)
    | GivenUp(row: nat, request: JobRequest)

  /** Reward in wei when the job carries no BLIND price. */
  const FALLBACK_REWARD: nat := 1_000_000_000_000_000_000

  // --- Amounts -----------------------------------------------------------------------

  function Premium(r: JobRequest): nat {
    if r.insured && r.priceCusdc > 0 then r.premiumQuote else 0
  }

  function Charge(r: JobRequest): Amounts {
    Amounts(r.priceCusdc + Premium(r), r.priceBlind)
  }

  function StoredAmounts(j: JobRecord): Option<Amounts> {
    var cusdc, blind := Read(j.amountCusdc, 10), Read(j.amountBlind, 10);
    if cusdc.Some? && blind.Some? then Some(Amounts(cusdc.value, blind.value)) else None
  }

  function NewJob(jobId: string, r: JobRequest, status: JobStatus): JobRecord {
    JobRecord(jobId, r.taskId, r.user, Print(r.priceCusdc + Premium(r), 10), Print(r.priceBlind, 10), None, status, None)
  }

  /** The amounts read back from a new row are the full charge. */
  lemma StoredChargeReadsBack(jobId: string, r: JobRequest, status: JobStatus)
    ensures StoredAmounts(NewJob(jobId, r, status)) == Some(Charge(r))
  {
    PrintReads(r.priceCusdc + Premium(r), 10);
    PrintReads(r.priceBlind, 10);
  }

  /**
   * The user, and nobody else, has paid the price: with the premium if the job is insured and
   * has a price in cUSDC, without it otherwise.
   */
  ghost predicate TakesPrice(before: Accounts, after: Accounts, r: JobRequest) {
    && after.Keys == before.Keys && r.user in before
    && (forall u :: u in before && u != r.user ==> after[u] == before[u])
    && before[r.user].blind - after[r.user].blind == r.priceBlind
    && (if r.insured && r.priceCusdc > 0
        then before[r.user].cusdc - after[r.user].cusdc == r.priceCusdc + r.premiumQuote
        else before[r.user].cusdc - after[r.user].cusdc == r.priceCusdc)
  }

  /** What is known of the user and the job, and decimal numbers that read back as what was charged. */
  ghost predicate StoresPrice(j: JobRecord, jobId: string, r: JobRequest) {
    && j.jobId == jobId && j.user == r.user && j.taskId == r.taskId && j.storedMode.None? && j.resultHash.None?
    && Read(j.amountBlind, 10) == Some(r.priceBlind)
    && (if r.insured && r.priceCusdc > 0
        then Read(j.amountCusdc, 10) == Some(r.priceCusdc + r.premiumQuote)
        else Read(j.amountCusdc, 10) == Some(r.priceCusdc))
  }

  lemma NewJobStoresPrice(jobId: string, r: JobRequest, status: JobStatus)
    ensures StoresPrice(NewJob(jobId, r, status), jobId, r) && NewJob(jobId, r, status).status == status
  {
    PrintReads(r.priceCusdc + Premium(r), 10);
    PrintReads(r.priceBlind, 10);
  }

  /** A deduction of the charge takes the price, and fails exactly if the account does not cover it. */
  lemma ChargeTakesPrice(accounts: Accounts, r: JobRequest)
    ensures DeductRpc(accounts, r.user, Charge(r)).None? <==>
              || r.user !in accounts || accounts[r.user].blind < r.priceBlind || accounts[r.user].cusdc < r.priceCusdc
              || (r.insured && r.priceCusdc > 0 && accounts[r.user].cusdc < r.priceCusdc + r.premiumQuote)
    ensures DeductRpc(accounts, r.user, Charge(r)).Some? ==>
              TakesPrice(accounts, DeductRpc(accounts, r.user, Charge(r)).value, r)
  {
  }

  // --- Looking jobs up ---------------------------------------------------------------

  function FirstWithId(jobs: seq<JobRecord>, id: string): (i: nat)
    ensures i <= |jobs|
    ensures i < |jobs| ==> jobs[i].jobId == id
    ensures forall k :: 0 <= k < i ==> jobs[k].jobId != id
  {
    if jobs == [] || jobs[0].jobId == id then 0 else 1 + FirstWithId(jobs[1..], id)
  }

  function FirstWithTask(jobs: seq<JobRecord>, task: string): (i: nat)
    ensures i <= |jobs|
    ensures i < |jobs| ==> jobs[i].taskId == Some(task)
    ensures forall k :: 0 <= k < i ==> jobs[k].taskId != Some(task)
  {
    if jobs == [] || jobs[0].taskId == Some(task) then 0 else 1 + FirstWithTask(jobs[1..], task)
  }

  /** By job id first, then by task id. */
  function Lookup(jobs: seq<JobRecord>, identifier: string): Option<nat> {
    var byId := FirstWithId(jobs, identifier);
    var byTask := FirstWithTask(jobs, identifier);
    if byId < |jobs| then Some(byId) else if byTask < |jobs| then Some(byTask) else None
  }

  // --- Submission --------------------------------------------------------------------

  /** A refund that takes effect if it can. */
  function Refunded(accounts: Accounts, user: User, amount: Amounts, ok: bool): Accounts {
    if ok && user in accounts then RefundRpc(accounts, user, amount).value else accounts
  }

  /** The first step of a submission: charge, create the escrow and insert the row. */
  function Enroll(b: Books, jobId: string, r: JobRequest, luck: Luck): (Books, SubmitReply) {
    match r.mode
    case Escrow =>
      if !r.hasEscrowId then (b, EscrowIdMissing) else Insert(b, jobId, r, luck)
    case Credits =>
      var charged := DeductRpc(b.accounts, r.user, Charge(r));
      if charged.None? then (b, Insufficient)
      else if !luck.deductAnswered then (Books(charged.value, b.jobs), DeductUnanswered)
      else if r.priceCusdc > 0 && !luck.escrowOk then
        (Books(Refunded(charged.value, r.user, Charge(r), luck.refunded), b.jobs), EscrowFailed(luck.refunded))
      else Insert(Books(charged.value, b.jobs), jobId, r, luck)
  }

  function Insert(b: Books, jobId: string, r: JobRequest, luck: Luck): (Books, SubmitReply) {
    if !luck.inserted then (b, InsertFailed) else (Books(b.accounts, b.jobs + [NewJob(jobId, r, JobRunning)]), Submitted)
  }

  /** After three attempts to forward: the row is marked by its id, whatever it says by now. */
  function MarkRow(b: Books, row: nat): Books
    requires row < |b.jobs|
  {
    Books(b.accounts, b.jobs[row := b.jobs[row].(status := JobFailed)])
  }

  /** The last step of a submission that gave up: the charge goes back, unless an escrow holds it. */
  function Unwind(b: Books, r: JobRequest, ok: bool): (Books, CompleteReply) {
    if r.mode == Escrow then (b, NothingReturned)
    else if ok && r.user in b.accounts then (Books(RefundRpc(b.accounts, r.user, Charge(r)).value, b.jobs), ChargeReturned(Charge(r)))
    else (b, RefundFailed)
  }

  /** A submission that nothing overlaps with. */
  function Submit(b: Books, jobId: string, r: JobRequest, luck: Luck): (Books, SubmitReply) {
    var (enrolled, reply) := Enroll(b, jobId, r, luck);
    if reply != Submitted || luck.forwarded then (enrolled, reply)
    else if !luck.marked then (enrolled, MarkFailed)
    else
      var (after, undone) := Unwind(MarkRow(enrolled, |enrolled.jobs| - 1), r, luck.refunded);
      (after, ForwardFailed(undone.ChargeReturned?))
  }

  // --- Completion --------------------------------------------------------------------

  function ModeRead(j: JobRecord): PaymentMode {
    if j.storedMode.Some? then j.storedMode.value else Credits
  }

  function Reward(amounts: Amounts): nat
    requires amounts.NonNegative()
  {
    if amounts.blind == 0 then FALLBACK_REWARD else amounts.blind
  }

  function FinalStatus(c: CallbackStatus): JobStatus {
    match c
    case SuccessCallback => JobCompleted
    case TimeoutCallback => JobFailed
    case RejectedCallback => JobRefunded
  }

  /** The first step of a callback: find the row, and go on only if it is running and readable. */
  function Begin(b: Books, identifier: string, c: Callback): Result<Visit, CompleteReply> {
    match Lookup(b.jobs, identifier)
    case None => Err(JobNotFound)
    case Some(i) =>
      var j := b.jobs[i];
      if j.status != JobRunning then Err(AlreadyFinal(j.status))
      else if StoredAmounts(j).None? then Err(UnreadableAmounts)
      else Ok(Reading(i, j, c))
  }

  /** Whether a callback that has read `j` tries to return a charge. */
  predicate OwesRefund(j: JobRecord, c: Callback) {
    && c.status != SuccessCallback && ModeRead(j) == Credits
    && StoredAmounts(j).Some? && (StoredAmounts(j).value.cusdc > 0 || StoredAmounts(j).value.blind > 0)
  }

  /** The second step: rewards or a refund, from what was read; a refund that fails is swallowed. */
  function Pay(b: Books, j: JobRecord, c: Callback, ok: bool): (Books, CompleteReply)
    requires StoredAmounts(j).Some?
  {
    var amounts := StoredAmounts(j).value;
    if c.status == SuccessCallback then (b, if ok then RewardPaid(Reward(amounts)) else RewardFailed)
    else if !OwesRefund(j, c) then (b, NothingReturned)
    else if ok && j.user in b.accounts then (Books(RefundRpc(b.accounts, j.user, amounts).value, b.jobs), ChargeReturned(amounts))
    else (b, RefundFailed)
  }

  /** The third step: the row is written by its id, whatever it says by now. */
  function WriteRow(b: Books, row: nat, c: Callback): Books
    requires row < |b.jobs|
  {
    var j := b.jobs[row];
    var hash := if c.status == SuccessCallback then c.resultHash else j.resultHash;
    Books(b.accounts, b.jobs[row := j.(status := FinalStatus(c.status), resultHash := hash)])
  }

  /** A callback that nothing overlaps with. */
  function Complete(b: Books, identifier: string, c: Callback, ok: bool): (Books, CompleteReply) {
    match Begin(b, identifier, c)
    case Err(reply) => (b, reply)
    case Ok(v) =>
      var (paid, reply) := Pay(b, v.job, c, ok);
      (WriteRow(paid, v.row, c), reply)
  }

  /** The replies that pay or refund. */
  predicate Settles(reply: CompleteReply) {
    reply.RewardPaid? || reply.RewardFailed? || reply.ChargeReturned? || reply.RefundFailed? || reply.NothingReturned?
  }

  predicate Rewards(reply: CompleteReply) {
    reply.RewardPaid? || reply.RewardFailed?
  }

  /** What paying does, whatever the amounts are. */
  lemma PayEffect(b: Books, j: JobRecord, c: Callback, ok: bool)
    requires StoredAmounts(j).Some?
    ensures
      var (after, reply) := Pay(b, j, c, ok);
      && after.jobs == b.jobs && Settles(reply)
      && (Rewards(reply) <==> c.status == SuccessCallback)
      && (reply.ChargeReturned? <==> OwesRefund(j, c) && ok && j.user in b.accounts)
      && (reply.RefundFailed? <==> OwesRefund(j, c) && !(ok && j.user in b.accounts))
      && (if reply.ChargeReturned?
          then StoredAmounts(j) == Some(reply.amount)
               && after.accounts == b.accounts[j.user := b.accounts[j.user].Plus(reply.amount)]
          else after.accounts == b.accounts)
  {
  }

  /** A lookup reads only the identifiers of the rows. */
  lemma {:induction false} LookupDependsOnIds(one: seq<JobRecord>, other: seq<JobRecord>, identifier: string)
    requires |one| == |other|
    requires forall k :: 0 <= k < |one| ==> one[k].jobId == other[k].jobId && one[k].taskId == other[k].taskId
    ensures FirstWithId(one, identifier) == FirstWithId(other, identifier)
    ensures FirstWithTask(one, identifier) == FirstWithTask(other, identifier)
    ensures Lookup(one, identifier) == Lookup(other, identifier)
  {
    if one != [] {
      LookupDependsOnIds(one[1..], other[1..], identifier);
    }
  }

  /** No step of any callback changes an identifier, so callbacks never redirect one another. */
  lemma WritingKeepsLookup(b: Books, row: nat, c: Callback, identifier: string)
    requires row < |b.jobs|
    ensures Lookup(WriteRow(b, row, c).jobs, identifier) == Lookup(b.jobs, identifier)
  {
    LookupDependsOnIds(b.jobs, WriteRow(b, row, c).jobs, identifier);
  }

  lemma MarkingKeepsLookup(b: Books, row: nat, identifier: string)
    requires row < |b.jobs|
    ensures Lookup(MarkRow(b, row).jobs, identifier) == Lookup(b.jobs, identifier)
  {
    LookupDependsOnIds(b.jobs, MarkRow(b, row).jobs, identifier);
  }

  /** An uninterrupted callback changes at most the one running job that its identifier names. */
  lemma CompleteTouchesOneJob(b: Books, identifier: string, c: Callback, ok: bool)
    ensures
      var after := Complete(b, identifier, c, ok).0.jobs;
      && |after| == |b.jobs|
      && (forall k :: 0 <= k < |after| && after[k] != b.jobs[k] ==>
            Lookup(b.jobs, identifier) == Some(k) && b.jobs[k].status == JobRunning && after[k].status == FinalStatus(c.status))
  {
    if Begin(b, identifier, c).Ok? {
      PayEffect(b, Begin(b, identifier, c).value.job, c, ok);
    }
  }

  /**
   * Once a callback has written its row, every callback that begins later for it, whatever
   * it says, stops at its first step and reports the written status.
   */
  lemma WrittenRowStopsLater(b: Books, row: nat, c: Callback, identifier: string, later: Callback)
    requires row < |b.jobs| && Lookup(b.jobs, identifier) == Some(row)
    ensures Begin(WriteRow(b, row, c), identifier, later) == Err(AlreadyFinal(FinalStatus(c.status)))
  {
    WritingKeepsLookup(b, row, c, identifier);
  }

  /** So callbacks that come one after the other are idempotent. */
  lemma CompletionIsIdempotent(b: Books, identifier: string, first: Callback, ok: bool, second: Callback, ok': bool)
    requires Begin(b, identifier, first).Ok?
    ensures
      var settled := Complete(b, identifier, first, ok).0;
      Complete(settled, identifier, second, ok') == (settled, AlreadyFinal(FinalStatus(first.status)))
  {
    var v := Begin(b, identifier, first).value;
    PayEffect(b, v.job, first, ok);
    WrittenRowStopsLater(Pay(b, v.job, first, ok).0, v.row, first, identifier, second);
  }

  // --- Charges come back -------------------------------------------------------------

  /** The failures after which a charge stays taken although no job runs. */
  predicate KeepsCharge(r: JobRequest, reply: SubmitReply) {
    && r.mode == Credits
    && (reply == DeductUnanswered || reply == InsertFailed || reply == EscrowFailed(false) || reply == ForwardFailed(false))
  }

  /** The replies after which a row exists. */
  predicate Inserts(reply: SubmitReply) {
    reply == Submitted || reply == MarkFailed || reply.ForwardFailed?
  }

  /** Whether the charge is still taken when the submission ends. */
  predicate Charged(r: JobRequest, reply: SubmitReply) {
    r.mode == Credits && (reply == Submitted || reply == MarkFailed || KeepsCharge(r, reply))
  }

  /** The charge of a submission that left no row, if it stayed taken. */
  predicate LosesCharge(r: JobRequest, reply: SubmitReply) {
    KeepsCharge(r, reply) && !Inserts(reply)
  }

  /** Enrolling takes the charge or leaves the accounts alone, and appends a running row or leaves the rows alone. */
  lemma EnrollEffect(b: Books, jobId: string, r: JobRequest, luck: Luck)
    ensures
      var (after, reply) := Enroll(b, jobId, r, luck);
      && (if r.mode == Credits && (reply == Submitted || KeepsCharge(r, reply))
          then DeductRpc(b.accounts, r.user, Charge(r)) == Some(after.accounts)
          else after.accounts == b.accounts)
      && (after.jobs == if reply == Submitted then b.jobs + [NewJob(jobId, r, JobRunning)] else b.jobs)
      && (Inserts(reply) <==> reply == Submitted)
      && (r.mode == Credits && reply == Submitted ==> r.user in after.accounts)
  {
    if r.mode == Credits && DeductRpc(b.accounts, r.user, Charge(r)).Some? {
      DeductThenRefund(b.accounts, r.user, Charge(r));
    }
  }

  /** The replies of a first step after which the price stays taken. */
  predicate EnrolledPaying(r: JobRequest, reply: SubmitReply) {
    && r.mode == Credits
    && (reply == Submitted || reply == DeductUnanswered || reply == InsertFailed || reply == EscrowFailed(false))
  }

  /**
   * The first step in terms of the request: in which cases the price is taken, a running row
   * is appended, and with which reply.
   */
  lemma EnrolledExactly(b: Books, jobId: string, r: JobRequest, luck: Luck)
    ensures
      var (after, reply) := Enroll(b, jobId, r, luck);
      && (if EnrolledPaying(r, reply) then TakesPrice(b.accounts, after.accounts, r) else after.accounts == b.accounts)
      && (if reply == Submitted
          then |after.jobs| == |b.jobs| + 1 && after.jobs[..|b.jobs|] == b.jobs
               && StoresPrice(after.jobs[|b.jobs|], jobId, r) && after.jobs[|b.jobs|].status == JobRunning
          else after.jobs == b.jobs)
      && (reply == EscrowIdMissing <==> r.mode == Escrow && !r.hasEscrowId)
      && (r.mode == Credits ==> (reply == Insufficient <==> DeductRpc(b.accounts, r.user, Charge(r)).None?))
      && (reply == Submitted ==> luck.inserted && (r.mode == Credits ==> luck.deductAnswered && (r.priceCusdc > 0 ==> luck.escrowOk)))
      && (reply == InsertFailed ==> !luck.inserted)
      && (reply == DeductUnanswered ==> !luck.deductAnswered)
      && (reply.EscrowFailed? ==> !luck.escrowOk && r.priceCusdc > 0 && reply.refunded == luck.refunded)
  {
    EnrollEffect(b, jobId, r, luck);
    ChargeTakesPrice(b.accounts, r);
    NewJobStoresPrice(jobId, r, JobRunning);
    if r.mode == Credits && DeductRpc(b.accounts, r.user, Charge(r)).Some? {
      DeductThenRefund(b.accounts, r.user, Charge(r));
    }
  }

  /** What unwinding does, whatever has happened to the row. */
  lemma UnwindEffect(b: Books, r: JobRequest, ok: bool)
    ensures
      var (after, reply) := Unwind(b, r, ok);
      && after.jobs == b.jobs && Settles(reply) && !Rewards(reply)
      && (reply.ChargeReturned? <==> r.mode == Credits && ok && r.user in b.accounts)
      && (reply.RefundFailed? <==> r.mode == Credits && !(ok && r.user in b.accounts))
      && (if reply.ChargeReturned?
          then reply.amount == Charge(r) && after.accounts == b.accounts[r.user := b.accounts[r.user].Plus(Charge(r))]
          else after.accounts == b.accounts)
  {
  }

  /** A submission takes the charge or leaves the accounts alone, and appends a row or leaves the rows alone. */
  lemma SubmitEffect(b: Books, jobId: string, r: JobRequest, luck: Luck)
    ensures
      var (after, reply) := Submit(b, jobId, r, luck);
      && (if Charged(r, reply)
          then DeductRpc(b.accounts, r.user, Charge(r)) == Some(after.accounts)
          else after.accounts == b.accounts)
      && (after.jobs == if Inserts(reply)
                        then b.jobs + [NewJob(jobId, r, if reply.ForwardFailed? then JobFailed else JobRunning)]
                        else b.jobs)
      && (r.mode == Credits && Inserts(reply) ==> r.user in after.accounts)
  {
    EnrollEffect(b, jobId, r, luck);
    var (enrolled, reply) := Enroll(b, jobId, r, luck);
    if reply == Submitted && !luck.forwarded && luck.marked {
      MarkedNewRow(b.jobs, jobId, r, enrolled);
      UnwindEffect(MarkRow(enrolled, |b.jobs|), r, luck.refunded);
      if r.mode == Credits {
        DeductThenRefund(b.accounts, r.user, Charge(r));
      }
    }
  }

  /** An uninterrupted submission in the same terms. */
  lemma SubmittedExactly(b: Books, jobId: string, r: JobRequest, luck: Luck)
    ensures
      var (after, reply) := Submit(b, jobId, r, luck);
      && (if r.mode == Credits && (EnrolledPaying(r, reply) || reply == MarkFailed || reply == ForwardFailed(false))
          then TakesPrice(b.accounts, after.accounts, r) else after.accounts == b.accounts)
      && (if reply == Submitted || reply == MarkFailed || reply.ForwardFailed?
          then |after.jobs| == |b.jobs| + 1 && after.jobs[..|b.jobs|] == b.jobs
               && StoresPrice(after.jobs[|b.jobs|], jobId, r)
               && after.jobs[|b.jobs|].status == if reply.ForwardFailed? then JobFailed else JobRunning
          else after.jobs == b.jobs)
      && (reply == Submitted ==> luck.forwarded)
      && (reply == MarkFailed ==> !luck.forwarded && !luck.marked)
      && (reply.ForwardFailed? ==> !luck.forwarded && luck.marked && (reply.refunded <==> r.mode == Credits && luck.refunded))
  {
    SubmitEffect(b, jobId, r, luck);
    ChargeTakesPrice(b.accounts, r);
    NewJobStoresPrice(jobId, r, JobRunning);
    NewJobStoresPrice(jobId, r, JobFailed);
    EnrolledExactly(b, jobId, r, luck);
    if Inserts(Submit(b, jobId, r, luck).1) {
      UnwindEffect(MarkRow(Enroll(b, jobId, r, luck).0, |b.jobs|), r, luck.refunded);
    }
  }

  lemma MarkedNewRow(jobs: seq<JobRecord>, jobId: string, r: JobRequest, b: Books)
    requires b.jobs == jobs + [NewJob(jobId, r, JobRunning)]
    ensures MarkRow(b, |jobs|).jobs == jobs + [NewJob(jobId, r, JobFailed)] && MarkRow(b, |jobs|).accounts == b.accounts
  {
  }

  /**
   * A submission that leaves no running job leaves every account as it was exactly if it
   * did not fail between taking a positive charge and giving it back.
   */
  lemma FailedSubmissionIsFreeExactly(b: Books, jobId: string, r: JobRequest, luck: Luck)
    requires Submit(b, jobId, r, luck).1 != Submitted && Submit(b, jobId, r, luck).1 != MarkFailed
    ensures
      var (after, reply) := Submit(b, jobId, r, luck);
      after.accounts == b.accounts <==> !(KeepsCharge(r, reply) && (Charge(r).cusdc > 0 || Charge(r).blind > 0))
  {
    SubmitEffect(b, jobId, r, luck);
    if Charged(r, Submit(b, jobId, r, luck).1) {
      var charged := DeductRpc(b.accounts, r.user, Charge(r)).value;
      if Charge(r).cusdc > 0 || Charge(r).blind > 0 {
        assert charged[r.user] != b.accounts[r.user];
      } else {
        assert charged[r.user] == b.accounts[r.user];
        assert charged == b.accounts;
      }
    }
  }

  /** What a successful submission leaves for the first callback to find. */
  lemma SubmittedJobIsFound(b: Books, jobId: string, r: JobRequest, luck: Luck, c: Callback)
    requires Submit(b, jobId, r, luck).1 == Submitted
    requires forall j :: j in b.jobs ==> j.jobId != jobId
    ensures
      var after := Submit(b, jobId, r, luck).0;
      && after.jobs == b.jobs + [NewJob(jobId, r, JobRunning)]
      && Begin(after, jobId, c) == Ok(Reading(|b.jobs|, NewJob(jobId, r, JobRunning), c))
  {
    var after := Submit(b, jobId, r, luck).0;
    var i := |b.jobs|;
    assert after.jobs[i] == NewJob(jobId, r, JobRunning);
    assert FirstWithId(after.jobs, jobId) == i by {
      assert forall k :: 0 <= k < i ==> after.jobs[k] == b.jobs[k] && b.jobs[k] in b.jobs;
    }
    StoredChargeReadsBack(jobId, r, JobRunning);
  }

  /** Rejecting or timing out a job paid with credits undoes its charge, premium included, exactly if the refund takes effect. */
  lemma RejectionUndoesCharge(b: Books, jobId: string, r: JobRequest, luck: Luck, c: Callback, ok: bool)
    requires r.mode == Credits && Submit(b, jobId, r, luck).1 == Submitted
    requires forall j :: j in b.jobs ==> j.jobId != jobId
    requires c.status != SuccessCallback
    ensures Complete(Submit(b, jobId, r, luck).0, jobId, c, ok).0.accounts == b.accounts <==>
              ok || (Charge(r).cusdc == 0 && Charge(r).blind == 0)
  {
    SubmittedJobIsFound(b, jobId, r, luck, c);
    StoredChargeReadsBack(jobId, r, JobRunning);
    DeductThenRefund(b.accounts, r.user, Charge(r));
    var after := Submit(b, jobId, r, luck).0;
    if Charge(r).cusdc == 0 && Charge(r).blind == 0 {
      assert after.accounts[r.user] == b.accounts[r.user];
      assert after.accounts == b.accounts;
    } else {
      assert after.accounts[r.user] != b.accounts[r.user];
    }
  }

  /** Completing a job that was just submitted offers its BLIND price, or the fallback, and leaves its charge spent either way. */
  lemma SuccessSpendsCharge(b: Books, jobId: string, r: JobRequest, luck: Luck, c: Callback, ok: bool)
    requires Submit(b, jobId, r, luck).1 == Submitted
    requires forall j :: j in b.jobs ==> j.jobId != jobId
    requires c.status == SuccessCallback
    ensures
      var after := Submit(b, jobId, r, luck).0;
      var (end, reply) := Complete(after, jobId, c, ok);
      && reply == (if !ok then RewardFailed else RewardPaid(if r.priceBlind > 0 then r.priceBlind else 1_000_000_000_000_000_000))
      && end.accounts == after.accounts
      && end.jobs == b.jobs + [NewJob(jobId, r, JobCompleted).(resultHash := c.resultHash)]
  {
    SubmittedJobIsFound(b, jobId, r, luck, c);
    StoredChargeReadsBack(jobId, r, JobRunning);
  }

  // --- The reward split --------------------------------------------------------------

  datatype Transfer = Transfer(node: string, amount: nat, sent: bool)

  /** What the nodes really received. */
  function Received(transfers: seq<Transfer>): nat {
    if transfers == [] then 0
    else
      var last := transfers[|transfers| - 1];
      Received(transfers[..|transfers| - 1]) + if last.sent then last.amount else 0
  }

  /** How many nodes one reward is split among: the leader and at most two verifiers. */
  function Receivers(verifiers: seq<string>): nat {
    1 + if |verifiers| < 2 then |verifiers| else 2
  }

  lemma ReceivedAppend(transfers: seq<Transfer>, t: Transfer)
    ensures Received(transfers + [t]) == Received(transfers) + if t.sent then t.amount else 0
  {
    assert (transfers + [t])[..|transfers|] == transfers;
  }

  lemma SharesFit(total: nat)
    ensures total - 2 <= 3 * total / 5 + 2 * (total / 5) <= total
  {
    assert total == 5 * (total / 5) + total % 5;
    assert 3 * total == 5 * (3 * (total / 5)) + 3 * (total % 5);
  }

  /**
   * The transfers of one reward: three fifths to the leader, one fifth to each of the first
   * two verifiers; nothing at all if the wallet is short, and a transfer that fails does not
   * stop the others.
   */
  method DistributeReward(leader: string, verifiers: seq<string>, total: nat, wallet: nat, sent: seq<bool>)
    returns (transfers: Option<seq<Transfer>>)
    requires |sent| == Receivers(verifiers)
    ensures transfers.Some? <==> wallet >= total
    ensures transfers.Some? ==>
              && |transfers.value| == Receivers(verifiers)
              && transfers.value[0] == Transfer(leader, 3 * total / 5, sent[0])
              && (forall k :: 1 <= k < Receivers(verifiers) ==> transfers.value[k] == Transfer(verifiers[k - 1], total / 5, sent[k]))
              && Received(transfers.value) <= total
              && (|verifiers| >= 2 && (forall k :: 0 <= k < |sent| ==> sent[k]) ==> total - Received(transfers.value) <= 2)
  {
    if wallet < total {
      return None;
    }
    var lead, share := 3 * total / 5, total / 5;
    SharesFit(total);
    var list := [Transfer(leader, lead, sent[0])];
    ReceivedAppend([], list[0]);
    ghost var sum := lead;
    for k := 1 to Receivers(verifiers)
      invariant |list| == k && list[0] == Transfer(leader, lead, sent[0])
      invariant forall i :: 1 <= i < k ==> list[i] == Transfer(verifiers[i - 1], share, sent[i])
      invariant sum == if k == 1 then lead else if k == 2 then lead + share else lead + 2 * share
      invariant Received(list) <= sum
      invariant (forall i :: 0 <= i < |sent| ==> sent[i]) ==> Received(list) == sum
    {
      var next := Transfer(verifiers[k - 1], share, sent[k]);
      ReceivedAppend(list, next);
      list := list + [next];
      sum := sum + share;
    }
    return Some(list);
  }

  // --- The service object ------------------------------------------------------------

  /** Whether one of the three forwarding attempts got through. */
  predicate Forwarded(attempts: seq<bool>)
    requires |attempts| == 3
  {
    attempts[0] || attempts[1] || attempts[2]
  }

  class JobServiceObject {
    const credits: CreditService
    var jobs: seq<JobRecord>

    constructor (credits: CreditService)
      ensures this.credits == credits && jobs == []
    {
      this.credits := credits;
      jobs := [];
    }

    ghost function Current(): Books
      reads this, credits
    {
      Books(credits.accounts, jobs)
    }

    ghost predicate Valid()
      reads this, credits
    {
      forall u :: u in credits.accounts ==> credits.accounts[u].NonNegative()
    }

    /** A refund whose call may fail. */
    method TryRefund(user: User, amount: Amounts, works: bool) returns (done: bool)
      requires Valid() && amount.NonNegative()
      modifies credits
      ensures Valid() && done == (works && user in old(credits.accounts))
      ensures credits.accounts == Refunded(old(credits.accounts), user, amount, works)
    {
      if !works {
        return false;
      }
      var result := credits.Refund(user, amount);
      return result.Ok?;
    }

    /** Charge, create the escrow and insert the row. */
    method EnrollJob(jobId: string, r: JobRequest, luck: Luck) returns (reply: SubmitReply)
      requires Valid()
      modifies this, credits
      ensures Valid()
      ensures (Current(), reply) == Enroll(old(Current()), jobId, r, luck)
      ensures reply == Submitted && r.mode == Credits ==> TakesPrice(old(credits.accounts), credits.accounts, r)
      ensures r.mode == Escrow ==> credits.accounts == old(credits.accounts)
      ensures reply == Submitted ==>
                && |jobs| == |old(jobs)| + 1 && jobs[..|old(jobs)|] == old(jobs)
                && StoresPrice(jobs[|old(jobs)|], jobId, r) && jobs[|old(jobs)|].status == JobRunning
    {
      ghost var before := Current();
      reply := ChargeAndInsert(jobId, r, luck);
      EnrolledExactly(before, jobId, r, luck);
    }

    method ChargeAndInsert(jobId: string, r: JobRequest, luck: Luck) returns (reply: SubmitReply)
      requires Valid()
      modifies this, credits
      ensures Valid()
      ensures (Current(), reply) == Enroll(old(Current()), jobId, r, luck)
    {
      var total := Charge(r);
      if r.mode == Credits {
        var enough := credits.CheckBalance(r.user, total);
        if !enough {
          return Insufficient;
        }
        var deducted := credits.Deduct(r.user, total);
        if deducted.Err? {
          return Insufficient;
        }
        if !luck.deductAnswered {
          return DeductUnanswered;
        }
      } else if !r.hasEscrowId {
        return EscrowIdMissing;
      }
      if r.mode == Credits && r.priceCusdc > 0 && !luck.escrowOk {
        var _ := TryRefund(r.user, total, luck.refunded);
        return EscrowFailed(luck.refunded);
      }
      if !luck.inserted {
        return InsertFailed;
      }
      jobs := jobs + [NewJob(jobId, r, JobRunning)];
      return Submitted;
    }

    /** The unconditional marking of a row whose job could not be forwarded. */
    method MarkJob(row: nat)
      requires row < |jobs|
      modifies this
      ensures Current() == MarkRow(old(Current()), row)
    {
      jobs := jobs[row := jobs[row].(status := JobFailed)];
    }

    /** The return of the charge after giving up. */
    method UnwindJob(r: JobRequest, ok: bool) returns (reply: CompleteReply)
      requires Valid()
      modifies credits
      ensures Valid()
      ensures (Current(), reply) == Unwind(old(Current()), r, ok)
    {
      if r.mode != Credits {
        return NothingReturned;
      }
      var done := TryRefund(r.user, Charge(r), ok);
      return if done then ChargeReturned(Charge(r)) else RefundFailed;
    }

    /** Enroll, forward with three attempts, and undo on failure, with nothing in between. */
    method SubmitJob(jobId: string, r: JobRequest, luck: Luck, attempts: seq<bool>) returns (reply: SubmitReply)
      requires Valid() && |attempts| == 3 && luck.forwarded == Forwarded(attempts)
      requires forall j :: j in jobs ==> j.jobId != jobId
      modifies this, credits
      ensures Valid()
      ensures (Current(), reply) == Submit(old(Current()), jobId, r, luck)
      ensures reply == Submitted && r.mode == Credits ==> TakesPrice(old(credits.accounts), credits.accounts, r)
      ensures r.mode == Escrow ==> credits.accounts == old(credits.accounts)
      ensures reply == Submitted ==>
                && |jobs| == |old(jobs)| + 1 && jobs[..|old(jobs)|] == old(jobs)
                && StoresPrice(jobs[|old(jobs)|], jobId, r) && jobs[|old(jobs)|].status == JobRunning
    {
      ghost var before := Current();
      reply := EnrollAndForward(jobId, r, luck, attempts);
      SubmittedExactly(before, jobId, r, luck);
    }

    /** Its steps, with every exit. */
    method EnrollAndForward(jobId: string, r: JobRequest, luck: Luck, attempts: seq<bool>) returns (reply: SubmitReply)
      requires Valid() && |attempts| == 3 && luck.forwarded == Forwarded(attempts)
      requires forall j :: j in jobs ==> j.jobId != jobId
      modifies this, credits
      ensures Valid()
      ensures (Current(), reply) == Submit(old(Current()), jobId, r, luck)
    {
      reply := EnrollJob(jobId, r, luck);
      if reply != Submitted {
        return;
      }
      var delivered := false;
      for attempt := 0 to 3
        invariant delivered <==> exists k :: 0 <= k < attempt && attempts[k]
      {
        if !delivered {
          delivered := attempts[attempt];
        }
      }
      if delivered {
        return Submitted;
      }
      if !luck.marked {
        return MarkFailed;
      }
      MarkJob(|jobs| - 1);
      var undone := UnwindJob(r, luck.refunded);
      return ForwardFailed(undone.ChargeReturned?);
    }

    /** The position of the job that an identifier names. */
    method GetJobByAnyId(identifier: string) returns (found: Option<nat>)
      ensures found == Lookup(jobs, identifier)
      ensures (exists j :: j in jobs && j.jobId == identifier) ==>
                && found.Some? && found.value < |jobs| && jobs[found.value].jobId == identifier
                && forall k :: 0 <= k < found.value ==> jobs[k].jobId != identifier
      ensures (forall j :: j in jobs ==> j.jobId != identifier) ==>
                if found.Some?
                then && found.value < |jobs| && jobs[found.value].taskId == Some(identifier)
                     && forall k :: 0 <= k < found.value ==> jobs[k].taskId != Some(identifier)
                else forall j :: j in jobs ==> j.taskId != Some(identifier)
    {
      for i := 0 to |jobs|
        invariant forall k :: 0 <= k < i ==> jobs[k].jobId != identifier
      {
        if jobs[i].jobId == identifier {
          return Some(i);
        }
      }
      for i := 0 to |jobs|
        invariant forall k :: 0 <= k < i ==> jobs[k].taskId != Some(identifier)
      {
        if jobs[i].taskId == Some(identifier) {
          return Some(i);
        }
      }
      return None;
    }

    /** Up to the status test: nothing is changed, and the row that was read is remembered. */
    method BeginCompletion(identifier: string, c: Callback) returns (visit: Result<Visit, CompleteReply>)
      ensures visit == Begin(Current(), identifier, c)
    {
      var found := GetJobByAnyId(identifier);
      if found.None? {
        return Err(JobNotFound);
      }
      var job := jobs[found.value];
      if job.status != JobRunning {
        return Err(AlreadyFinal(job.status));
      }
      if StoredAmounts(job).None? {
        return Err(UnreadableAmounts);
      }
      return Ok(Reading(found.value, job, c));
    }

    /** Rewards or a refund, from the row that was read. */
    method PayCompletion(job: JobRecord, c: Callback, ok: bool) returns (reply: CompleteReply)
      requires Valid() && StoredAmounts(job).Some?
      modifies credits
      ensures Valid()
      ensures (Current(), reply) == Pay(old(Current()), job, c, ok)
    {
      var amounts := StoredAmounts(job).value;
      if c.status == SuccessCallback {
        return if !ok then RewardFailed else RewardPaid(if amounts.blind == 0 then FALLBACK_REWARD else amounts.blind);
      }
      if ModeRead(job) == Credits && (amounts.cusdc > 0 || amounts.blind > 0) {
        var done := TryRefund(job.user, amounts, ok);
        return if done then ChargeReturned(amounts) else RefundFailed;
      }
      return NothingReturned;
    }

    /** The unconditional update of the row. */
    method WriteCompletion(row: nat, c: Callback)
      requires row < |jobs|
      modifies this
      ensures Current() == WriteRow(old(Current()), row, c)
    {
      var job := jobs[row];
      if c.status == SuccessCallback {
        jobs := jobs[row := job.(status := JobCompleted, resultHash := c.resultHash)];
      } else {
        jobs := jobs[row := job.(status := if c.status == TimeoutCallback then JobFailed else JobRefunded)];
      }
    }

    /** The three steps of a callback with nothing in between. */
    method CompleteJob(identifier: string, c: Callback, ok: bool) returns (reply: CompleteReply)
      requires Valid()
      modifies this, credits
      ensures Valid()
      ensures (Current(), reply) == Complete(old(Current()), identifier, c, ok)
    {
      var visit := BeginCompletion(identifier, c);
      if visit.Err? {
        return visit.error;
      }
      reply := PayCompletion(visit.value.job, c, ok);
      WriteCompletion(visit.value.row, c);
    }
  }
}
