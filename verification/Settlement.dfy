/**
 * The quorum service and the payment service together: every decision that a finalizer or a
 * timeout writes spawns a notifier, whose posts may be lost, delayed or duplicated, and
 * every post that arrives starts a callback whose steps interleave with all others.
 */
module Settlement {
  import opened Prelude
  import opened TextRequests
  import opened JobService
  import H = HashTally
  import Q = QuorumService
  import R = FinalizerRace
  import O = RaceOutcomes
  import D = LostDecisions
  import L = LedgerRuns
  import C = CallbackRuns

  /** A notifier posts at most this often. */
  const MAX_POSTS := 3

  /** One notifier: the decision it reports, the identifier it posts to, and the callbacks that answer it. */
  datatype Note = Note(outcome: R.Outcome, identifier: string, posted: nat, arrived: nat, visits: set<nat>, acknowledged: bool)

  datatype Whole = Whole(race: R.Race, world: L.World, notes: seq<Note>)

  datatype Happening =
    | Quorum(move: R.Move, identifier: string)
    | Posts(note: nat)
    | Arrives(note: nat, visit: nat)
    | Answers(note: nat, visit: nat)
    | Elsewhere(event: L.Event)

  /** The callback that reports an outcome; an empty hash is left out of the payload. */
  function CallbackFor(o: R.Outcome): Callback {
    match o
    case AcceptedWith(h) => Callback(SuccessCallback, if h == "" then None else Some(h))
    case RejectedByQuorum => Callback(RejectedCallback, None)
    case FailedByTimeout => Callback(TimeoutCallback, None)
  }

  function Spawned(outcomes: seq<R.Outcome>, identifier: string): seq<Note> {
    seq(|outcomes|, i requires 0 <= i < |outcomes| => Note(outcomes[i], identifier, 0, 0, {}, false))
  }

  /** The callback that the arrival of a post starts. */
  function Arrival(s: Whole, k: nat, visit: nat): L.Event
    requires k < |s.notes|
  {
    L.Begins(visit, s.notes[k].identifier, CallbackFor(s.notes[k].outcome))
  }

  /** Whether a callback that begins now will be answered with success. */
  predicate WillAnswer(b: Books, n: Note) {
    var begun := Begin(b, n.identifier, CallbackFor(n.outcome));
    begun.Ok? || begun.error.AlreadyFinal?
  }

  /**
   * A post goes out at most three times and not after an answer; an answer comes when the
   * callback is done. Other callbacks begin only for other jobs, but go on for any. The
   * submission of the job hears that it was forwarded, sooner or later.
   */
  ghost predicate Enabled(s: Whole, row: nat, h: Happening) {
    && L.Aligned(s.world)
    && match h
       case Quorum(move, _) => R.Enabled(s.race, move)
       case Posts(k) => k < |s.notes| && s.notes[k].posted < MAX_POSTS && !s.notes[k].acknowledged
       case Arrives(k, v) => k < |s.notes| && s.notes[k].arrived < s.notes[k].posted && v !in s.world.flight
       case Answers(k, v) => k < |s.notes| && v in s.notes[k].visits && v !in s.world.flight
       case Elsewhere(e) =>
         && L.Possible(s.world, e)
         && (e.Begins? ==> Lookup(s.world.books.jobs, e.identifier) != Some(row))
         && !C.Drops(s.world, e, row)
  }

  ghost function After(s: Whole, row: nat, h: Happening): Whole
    requires Enabled(s, row, h)
  {
    match h
    case Quorum(move, identifier) =>
      var race := R.After(s.race, move);
      R.LogGrows(s.race, move);
      s.(race := race, notes := s.notes + Spawned(race.log[|s.race.log|..], identifier))
    case Posts(k) => s.(notes := s.notes[k := s.notes[k].(posted := s.notes[k].posted + 1)])
    case Arrives(k, v) =>
      var n := s.notes[k];
      var n' := n.(arrived := n.arrived + 1, visits := if WillAnswer(s.world.books, n) then n.visits + {v} else n.visits);
      s.(world := L.After(s.world, Arrival(s, k, v)), notes := s.notes[k := n'])
    case Answers(k, _) => s.(notes := s.notes[k := s.notes[k].(acknowledged := true)])
    case Elsewhere(e) => s.(world := L.After(s.world, e))
  }

  // --- What settlement of one job means ----------------------------------------------

  /** A written decision that explains the status of a job, and its result hash. */
  ghost predicate Reports(o: R.Outcome, j: JobRecord) {
    match j.status
    case JobRunning => true
    case JobCompleted => o.AcceptedWith? && j.resultHash == CallbackFor(o).resultHash
    case JobRefunded => o.RejectedByQuorum?
    case JobFailed => o.FailedByTimeout?
  }

  /** A written decision that explains a payment or a refund. */
  predicate Causes(o: R.Outcome, s: CompleteReply) {
    Rewards(s) <==> o.AcceptedWith?
  }

  ghost predicate SomeReports(log: seq<R.Outcome>, j: JobRecord) {
    exists o :: o in log && Reports(o, j)
  }

  ghost predicate SomeCauses(log: seq<R.Outcome>, s: CompleteReply) {
    exists o :: o in log && Causes(o, s)
  }

  ghost predicate SomeSent(log: seq<R.Outcome>, c: Callback) {
    exists o :: o in log && c == CallbackFor(o)
  }

  ghost predicate Reported(notes: seq<Note>, log: seq<R.Outcome>) {
    forall n :: n in notes ==> n.outcome in log
  }

  /** A callback, and not the submission, is under way with the job. */
  predicate CallsBack(flight: map<nat, Visit>, v: nat, row: nat) {
    v in flight && flight[v].row == row && (flight[v].Reading? || flight[v].Paid?)
  }

  /** The job shows a written decision, every settlement was caused by one, and every callback under way reports one. */
  ghost predicate RowJustified(w: L.World, log: seq<R.Outcome>, row: nat)
    requires row < |w.histories| == |w.books.jobs|
  {
    && (w.books.jobs[row].status != JobRunning ==> SomeReports(log, w.books.jobs[row]))
    && (forall s :: s in w.histories[row].settlements ==> SomeCauses(log, s))
    && (forall v :: CallsBack(w.flight, v, row) ==> SomeSent(log, w.flight[v].callback))
    && !C.GivenOn(w.flight, row)
  }

  /** A callback that will answer for this job is still under way with it, or the job is final. */
  ghost predicate VisitsSettle(w: L.World, notes: seq<Note>, row: nat)
    requires row < |w.books.jobs|
  {
    forall n, v :: n in notes && v in n.visits && Lookup(w.books.jobs, n.identifier) == Some(row) ==>
      w.books.jobs[row].status != JobRunning || CallsBack(w.flight, v, row)
  }

  ghost predicate AnswersAreFinal(w: L.World, notes: seq<Note>, row: nat)
    requires row < |w.books.jobs|
  {
    forall n :: n in notes && n.acknowledged && Lookup(w.books.jobs, n.identifier) == Some(row) ==> w.books.jobs[row].status != JobRunning
  }

  ghost predicate Justified(s: Whole, row: nat) {
    && C.Sound(s.world) && row < |s.world.histories|
    && Reported(s.notes, s.race.log)
    && RowJustified(s.world, s.race.log, row)
    && VisitsSettle(s.world, s.notes, row) && AnswersAreFinal(s.world, s.notes, row)
  }

  /** A fresh request whose job has just been submitted and forwarded. */
  ghost predicate Begun(s: Whole, row: nat) {
    && R.Fresh(s.race) && WellFormed(s.race.request)
    && C.Sound(s.world) && row < |s.world.histories| && s.world.books.jobs[row].status == JobRunning
    && s.notes == [] && !C.Busy(s.world.flight, row)
  }

  lemma BegunIsJustified(s: Whole, row: nat)
    requires Begun(s, row)
    ensures Justified(s, row)
  {
    assert C.RowStatusOk(s.world, row);
    C.ActorsAreBusy(s.world.flight, row);
  }

  // --- The quorum side and the notifiers ---------------------------------------------

  lemma MoreLogJustifies(w: L.World, log: seq<R.Outcome>, more: seq<R.Outcome>, row: nat)
    requires row < |w.histories| == |w.books.jobs| && RowJustified(w, log, row) && log <= more
    ensures RowJustified(w, more, row)
  {
    assert forall o :: o in log ==> o in more;
  }

  /** New notifiers report written outcomes, and have neither posted nor been answered. */
  lemma NewNotesAreQuiet(w: L.World, notes: seq<Note>, log: seq<R.Outcome>, more: seq<R.Outcome>, identifier: string, row: nat)
    requires row < |w.books.jobs| && log <= more && Reported(notes, log)
    requires VisitsSettle(w, notes, row) && AnswersAreFinal(w, notes, row)
    ensures
      var all := notes + Spawned(more[|log|..], identifier);
      Reported(all, more) && VisitsSettle(w, all, row) && AnswersAreFinal(w, all, row)
  {
    var added := more[|log|..];
    var all := notes + Spawned(added, identifier);
    forall n | n in all ensures n.outcome in more && (n in notes || (n.visits == {} && !n.acknowledged)) {
      if n !in notes {
        var k :| 0 <= k < |added| && n == Spawned(added, identifier)[k];
        assert n.outcome == added[k];
      }
    }
  }

  lemma QuorumKeepsJustified(s: Whole, row: nat, h: Happening)
    requires Justified(s, row) && h.Quorum? && Enabled(s, row, h)
    ensures Justified(After(s, row, h), row)
  {
    R.LogGrows(s.race, h.move);
    var log := R.After(s.race, h.move).log;
    MoreLogJustifies(s.world, s.race.log, log, row);
    NewNotesAreQuiet(s.world, s.notes, s.race.log, log, h.identifier, row);
  }

  /** Counting posts and answers of one note keeps all notes settling. */
  lemma NoteKeepsSettling(w: L.World, notes: seq<Note>, k: nat, n: Note, row: nat)
    requires k < |notes| && row < |w.books.jobs| && VisitsSettle(w, notes, row) && AnswersAreFinal(w, notes, row)
    requires n.outcome == notes[k].outcome && n.identifier == notes[k].identifier && n.visits == notes[k].visits
    requires n.acknowledged && !notes[k].acknowledged && Lookup(w.books.jobs, n.identifier) == Some(row) ==>
               w.books.jobs[row].status != JobRunning
    ensures VisitsSettle(w, notes[k := n], row) && AnswersAreFinal(w, notes[k := n], row)
    ensures forall log :: Reported(notes, log) ==> Reported(notes[k := n], log)
  {
    assert notes[k] in notes;
    assert forall m :: m in notes[k := n] ==> m == n || m in notes;
  }

  lemma PostKeepsJustified(s: Whole, row: nat, h: Happening)
    requires Justified(s, row) && h.Posts? && Enabled(s, row, h)
    ensures Justified(After(s, row, h), row)
  {
    NoteKeepsSettling(s.world, s.notes, h.note, After(s, row, h).notes[h.note], row);
  }

  lemma AnswerKeepsJustified(s: Whole, row: nat, h: Happening)
    requires Justified(s, row) && h.Answers? && Enabled(s, row, h)
    ensures Justified(After(s, row, h), row)
  {
    assert s.notes[h.note] in s.notes && h.visit in s.notes[h.note].visits;
    assert !CallsBack(s.world.flight, h.visit, row);
    NoteKeepsSettling(s.world, s.notes, h.note, After(s, row, h).notes[h.note], row);
  }

  // --- What the quorum service sends is what the notifiers report ---------------------

  /** The payment service is called with the status that the kind of notice names, and with its hash. */
  ghost predicate Carries(n: Q.Notice, c: Callback) {
    && (n.kind == Q.Success <==> c.status == SuccessCallback)
    && (n.kind == Q.Rejection <==> c.status == RejectedCallback)
    && (n.kind == Q.Timeout <==> c.status == TimeoutCallback)
    && n.hash == c.resultHash
  }

  /** What an uninterrupted finalizer is to announce is, notice by notice, what the racing finalizer's outcomes report. */
  lemma AnnouncedIsReported(t: TextRequest, sent: seq<Q.Notice>)
    requires Decidable(t) && |t.rows| <= |t.verifiers| && Q.Announces(t, sent)
    ensures
      var outcomes := R.OutcomeOf(t, R.HasRows(t.result.value, t.confidence, t.rows));
      |sent| == |outcomes| <= 1 && forall k :: 0 <= k < |sent| ==> sent[k].task == t.taskId && Carries(sent[k], CallbackFor(outcomes[k]))
  {
    Q.AnnouncedIsDecided(t, sent);
    H.AcceptedCounts(|t.verifiers|, t.result.value.hash, Hashes(t.rows));
    var d := H.Decide(|t.verifiers|, t.result.value.hash, Hashes(t.rows));
    if d.Accept? {
      H.AcceptedExactly(|t.verifiers|, t.result.value.hash, Hashes(t.rows), d.hash);
      assert d.hash != "";
    }
  }

  /** So is the notice of a poll that fails a request. */
  lemma TimeoutIsReported(t: TextRequest, node: Address, now: real)
    requires t.status != Failed && Poll(t, node, now).status == Failed
    ensures |Q.Notices(t, Poll(t, node, now))| == 1 && Carries(Q.Notices(t, Poll(t, node, now))[0], CallbackFor(R.FailedByTimeout))
  {
    Q.PollAnnounces(t, node, now);
  }

  // --- The payment side --------------------------------------------------------------

  /** A later submission can only take an identifier away from a row, never give it to an old one. */
  lemma {:induction false} LookupAfterAppend(jobs: seq<JobRecord>, j: JobRecord, identifier: string)
    ensures var now := Lookup(jobs + [j], identifier); now == Lookup(jobs, identifier) || now == Some(|jobs|)
  {
    var more := jobs + [j];
    assert forall k :: 0 <= k < |jobs| ==> more[k] == jobs[k];
    assert more[|jobs|] == j;
  }

  /** Whatever happens in the ledger, a row that an identifier names was named by it before. */
  lemma LookupIsStable(w: L.World, e: L.Event, identifier: string, row: nat)
    requires L.Aligned(w) && L.Possible(w, e) && row < |w.books.jobs|
    requires Lookup(L.After(w, e).books.jobs, identifier) == Some(row)
    ensures Lookup(w.books.jobs, identifier) == Some(row)
  {
    match e
    case Submits(_, jobId, r, luck) =>
      EnrollEffect(w.books, jobId, r, luck);
      if Enroll(w.books, jobId, r, luck).1 == Submitted {
        LookupAfterAppend(w.books.jobs, L.After(w, e).books.jobs[|w.books.jobs|], identifier);
      }
    case GivesUp(v) => MarkingKeepsLookup(w.books, w.flight[v].row, identifier);
    case Unwinds(v, ok) => UnwindEffect(w.books, w.flight[v].request, ok);
    case Pays(v, ok) => PayEffect(w.books, w.flight[v].job, w.flight[v].callback, ok);
    case Writes(v) => WritingKeepsLookup(w.books, w.flight[v].row, w.flight[v].callback, identifier);
    case _ =>
  }

  /** The submission of the row neither gives it up nor has done so. */
  ghost predicate Kept(w: L.World, e: L.Event, row: nat) {
    !C.Drops(w, e, row) && !C.GivenOn(w.flight, row)
  }

  /** Then the row is changed only by callbacks for it. */
  lemma RowChanges(w: L.World, e: L.Event, row: nat)
    requires L.Aligned(w) && L.Possible(w, e) && row < |w.histories| && Kept(w, e, row)
    ensures
      var w' := L.After(w, e);
      && row < |w'.histories| == |w'.books.jobs|
      && (if e.Writes? && w.flight[e.visit].row == row
          then w'.books.jobs[row] == WriteRow(w.books, row, w.flight[e.visit].callback).jobs[row]
          else w'.books.jobs[row] == w.books.jobs[row])
      && (if e.Pays? && w.flight[e.visit].row == row
          then w'.histories[row].settlements ==
                 w.histories[row].settlements + [Pay(w.books, w.flight[e.visit].job, w.flight[e.visit].callback, e.ok).1]
          else w'.histories[row] == w.histories[row])
  {
    match e
    case Submits(_, jobId, r, luck) => EnrollEffect(w.books, jobId, r, luck);
    case Unwinds(v, ok) =>
      UnwindEffect(w.books, w.flight[v].request, ok);
      assert w.flight[v].row == row ==> C.GivesFor(w.flight, v, row);
    case Pays(v, ok) => PayEffect(w.books, w.flight[v].job, w.flight[v].callback, ok);
    case _ =>
  }

  /** A callback on a row goes on with the callback it began with, and only `Begins` adds one. */
  lemma FlightChanges(w: L.World, e: L.Event, v: nat, row: nat)
    requires L.Aligned(w) && L.Possible(w, e) && CallsBack(L.After(w, e).flight, v, row)
    ensures
      var visit := L.After(w, e).flight[v];
      if v in w.flight then CallsBack(w.flight, v, row) && visit.callback == w.flight[v].callback
      else e.Begins? && v == e.visit && visit.callback == e.callback && Lookup(w.books.jobs, e.identifier) == Some(row)
  {
  }

  lemma StaysKept(w: L.World, e: L.Event, row: nat)
    requires L.Aligned(w) && L.Possible(w, e) && Kept(w, e, row)
    ensures !C.GivenOn(L.After(w, e).flight, row)
  {
    forall v ensures C.GivesFor(L.After(w, e).flight, v, row) ==> C.GivesFor(w.flight, v, row) {
    }
  }

  lemma WriteIsReported(w: L.World, log: seq<R.Outcome>, row: nat, c: Callback)
    requires row < |w.books.jobs| && SomeSent(log, c)
    ensures SomeReports(log, WriteRow(w.books, row, c).jobs[row])
  {
    var o :| o in log && c == CallbackFor(o);
    assert Reports(o, WriteRow(w.books, row, c).jobs[row]);
  }

  lemma PayIsCaused(w: L.World, log: seq<R.Outcome>, j: JobRecord, c: Callback, ok: bool)
    requires SomeSent(log, c) && StoredAmounts(j).Some?
    ensures SomeCauses(log, Pay(w.books, j, c, ok).1)
  {
    PayEffect(w.books, j, c, ok);
    var o :| o in log && c == CallbackFor(o);
    assert Causes(o, Pay(w.books, j, c, ok).1);
  }

  /** Any ledger event keeps the row justified, if a callback that begins for it reports a decision. */
  lemma LedgerKeepsRow(w: L.World, e: L.Event, log: seq<R.Outcome>, row: nat)
    requires C.Sound(w) && L.Possible(w, e) && row < |w.histories| && RowJustified(w, log, row) && !C.Drops(w, e, row)
    requires e.Begins? && Lookup(w.books.jobs, e.identifier) == Some(row) ==> SomeSent(log, e.callback)
    ensures row < |L.After(w, e).histories| == |L.After(w, e).books.jobs|
    ensures RowJustified(L.After(w, e), log, row)
  {
    var w' := L.After(w, e);
    RowChanges(w, e, row);
    StaysKept(w, e, row);
    if e.Writes? && w.flight[e.visit].row == row {
      WriteIsReported(w, log, row, w.flight[e.visit].callback);
    } else if e.Pays? && w.flight[e.visit].row == row {
      PayIsCaused(w, log, w.flight[e.visit].job, w.flight[e.visit].callback, e.ok);
    }
    forall v | CallsBack(w'.flight, v, row) ensures SomeSent(log, w'.flight[v].callback) {
      FlightChanges(w, e, v, row);
    }
  }

  /** A job that is final stays final, and a callback leaves its row only by writing it. */
  lemma LedgerKeepsVisit(w: L.World, e: L.Event, v: nat, row: nat)
    requires L.Aligned(w) && L.Possible(w, e) && row < |w.books.jobs| && Kept(w, e, row)
    requires w.books.jobs[row].status != JobRunning || CallsBack(w.flight, v, row)
    ensures row < |L.After(w, e).books.jobs|
    ensures
      var w' := L.After(w, e);
      w'.books.jobs[row].status != JobRunning || CallsBack(w'.flight, v, row)
  {
    RowChanges(w, e, row);
  }

  /** A job once found under an identifier and final stays so. */
  lemma LedgerKeepsAnswer(w: L.World, e: L.Event, identifier: string, row: nat)
    requires L.Aligned(w) && L.Possible(w, e) && row < |w.books.jobs| && Kept(w, e, row)
    requires Lookup(w.books.jobs, identifier) == Some(row) ==> w.books.jobs[row].status != JobRunning
    ensures row < |L.After(w, e).books.jobs|
    ensures Lookup(L.After(w, e).books.jobs, identifier) == Some(row) ==> L.After(w, e).books.jobs[row].status != JobRunning
  {
    RowChanges(w, e, row);
    if Lookup(L.After(w, e).books.jobs, identifier) == Some(row) {
      LookupIsStable(w, e, identifier, row);
    }
  }

  lemma LedgerKeepsNotes(w: L.World, e: L.Event, notes: seq<Note>, row: nat)
    requires L.Aligned(w) && L.Possible(w, e) && row < |w.books.jobs| && Kept(w, e, row)
    requires VisitsSettle(w, notes, row) && AnswersAreFinal(w, notes, row)
    ensures row < |L.After(w, e).books.jobs|
    ensures VisitsSettle(L.After(w, e), notes, row) && AnswersAreFinal(L.After(w, e), notes, row)
  {
    var w' := L.After(w, e);
    RowChanges(w, e, row);
    forall n, v | n in notes && v in n.visits && Lookup(w'.books.jobs, n.identifier) == Some(row)
      ensures w'.books.jobs[row].status != JobRunning || CallsBack(w'.flight, v, row)
    {
      LookupIsStable(w, e, n.identifier, row);
      LedgerKeepsVisit(w, e, v, row);
    }
    forall n | n in notes && n.acknowledged && Lookup(w'.books.jobs, n.identifier) == Some(row)
      ensures w'.books.jobs[row].status != JobRunning
    {
      LedgerKeepsAnswer(w, e, n.identifier, row);
    }
  }

  lemma ElsewhereKeepsJustified(s: Whole, row: nat, h: Happening)
    requires Justified(s, row) && h.Elsewhere? && Enabled(s, row, h)
    ensures Justified(After(s, row, h), row)
  {
    C.AfterKeepsSound(s.world, h.event);
    LedgerKeepsRow(s.world, h.event, s.race.log, row);
    LedgerKeepsNotes(s.world, h.event, s.notes, row);
  }

  /** The callback that a post starts is remembered exactly if it finds the job or its final status. */
  lemma ArrivalIsRemembered(s: Whole, row: nat, k: nat, v: nat)
    requires L.Aligned(s.world) && k < |s.notes| && v !in s.world.flight && row < |s.world.books.jobs|
    requires WillAnswer(s.world.books, s.notes[k]) && Lookup(s.world.books.jobs, s.notes[k].identifier) == Some(row)
    ensures
      var w' := L.After(s.world, Arrival(s, k, v));
      && row < |w'.books.jobs|
      && (w'.books.jobs[row].status != JobRunning || CallsBack(w'.flight, v, row))
  {
  }

  lemma ArrivalKeepsJustified(s: Whole, row: nat, h: Happening)
    requires Justified(s, row) && h.Arrives? && Enabled(s, row, h)
    ensures Justified(After(s, row, h), row)
  {
    var e, n := Arrival(s, h.note, h.visit), s.notes[h.note];
    var s' := After(s, row, h);
    assert n in s.notes;
    C.AfterKeepsSound(s.world, e);
    LedgerKeepsRow(s.world, e, s.race.log, row);
    LedgerKeepsNotes(s.world, e, s.notes, row);
    if WillAnswer(s.world.books, n) && Lookup(s.world.books.jobs, n.identifier) == Some(row) {
      ArrivalIsRemembered(s, row, h.note, h.visit);
    }
    VisitKeepsSettling(s'.world, s.notes, h.note, s'.notes[h.note], row, h.visit);
  }

  /** One more callback of a note that settles keeps all notes settling. */
  lemma VisitKeepsSettling(w: L.World, notes: seq<Note>, k: nat, n: Note, row: nat, v: nat)
    requires k < |notes| && row < |w.books.jobs| && VisitsSettle(w, notes, row) && AnswersAreFinal(w, notes, row)
    requires n.identifier == notes[k].identifier && n.acknowledged == notes[k].acknowledged && n.visits <= notes[k].visits + {v}
    requires v in n.visits && Lookup(w.books.jobs, n.identifier) == Some(row) ==>
               w.books.jobs[row].status != JobRunning || CallsBack(w.flight, v, row)
    ensures VisitsSettle(w, notes[k := n], row) && AnswersAreFinal(w, notes[k := n], row)
  {
    assert notes[k] in notes;
    forall m | m in notes[k := n] ensures m == n || m in notes {
    }
  }

  lemma HappeningKeepsJustified(s: Whole, row: nat, h: Happening)
    requires Justified(s, row) && Enabled(s, row, h)
    ensures Justified(After(s, row, h), row)
  {
    match h
    case Quorum(_, _) => QuorumKeepsJustified(s, row, h);
    case Posts(_) => PostKeepsJustified(s, row, h);
    case Arrives(_, _) => ArrivalKeepsJustified(s, row, h);
    case Answers(_, _) => AnswerKeepsJustified(s, row, h);
    case Elsewhere(_) => ElsewhereKeepsJustified(s, row, h);
  }

  // --- Runs --------------------------------------------------------------------------

  /** Every happening is enabled, and every move of the quorum service satisfies `ok`. */
  ghost predicate Throughout(s: Whole, row: nat, run: seq<Happening>, ok: (R.Race, R.Move) -> bool)
    decreases run
  {
    run == [] ||
    (&& Enabled(s, row, run[0])
     && (run[0].Quorum? ==> ok(s.race, run[0].move))
     && Throughout(After(s, row, run[0]), row, run[1..], ok))
  }

  ghost function Play(s: Whole, row: nat, run: seq<Happening>, ok: (R.Race, R.Move) -> bool): Whole
    requires Throughout(s, row, run, ok)
    decreases run
  {
    if run == [] then s else Play(After(s, row, run[0]), row, run[1..], ok)
  }

  /**
   * In every run, with any resubmissions, any loss, delay or duplication of posts and any
   * overlap of callbacks: a job is COMPLETED only after an acceptance of its result hash was
   * written, REFUNDED only after a rejection was, FAILED only after a timeout was; it is
   * rewarded only after an acceptance and its charge returned only after a rejection or a
   * timeout; an answered notifier that names it finds it final; and credits stay accounted
   * for.
   */
  lemma {:induction false} SettlementIsJustified(s: Whole, row: nat, run: seq<Happening>, ok: (R.Race, R.Move) -> bool)
    requires Justified(s, row) && Throughout(s, row, run, ok)
    ensures Justified(Play(s, row, run, ok), row)
    decreases run
  {
    if run != [] {
      HappeningKeepsJustified(s, row, run[0]);
      SettlementIsJustified(After(s, row, run[0]), row, run[1..], ok);
    }
  }

  /** No notifier ever posts more than three times, and no post arrives that was not sent. */
  ghost predicate PostsBounded(s: Whole) {
    forall n :: n in s.notes ==> n.arrived <= n.posted <= 3
  }

  lemma HappeningKeepsPostsBounded(s: Whole, row: nat, h: Happening)
    requires PostsBounded(s) && Enabled(s, row, h)
    ensures PostsBounded(After(s, row, h))
  {
    var s' := After(s, row, h);
    forall n | n in s'.notes ensures n.arrived <= n.posted <= 3 {
      var k :| 0 <= k < |s'.notes| && s'.notes[k] == n;
      assert k < |s.notes| ==> s.notes[k] in s.notes;
    }
  }

  lemma {:induction false} PostsAreBounded(s: Whole, row: nat, run: seq<Happening>, ok: (R.Race, R.Move) -> bool)
    requires PostsBounded(s) && Throughout(s, row, run, ok)
    ensures PostsBounded(Play(s, row, run, ok))
    decreases run
  {
    if run != [] {
      HappeningKeepsPostsBounded(s, row, run[0]);
      PostsAreBounded(After(s, row, run[0]), row, run[1..], ok);
    }
  }

  lemma {:induction false} PlayKeepsConsistent(s: Whole, row: nat, run: seq<Happening>, ok: (R.Race, R.Move) -> bool)
    requires R.Consistent(s.race) && Throughout(s, row, run, ok)
    requires forall r, m :: ok(r, m) ==> R.KeepsHash(r, m)
    ensures R.Consistent(Play(s, row, run, ok).race)
    decreases run
  {
    if run != [] {
      if run[0].Quorum? {
        R.MoveKeepsConsistent(s.race, run[0].move);
      }
      PlayKeepsConsistent(After(s, row, run[0]), row, run[1..], ok);
    }
  }

  lemma {:induction false} PlayKeepsOneOutcome(s: Whole, row: nat, run: seq<Happening>)
    requires R.Consistent(s.race) && O.Settled(s.race) && Throughout(s, row, run, O.Harmless)
    ensures O.Settled(Play(s, row, run, O.Harmless).race)
    decreases run
  {
    if run != [] {
      if run[0].Quorum? {
        O.MoveSettlesExactly(s.race, run[0].move);
        R.MoveKeepsConsistent(s.race, run[0].move);
      }
      PlayKeepsOneOutcome(After(s, row, run[0]), row, run[1..]);
    }
  }

  // --- Agreement with the votes ------------------------------------------------------

  /** A completed job against the votes of its request. */
  ghost predicate CompletedByVotes(j: JobRecord, race: R.Race) {
    && R.RejectedByQuorum !in race.log
    && j.resultHash.Some? && R.AcceptedWith(j.resultHash.value) in race.log
    && R.HeldByTwoThirds(R.AsPosted(race), j.resultHash.value)
  }

  /** A refunded job against the votes of its request, and against the rewards paid for it. */
  ghost predicate RefundedByVotes(settlements: seq<CompleteReply>, race: R.Race) {
    && R.RejectedByQuorum in race.log
    && (forall h :: R.AcceptedWith(h) !in race.log && !R.HeldByTwoThirds(R.AsPosted(race), h))
    && (forall s :: s in settlements ==> !Rewards(s))
  }

  lemma BackedExclude(race: R.Race, h: string)
    requires R.Consistent(race) && R.RejectedByQuorum in race.log
    ensures R.AcceptedWith(h) !in race.log && !R.HeldByTwoThirds(R.AsPosted(race), h)
  {
    R.BackedIsTwoThirds(R.AsPosted(race), R.RejectedByQuorum);
    if R.AcceptedWith(h) in race.log {
      R.BackedIsTwoThirds(R.AsPosted(race), R.AcceptedWith(h));
    }
  }

  /**
   * If no node changes its hash, a completed job belongs to a request that was never
   * rejected and whose votes give its result hash two thirds; a refunded job to one whose
   * votes give no hash two thirds, and it was never rewarded.
   */
  lemma SettlementMatchesVotes(s: Whole, row: nat, run: seq<Happening>)
    requires Begun(s, row) && Throughout(s, row, run, R.KeepsHash)
    ensures
      var end := Play(s, row, run, R.KeepsHash);
      && row < |end.world.histories| == |end.world.books.jobs|
      && (end.world.books.jobs[row].status == JobCompleted ==> CompletedByVotes(end.world.books.jobs[row], end.race))
      && (end.world.books.jobs[row].status == JobRefunded ==> RefundedByVotes(end.world.histories[row].settlements, end.race))
  {
    BegunIsJustified(s, row);
    SettlementIsJustified(s, row, run, R.KeepsHash);
    PlayKeepsConsistent(s, row, run, R.KeepsHash);
    var end := Play(s, row, run, R.KeepsHash);
    var j, race := end.world.books.jobs[row], end.race;
    if j.status == JobCompleted {
      CompletedFollowsVotes(j, race);
    } else if j.status == JobRefunded {
      RefundedFollowsVotes(j, end.world.histories[row].settlements, race);
    }
  }

  lemma RefundedFollowsVotes(j: JobRecord, settlements: seq<CompleteReply>, race: R.Race)
    requires R.Consistent(race) && SomeReports(race.log, j) && j.status == JobRefunded
    requires forall p :: p in settlements ==> SomeCauses(race.log, p)
    ensures RefundedByVotes(settlements, race)
  {
    var o :| o in race.log && Reports(o, j);
    forall h ensures R.AcceptedWith(h) !in race.log && !R.HeldByTwoThirds(R.AsPosted(race), h) {
      BackedExclude(race, h);
    }
    forall p | p in settlements ensures !Rewards(p) {
      assert SomeCauses(race.log, p);
    }
  }

  lemma CompletedFollowsVotes(j: JobRecord, race: R.Race)
    requires R.Consistent(race) && SomeReports(race.log, j) && j.status == JobCompleted
    ensures CompletedByVotes(j, race)
  {
    var o :| o in race.log && Reports(o, j);
    R.BackedIsTwoThirds(R.AsPosted(race), o);
    assert R.HeldByTwoThirds(R.AsPosted(race), o.hash);
    if R.RejectedByQuorum in race.log {
      BackedExclude(race, o.hash);
    }
  }

  // --- Agreement with the request ----------------------------------------------------

  /** What a job's status and settlements must be for what its request shows. */
  ghost predicate Agrees(j: JobRecord, settlements: seq<CompleteReply>, race: R.Race) {
    && (match j.status
        case JobRunning => true
        case JobCompleted => race.request.status == Accepted && j.resultHash == D.Winner(race.log)
        case JobRefunded => race.request.status == Rejected
        case JobFailed => race.request.status == Failed)
    && (forall s :: s in settlements ==> (Rewards(s) <==> race.request.status == Accepted))
  }

  lemma OneOutcomeAgrees(w: L.World, race: R.Race, row: nat)
    requires row < |w.histories| == |w.books.jobs| && RowJustified(w, race.log, row)
    requires R.Consistent(race) && O.Settled(race)
    ensures Agrees(w.books.jobs[row], w.histories[row].settlements, race)
  {
    var j := w.books.jobs[row];
    if j.status != JobRunning {
      var o :| o in race.log && Reports(o, j);
      O.LastOutcomeIsEvery(race, o);
    }
    forall s | s in w.histories[row].settlements ensures Rewards(s) <==> race.request.status == Accepted {
      assert SomeCauses(race.log, s);
      var o :| o in race.log && Causes(o, s);
      O.LastOutcomeIsEvery(race, o);
    }
  }

  /**
   * As long as no decision is written onto a failed request, no timeout onto a decided one
   * and no key confirmation onto either: a settled job agrees with the request at every
   * later moment, everything that was ever paid or returned for it agrees too, and a single
   * answered notifier that names the job is enough to have it settled.
   */
  lemma SettlementMatchesConsensus(s: Whole, row: nat, run: seq<Happening>)
    requires Begun(s, row) && Throughout(s, row, run, O.Harmless)
    ensures
      var end := Play(s, row, run, O.Harmless);
      && L.Conserved(end.world) && row < |end.world.histories|
      && Agrees(end.world.books.jobs[row], end.world.histories[row].settlements, end.race)
      && AnswersAreFinal(end.world, end.notes, row)
  {
    BegunIsJustified(s, row);
    SettlementIsJustified(s, row, run, O.Harmless);
    PlayKeepsConsistent(s, row, run, O.Harmless);
    PlayKeepsOneOutcome(s, row, run);
    var end := Play(s, row, run, O.Harmless);
    OneOutcomeAgrees(end.world, end.race, row);
  }

  /**
   * Once a request has outcomes of two kinds, whichever notifier comes through first settles
   * a job that still runs, be it the other one from what the request shows.
   */
  lemma AnyNoticeSettles(s: Whole, row: nat, k: nat, v: nat, ok: bool)
    requires Justified(s, row) && k < |s.notes| && s.notes[k].posted < MAX_POSTS && !s.notes[k].acknowledged
    requires s.notes[k].arrived <= s.notes[k].posted && v !in s.world.flight
    requires Lookup(s.world.books.jobs, s.notes[k].identifier) == Some(row) && s.world.books.jobs[row].status == JobRunning
    ensures Enabled(s, row, Posts(k))
    ensures
      var s1 := After(s, row, Posts(k));
      && Enabled(s1, row, Arrives(k, v))
      && var s2 := After(s1, row, Arrives(k, v));
      && Enabled(s2, row, Elsewhere(L.Pays(v, ok)))
      && var s3 := After(s2, row, Elsewhere(L.Pays(v, ok)));
      && Enabled(s3, row, Elsewhere(L.Writes(v)))
      && var end := After(s3, row, Elsewhere(L.Writes(v)));
      && end.race == s.race && row < |end.world.books.jobs|
      && end.world.books.jobs[row].status == FinalStatus(CallbackFor(s.notes[k].outcome).status)
  {
    PostKeepsJustified(s, row, Posts(k));
    var s1 := After(s, row, Posts(k));
    NoticeArrives(s1, row, k, v);
    ArrivalKeepsJustified(s1, row, Arrives(k, v));
    VisitRunsOut(After(s1, row, Arrives(k, v)), row, v, CallbackFor(s.notes[k].outcome), ok);
  }

  /** A callback that has begun pays and writes, whatever the request shows by now. */
  lemma VisitRunsOut(s: Whole, row: nat, v: nat, c: Callback, ok: bool)
    requires Justified(s, row) && v in s.world.flight && s.world.flight[v].Reading?
    requires s.world.flight[v].row == row && s.world.flight[v].callback == c
    ensures Enabled(s, row, Elsewhere(L.Pays(v, ok)))
    ensures
      var paid := After(s, row, Elsewhere(L.Pays(v, ok)));
      && Enabled(paid, row, Elsewhere(L.Writes(v)))
      && var end := After(paid, row, Elsewhere(L.Writes(v)));
      && end.race == s.race && row < |end.world.books.jobs| && end.world.books.jobs[row].status == FinalStatus(c.status)
  {
    L.VisitRunsOut(s.world, v, ok);
  }

  lemma NoticeArrives(s: Whole, row: nat, k: nat, v: nat)
    requires Justified(s, row) && Enabled(s, row, Arrives(k, v))
    requires Lookup(s.world.books.jobs, s.notes[k].identifier) == Some(row) && s.world.books.jobs[row].status == JobRunning
    ensures
      var s' := After(s, row, Arrives(k, v));
      && s'.race == s.race && s'.world.books == s.world.books && v in s'.world.flight
      && s'.world.flight[v] == Reading(row, s.world.books.jobs[row], CallbackFor(s.notes[k].outcome))
  {
    assert L.RowOk(s.world.books.accounts, s.world.books.jobs[row], s.world.histories[row]);
  }

  // --- Settled once ------------------------------------------------------------------

  /** A callback finds the job running while another one is between its read and its write of it. */
  ghost predicate Overlaps(s: Whole, row: nat, h: Happening) {
    match h
    case Arrives(k, v) => k < |s.notes| && C.Enters(s.world, Arrival(s, k, v), row) && C.Busy(s.world.flight, row)
    case Elsewhere(e) => C.Enters(s.world, e, row) && C.Busy(s.world.flight, row)
    case _ => false
  }

  ghost predicate NeverOverlaps(s: Whole, row: nat, run: seq<Happening>, ok: (R.Race, R.Move) -> bool)
    requires Throughout(s, row, run, ok)
    decreases run
  {
    run == [] || (!Overlaps(s, row, run[0]) && NeverOverlaps(After(s, row, run[0]), row, run[1..], ok))
  }

  lemma HappeningSettlesOnceExactly(s: Whole, row: nat, h: Happening)
    requires Justified(s, row) && Enabled(s, row, h)
    ensures row < |After(s, row, h).world.histories|
    ensures C.CommittedOnce(After(s, row, h).world, row) <==> C.CommittedOnce(s.world, row) && !Overlaps(s, row, h)
  {
    match h
    case Arrives(k, v) => C.RowSettlesOnceExactly(s.world, Arrival(s, k, v), row);
    case Elsewhere(e) => C.RowSettlesOnceExactly(s.world, e, row);
    case _ =>
  }

  lemma {:induction false} RunSettlesOnceExactly(s: Whole, row: nat, run: seq<Happening>, ok: (R.Race, R.Move) -> bool)
    requires Justified(s, row) && Throughout(s, row, run, ok)
    ensures row < |Play(s, row, run, ok).world.histories|
    ensures C.CommittedOnce(Play(s, row, run, ok).world, row) <==> C.CommittedOnce(s.world, row) && NeverOverlaps(s, row, run, ok)
    decreases run
  {
    if run != [] {
      HappeningKeepsJustified(s, row, run[0]);
      HappeningSettlesOnceExactly(s, row, run[0]);
      RunSettlesOnceExactly(After(s, row, run[0]), row, run[1..], ok);
    }
  }

  /**
   * When no callback is under way with the job any more, it has been paid or refunded
   * exactly once if it is final and not at all if it is running, exactly if no post for it
   * arrived while an earlier one was between reading the job as running and writing it.
   */
  lemma SettledOnceExactly(s: Whole, row: nat, run: seq<Happening>, ok: (R.Race, R.Move) -> bool)
    requires Begun(s, row) && Throughout(s, row, run, ok)
    requires !C.Busy(Play(s, row, run, ok).world.flight, row)
    ensures
      var end := Play(s, row, run, ok).world;
      && row < |end.histories| == |end.books.jobs|
      && (|end.histories[row].settlements| == (if end.books.jobs[row].status == JobRunning then 0 else 1) <==>
            NeverOverlaps(s, row, run, ok))
  {
    BegunIsJustified(s, row);
    SettlementIsJustified(s, row, run, ok);
    RunSettlesOnceExactly(s, row, run, ok);
    var end := Play(s, row, run, ok).world;
    assert C.RowStatusOk(s.world, row) && C.RowStatusOk(end, row);
    C.ActorsAreBusy(s.world.flight, row);
    C.ActorsAreBusy(end.flight, row);
  }
}
