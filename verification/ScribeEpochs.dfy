/** The Scribe lane from epoch to epoch: the invariant over every run of ticks, losses,
    preparations and admissions, and what lets a stalled recovery go on. */
module ScribeEpochs {
  import opened Outcome
  import opened LaneRecords
  import opened ScribeLane
  import opened ScribePhases
  import opened ScribeRuns

  /** `c` continues the epoch of `b` from its receipt and its intent. */
  ghost predicate Succeeds(h: Hash, files: Files, b: Binding, c: Binding) {
    && c.epoch == b.epoch + 1 && c.root == b.root && c.profile == b.profile && c.release == b.release
    && c.host == b.host && c.fence == b.fence && c.approval == b.approval
    && c.authority.Recovered? && c.authority.prior == b.id
    && Receipted(files, b) && IsReceipt(h, files[ReceiptFile(b.id, b.epoch)], b)
    && c.authority.receipt == TheReceipt(h, files, b).digest
    && c.authority.intent == IntentOf(h, b, TheReceipt(h, files, b)).digest
  }

  /** The old epoch is closed, its receipt and intent written. */
  ghost predicate Closed(h: Hash, s: Site, w: World, b: Binding) {
    RevokedRows(h, s, w.db, b) && Facts(h, w.files, b) && Written(w.files, b) && b.id in w.db.open
  }

  /** `c` waits for admission: its session is open and its recovery row prepared. */
  ghost predicate PreparedWorld(h: Hash, s: Site, w: World, b: Binding, c: Binding) {
    && Closed(h, s, w, b) && NoLive(w.db, s.company, SCRIBE) && Highest(s, w.db, b)
    && Fits(h, s, c) && Succeeds(h, w.files, b, c) && c.id !in w.db.admissions && UnusedId(w, c.id)
    && c.session in w.db.sessions && OwnSession(c, w.db.sessions[c.session]) && w.db.sessions[c.session].state == Active
    && w.db.workers[b.profile.worker].token == Some(c.token) && w.db.workers[b.profile.worker].lease.Some?
    && w.db.open[b.id].candidate == c && w.db.open[b.id].state == Prepared
  }

  /** The row of `c` is live but the process died before its binding file was written. */
  ghost predicate AdmittingWorld(h: Hash, s: Site, w: World, b: Binding, c: Binding) {
    && Closed(h, s, w, b) && LiveRows(h, s, w.db, c) && Succeeds(h, w.files, b, c) && UnusedId(w, c.id)
    && w.db.open[b.id].candidate == c && w.db.open[b.id].state == Consumed
  }

  datatype Phase =
    | LivePhase(b: Binding)
    | FencedPhase(b: Binding)
    | PreparedPhase(b: Binding, c: Binding)
    | AdmittingPhase(b: Binding, c: Binding)

  /** Scribe recoveries other than that of `b` are consumed, and every stored intent other
      than its next one names a prior whose recovery is consumed. */
  ghost predicate Spent(s: Site, w: World, b: Binding) {
    && (forall k | k in w.db.open && k != b.id :: IsScribe(s, w.db.open[k].candidate) ==> w.db.open[k].state == Consumed)
    && (forall path | path in w.files && path != IntentFile(b.epoch + 1) :: SpentAt(w.db, w.files[path], b))
  }

  ghost predicate SpentAt(db: Db, bytes: Bytes, b: Binding) {
    NotIntent(bytes) ||
    (var prior := Parse(bytes).value.intent.basis.prior; prior in db.open && prior != b.id && db.open[prior].state == Consumed)
  }

  ghost predicate In(h: Hash, s: Site, w: World, ph: Phase) {
    && Spent(s, w, ph.b)
    && match ph
       case LivePhase(b) => LiveWorld(h, s, w, b) && b.id !in w.db.open
       case FencedPhase(b) => FencedWorld(h, s, w, b) && b.id !in w.db.open
       case PreparedPhase(b, c) => PreparedWorld(h, s, w, b, c)
       case AdmittingPhase(b, c) => AdmittingWorld(h, s, w, b, c)
  }

  /** Ticks ask a truthful database, losses leave no parsable binding, drawn identifiers are
      unused, launched processes are real; only recoveries are admitted, and an admission
      identifier names one candidate. */
  ghost predicate Admissible(h: Hash, s: Site, w: World, e: Event) {
    match e
    case TickEvent(_, _) => Disturbance(w, s, e)
    case LoseEvent(_) => Disturbance(w, s, e)
    case PrepareEvent(req, _, _, ids, _, _) => FreshIds(w, ids) && req.process.pid > 1
    case AdmitEvent(_, _, c, _, _) =>
      Fits(h, s, c) && c.authority.Recovered? && (c.id in w.db.admissions ==> w.db.admissions[c.id].b == c)
  }

  /** The moves between phases: forward along one epoch, another candidate for the same
      recovery, or on to the next epoch. */
  ghost predicate Moves(from: Phase, to: Phase) {
    || to == from
    || (from.LivePhase? && to == FencedPhase(from.b))
    || ((from.FencedPhase? || from.PreparedPhase?) && to.PreparedPhase? && to.b == from.b)
    || (from.PreparedPhase? && (to == AdmittingPhase(from.b, from.c) || to == LivePhase(from.c)))
    || (from.AdmittingPhase? && (to == LivePhase(from.c) || to == FencedPhase(from.c)))
  }

  // --------------------------------------------------------- ticks and losses

  lemma SpentKept(s: Site, w: World, next: World, b: Binding)
    requires Spent(s, w, b) && Frame(w.files, next.files, b) && next.db.open == w.db.open
    ensures Spent(s, next, b)
  {
    forall path | path in next.files && path != IntentFile(b.epoch + 1) ensures SpentAt(next.db, next.files[path], b) {
      if SameAt(w.files, next.files, path) { assert SpentAt(w.db, w.files[path], b); }
    }
  }

  lemma UnusedKept(w: World, next: World, b: Binding, id: Uuid)
    requires UnusedId(w, id) && Frame(w.files, next.files, b) && next.db.open == w.db.open && id != b.id
    ensures UnusedId(next, id)
  {
    forall e ensures ArchiveFile(id, e) !in next.files && ReceiptFile(id, e) !in next.files {
      assert SameAt(w.files, next.files, ArchiveFile(id, e)) && SameAt(w.files, next.files, ReceiptFile(id, e));
    }
  }

  lemma GrowsKeepsSuccessor(h: Hash, f: Files, g: Files, b: Binding, c: Binding)
    requires Succeeds(h, f, b, c) && Grows(f, g, b) && Facts(h, g, b)
    ensures Succeeds(h, g, b, c)
  {
  }

  lemma RevokeKeepsOpen(db: Db, b: Binding)
    requires RevokeTx(db, b).Ok?
    ensures RevokeTx(db, b).value.open == db.open
  {
  }

  lemma LivePhaseTick(h: Hash, s: Site, w: World, b: Binding, env: Env, fuel: nat, next: World) returns (to: Phase)
    requires In(h, s, w, LivePhase(b)) && Answers(s, w.db, env.found) && next == Tick(h, s, w, env, fuel).w
    ensures In(h, s, next, to) && Moves(LivePhase(b), to)
  {
    TickLive(h, s, w, b, env, fuel);
    TickFrame(h, s, w, b, env, fuel);
    to := LiveOrFencedPhase(h, s, w, next, b, env);
  }

  lemma LiveOrFencedPhase(h: Hash, s: Site, w: World, next: World, b: Binding, env: Env) returns (to: Phase)
    requires LiveRows(h, s, w.db, b) && b.id !in w.db.open && Spent(s, w, b) && Frame(w.files, next.files, b)
    requires LiveOrFenced(h, s, w.db, next, b, env)
    ensures In(h, s, next, to) && (to == LivePhase(b) || to == FencedPhase(b))
  {
    if LiveWorld(h, s, next, b) { to := LivePhase(b); } else { to := FencedPhase(b); RevokeKeepsOpen(w.db, b); }
    SpentKept(s, w, next, b);
  }

  lemma RevokedPhaseTick(h: Hash, s: Site, w: World, ph: Phase, env: Env, fuel: nat, next: World)
    requires In(h, s, w, ph) && (ph.FencedPhase? || ph.PreparedPhase?) && Answers(s, w.db, env.found)
    requires next == Tick(h, s, w, env, fuel).w
    ensures In(h, s, next, ph) && next.db == w.db
  {
    TickRevoked(h, s, w, ph.b, env, fuel);
    TickFrame(h, s, w, ph.b, env, fuel);
    SpentKept(s, w, next, ph.b);
    if ph.PreparedPhase? {
      GrowsKeepsSuccessor(h, w.files, next.files, ph.b, ph.c);
      UnusedKept(w, next, ph.b, ph.c.id);
    }
  }

  /** What is spent for `b` is spent for the epoch admitted after it. */
  lemma SpentPasses(h: Hash, s: Site, w: World, b: Binding, c: Binding)
    requires Spent(s, w, b) && AdmittingWorld(h, s, w, b, c)
    ensures Spent(s, w, c)
  {
    assert w.files[IntentFile(b.epoch + 1)] == Line(IntentDoc(IntentOf(h, b, TheReceipt(h, w.files, b))));
    forall path | path in w.files && path != IntentFile(c.epoch + 1) ensures SpentAt(w.db, w.files[path], c) {
      if path != IntentFile(b.epoch + 1) { assert SpentAt(w.db, w.files[path], b); }
    }
  }

  lemma FactsPass(h: Hash, s: Site, w: World, b: Binding, c: Binding)
    requires AdmittingWorld(h, s, w, b, c)
    ensures LiveWorld(h, s, Restore(w, c), c) && !Lost(Restore(w, c).files)
  {
  }

  /** A lost binding file lets a tick complete a torn admission: it restores the live row. */
  lemma TornTickRestores(h: Hash, s: Site, w: World, b: Binding, c: Binding, env: Env, fuel: nat, after: After) returns (to: Phase)
    requires In(h, s, w, AdmittingPhase(b, c)) && after == InspectFrom(h, s, Restore(w, c), c, env, fuel)
    ensures In(h, s, after.w, to) && (to == LivePhase(c) || to == FencedPhase(c))
  {
    SpentPasses(h, s, w, b, c);
    FactsPass(h, s, w, b, c);
    InspectLive(h, s, Restore(w, c), c, env, fuel, after);
    RestoreFrame(h, s, w, c, env, fuel, after);
    to := LiveOrFencedPhase(h, s, w, after.w, c, env);
  }

  lemma TornTickStays(h: Hash, s: Site, w: World, b: Binding, c: Binding, env: Env, fuel: nat, after: After)
    requires In(h, s, w, AdmittingPhase(b, c)) && !Lost(w.files) && after == Tick(h, s, w, env, fuel)
    ensures In(h, s, after.w, AdmittingPhase(b, c)) && after.w.db == w.db
  {
    DecideStored(h, s, w, b, env.found);
    var next := after.w;
    if w.files[BindingFile] == Stored(b) {
      InspectRevoked(h, s, w, b, env, fuel, after);
      InspectFrame(h, s, w, b, env, fuel, after);
    } else {
      FenceRevoked(h, s, w, Fencing(b, "revoked", env), fuel, after);
      FenceFrame(h, s, w, Fencing(b, "revoked", env), 0, fuel, after);
    }
    SpentKept(s, w, next, b);
    GrowsKeepsSuccessor(h, w.files, next.files, b, c);
    UnusedKept(w, next, b, c.id);
  }

  lemma TornTickFinds(h: Hash, s: Site, w: World, b: Binding, c: Binding, env: Env, fuel: nat)
    requires AdmittingWorld(h, s, w, b, c) && Lost(w.files) && Answers(s, w.db, env.found)
    ensures Tick(h, s, w, env, fuel) ==
            if fuel == 0 then After(w, Crashed) else InspectFrom(h, s, Restore(w, c), c, env, fuel - 1)
  {
    AnswerIs(s, w.db, c, env.found);
  }

  lemma TornTickLost(h: Hash, s: Site, w: World, b: Binding, c: Binding, env: Env, fuel: nat, after: After) returns (to: Phase)
    requires In(h, s, w, AdmittingPhase(b, c)) && Lost(w.files)
    requires after == if fuel == 0 then After(w, Crashed) else InspectFrom(h, s, Restore(w, c), c, env, fuel - 1)
    ensures In(h, s, after.w, to) && Moves(AdmittingPhase(b, c), to)
  {
    to := AdmittingPhase(b, c);
    if fuel > 0 { to := TornTickRestores(h, s, w, b, c, env, fuel - 1, after); }
  }

  lemma TornPhaseTick(h: Hash, s: Site, w: World, b: Binding, c: Binding, env: Env, fuel: nat, after: After) returns (to: Phase)
    requires In(h, s, w, AdmittingPhase(b, c)) && Answers(s, w.db, env.found) && after == Tick(h, s, w, env, fuel)
    ensures In(h, s, after.w, to) && Moves(AdmittingPhase(b, c), to)
  {
    if Lost(w.files) {
      TornTickFinds(h, s, w, b, c, env, fuel);
      to := TornTickLost(h, s, w, b, c, env, fuel, after);
    } else {
      to := AdmittingPhase(b, c);
      TornTickStays(h, s, w, b, c, env, fuel, after);
    }
  }

  lemma TickMoves(h: Hash, s: Site, w: World, ph: Phase, env: Env, fuel: nat, next: World) returns (to: Phase)
    requires In(h, s, w, ph) && Answers(s, w.db, env.found) && next == Tick(h, s, w, env, fuel).w
    ensures In(h, s, next, to) && Moves(ph, to)
  {
    match ph
    case LivePhase(b) => to := LivePhaseTick(h, s, w, b, env, fuel, next);
    case AdmittingPhase(b, c) => to := TornPhaseTick(h, s, w, b, c, env, fuel, Tick(h, s, w, env, fuel));
    case _ => to := ph; RevokedPhaseTick(h, s, w, ph, env, fuel, next);
  }

  lemma LoseFrame(h: Hash, w: World, b: Binding, rest: Option<Bytes>, next: World)
    requires Facts(h, w.files, b) && (rest.None? || Parse(rest.value).None?) && next == w.(files := Lose(w.files, rest))
    ensures Frame(w.files, next.files, b) && Facts(h, next.files, b) && Grows(w.files, next.files, b)
    ensures Untouched(w.files, b) ==> Untouched(next.files, b)
  {
    LoseKeepsFacts(h, w.files, b, rest);
  }

  lemma SuccessorStays(h: Hash, s: Site, w: World, next: World, ph: Phase)
    requires In(h, s, w, ph) && (ph.PreparedPhase? || ph.AdmittingPhase?) && next.db == w.db
    requires Frame(w.files, next.files, ph.b) && Facts(h, next.files, ph.b) && Grows(w.files, next.files, ph.b)
    ensures In(h, s, next, ph)
  {
    SpentKept(s, w, next, ph.b);
    GrowsKeepsSuccessor(h, w.files, next.files, ph.b, ph.c);
    UnusedKept(w, next, ph.b, ph.c.id);
  }

  lemma LoseStays(h: Hash, s: Site, w: World, ph: Phase, rest: Option<Bytes>)
    requires In(h, s, w, ph) && (rest.None? || Parse(rest.value).None?)
    ensures In(h, s, w.(files := Lose(w.files, rest)), ph)
  {
    var next := w.(files := Lose(w.files, rest));
    LoseFrame(h, w, ph.b, rest, next);
    if ph.PreparedPhase? || ph.AdmittingPhase? {
      SuccessorStays(h, s, w, next, ph);
    } else {
      SpentKept(s, w, next, ph.b);
    }
  }

  // -------------------------------------------------------------- preparation

  /** A preparation that changes the world read an intent whose prior has no open recovery,
      or a prepared one whose lease has ended. */
  lemma PrepareChanges(h: Hash, s: Site, w: World, req: Request, m: Mandate, path: Path, ids: Fresh, now: Time, seconds: int)
    requires PrepareRecovery(h, s, w, req, m, path, ids, now, seconds).Ok?
    requires PrepareRecovery(h, s, w, req, m, path, ids, now, seconds).value.0 != w
    ensures path in w.files && !NotIntent(w.files[path])
    ensures var prior := Parse(w.files[path]).value.intent.basis.prior;
            prior !in w.db.open || (w.db.open[prior].state == Prepared && w.db.open[prior].candidate.leaseExpires <= now)
  {
  }

  /** The one intent still to be continued is the next one of `b`. */
  lemma UnspentIntent(h: Hash, s: Site, w: World, ph: Phase, path: Path, now: Time)
    requires In(h, s, w, ph) && path in w.files && !NotIntent(w.files[path])
    requires var prior := Parse(w.files[path]).value.intent.basis.prior;
             prior !in w.db.open || (w.db.open[prior].state == Prepared && w.db.open[prior].candidate.leaseExpires <= now)
    ensures path == IntentFile(ph.b.epoch + 1) && Written(w.files, ph.b)
    ensures ph.FencedPhase? || (ph.PreparedPhase? && ph.c.leaseExpires <= now)
  {
    assert !SpentAt(w.db, w.files[path], ph.b);
    assert path == IntentFile(ph.b.epoch + 1) && Intended(w.files, ph.b);
    assert !ph.LivePhase?;
  }

  /** The recovery candidate that continues the epoch of `b`. */
  function CandidateOf(h: Hash, files: Files, b: Binding, req: Request, ids: Fresh, expires: Time): Binding
    requires Receipted(files, b) && IsReceipt(h, files[ReceiptFile(b.id, b.epoch)], b)
  {
    var intent := IntentOf(h, b, TheReceipt(h, files, b));
    Candidate(h, intent.basis, intent.digest, req, ids, expires)
  }

  lemma CandidateFits(h: Hash, s: Site, files: Files, b: Binding, req: Request, ids: Fresh, expires: Time)
    requires Fits(h, s, b) && Receipted(files, b) && IsReceipt(h, files[ReceiptFile(b.id, b.epoch)], b)
    requires req.process.pid > 1 && req.host == b.host && ids.admission != b.root
    ensures var c := CandidateOf(h, files, b, req, ids, expires);
            Fits(h, s, c) && Succeeds(h, files, b, c) && c.leaseExpires == expires
  {
  }

  /** Opening a session for the next epoch leaves a fenced epoch alone. */
  lemma SessionOpens(h: Hash, s: Site, db: Db, b: Binding, c: Binding, ids: Fresh, expires: Time)
    requires FencedRows(h, s, db, b) && c.profile == b.profile && c.release == b.release && c.session == ids.session
    requires c.token == ids.token && ids.session !in db.sessions && c.profile.role == SCRIBE
    requires db.workers[b.profile.worker].agent == b.release.agent
    requires OpenSession(db, c, ids, expires).Ok?
    ensures var next := OpenSession(db, c, ids, expires).value;
            && next == db.(sessions := next.sessions, workers := next.workers)
            && RevokedRows(h, s, next, b)
            && c.session in next.sessions && OwnSession(c, next.sessions[c.session]) && next.sessions[c.session].state == Active
            && next.workers[b.profile.worker].token == Some(c.token) && next.workers[b.profile.worker].lease.Some?
  {
  }

  /** The recovery of `b` opened with candidate `c`, over the sessions and workers of `db`. */
  function WithRecovery(w: World, db: Db, b: Binding, req: Request, c: Binding): World {
    w.(db := db.(open := db.open[b.id := Recovery(c, req, Prepared)]))
  }

  lemma RecoveryAssembled(h: Hash, s: Site, w: World, db: Db, b: Binding, req: Request, c: Binding)
    requires RevokedRows(h, s, db, b) && Facts(h, w.files, b) && Written(w.files, b) && NoLive(db, s.company, SCRIBE)
    requires Highest(s, db, b) && Spent(s, w.(db := db), b) && UnusedId(w.(db := db), c.id) && c.id !in db.admissions
    requires Fits(h, s, c) && Succeeds(h, w.files, b, c)
    requires c.session in db.sessions && OwnSession(c, db.sessions[c.session]) && db.sessions[c.session].state == Active
    requires db.workers[b.profile.worker].token == Some(c.token) && db.workers[b.profile.worker].lease.Some?
    ensures In(h, s, WithRecovery(w, db, b, req, c), PreparedPhase(b, c))
  {
    var next := WithRecovery(w, db, b, req, c);
    assert OwnRows(h, s, next.db, b);
    forall path | path in next.files && path != IntentFile(b.epoch + 1) ensures SpentAt(next.db, next.files[path], b) {
      assert SpentAt(db, w.files[path], b);
    }
  }

  /** From a complete fence with no open recovery, a new recovery prepares the next epoch. */
  lemma NewRecoveryOpens(h: Hash, s: Site, w: World, db: Db, b: Binding, req: Request, ids: Fresh, now: Time, seconds: int)
    requires FencedRows(h, s, db, b) && Facts(h, w.files, b) && Written(w.files, b) && b.id !in db.open
    requires Spent(s, w.(db := db), b) && FreshIds(w.(db := db), ids) && req.process.pid > 1 && req.host == b.host
    requires NewRecovery(h, s, w, db, IntentOf(h, b, TheReceipt(h, w.files, b)), req, ids, now, seconds).Ok?
    ensures var r := NewRecovery(h, s, w, db, IntentOf(h, b, TheReceipt(h, w.files, b)), req, ids, now, seconds).value;
            In(h, s, r.0, PreparedPhase(b, r.1)) && r.1 == CandidateOf(h, w.files, b, req, ids, now + seconds)
            && r.0.files == w.files && r.0.db.abandoned == db.abandoned
  {
    var c := CandidateOf(h, w.files, b, req, ids, now + seconds);
    CandidateFits(h, s, w.files, b, req, ids, now + seconds);
    var begun := OpenSession(db, c, ids, now + seconds);
    SessionOpens(h, s, db, b, c, ids, now + seconds);
    RecoveryAssembled(h, s, w, begun.value, b, req, c);
  }

  lemma AbandonedRows(h: Hash, s: Site, w: World, b: Binding, c: Binding)
    requires PreparedWorld(h, s, w, b, c)
    ensures FencedRows(h, s, Abandon(w.db, b.id), b)
    ensures var db := Abandon(w.db, b.id); c.session in db.sessions && db.sessions[c.session].state == Ended
  {
    var db := Abandon(w.db, b.id);
    assert OwnRows(h, s, db, b);
    assert db.workers[b.profile.worker].token.None?;
  }

  lemma AbandonedFresh(w: World, prior: Uuid, ids: Fresh)
    requires prior in w.db.open && FreshIds(w, ids)
    ensures FreshIds(w.(db := Abandon(w.db, prior)), ids)
  {
  }

  /** The recovery of `b` taken back: its candidate's session ended, the worker free, its row kept
      among the abandoned ones. */
  function AbandonedTo(db: Db, b: Binding, c: Binding): Db
    requires b.id in db.open && c.session in db.sessions && c.profile.worker in db.workers
  {
    db.(sessions := db.sessions[c.session := db.sessions[c.session].(state := Ended)],
        workers := db.workers[c.profile.worker := db.workers[c.profile.worker].(token := None, lease := None)],
        open := db.open - {b.id},
        abandoned := db.abandoned[c.id := db.open[b.id]])
  }

  /** Abandoning an expired candidate brings the lane back to the fenced epoch. */
  lemma AbandonReturns(h: Hash, s: Site, w: World, b: Binding, c: Binding, ids: Fresh)
    requires In(h, s, w, PreparedPhase(b, c)) && FreshIds(w, ids)
    ensures var db := Abandon(w.db, b.id);
            && FencedRows(h, s, db, b) && b.id !in db.open && Spent(s, w.(db := db), b) && FreshIds(w.(db := db), ids)
            && c.id in db.abandoned && db.abandoned[c.id].candidate == c
            && c.session in db.sessions && db.sessions[c.session].state == Ended
            && db == AbandonedTo(w.db, b, c)
  {
    AbandonedRows(h, s, w, b, c);
    AbandonedFresh(w, b.id, ids);
    AbandonedSpent(s, w, b);
  }

  lemma AbandonedSpent(s: Site, w: World, b: Binding)
    requires Spent(s, w, b) && b.id in w.db.open
    ensures Spent(s, w.(db := Abandon(w.db, b.id)), b)
  {
    var db := Abandon(w.db, b.id);
    forall path | path in w.files && path != IntentFile(b.epoch + 1) ensures SpentAt(db, w.files[path], b) {
      assert SpentAt(w.db, w.files[path], b);
    }
  }

  /** Preparing from the next intent of `b`, with that intent read. */
  lemma PrepareIs(h: Hash, s: Site, w: World, b: Binding, req: Request, m: Mandate, ids: Fresh, now: Time, seconds: int)
    requires Fits(h, s, b) && Facts(h, w.files, b) && Written(w.files, b)
    requires b.id !in w.db.open || (w.db.open[b.id].state == Prepared && w.db.open[b.id].candidate.leaseExpires <= now)
    ensures var intent := IntentOf(h, b, TheReceipt(h, w.files, b));
            PrepareRecovery(h, s, w, req, m, IntentFile(b.epoch + 1), ids, now, seconds) ==
            if !(30 <= seconds <= 300 && Unchanged(intent.basis, req, m)) then Refused
            else if b.id !in w.db.open then NewRecovery(h, s, w, w.db, intent, req, ids, now, seconds)
            else NewRecovery(h, s, w, Abandon(w.db, b.id), intent, req, ids, now, seconds)
  {
    IntentReadable(h, s, w.files, b);
  }

  /** Preparing the next epoch of `b` from its complete fence, or over an expired candidate. */
  lemma NextPrepared(h: Hash, s: Site, w: World, ph: Phase, req: Request, m: Mandate, ids: Fresh, now: Time, seconds: int, r: Result<(World, Binding)>)
    requires In(h, s, w, ph) && FreshIds(w, ids) && req.process.pid > 1 && Written(w.files, ph.b)
    requires ph.FencedPhase? || (ph.PreparedPhase? && ph.c.leaseExpires <= now)
    requires r == PrepareRecovery(h, s, w, req, m, IntentFile(ph.b.epoch + 1), ids, now, seconds) && r.Ok?
    ensures In(h, s, r.value.0, PreparedPhase(ph.b, r.value.1)) && r.value.0.files == w.files
    ensures r.value.1 == CandidateOf(h, w.files, ph.b, req, ids, now + seconds)
    ensures ph.PreparedPhase? ==> ph.c.id in r.value.0.db.abandoned && r.value.0.db.abandoned[ph.c.id].candidate == ph.c
  {
    PrepareIs(h, s, w, ph.b, req, m, ids, now, seconds);
    if ph.FencedPhase? {
      NewRecoveryOpens(h, s, w, w.db, ph.b, req, ids, now, seconds);
    } else {
      AbandonReturns(h, s, w, ph.b, ph.c, ids);
      NewRecoveryOpens(h, s, w, Abandon(w.db, ph.b.id), ph.b, req, ids, now, seconds);
    }
  }

  lemma PrepareMoves(h: Hash, s: Site, w: World, ph: Phase, req: Request, m: Mandate, path: Path, ids: Fresh,
                     now: Time, seconds: int, r: Result<(World, Binding)>) returns (to: Phase)
    requires In(h, s, w, ph) && FreshIds(w, ids) && req.process.pid > 1
    requires r == PrepareRecovery(h, s, w, req, m, path, ids, now, seconds) && r.Ok?
    ensures In(h, s, r.value.0, to) && Moves(ph, to)
  {
    to := ph;
    if r.value.0 != w {
      PrepareChanges(h, s, w, req, m, path, ids, now, seconds);
      UnspentIntent(h, s, w, ph, path, now);
      to := PreparedPhase(ph.b, r.value.1);
      NextPrepared(h, s, w, ph, req, m, ids, now, seconds, r);
    }
  }

  // ---------------------------------------------------------------- admission

  /** Two candidates can be admitted: the prepared one, and the one that is live already. */
  lemma OnlyOwnAdmits(h: Hash, s: Site, w: World, ph: Phase, req: Request, m: Mandate, c: Binding, at: Time)
    requires In(h, s, w, ph) && AdmitTx(h, w.db, req, m, c, at).Ok?
    requires Fits(h, s, c) && c.authority.Recovered? && (c.id in w.db.admissions ==> w.db.admissions[c.id].b == c)
    ensures ph == PreparedPhase(ph.b, c) || ((ph == LivePhase(c) || ph == AdmittingPhase(ph.b, c)) && AdmitTx(h, w.db, req, m, c, at).value == w.db)
  {
    if c.id in w.db.admissions {
      assert IsScribe(s, c) && w.db.admissions[c.id].state == Live;
    } else {
      assert NoLive(w.db, s.company, SCRIBE);
      assert IsScribe(s, w.db.open[c.authority.prior].candidate);
    }
  }

  lemma AdmittedRows(h: Hash, s: Site, w: World, b: Binding, c: Binding, req: Request, m: Mandate, at: Time)
    requires In(h, s, w, PreparedPhase(b, c)) && AdmitTx(h, w.db, req, m, c, at).Ok?
    ensures var db := AdmitTx(h, w.db, req, m, c, at).value;
            In(h, s, w.(db := db), AdmittingPhase(b, c))
  {
    var db := AdmitTx(h, w.db, req, m, c, at).value;
    assert RevokedRows(h, s, db, b);
    assert LiveRows(h, s, db, c);
    forall path | path in w.files && path != IntentFile(b.epoch + 1) ensures SpentAt(db, w.files[path], b) {
      assert SpentAt(w.db, w.files[path], b);
    }
  }

  lemma LeasePublished(h: Hash, s: Site, w: World, b: Binding, c: Binding, lease: Bytes)
    requires In(h, s, w, AdmittingPhase(b, c)) && NotIntent(lease)
    ensures In(h, s, w.(files := w.files[LeaseFile := lease]), AdmittingPhase(b, c))
  {
    var leased := w.(files := w.files[LeaseFile := lease]);
    SpentKept(s, w, leased, b);
    UnusedKept(w, leased, b, c.id);
    AsideKeepsFacts(h, w.files, leased.files, b);
    GrowsKeepsSuccessor(h, w.files, leased.files, b, c);
  }

  lemma BindingPublished(h: Hash, s: Site, w: World, b: Binding, c: Binding)
    requires In(h, s, w, AdmittingPhase(b, c))
    ensures In(h, s, Restore(w, c), LivePhase(c))
  {
    SpentPasses(h, s, w, b, c);
    FactsPass(h, s, w, b, c);
    SpentKept(s, w, Restore(w, c), c);
  }

  /** Publishing the lease and the binding file of an admitted candidate. */
  lemma Published(h: Hash, s: Site, w: World, b: Binding, c: Binding, lease: Bytes)
    requires In(h, s, w, AdmittingPhase(b, c)) && NotIntent(lease)
    ensures In(h, s, w.(files := w.files[LeaseFile := lease]), AdmittingPhase(b, c))
    ensures In(h, s, w.(files := w.files[LeaseFile := lease][BindingFile := Stored(c)]), LivePhase(c))
  {
    LeasePublished(h, s, w, b, c, lease);
    BindingPublished(h, s, w.(files := w.files[LeaseFile := lease]), b, c);
  }

  lemma LiveRepublished(h: Hash, s: Site, w: World, c: Binding, lease: Bytes)
    requires In(h, s, w, LivePhase(c)) && NotIntent(lease)
    ensures In(h, s, w.(files := w.files[LeaseFile := lease]), LivePhase(c))
    ensures In(h, s, w.(files := w.files[LeaseFile := lease][BindingFile := Stored(c)]), LivePhase(c))
  {
    var leased := w.(files := w.files[LeaseFile := lease]);
    AsideKeepsFacts(h, w.files, leased.files, c);
    SpentKept(s, w, leased, c);
    SpentKept(s, leased, Restore(leased, c), c);
  }

  lemma LivePublication(h: Hash, s: Site, w: World, c: Binding, fuel: nat, after: After)
    requires In(h, s, w, LivePhase(c)) && after == PublishAdmission(w, c, fuel)
    ensures In(h, s, after.w, LivePhase(c))
  {
    LiveRepublished(h, s, w, c, Line(LeaseDoc(c.id, c.epoch, c.leaseExpires)));
  }

  lemma TornPublication(h: Hash, s: Site, w: World, b: Binding, c: Binding, fuel: nat, after: After)
    requires In(h, s, w, AdmittingPhase(b, c)) && after == PublishAdmission(w, c, fuel)
    ensures In(h, s, after.w, if fuel <= 1 then AdmittingPhase(b, c) else LivePhase(c))
    ensures after.out == (if fuel <= 1 then Crashed else Renewed)
  {
    Published(h, s, w, b, c, Line(LeaseDoc(c.id, c.epoch, c.leaseExpires)));
  }

  /** After the insert, or the reading back of a row already there, the candidate is live. */
  lemma InsertMoves(h: Hash, s: Site, w: World, ph: Phase, req: Request, m: Mandate, c: Binding, at: Time, db: Db)
    requires In(h, s, w, ph) && AdmitTx(h, w.db, req, m, c, at) == Ok(db)
    requires Fits(h, s, c) && c.authority.Recovered? && (c.id in w.db.admissions ==> w.db.admissions[c.id].b == c)
    ensures ph == LivePhase(c) || ph == PreparedPhase(ph.b, c) || ph == AdmittingPhase(ph.b, c)
    ensures In(h, s, w.(db := db), if ph.LivePhase? then ph else AdmittingPhase(ph.b, c))
  {
    OnlyOwnAdmits(h, s, w, ph, req, m, c, at);
    if ph.PreparedPhase? { AdmittedRows(h, s, w, ph.b, c, req, m, at); } else { assert w.(db := db) == w; }
  }

  /** An admission inserts nothing and changes nothing, or inserts and goes on to publish. */
  lemma AdmitUnfolds(h: Hash, w: World, req: Request, m: Mandate, c: Binding, at: Time, steps: nat, after: After)
    returns (inserted: Option<Db>)
    requires after == Admit(h, w, req, m, c, at, steps)
    ensures inserted.None? ==> after.w == w && after.out != Renewed
    ensures inserted.None? <==> steps == 0 || AdmitTx(h, w.db, req, m, c, at).Refused?
    ensures inserted.Some? ==> AdmitTx(h, w.db, req, m, c, at) == Ok(inserted.value)
                               && after == PublishAdmission(w.(db := inserted.value), c, steps - 1)
  {
    if steps == 0 { return None; }
    match AdmitTx(h, w.db, req, m, c, at) {
      case Refused => inserted := None;
      case Ok(db) => inserted := Some(db);
    }
  }

  lemma InsertsOrNot(h: Hash, s: Site, w: World, ph: Phase, req: Request, m: Mandate, c: Binding, at: Time, steps: nat, after: After)
    returns (inserted: Option<Db>)
    requires In(h, s, w, ph) && after == Admit(h, w, req, m, c, at, steps)
    requires Fits(h, s, c) && c.authority.Recovered? && (c.id in w.db.admissions ==> w.db.admissions[c.id].b == c)
    ensures inserted.None? ==> after.w == w && after.out != Renewed
    ensures inserted.Some? ==> steps > 0 && after == PublishAdmission(w.(db := inserted.value), c, steps - 1)
    ensures inserted.Some? ==> ph == LivePhase(c) || ph == PreparedPhase(ph.b, c) || ph == AdmittingPhase(ph.b, c)
    ensures inserted.Some? ==> In(h, s, w.(db := inserted.value), if ph.LivePhase? then ph else AdmittingPhase(ph.b, c))
  {
    inserted := AdmitUnfolds(h, w, req, m, c, at, steps, after);
    if inserted.Some? { InsertMoves(h, s, w, ph, req, m, c, at, inserted.value); }
  }

  lemma AdmitMoves(h: Hash, s: Site, w: World, ph: Phase, req: Request, m: Mandate, c: Binding, at: Time, steps: nat, after: After)
    returns (to: Phase)
    requires In(h, s, w, ph) && after == Admit(h, w, req, m, c, at, steps)
    requires Fits(h, s, c) && c.authority.Recovered? && (c.id in w.db.admissions ==> w.db.admissions[c.id].b == c)
    ensures In(h, s, after.w, to) && Moves(ph, to)
    ensures after.out == Renewed ==> to == LivePhase(c)
  {
    to := ph;
    var inserted := InsertsOrNot(h, s, w, ph, req, m, c, at, steps, after);
    if inserted.Some? { to := Publication(h, s, w.(db := inserted.value), ph, c, steps - 1, after); }
  }

  /** Where an admission of the prepared candidate stops, if its insert commits. */
  lemma AdmitFromPrepared(h: Hash, s: Site, w: World, b: Binding, c: Binding, req: Request, m: Mandate, at: Time, steps: nat, after: After)
    returns (to: Phase)
    requires In(h, s, w, PreparedPhase(b, c)) && after == Admit(h, w, req, m, c, at, steps) && AdmitTx(h, w.db, req, m, c, at).Ok?
    ensures In(h, s, after.w, to)
    ensures to == if steps == 0 then PreparedPhase(b, c) else if steps <= 2 then AdmittingPhase(b, c) else LivePhase(c)
  {
    to := PreparedPhase(b, c);
    var inserted := AdmitUnfolds(h, w, req, m, c, at, steps, after);
    if inserted.Some? {
      AdmittedRows(h, s, w, b, c, req, m, at);
      to := Publication(h, s, w.(db := inserted.value), to, c, steps - 1, after);
    }
  }

  lemma Publication(h: Hash, s: Site, w: World, ph: Phase, c: Binding, fuel: nat, after: After) returns (to: Phase)
    requires ph == LivePhase(c) || ph == PreparedPhase(ph.b, c) || ph == AdmittingPhase(ph.b, c)
    requires In(h, s, w, if ph.LivePhase? then ph else AdmittingPhase(ph.b, c)) && after == PublishAdmission(w, c, fuel)
    ensures In(h, s, after.w, to) && Moves(ph, to) && (after.out == Renewed ==> to == LivePhase(c))
    ensures ph.PreparedPhase? ==> to == if fuel <= 1 then AdmittingPhase(ph.b, c) else LivePhase(c)
  {
    if ph.LivePhase? {
      LivePublication(h, s, w, c, fuel, after);
      to := ph;
    } else {
      TornPublication(h, s, w, ph.b, c, fuel, after);
      to := if fuel <= 1 then AdmittingPhase(ph.b, c) else LivePhase(c);
    }
  }

  // --------------------------------------------------------------------- runs

  lemma EventMoves(h: Hash, s: Site, w: World, ph: Phase, e: Event, next: World) returns (to: Phase)
    requires In(h, s, w, ph) && Admissible(h, s, w, e) && next == Next(h, s, w, e)
    ensures In(h, s, next, to) && Moves(ph, to)
  {
    to := ph;
    match e
    case TickEvent(env, fuel) => to := TickMoves(h, s, w, ph, env, fuel, next);
    case LoseEvent(rest) => LoseStays(h, s, w, ph, rest);
    case PrepareEvent(req, m, path, ids, now, seconds) =>
      if PrepareRecovery(h, s, w, req, m, path, ids, now, seconds).Ok? {
        to := PrepareMoves(h, s, w, ph, req, m, path, ids, now, seconds, PrepareRecovery(h, s, w, req, m, path, ids, now, seconds));
      }
    case AdmitEvent(req, m, c, at, steps) =>
      to := AdmitMoves(h, s, w, ph, req, m, c, at, steps, Admit(h, w, req, m, c, at, steps));
  }

  ghost predicate AdmissibleRun(h: Hash, s: Site, w: World, es: seq<Event>)
    decreases |es|
  {
    es == [] || (Admissible(h, s, w, es[0]) && AdmissibleRun(h, s, Next(h, s, w, es[0]), es[1..]))
  }

  /** The binding a phase stands for: the one admitted, or about to be closed. */
  function Current(ph: Phase): Binding {
    if ph.AdmittingPhase? then ph.c else ph.b
  }

  ghost predicate SameChain(b: Binding, c: Binding) {
    && c.epoch >= b.epoch && c.root == b.root && c.profile == b.profile && c.release == b.release
    && c.host == b.host && c.fence == b.fence && c.approval == b.approval
  }

  ghost predicate LiveIn(s: Site, db: Db, id: Uuid) {
    id in db.admissions && db.admissions[id].state == Live && IsScribe(s, db.admissions[id].b)
  }

  lemma MovesKeepChain(h: Hash, s: Site, w: World, next: World, from: Phase, to: Phase)
    requires In(h, s, w, from) && In(h, s, next, to) && Moves(from, to)
    ensures SameChain(Current(from), Current(to))
  {
  }

  lemma AtMostOneLive(h: Hash, s: Site, w: World, ph: Phase)
    requires In(h, s, w, ph)
    ensures forall k, l :: LiveIn(s, w.db, k) && LiveIn(s, w.db, l) ==> k == l
  {
    match ph
    case LivePhase(b) => assert OnlyLive(s, w.db, b.id);
    case FencedPhase(_) => assert NoLive(w.db, s.company, SCRIBE);
    case PreparedPhase(_, _) => assert NoLive(w.db, s.company, SCRIBE);
    case AdmittingPhase(_, c) => assert OnlyLive(s, w.db, c.id);
  }

  /** Over every run of ticks, losses, preparations and admissions, in any order and dying
      anywhere: one root, one release, one host and one mandate, epochs that never go back,
      and at most one live admission. */
  lemma {:induction false} RunStaysInLane(h: Hash, s: Site, w: World, ph: Phase, es: seq<Event>, end: World) returns (to: Phase)
    requires In(h, s, w, ph) && AdmissibleRun(h, s, w, es) && end == Run(h, s, w, es)
    ensures In(h, s, end, to) && SameChain(Current(ph), Current(to))
    ensures forall k, l :: LiveIn(s, end.db, k) && LiveIn(s, end.db, l) ==> k == l
    decreases |es|
  {
    to := ph;
    if es == [] {
      AtMostOneLive(h, s, w, ph);
    } else {
      var next := Next(h, s, w, es[0]);
      var mid := EventMoves(h, s, w, ph, es[0], next);
      to := RunStaysInLane(h, s, next, mid, es[1..], end);
      MovesKeepChain(h, s, w, next, ph, mid);
    }
  }
}
