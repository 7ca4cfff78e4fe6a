/** The Scribe lane keeps going: one initial admission, then any number of cycles, each with
    crashes, losses of the binding file, lapsed candidates and a torn admission. */
module ScribeCycles {
  import opened Outcome
  import opened LaneRecords
  import opened ScribeLane
  import opened ScribePhases
  import opened ScribeRuns
  import opened ScribeEpochs

  /** One preparation of a launch. */
  datatype Attempt = Attempt(req: Request, ids: Fresh, at: Time, seconds: int)

  /** What one cycle brings: disturbances; a tick that finds the process gone; preparations,
      of which all but the last lapse; an admission that dies after `torn` steps, and again. */
  datatype Launch = Launch(es: seq<Event>, fence: Env, fuel: nat, attempts: seq<Attempt>, admitAt: Time, torn: nat, retryAt: Time)

  function FenceEnd(h: Hash, s: Site, w: World, x: Launch): After {
    Tick(h, s, Run(h, s, w, x.es), x.fence, x.fuel)
  }

  /** Prepare again and again from one intent; the last candidate is the one to admit. */
  function Prepares(h: Hash, s: Site, w: World, m: Mandate, path: Path, attempts: seq<Attempt>): Result<(World, Binding)>
    decreases |attempts|, 1
  {
    if attempts == [] then Refused
    else PreparesThen(h, s, w, m, path, attempts[..|attempts| - 1], attempts[|attempts| - 1])
  }

  function PreparesThen(h: Hash, s: Site, w: World, m: Mandate, path: Path, before: seq<Attempt>, a: Attempt): Result<(World, Binding)>
    decreases |before| + 1, 0
  {
    if before == [] then PrepareRecovery(h, s, w, a.req, m, path, a.ids, a.at, a.seconds)
    else
      var lapsed :- Prepares(h, s, w, m, path, before);
      PrepareRecovery(h, s, lapsed.0, a.req, m, path, a.ids, a.at, a.seconds)
  }

  /** Admit, die after `torn` steps, and admit once more. */
  function AdmitTwice(h: Hash, w: World, m: Mandate, req: Request, c: Binding, at: Time, torn: nat, retryAt: Time): After {
    Admit(h, Admit(h, w, req, m, c, at, torn).w, req, m, c, retryAt, 3)
  }

  function Relaunch(h: Hash, s: Site, w: World, m: Mandate, x: Launch): Result<World> {
    var _ :- Check(x.attempts != []);
    var note :- Read(w.files, RequestFile);
    var _ :- Check(note.RequestDoc?);
    var ready :- Prepares(h, s, w, m, note.intentPath, x.attempts);
    var admitted := AdmitTwice(h, ready.0, m, x.attempts[|x.attempts| - 1].req, ready.1, x.admitAt, x.torn, x.retryAt);
    if admitted.out == Renewed then Ok(admitted.w) else Refused
  }

  function Cycle(h: Hash, s: Site, w: World, m: Mandate, x: Launch): Result<World> {
    var fenced := FenceEnd(h, s, w, x);
    if fenced.out == Fenced then Relaunch(h, s, fenced.w, m, x) else Refused
  }

  function Cycles(h: Hash, s: Site, w: World, m: Mandate, xs: seq<Launch>): Result<World>
    decreases |xs|, 1
  {
    if xs == [] then Ok(w) else CycleThen(h, s, w, m, xs[0], xs[1..])
  }

  function CycleThen(h: Hash, s: Site, w: World, m: Mandate, x: Launch, rest: seq<Launch>): Result<World>
    decreases |rest| + 1, 0
  {
    match Cycle(h, s, w, m, x)
    case Refused => Refused
    case Ok(next) => Cycles(h, s, next, m, rest)
  }

  // -------------------------------------------------- what the host provides

  /** Package installed, worker and manifest active, mandate standing, and no admission of
      another role of the company live. */
  ghost predicate Serviceable(s: Site, db: Db, b: Binding) {
    Provided(s, db, b) && OthersIdle(s, db)
  }

  /** The mandate is active, or completed and verified, and of its artifact; the package is installed
      for the company, with the digests of the release; worker and manifest are active. */
  predicate Provided(s: Site, db: Db, b: Binding) {
    var m, r, k := b.profile.mandate, b.release, b.profile.worker;
    && m.id in db.mandates && db.mandates[m.id].artifact == m.artifact
    && (db.mandates[m.id].status == MandateActive || db.mandates[m.id] == MandateRow(m.artifact, MandateCompleted, true))
    && r.packageId in db.packages
    && (var pk := db.packages[r.packageId];
        pk == Package(s.company, pk.role, pk.deployment, true, r.package, r.kernel, r.commit, r.tree))
    && k in db.workers
    && db.workers[k] == Worker(s.company, "scribe", r.agent, true, true, db.workers[k].token, db.workers[k].lease)
  }

  ghost predicate OthersIdle(s: Site, db: Db) {
    forall k | k in db.admissions ::
      db.admissions[k].b.profile.company == s.company && db.admissions[k].b.profile.role != SCRIBE ==> db.admissions[k].state != Live
  }

  /** The same release, host and mandate, a real process, an allowed lease. */
  ghost predicate GoodAttempt(b: Binding, w: World, a: Attempt) {
    && a.req.commit == b.release.commit && a.req.tree == b.release.tree && a.req.host == b.host && a.req.process.pid > 1
    && 30 <= a.seconds <= 300 && FreshIds(w, a.ids)
  }

  /** Each preparation comes after the lease of the one before it has ended. */
  ghost predicate GoodAttempts(h: Hash, s: Site, w: World, b: Binding, path: Path, attempts: seq<Attempt>)
    requires attempts != []
    decreases |attempts|, 1
  {
    GoodAttemptThen(h, s, w, b, path, attempts[..|attempts| - 1], attempts[|attempts| - 1])
  }

  ghost predicate GoodAttemptThen(h: Hash, s: Site, w: World, b: Binding, path: Path, before: seq<Attempt>, a: Attempt)
    decreases |before| + 1, 0
  {
    if before == [] then GoodAttempt(b, w, a)
    else
      && GoodAttempts(h, s, w, b, path, before)
      && a.at >= before[|before| - 1].at + before[|before| - 1].seconds
      && var lapsed := Prepares(h, s, w, b.profile.mandate, path, before);
         lapsed.Ok? ==> GoodAttempt(b, lapsed.value.0, a)
  }

  /** The last candidate is first admitted before its lease ends; when that try already died
      before the insert, the second one comes in time too. */
  ghost predicate GoodLaunch(h: Hash, s: Site, w: World, b: Binding, x: Launch) {
    && Disturbances(h, s, w, x.es) && Answers(s, Run(h, s, w, x.es).db, x.fence.found)
    && Cooperative(x.fence) && x.fuel >= FENCE_STEPS + 1
    && x.attempts != []
    && var fenced := FenceEnd(h, s, w, x).w;
       && (forall path :: Announces(fenced.files, path) ==> GoodAttempts(h, s, fenced, b, path, x.attempts))
       && var last := x.attempts[|x.attempts| - 1];
          x.admitAt < last.at + last.seconds && (x.torn == 0 ==> x.retryAt < last.at + last.seconds)
  }

  ghost predicate GoodLaunches(h: Hash, s: Site, w: World, b: Binding, xs: seq<Launch>)
    decreases |xs|, 1
  {
    xs == [] || GoodThen(h, s, w, b, xs[0], xs[1..])
  }

  ghost predicate GoodThen(h: Hash, s: Site, w: World, b: Binding, x: Launch, rest: seq<Launch>)
    decreases |rest| + 1, 0
  {
    && GoodLaunch(h, s, w, b, x)
    && var next := Cycle(h, s, w, b.profile.mandate, x);
       next.Ok? ==> GoodLaunches(h, s, next.value, b, rest)
  }

  ghost predicate Announces(files: Files, path: Path) {
    RequestFile in files && Parse(files[RequestFile]).Some? && Parse(files[RequestFile]).value.RequestDoc?
    && Parse(files[RequestFile]).value.intentPath == path
  }

  // ------------------------------------------------------------ service is kept

  lemma RenewedKeepsService(s: Site, db: Db, o: Binding, b: Binding, expires: Time)
    requires Serviceable(s, db, o) && b.id in db.admissions && b.session in db.sessions && b.profile.worker in db.workers
    ensures Serviceable(s, RenewedTo(db, b, expires), o)
  {
  }

  lemma RevokedKeepsService(s: Site, db: Db, o: Binding, b: Binding)
    requires Serviceable(s, db, o) && RevokeTx(db, b).Ok?
    ensures Serviceable(s, RevokeTx(db, b).value, o)
  {
    CloseKeepsService(s, db, o, b);
    EndKeepsService(s, CloseAdmission(db, b).value, o, b);
  }

  lemma CloseKeepsService(s: Site, db: Db, o: Binding, b: Binding)
    requires Serviceable(s, db, o) && CloseAdmission(db, b).Ok?
    ensures Serviceable(s, CloseAdmission(db, b).value, o)
  {
  }

  lemma EndKeepsService(s: Site, db: Db, o: Binding, b: Binding)
    requires Serviceable(s, db, o) && EndBoundSession(db, b).Ok?
    ensures Serviceable(s, EndBoundSession(db, b).value, o)
  {
  }

  lemma LivePhaseKeepsService(h: Hash, s: Site, w: World, o: Binding, b: Binding, env: Env, next: World)
    requires Serviceable(s, w.db, o) && LiveRows(h, s, w.db, b) && LiveOrFenced(h, s, w.db, next, b, env)
    ensures Serviceable(s, next.db, o)
  {
    if next.db == RenewedTo(w.db, b, env.now + env.leaseSeconds) {
      RenewedKeepsService(s, w.db, o, b, env.now + env.leaseSeconds);
    } else if next.db != w.db {
      RevokedKeepsService(s, w.db, o, b);
    }
  }

  lemma OpeningKeepsService(s: Site, db: Db, o: Binding, c: Binding, ids: Fresh, expires: Time)
    requires Serviceable(s, db, o) && OpenSession(db, c, ids, expires).Ok?
    ensures Serviceable(s, OpenSession(db, c, ids, expires).value, o)
  {
  }

  lemma AbandonKeepsService(s: Site, db: Db, o: Binding, prior: Uuid)
    requires Serviceable(s, db, o) && prior in db.open
    ensures Serviceable(s, Abandon(db, prior), o)
  {
  }

  // -------------------------------------------------------------- the fence half

  ghost predicate Underway(ph: Phase, b: Binding) {
    ph == LivePhase(b) || ph == FencedPhase(b)
  }

  lemma TickDisturbs(h: Hash, s: Site, w: World, o: Binding, b: Binding, ph: Phase, env: Env, fuel: nat, next: World) returns (to: Phase)
    requires In(h, s, w, ph) && Underway(ph, b) && Serviceable(s, w.db, o)
    requires Answers(s, w.db, env.found) && next == Tick(h, s, w, env, fuel).w
    ensures In(h, s, next, to) && Underway(to, b) && Serviceable(s, next.db, o)
  {
    to := ph;
    if ph.LivePhase? {
      to := LivePhaseTick(h, s, w, b, env, fuel, next);
      TickLive(h, s, w, b, env, fuel);
      LivePhaseKeepsService(h, s, w, o, b, env, next);
    } else {
      RevokedPhaseTick(h, s, w, ph, env, fuel, next);
    }
  }

  lemma DisturbanceMoves(h: Hash, s: Site, w: World, o: Binding, b: Binding, ph: Phase, e: Event, next: World) returns (to: Phase)
    requires In(h, s, w, ph) && Underway(ph, b) && Serviceable(s, w.db, o) && Disturbance(w, s, e) && next == Next(h, s, w, e)
    ensures In(h, s, next, to) && Underway(to, b) && Serviceable(s, next.db, o)
  {
    to := ph;
    match e
    case LoseEvent(rest) => LoseStays(h, s, w, ph, rest);
    case TickEvent(env, fuel) => to := TickDisturbs(h, s, w, o, b, ph, env, fuel, next);
    case _ =>
  }

  lemma {:induction false} DisturbancesMove(h: Hash, s: Site, w: World, o: Binding, b: Binding, ph: Phase, es: seq<Event>, end: World)
    returns (to: Phase)
    requires In(h, s, w, ph) && Underway(ph, b) && Serviceable(s, w.db, o) && Disturbances(h, s, w, es) && end == Run(h, s, w, es)
    ensures In(h, s, end, to) && Underway(to, b) && Serviceable(s, end.db, o)
    decreases |es|
  {
    to := ph;
    if es != [] {
      var next := Next(h, s, w, es[0]);
      var mid := DisturbanceMoves(h, s, w, o, b, ph, es[0], next);
      to := DisturbancesMove(h, s, next, o, b, mid, es[1..], end);
    }
  }

  /** The request that awaits the epoch after `b`, with its receipt and its intent. */
  function Awaited(h: Hash, files: Files, b: Binding): (d: Doc)
    requires Receipted(files, b) && IsReceipt(h, files[ReceiptFile(b.id, b.epoch)], b)
    ensures d.RequestDoc? && d.state == Awaiting
  {
    var receipt := TheReceipt(h, files, b);
    RequestDoc(Awaiting, b.root, b.id, b.epoch, b.epoch + 1, ReceiptFile(b.id, b.epoch), receipt.digest,
               IntentFile(b.epoch + 1), IntentOf(h, b, receipt).digest, "")
  }

  ghost predicate Requested(h: Hash, files: Files, b: Binding) {
    && Receipted(files, b) && IsReceipt(h, files[ReceiptFile(b.id, b.epoch)], b)
    && RequestFile in files && files[RequestFile] == Line(Awaited(h, files, b))
  }

  /** The fence of `b` ended from `before` with its request and its heartbeat. */
  ghost predicate AnnouncedFrom(h: Hash, s: Site, before: World, b: Binding, after: World) {
    var step := RequestStep(h, s, before, b);
    && step.Ok? && HeartbeatFile in after.files
    && after.files == step.value.files[HeartbeatFile := after.files[HeartbeatFile]]
  }

  /** The last two steps of a fence. */
  lemma LastStepsAnnounce(h: Hash, s: Site, w: World, f: Fencing, fuel: nat, after: After)
    requires FenceFrom(h, s, w, f, 6, fuel) == after && after.out == Fenced
    ensures AnnouncedFrom(h, s, w, f.b, after.w)
  {
    var sixth := FenceStep(h, s, w, f, 6);
    assert sixth.Ok? && fuel > 1;
    assert FenceFrom(h, s, sixth.value, f, 7, fuel - 1) == after;
    var seventh := FenceStep(h, s, sixth.value, f, 7);
    assert FenceFrom(h, s, seventh.value, f, 8, fuel - 2) == after;
  }

  lemma {:induction false} FenceAnnounces(h: Hash, s: Site, w: World, f: Fencing, i: nat, fuel: nat, after: After) returns (before: World)
    requires i <= 6 && FenceFrom(h, s, w, f, i, fuel) == after && after.out == Fenced
    ensures AnnouncedFrom(h, s, before, f.b, after.w)
    decreases 6 - i
  {
    before := w;
    if i == 6 {
      LastStepsAnnounce(h, s, w, f, fuel, after);
    } else {
      before := FenceAnnounces(h, s, FenceStep(h, s, w, f, i).value, f, i + 1, fuel - 1, after);
    }
  }

  /** A complete fence has announced exactly the request of its receipt and its intent. */
  lemma AnnouncedExactly(h: Hash, s: Site, before: World, b: Binding, after: World)
    requires AnnouncedFrom(h, s, before, b, after) && Complete(h, after.files, b) && Fits(h, s, b)
    ensures Requested(h, after.files, b) && Announces(after.files, IntentFile(b.epoch + 1))
  {
    var receipt := TheReceipt(h, after.files, b);
    assert before.files[ReceiptFile(b.id, b.epoch)] == after.files[ReceiptFile(b.id, b.epoch)];
    assert before.files[IntentFile(b.epoch + 1)] == after.files[IntentFile(b.epoch + 1)];
    assert LoadReceipt(h, before.files, ReceiptFile(b.id, b.epoch)) == Ok(receipt);
    assert LoadIntent(h, s, before.files, IntentFile(b.epoch + 1)) == Ok(IntentOf(h, b, receipt));
  }

  lemma InspectAnnounces(h: Hash, s: Site, w: World, b: Binding, env: Env, fuel: nat, after: After) returns (before: World)
    requires after == InspectFrom(h, s, w, b, env, fuel) && after.out == Fenced
    ensures AnnouncedFrom(h, s, before, b, after.w)
  {
    before := w;
    if LineageBroken(JoinedLease(w.db, b)) {
      before := FenceAnnounces(h, s, w, Fencing(b, "lease_or_lineage_stale", env), 0, fuel, after);
    } else if env.probe.state != ExactLive {
      before := FenceAnnounces(h, s, w, Fencing(b, Label(env.probe.state), env), 0, fuel, after);
    } else if env.probe.lock == Held {
      RenewNeverFences(h, s, w, b, env, fuel, after);
    }
  }

  lemma RenewNeverFences(h: Hash, s: Site, w: World, b: Binding, env: Env, fuel: nat, after: After)
    requires after == RenewFrom(h, s, w, b, env, fuel)
    ensures after.out != Fenced
  {
    var tx := RenewTx(w.db, b, env.now, env.leaseSeconds);
    if fuel > 0 && tx.Ok? { PublishAside(h, s, w.(db := tx.value), b, env, fuel - 1, after); }
  }

  lemma TickAnnounces(h: Hash, s: Site, w: World, b: Binding, env: Env, fuel: nat, after: After) returns (before: World)
    requires Facts(h, w.files, b) && OwnRows(h, s, w.db, b) && Highest(s, w.db, b) && Answers(s, w.db, env.found)
    requires OnlyLive(s, w.db, b.id) && after == Tick(h, s, w, env, fuel) && after.out == Fenced
    ensures AnnouncedFrom(h, s, before, b, after.w)
  {
    TickFinds(h, s, w, b, env, fuel);
    if Lost(w.files) {
      before := InspectAnnounces(h, s, Restore(w, b), b, env, fuel - 1, after);
    } else if w.files[BindingFile] == Stored(b) {
      before := InspectAnnounces(h, s, w, b, env, fuel, after);
    } else {
      before := FenceAnnounces(h, s, w, Fencing(b, "revoked", env), 0, fuel, after);
    }
  }

  lemma LastTickFences(h: Hash, s: Site, w: World, o: Binding, b: Binding, ph: Phase, env: Env, fuel: nat, after: After)
    requires In(h, s, w, ph) && Underway(ph, b) && Serviceable(s, w.db, o)
    requires Answers(s, w.db, env.found) && Cooperative(env) && fuel >= FENCE_STEPS + 1 && after == Tick(h, s, w, env, fuel)
    ensures after.out == Fenced && In(h, s, after.w, FencedPhase(b)) && Complete(h, after.w.files, b) && Serviceable(s, after.w.db, o)
  {
    var to := TickDisturbs(h, s, w, o, b, ph, env, fuel, after.w);
    if ph.LivePhase? { TickLive(h, s, w, b, env, fuel); } else { TickRevoked(h, s, w, b, env, fuel); }
  }

  /** The last tick of the fence half: complete, announced, and still serviceable. */
  lemma LastTick(h: Hash, s: Site, w: World, o: Binding, b: Binding, ph: Phase, env: Env, fuel: nat, after: After)
    requires In(h, s, w, ph) && Underway(ph, b) && Serviceable(s, w.db, o)
    requires Answers(s, w.db, env.found) && Cooperative(env) && fuel >= FENCE_STEPS + 1 && after == Tick(h, s, w, env, fuel)
    ensures after.out == Fenced && In(h, s, after.w, FencedPhase(b)) && Complete(h, after.w.files, b)
    ensures Requested(h, after.w.files, b) && Announces(after.w.files, IntentFile(b.epoch + 1)) && Serviceable(s, after.w.db, o)
  {
    LastTickFences(h, s, w, o, b, ph, env, fuel, after);
    var before := TickAnnounces(h, s, w, b, env, fuel, after);
    AnnouncedExactly(h, s, before, b, after.w);
  }

  lemma FenceCompletes(h: Hash, s: Site, w: World, o: Binding, b: Binding, x: Launch, after: After)
    requires In(h, s, w, LivePhase(b)) && Serviceable(s, w.db, o) && Disturbances(h, s, w, x.es)
    requires Answers(s, Run(h, s, w, x.es).db, x.fence.found) && Cooperative(x.fence) && x.fuel >= FENCE_STEPS + 1
    requires after == FenceEnd(h, s, w, x)
    ensures after.out == Fenced && In(h, s, after.w, FencedPhase(b)) && Complete(h, after.w.files, b)
    ensures Requested(h, after.w.files, b) && Announces(after.w.files, IntentFile(b.epoch + 1))
    ensures Serviceable(s, after.w.db, o) && Kept(w.files, after.w.files)
  {
    var mid := Run(h, s, w, x.es);
    var ph := DisturbancesMove(h, s, w, o, b, LivePhase(b), x.es, mid);
    LastTick(h, s, mid, o, b, ph, x.fence, x.fuel, after);
    WrittenForever(h, s, w, x.es, mid);
    TickKeepsWritten(h, s, mid, x.fence, x.fuel, after);
  }

  /** The fence of `b` leaves alone what is to receipt later restarts. */
  lemma FenceLeavesRestart(h: Hash, s: Site, w: World, o: Binding, b: Binding, x: Launch, after: After)
    requires In(h, s, w, LivePhase(b)) && Serviceable(s, w.db, o) && Disturbances(h, s, w, x.es)
    requires Answers(s, Run(h, s, w, x.es).db, x.fence.found) && after == FenceEnd(h, s, w, x)
    ensures forall e | e > b.epoch :: SameAt(w.files, after.w.files, RestartReceiptFile(e))
  {
    var mid := Run(h, s, w, x.es);
    var ph := DisturbancesMove(h, s, w, o, b, LivePhase(b), x.es, mid);
    DisturbancesLeaveRestart(h, s, w, b, x.es, mid);
    TickLeavesRestart(h, s, mid, b, ph, x.fence, x.fuel);
  }

  lemma DisturbancesLeaveRestart(h: Hash, s: Site, w: World, b: Binding, es: seq<Event>, mid: World)
    requires LiveWorld(h, s, w, b) && Disturbances(h, s, w, es) && mid == Run(h, s, w, es)
    ensures forall e | e > b.epoch :: SameAt(w.files, mid.files, RestartReceiptFile(e))
  {
    DisturbancesFrame(h, s, w, b, es, mid);
  }

  lemma TickLeavesRestart(h: Hash, s: Site, w: World, b: Binding, ph: Phase, env: Env, fuel: nat)
    requires In(h, s, w, ph) && Underway(ph, b) && Answers(s, w.db, env.found)
    ensures forall e | e > b.epoch :: SameAt(w.files, Tick(h, s, w, env, fuel).w.files, RestartReceiptFile(e))
  {
    TickFrame(h, s, w, b, env, fuel);
  }

  // ------------------------------------------------------------ the launch half

  /** A good preparation from a complete fence, or over a lapsed candidate, succeeds. */
  lemma StaticHolds(h: Hash, s: Site, w: World, db: Db, o: Binding, b: Binding, req: Request)
    requires FencedRows(h, s, db, b) && Facts(h, w.files, b) && Written(w.files, b) && Serviceable(s, db, o) && SameChain(o, b)
    requires req.commit == b.release.commit && req.tree == b.release.tree && req.host == b.host
    ensures StaticExact(s, db, IntentOf(h, b, TheReceipt(h, w.files, b)).basis, req)
  {
  }

  lemma NewRecoveryGoes(h: Hash, s: Site, w: World, db: Db, o: Binding, b: Binding, req: Request, ids: Fresh, now: Time, seconds: int)
    requires FencedRows(h, s, db, b) && Facts(h, w.files, b) && Written(w.files, b) && Serviceable(s, db, o) && SameChain(o, b)
    requires req.commit == b.release.commit && req.tree == b.release.tree && req.host == b.host
    ensures var r := NewRecovery(h, s, w, db, IntentOf(h, b, TheReceipt(h, w.files, b)), req, ids, now, seconds);
            r.Ok? && Serviceable(s, r.value.0.db, o)
  {
    StaticHolds(h, s, w, db, o, b, req);
    var intent := IntentOf(h, b, TheReceipt(h, w.files, b));
    var c := Candidate(h, intent.basis, intent.digest, req, ids, now + seconds);
    OpeningKeepsService(s, db, o, c, ids, now + seconds);
  }

  lemma PrepareGoes(h: Hash, s: Site, w: World, o: Binding, ph: Phase, a: Attempt, r: Result<(World, Binding)>)
    requires In(h, s, w, ph) && Serviceable(s, w.db, o) && SameChain(o, ph.b) && GoodAttempt(o, w, a)
    requires (ph.FencedPhase? && Written(w.files, ph.b)) || (ph.PreparedPhase? && ph.c.leaseExpires <= a.at)
    requires r == PrepareRecovery(h, s, w, a.req, o.profile.mandate, IntentFile(ph.b.epoch + 1), a.ids, a.at, a.seconds)
    ensures r.Ok? && Serviceable(s, r.value.0.db, o)
  {
    PrepareIs(h, s, w, ph.b, a.req, o.profile.mandate, a.ids, a.at, a.seconds);
    var db := w.db;
    if ph.PreparedPhase? {
      AbandonReturns(h, s, w, ph.b, ph.c, a.ids);
      AbandonKeepsService(s, w.db, o, ph.b.id);
      db := Abandon(w.db, ph.b.id);
    }
    NewRecoveryGoes(h, s, w, db, o, ph.b, a.req, a.ids, a.at, a.seconds);
  }

  /** One good attempt prepares its own candidate. */
  lemma AttemptGoes(h: Hash, s: Site, w: World, o: Binding, ph: Phase, a: Attempt, r: Result<(World, Binding)>)
    requires In(h, s, w, ph) && Serviceable(s, w.db, o) && SameChain(o, ph.b) && GoodAttempt(o, w, a)
    requires (ph.FencedPhase? && Written(w.files, ph.b)) || (ph.PreparedPhase? && ph.c.leaseExpires <= a.at)
    requires r == PrepareRecovery(h, s, w, a.req, o.profile.mandate, IntentFile(ph.b.epoch + 1), a.ids, a.at, a.seconds)
    ensures r.Ok? && In(h, s, r.value.0, PreparedPhase(ph.b, r.value.1)) && Serviceable(s, r.value.0.db, o)
    ensures r.value.0.files == w.files && SameLaunch(a.req, r.value.1) && r.value.1.leaseExpires == a.at + a.seconds
  {
    PrepareGoes(h, s, w, o, ph, a, r);
    NextPrepared(h, s, w, ph, a.req, o.profile.mandate, a.ids, a.at, a.seconds, r);
  }

  /** What is left to prepare when all but the last candidate have been. */
  lemma LastAttempt(h: Hash, s: Site, w: World, o: Binding, path: Path, before: seq<Attempt>, a: Attempt, lapsed: World, c: Binding)
    requires before != [] && GoodAttemptThen(h, s, w, o, path, before, a)
    requires Prepares(h, s, w, o.profile.mandate, path, before) == Ok((lapsed, c))
    ensures GoodAttempt(o, lapsed, a) && a.at >= before[|before| - 1].at + before[|before| - 1].seconds
    ensures PreparesThen(h, s, w, o.profile.mandate, path, before, a) ==
            PrepareRecovery(h, s, lapsed, a.req, o.profile.mandate, path, a.ids, a.at, a.seconds)
  {
  }

  /** The last preparation of `a`, over the complete fence or over a lapsed candidate. */
  lemma LastGoes(h: Hash, s: Site, w: World, o: Binding, b: Binding, lapsed: World, ph: Phase, a: Attempt, end: Result<(World, Binding)>)
    returns (ready: World, c: Binding)
    requires In(h, s, lapsed, ph) && ph.b == b && Serviceable(s, lapsed.db, o) && SameChain(o, b) && GoodAttempt(o, lapsed, a)
    requires (ph.FencedPhase? && Written(lapsed.files, b)) || (ph.PreparedPhase? && ph.c.leaseExpires <= a.at)
    requires end == PrepareRecovery(h, s, lapsed, a.req, o.profile.mandate, IntentFile(b.epoch + 1), a.ids, a.at, a.seconds)
    requires lapsed.files == w.files
    ensures end == Ok((ready, c)) && In(h, s, ready, PreparedPhase(b, c)) && Serviceable(s, ready.db, o) && ready.files == w.files
    ensures SameLaunch(a.req, c) && c.leaseExpires == a.at + a.seconds
  {
    AttemptGoes(h, s, lapsed, o, ph, a, end);
    ready, c := end.value.0, end.value.1;
  }

  /** Any number of lapsed candidates are each abandoned and replaced by the next. */
  lemma {:induction false} PreparesGo(h: Hash, s: Site, w: World, o: Binding, b: Binding, attempts: seq<Attempt>, end: Result<(World, Binding)>)
    returns (ready: World, c: Binding)
    requires attempts != [] && In(h, s, w, FencedPhase(b)) && Written(w.files, b) && Serviceable(s, w.db, o) && SameChain(o, b)
    requires GoodAttempts(h, s, w, o, IntentFile(b.epoch + 1), attempts)
    requires end == Prepares(h, s, w, o.profile.mandate, IntentFile(b.epoch + 1), attempts)
    ensures end == Ok((ready, c))
    ensures In(h, s, ready, PreparedPhase(b, c)) && Serviceable(s, ready.db, o) && ready.files == w.files
    ensures var last := attempts[|attempts| - 1]; SameLaunch(last.req, c) && c.leaseExpires == last.at + last.seconds
    decreases |attempts|
  {
    var before, a := attempts[..|attempts| - 1], attempts[|attempts| - 1];
    if before == [] {
      ready, c := LastGoes(h, s, w, o, b, w, FencedPhase(b), a, end);
    } else {
      ready, c := PreparesGo(h, s, w, o, b, before, Prepares(h, s, w, o.profile.mandate, IntentFile(b.epoch + 1), before));
      LastAttempt(h, s, w, o, IntentFile(b.epoch + 1), before, a, ready, c);
      ready, c := LastGoes(h, s, w, o, b, ready, PreparedPhase(b, c), a, end);
    }
  }

  lemma AdmitKeepsService(h: Hash, s: Site, w: World, o: Binding, req: Request, m: Mandate, c: Binding, at: Time, fuel: nat)
    requires Serviceable(s, w.db, o) && Fits(h, s, c)
    ensures Serviceable(s, Admit(h, w, req, m, c, at, fuel).w.db, o)
  {
  }

  /** A prepared candidate, or the same one already inserted, is admitted. */
  lemma AdmitGoes(h: Hash, s: Site, w: World, ph: Phase, req: Request, m: Mandate, c: Binding, at: Time)
    requires In(h, s, w, ph) && SameLaunch(req, c) && m == c.profile.mandate && Fits(h, s, c)
    requires (ph == PreparedPhase(ph.b, c) && at < c.leaseExpires) || ph == LivePhase(c) || ph == AdmittingPhase(ph.b, c)
    ensures AdmitTx(h, w.db, req, m, c, at).Ok?
  {
  }

  /** A torn admission is completed by trying again, wherever the first try died. */
  lemma TornAdmissionRetried(h: Hash, s: Site, w: World, b: Binding, c: Binding, m: Mandate, req: Request,
                             at: Time, torn: nat, retryAt: Time)
    requires In(h, s, w, PreparedPhase(b, c)) && SameLaunch(req, c) && m == c.profile.mandate
    requires at < c.leaseExpires && (torn == 0 ==> retryAt < c.leaseExpires)
    ensures var end := AdmitTwice(h, w, m, req, c, at, torn, retryAt);
            end.out == Renewed && In(h, s, end.w, LivePhase(c))
  {
    var first := Admit(h, w, req, m, c, at, torn);
    AdmitGoes(h, s, w, PreparedPhase(b, c), req, m, c, at);
    var mid := AdmitFromPrepared(h, s, w, b, c, req, m, at, torn, first);
    OwnRow(h, s, first.w, mid, c);
    AdmitGoes(h, s, first.w, mid, req, m, c, retryAt);
    var second := Admit(h, first.w, req, m, c, retryAt, 3);
    var end := AdmitMoves(h, s, first.w, mid, req, m, c, retryAt, 3, second);
  }

  lemma OwnRow(h: Hash, s: Site, w: World, ph: Phase, c: Binding)
    requires In(h, s, w, ph) && (ph == PreparedPhase(ph.b, c) || ph == AdmittingPhase(ph.b, c) || ph == LivePhase(c))
    ensures Fits(h, s, c) && (c.id in w.db.admissions ==> w.db.admissions[c.id].b == c)
  {
  }

  lemma RelaunchIs(h: Hash, s: Site, w: World, m: Mandate, x: Launch, path: Path, ready: World, c: Binding, end: Result<World>)
    requires Announces(w.files, path) && x.attempts != [] && end == Relaunch(h, s, w, m, x)
    requires Prepares(h, s, w, m, path, x.attempts) == Ok((ready, c))
    ensures var admitted := AdmitTwice(h, ready, m, x.attempts[|x.attempts| - 1].req, c, x.admitAt, x.torn, x.retryAt);
            end == if admitted.out == Renewed then Ok(admitted.w) else Refused
  {
  }

  lemma RelaunchGoes(h: Hash, s: Site, w: World, o: Binding, b: Binding, x: Launch, end: Result<World>) returns (c: Binding)
    requires In(h, s, w, FencedPhase(b)) && Complete(h, w.files, b) && Serviceable(s, w.db, o) && SameChain(o, b)
    requires Announces(w.files, IntentFile(b.epoch + 1)) && x.attempts != []
    requires GoodAttempts(h, s, w, o, IntentFile(b.epoch + 1), x.attempts)
    requires var last := x.attempts[|x.attempts| - 1];
             x.admitAt < last.at + last.seconds && (x.torn == 0 ==> x.retryAt < last.at + last.seconds)
    requires end == Relaunch(h, s, w, o.profile.mandate, x)
    ensures end.Ok? && In(h, s, end.value, LivePhase(c)) && Succeeds(h, end.value.files, b, c)
    ensures Serviceable(s, end.value.db, o) && Kept(w.files, end.value.files)
  {
    var m := o.profile.mandate;
    var ready: World;
    ready, c := PreparesGo(h, s, w, o, b, x.attempts, Prepares(h, s, w, m, IntentFile(b.epoch + 1), x.attempts));
    RelaunchIs(h, s, w, m, x, IntentFile(b.epoch + 1), ready, c, end);
    CandidateAdmitted(h, s, ready, o, b, c, m, x, AdmitTwice(h, ready, m, x.attempts[|x.attempts| - 1].req, c, x.admitAt, x.torn, x.retryAt));
  }

  lemma CandidateAdmitted(h: Hash, s: Site, w: World, o: Binding, b: Binding, c: Binding, m: Mandate, x: Launch, end: After)
    requires In(h, s, w, PreparedPhase(b, c)) && Serviceable(s, w.db, o) && m == c.profile.mandate && x.attempts != []
    requires var last := x.attempts[|x.attempts| - 1];
             && SameLaunch(last.req, c) && c.leaseExpires == last.at + last.seconds
             && x.admitAt < c.leaseExpires && (x.torn == 0 ==> x.retryAt < c.leaseExpires)
             && end == AdmitTwice(h, w, m, last.req, c, x.admitAt, x.torn, x.retryAt)
    ensures end.out == Renewed && In(h, s, end.w, LivePhase(c)) && Succeeds(h, end.w.files, b, c)
    ensures Serviceable(s, end.w.db, o) && Kept(w.files, end.w.files)
  {
    var req := x.attempts[|x.attempts| - 1].req;
    TornAdmissionRetried(h, s, w, b, c, m, req, x.admitAt, x.torn, x.retryAt);
    AdmitsKeep(h, s, w, o, b, c, m, req, x.admitAt, x.torn, x.retryAt);
  }

  lemma AdmitsKeep(h: Hash, s: Site, w: World, o: Binding, b: Binding, c: Binding, m: Mandate, req: Request, at: Time, torn: nat, retryAt: Time)
    requires Serviceable(s, w.db, o) && Fits(h, s, c) && Succeeds(h, w.files, b, c)
    ensures var end := AdmitTwice(h, w, m, req, c, at, torn, retryAt).w;
            Serviceable(s, end.db, o) && Kept(w.files, end.files) && Succeeds(h, end.files, b, c)
  {
    AdmitKeepsService(h, s, w, o, req, m, c, at, torn);
    AdmitKeepsService(h, s, Admit(h, w, req, m, c, at, torn).w, o, req, m, c, retryAt, 3);
  }

  lemma CycleGoes(h: Hash, s: Site, w: World, o: Binding, b: Binding, x: Launch) returns (next: World, c: Binding)
    requires In(h, s, w, LivePhase(b)) && Serviceable(s, w.db, o) && SameChain(o, b) && GoodLaunch(h, s, w, o, x)
    ensures Cycle(h, s, w, o.profile.mandate, x) == Ok(next)
    ensures In(h, s, next, LivePhase(c)) && Succeeds(h, next.files, b, c)
    ensures Serviceable(s, next.db, o) && Kept(w.files, next.files)
  {
    var fenced := FenceEnd(h, s, w, x);
    FenceCompletes(h, s, w, o, b, x, fenced);
    var end := Relaunch(h, s, fenced.w, o.profile.mandate, x);
    c := RelaunchGoes(h, s, fenced.w, o, b, x, end);
    next := end.value;
  }

  /** Each next binding of the chain names the admission just before it as prior, and its
      receipt and intent digests are those of the files that are still there. */
  ghost predicate Linked(h: Hash, files: Files, chain: seq<Binding>) {
    forall i :: 0 <= i < |chain| - 1 ==> Succeeds(h, files, chain[i], chain[i + 1])
  }

  lemma LinkKept(h: Hash, f: Files, g: Files, b: Binding, c: Binding)
    requires Succeeds(h, f, b, c) && Kept(f, g)
    ensures Succeeds(h, g, b, c)
  {
  }

  lemma LinkedLonger(h: Hash, files: Files, b: Binding, rest: seq<Binding>)
    requires rest != [] && Linked(h, files, rest) && Succeeds(h, files, b, rest[0])
    ensures Linked(h, files, [b] + rest)
  {
    var chain := [b] + rest;
    forall i | 0 <= i < |chain| - 1 ensures Succeeds(h, files, chain[i], chain[i + 1]) {
      if i > 0 { assert chain[i] == rest[i - 1] && chain[i + 1] == rest[i]; }
    }
  }

  /** The first of several cycles, and what is left of them. */
  lemma FirstCycle(h: Hash, s: Site, w: World, o: Binding, b: Binding, xs: seq<Launch>, end: Result<World>) returns (next: World, c: Binding)
    requires In(h, s, w, LivePhase(b)) && Serviceable(s, w.db, o) && SameChain(o, b) && GoodLaunches(h, s, w, o, xs)
    requires xs != [] && end == Cycles(h, s, w, o.profile.mandate, xs)
    ensures In(h, s, next, LivePhase(c)) && Succeeds(h, next.files, b, c) && SameChain(o, c)
    ensures Serviceable(s, next.db, o) && Kept(w.files, next.files) && GoodLaunches(h, s, next, o, xs[1..])
    ensures end == Cycles(h, s, next, o.profile.mandate, xs[1..])
  {
    assert GoodThen(h, s, w, o, xs[0], xs[1..]);
    next, c := CycleGoes(h, s, w, o, b, xs[0]);
    assert end == CycleThen(h, s, w, o.profile.mandate, xs[0], xs[1..]);
  }

  /** One link more at the front of a chain whose receipts are kept. */
  lemma ChainLonger(h: Hash, f: Files, g: Files, b: Binding, rest: seq<Binding>)
    requires rest != [] && Succeeds(h, f, b, rest[0]) && Kept(f, g) && Linked(h, g, rest)
    ensures Linked(h, g, [b] + rest)
  {
    LinkKept(h, f, g, b, rest[0]);
    LinkedLonger(h, g, b, rest);
  }

  /** The chain of `n` cycles from `b`, whose last binding is live in `end`. */
  ghost predicate ChainOf(h: Hash, s: Site, o: Binding, b: Binding, end: World, n: nat, chain: seq<Binding>) {
    && |chain| == n + 1 && chain[0] == b && Linked(h, end.files, chain)
    && In(h, s, end, LivePhase(chain[n])) && SameChain(o, chain[n]) && chain[n].epoch == b.epoch + n
  }

  lemma ChainGrows(h: Hash, s: Site, o: Binding, f: Files, b: Binding, c: Binding, end: World, n: nat, rest: seq<Binding>)
    requires Succeeds(h, f, b, c) && Kept(f, end.files) && ChainOf(h, s, o, c, end, n, rest)
    ensures ChainOf(h, s, o, b, end, n + 1, [b] + rest)
  {
    ChainLonger(h, f, end.files, b, rest);
  }

  lemma {:induction false} CyclesKeep(h: Hash, s: Site, w: World, o: Binding, b: Binding, xs: seq<Launch>, end: Result<World>) returns (chain: seq<Binding>)
    requires In(h, s, w, LivePhase(b)) && Serviceable(s, w.db, o) && SameChain(o, b) && GoodLaunches(h, s, w, o, xs)
    requires end == Cycles(h, s, w, o.profile.mandate, xs)
    ensures end.Ok? && ChainOf(h, s, o, b, end.value, |xs|, chain) && Kept(w.files, end.value.files)
    decreases |xs|
  {
    if xs == [] {
      chain := [b];
    } else {
      var next, c := FirstCycle(h, s, w, o, b, xs, end);
      var rest := CyclesKeep(h, s, next, o, c, xs[1..], end);
      chain := [b] + rest;
      ChainGrows(h, s, o, next.files, b, c, end.value, |xs| - 1, rest);
    }
  }

  /** For every number of cycles, with any crashes, losses, lapsed candidates and torn
      admissions in them: none dead-ends, and the live binding afterwards ends a chain of that
      many links, with the epoch that many steps on and all else that identifies it the same. */
  lemma CyclesNeverDeadEnd(h: Hash, s: Site, w: World, b: Binding, xs: seq<Launch>) returns (chain: seq<Binding>)
    requires In(h, s, w, LivePhase(b)) && Serviceable(s, w.db, b) && GoodLaunches(h, s, w, b, xs)
    ensures Cycles(h, s, w, b.profile.mandate, xs).Ok? && |chain| == |xs| + 1 && chain[0] == b
    ensures var end := Cycles(h, s, w, b.profile.mandate, xs).value;
            var last := chain[|xs|];
            && In(h, s, end, LivePhase(last)) && Linked(h, end.files, chain)
            && last.epoch == b.epoch + |xs| && last.root == b.root && last.profile == b.profile
            && last.release == b.release && last.host == b.host && last.fence == b.fence && last.approval == b.approval
  {
    chain := CyclesKeep(h, s, w, b, b, xs, Cycles(h, s, w, b.profile.mandate, xs));
  }

  /** Over the rows of a complete fence, and for a request that keeps release and host, a new
      recovery opens exactly while mandate, package, worker and manifest are as they have to be
      and no admission of another role of the company is live. */
  lemma RecoveryOpensIff(h: Hash, s: Site, w: World, db: Db, b: Binding, req: Request, ids: Fresh, now: Time, seconds: int)
    requires FencedRows(h, s, db, b) && Facts(h, w.files, b) && Written(w.files, b)
    requires req.commit == b.release.commit && req.tree == b.release.tree && req.host == b.host
    ensures NewRecovery(h, s, w, db, IntentOf(h, b, TheReceipt(h, w.files, b)), req, ids, now, seconds).Ok? <==>
            Provided(s, db, b) && OthersIdle(s, db)
  {
    if Serviceable(s, db, b) { NewRecoveryGoes(h, s, w, db, b, b, req, ids, now, seconds); }
  }

  /** The launch names this mandate, and keeps release and host, for an allowed lease. */
  predicate SameTerms(b: Binding, req: Request, m: Mandate, seconds: int) {
    && m == b.profile.mandate && req.commit == b.release.commit && req.tree == b.release.tree && req.host == b.host
    && 30 <= seconds <= 300
  }

  /** From a complete fence, or over a candidate that has lapsed, a launch is prepared exactly when it
      keeps the terms and everything it needs is in service. */
  lemma LaunchPreparedIff(h: Hash, s: Site, w: World, ph: Phase, req: Request, m: Mandate, ids: Fresh, now: Time, seconds: int)
    requires In(h, s, w, ph) && FreshIds(w, ids) && Written(w.files, ph.b)
    requires ph.FencedPhase? || (ph.PreparedPhase? && ph.c.leaseExpires <= now)
    ensures PrepareRecovery(h, s, w, req, m, IntentFile(ph.b.epoch + 1), ids, now, seconds).Ok? <==>
            SameTerms(ph.b, req, m, seconds) && Provided(s, w.db, ph.b) && OthersIdle(s, w.db)
  {
    PrepareIs(h, s, w, ph.b, req, m, ids, now, seconds);
    var db := w.db;
    if ph.PreparedPhase? {
      AbandonReturns(h, s, w, ph.b, ph.c, ids);
      db := Abandon(w.db, ph.b.id);
      AbandonedServes(s, w.db, ph.b, ph.c, db);
    }
    if SameTerms(ph.b, req, m, seconds) { RecoveryOpensIff(h, s, w, db, ph.b, req, ids, now, seconds); }
  }

  lemma AbandonedServes(s: Site, db: Db, b: Binding, c: Binding, next: Db)
    requires b.id in db.open && c.session in db.sessions && c.profile.worker in db.workers && next == AbandonedTo(db, b, c)
    ensures Provided(s, next, b) == Provided(s, db, b) && OthersIdle(s, next) == OthersIdle(s, db)
  {
  }

  /** The candidate of the epoch after `b`: drawn identifiers, the launched process, and all else as
      it was; its subject covers neither the lease token nor the fence receipt nor the artifact. */
  function NextBinding(h: Hash, b: Binding, receipt: Sha, intent: Sha, req: Request, ids: Fresh, expires: Time): Binding {
    var c := Binding(b.profile, ids.admission, ids.session, ids.token, b.epoch + 1, expires, b.release, b.host, req.process,
                     b.fence, b.approval, "", b.root, Recovered(b.id, ids.intentRow, receipt, intent));
    var covered := c.(token := 0, fence := "", profile := c.profile.(mandate := Mandate(c.profile.mandate.id, "")));
    c.(subject := h(Text(SubjectDoc(covered))))
  }

  /** Everything that such a preparation does: a lapsed candidate is abandoned first; the candidate
      handed out is the next one, and it is recorded as open; one session is opened, which the
      worker serves until the lease ends; no file and no other row changes. */
  lemma PreparedExactly(h: Hash, s: Site, w: World, ph: Phase, req: Request, m: Mandate, ids: Fresh, now: Time, seconds: int, db: Db)
    requires In(h, s, w, ph) && FreshIds(w, ids) && Written(w.files, ph.b)
    requires ph.FencedPhase? || (ph.PreparedPhase? && ph.c.leaseExpires <= now)
    requires SameTerms(ph.b, req, m, seconds) && Provided(s, w.db, ph.b) && OthersIdle(s, w.db)
    requires db == if ph.FencedPhase? then w.db else AbandonedTo(w.db, ph.b, ph.c)
    ensures var b, receipt := ph.b, TheReceipt(h, w.files, ph.b);
            var c := NextBinding(h, b, receipt.digest, IntentOf(h, b, receipt).digest, req, ids, now + seconds);
            var session := Session(s.company, "scribe", b.profile.worker, b.release.agent, ids.token, Active, now + seconds, None);
            var worker := w.db.workers[b.profile.worker].(token := Some(ids.token), lease := Some(now + seconds));
            PrepareRecovery(h, s, w, req, m, IntentFile(b.epoch + 1), ids, now, seconds)
            == Ok((World(db.(sessions := db.sessions[ids.session := session],
                             workers := db.workers[b.profile.worker := worker],
                             open := db.open[b.id := Recovery(c, req, Prepared)]), w.files), c))
  {
    PrepareIs(h, s, w, ph.b, req, m, ids, now, seconds);
    if ph.PreparedPhase? {
      AbandonReturns(h, s, w, ph.b, ph.c, ids);
      AbandonedServes(s, w.db, ph.b, ph.c, db);
    }
    NewRecoveryIs(h, s, w, db, ph.b, req, ids, now, seconds);
  }

  lemma NewRecoveryIs(h: Hash, s: Site, w: World, db: Db, b: Binding, req: Request, ids: Fresh, now: Time, seconds: int)
    requires FencedRows(h, s, db, b) && Facts(h, w.files, b) && Written(w.files, b) && Provided(s, db, b) && OthersIdle(s, db)
    requires req.commit == b.release.commit && req.tree == b.release.tree && req.host == b.host
    ensures var receipt := TheReceipt(h, w.files, b);
            var c := NextBinding(h, b, receipt.digest, IntentOf(h, b, receipt).digest, req, ids, now + seconds);
            var session := Session(s.company, "scribe", b.profile.worker, b.release.agent, ids.token, Active, now + seconds, None);
            var worker := db.workers[b.profile.worker].(token := Some(ids.token), lease := Some(now + seconds));
            NewRecovery(h, s, w, db, IntentOf(h, b, receipt), req, ids, now, seconds)
            == Ok((World(db.(sessions := db.sessions[ids.session := session],
                             workers := db.workers[b.profile.worker := worker],
                             open := db.open[b.id := Recovery(c, req, Prepared)]), w.files), c))
  {
    StaticHolds(h, s, w, db, b, b, req);
  }

  /** A candidate whose lease runs is handed out again exactly to its own request, on the same terms;
      and nothing changes. */
  lemma HandedOutAgainIff(h: Hash, s: Site, w: World, b: Binding, c: Binding, req: Request, m: Mandate, ids: Fresh, now: Time, seconds: int)
    requires In(h, s, w, PreparedPhase(b, c)) && now < c.leaseExpires
    ensures var r := PrepareRecovery(h, s, w, req, m, IntentFile(b.epoch + 1), ids, now, seconds);
            && (r.Ok? <==> SameTerms(b, req, m, seconds) && req == w.db.open[b.id].request)
            && (r.Ok? ==> r == Ok((w, c)))
  {
    IntentReadable(h, s, w.files, b);
  }

  /** A recovered candidate is admitted exactly when it is the prepared one, while its lease runs, and
      to the launch and the mandate that it was prepared for; then its row, lease pointer and
      binding file are there and its recovery is consumed, and otherwise nothing changes. */
  lemma AdmittedWithinLease(h: Hash, s: Site, w: World, b: Binding, c: Binding, req: Request, m: Mandate, d: Binding, at: Time)
    requires In(h, s, w, PreparedPhase(b, c)) && Fits(h, s, d) && d.authority.Recovered?
    requires d.id in w.db.admissions ==> w.db.admissions[d.id].b == d
    ensures var end := Admit(h, w, req, m, d, at, 3);
            if && d == c && at < c.leaseExpires && m == c.profile.mandate
               && req == Request(req.profileSha, c.release.commit, c.release.tree, c.host, c.process)
            then end == After(AdmittedTo(w, b, c), Renewed) && In(h, s, end.w, LivePhase(c))
            else end == After(w, Rejected)
  {
    if AdmitTx(h, w.db, req, m, d, at).Ok? {
      OnlyOwnAdmits(h, s, w, PreparedPhase(b, c), req, m, d, at);
      var to := AdmitFromPrepared(h, s, w, b, c, req, m, at, 3, Admit(h, w, req, m, c, at, 3));
    }
  }

  function AdmittedTo(w: World, b: Binding, c: Binding): World
    requires b.id in w.db.open
  {
    World(w.db.(admissions := w.db.admissions[c.id := Admission(c, Live, c.leaseExpires)],
                open := w.db.open[b.id := Recovery(c, w.db.open[b.id].request, Consumed)]),
          w.files[LeaseFile := Line(LeaseDoc(c.id, c.epoch, c.leaseExpires))][BindingFile := Stored(c)])
  }

  // ------------------------------------------------------- the first admission

  /** Nothing is left half-recovered: recoveries are consumed, intents are spent. */
  ghost predicate CleanLane(s: Site, w: World) {
    && (forall k | k in w.db.open :: IsScribe(s, w.db.open[k].candidate) ==> w.db.open[k].state == Consumed)
    && (forall path | path in w.files :: CleanAt(w.db, w.files[path]))
  }

  ghost predicate CleanAt(db: Db, bytes: Bytes) {
    NotIntent(bytes) ||
    (var prior := Parse(bytes).value.intent.basis.prior; prior in db.open && db.open[prior].state == Consumed)
  }

  /** The highest Scribe epoch so far, as the query answers it. */
  ghost predicate HighestSoFar(s: Site, db: Db, previous: int) {
    previous >= 0 && forall k | k in db.admissions :: IsScribe(s, db.admissions[k].b) ==> db.admissions[k].b.epoch <= previous
  }

  /** An initial candidate whose session is open in a lane with no live row. */
  ghost predicate AwaitsFirst(h: Hash, s: Site, w: World, c: Binding) {
    && Fits(h, s, c) && c.authority.Initial? && c.approval == c.id && c.id !in w.db.admissions && UnusedId(w, c.id)
    && NoLive(w.db, s.company, SCRIBE) && HighestSoFar(s, w.db, c.epoch - 1)
    && c.session in w.db.sessions && OwnSession(c, w.db.sessions[c.session]) && w.db.sessions[c.session].state == Active
    && OwnWorker(c, w.db) && w.db.workers[c.profile.worker].token == Some(c.token) && w.db.workers[c.profile.worker].lease.Some?
    && forall e :: e > c.epoch ==> IntentFile(e) !in w.files
  }

  lemma InitialPrepared(h: Hash, s: Site, w: World, req: Request, m: Mandate, worker: Uuid, package: Uuid, previous: int,
                        ids: Fresh, now: Time, seconds: int)
    requires PrepareInitial(h, s, w, req, m, worker, package, previous, ids, now, seconds).Ok?
    requires FreshIds(w, ids) && req.process.pid > 1 && HighestSoFar(s, w.db, previous)
    requires forall e :: e > previous + 1 ==> IntentFile(e) !in w.files
    ensures var r := PrepareInitial(h, s, w, req, m, worker, package, previous, ids, now, seconds).value;
            && AwaitsFirst(h, s, r.0, r.1) && r.1.leaseExpires == now + seconds && r.1.epoch == previous + 1
            && SameLaunch(req, r.1) && r.1.profile.mandate == m && Provided(s, r.0.db, r.1)
            && r.0.files == w.files && r.0.db == w.db.(sessions := r.0.db.sessions, workers := r.0.db.workers)
  {
  }

  /** When the first candidate is prepared: for an allowed lease, with this package the one that is
      installed in the deployment, and of the request's release, worker and manifest active, no
      live Scribe admission, and the mandate active and of its artifact. */
  lemma InitialPreparedIff(h: Hash, s: Site, w: World, req: Request, m: Mandate, worker: Uuid, package: Uuid, previous: int,
                           ids: Fresh, now: Time, seconds: int)
    ensures PrepareInitial(h, s, w, req, m, worker, package, previous, ids, now, seconds).Ok? <==>
            && 30 <= seconds <= 300
            && m.id in w.db.mandates && w.db.mandates[m.id].status == MandateActive && w.db.mandates[m.id].artifact == m.artifact
            && worker in w.db.workers && w.db.workers[worker].company == s.company && w.db.workers[worker].role == "scribe"
            && w.db.workers[worker].active && w.db.workers[worker].manifestActive
            && package in w.db.packages && w.db.packages[package].commit == req.commit && w.db.packages[package].tree == req.tree
            && (forall id | id in w.db.packages ::
                  var pk := w.db.packages[id];
                  pk.installed && pk.company == s.company && pk.deployment == s.deployment <==> id == package)
            && NoLive(w.db, s.company, "scribe")
  {
  }

  lemma InitialRows(h: Hash, s: Site, w: World, req: Request, c: Binding, at: Time)
    requires AwaitsFirst(h, s, w, c) && SameLaunch(req, c) && at < c.leaseExpires
    ensures var tx := AdmitTx(h, w.db, req, c.profile.mandate, c, at);
            tx.Ok? && LiveRows(h, s, tx.value, c) && tx.value.open == w.db.open
  {
    var tx := AdmitTx(h, w.db, req, c.profile.mandate, c, at);
    assert tx.Ok? && OwnRows(h, s, tx.value, c);
  }

  lemma InitialAdmitted(h: Hash, s: Site, w: World, req: Request, c: Binding, at: Time)
    requires AwaitsFirst(h, s, w, c) && CleanLane(s, w) && SameLaunch(req, c) && at < c.leaseExpires
    ensures var admitted := Admit(h, w, req, c.profile.mandate, c, at, 3);
            admitted.out == Renewed && In(h, s, admitted.w, LivePhase(c))
  {
    InitialRows(h, s, w, req, c, at);
    var next := Admit(h, w, req, c.profile.mandate, c, at, 3).w;
    forall path | path in next.files && path != IntentFile(c.epoch + 1) ensures SpentAt(next.db, next.files[path], c) {
      if path != BindingFile && path != LeaseFile { assert CleanAt(w.db, w.files[path]); }
    }
  }

  /** The first admission: in a clean lane, a prepared initial candidate admitted within its
      lease is live, and starts a chain of its own. */
  lemma InitialAdmission(h: Hash, s: Site, w: World, req: Request, m: Mandate, worker: Uuid, package: Uuid, previous: int,
                         ids: Fresh, now: Time, seconds: int, at: Time)
    requires PrepareInitial(h, s, w, req, m, worker, package, previous, ids, now, seconds).Ok?
    requires FreshIds(w, ids) && CleanLane(s, w) && req.process.pid > 1 && HighestSoFar(s, w.db, previous) && at < now + seconds
    requires forall e :: e > previous + 1 ==> IntentFile(e) !in w.files
    ensures var r := PrepareInitial(h, s, w, req, m, worker, package, previous, ids, now, seconds).value;
            var admitted := Admit(h, r.0, req, m, r.1, at, 3);
            && admitted.out == Renewed && In(h, s, admitted.w, LivePhase(r.1))
            && r.1.epoch == previous + 1 && r.1.root == r.1.id && Provided(s, admitted.w.db, r.1)
  {
    InitialPrepared(h, s, w, req, m, worker, package, previous, ids, now, seconds);
    var r := PrepareInitial(h, s, w, req, m, worker, package, previous, ids, now, seconds).value;
    InitialAdmitted(h, s, r.0, req, r.1, at);
  }
}
