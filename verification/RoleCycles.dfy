/** A role lane keeps going: one initial admission, then any number of fence-and-recover
    cycles, each with arbitrary ticks and crashes before its fence completes. */
module RoleCycles {
  import opened Outcome
  import opened LaneRecords
  import opened RoleLane
  import opened RolePhases
  import opened RoleRuns

  /** What one cycle brings: ticks under any probes, dying anywhere; a last tick that
      finds the process gone; then a launch that prepares and is admitted. */
  datatype Launch = Launch(ticks: seq<(Env, nat)>, fence: Env, req: Request, ids: Fresh, prepareAt: Time,
                           seconds: int, admitAt: Time)

  function Fence(h: Hash, p: Profile, w: World, x: Launch): After {
    Tick(h, p, Ticks(h, p, w, x.ticks), x.fence, FENCE_STEPS)
  }

  /** The launcher reads the intent path from the restart request, prepares and is admitted. */
  function Relaunch(h: Hash, p: Profile, w: World, x: Launch): Result<World> {
    var note :- Read(w.files, RequestFile);
    var _ :- Check(note.RequestDoc?);
    var prepared :- PrepareRecovery(h, p, w, x.req, note.intentPath, x.ids, x.prepareAt, x.seconds);
    var admitted := Admit(h, p, prepared.0, x.req, prepared.1, x.admitAt, 2);
    if admitted.out == Renewed then Ok(admitted.w) else Refused
  }

  function Cycle(h: Hash, p: Profile, w: World, x: Launch): Result<World> {
    var fenced := Fence(h, p, w, x);
    if fenced.out == Fenced then Relaunch(h, p, fenced.w, x) else Refused
  }

  function Cycles(h: Hash, p: Profile, w: World, xs: seq<Launch>): Result<World>
    decreases |xs|, 1
  {
    if xs == [] then Ok(w) else CycleThen(h, p, w, xs[0], xs[1..])
  }

  function CycleThen(h: Hash, p: Profile, w: World, x: Launch, rest: seq<Launch>): Result<World>
    decreases |rest| + 1, 0
  {
    match Cycle(h, p, w, x)
    case Refused => Refused
    case Ok(next) => Cycles(h, p, next, rest)
  }

  // -------------------------------------------------- what the host provides

  /** The mandate is active, verified and of its artifact; the package is installed for this
      role, with the digests of the release; worker and manifest are active. */
  predicate Serviceable(p: Profile, db: Db, r: Release) {
    && MandateStands(p, db) && r.packageId in db.packages
    && db.packages[r.packageId] == Package(p.company, p.role, p.deployment, true, r.package, r.kernel, r.commit, r.tree)
    && p.worker in db.workers
    && db.workers[p.worker] == Worker(p.company, p.role, r.agent, true, true, db.workers[p.worker].token, db.workers[p.worker].lease)
  }

  /** The launch offers the same release and host, a real process, an allowed lease, and is
      admitted before that lease ends; the process before it is gone. */
  ghost predicate GoodLaunch(h: Hash, p: Profile, b: Binding, w: World, x: Launch) {
    && Gone(x.fence.first) && Gone(x.fence.second)
    && x.req.profileSha == ProfileSha(h, p) && x.req.commit == b.release.commit && x.req.tree == b.release.tree
    && x.req.host == b.host && x.req.process.pid > 1
    && 30 <= x.seconds <= 300 && x.admitAt < x.prepareAt + x.seconds
    && FreshIds(Fence(h, p, w, x).w, x.ids)
  }

  /** What recovery needs of the rows that no lane event changes. */
  ghost predicate SameService(p: Profile, db: Db, next: Db) {
    && next.packages == db.packages && next.mandates == db.mandates
    && (p.worker in db.workers <==> p.worker in next.workers)
    && (p.worker in db.workers ==>
        next.workers[p.worker] == db.workers[p.worker].(token := next.workers[p.worker].token, lease := next.workers[p.worker].lease))
  }

  lemma TickKeepsService(h: Hash, p: Profile, w: World, ph: Phase, env: Env, fuel: nat)
    requires In(h, p, w, ph) && (ph.LivePhase? || ph.FencedPhase?)
    ensures SameService(p, w.db, Tick(h, p, w, env, fuel).w.db)
  {
    if ph.FencedPhase? {
      TickFenced(h, p, w, ph.b, ph.j, env, fuel);
    } else {
      TickLive(h, p, w, ph.b, env, fuel);
      RevokeKeepsService(p, w.db, ph.b, env.now, HoldsLock(env.second) == Ok(true));
    }
  }

  lemma RevokeKeepsService(p: Profile, db: Db, b: Binding, now: Time, holds: bool)
    ensures RevokeTx(db, p, b, now, holds).Ok? ==> SameService(p, db, RevokeTx(db, p, b, now, holds).value)
  {
    if RevokeTx(db, p, b, now, holds).Ok? {
      var revoked := RevokeParts(db, p, b, now, holds);
      RevokeRowKeepsService(db, p, b);
      EndSessionKeepsService(revoked, p, b, now);
      ClearWorkerKeepsService(EndSession(revoked, p, b, now).value, p, b.token);
    }
  }

  lemma RevokeRowKeepsService(db: Db, p: Profile, b: Binding)
    requires RevokeRow(db, p, b).Ok?
    ensures SameService(p, db, RevokeRow(db, p, b).value) && RevokeRow(db, p, b).value.workers == db.workers
  {
  }

  lemma EndSessionKeepsService(db: Db, p: Profile, b: Binding, now: Time)
    requires EndSession(db, p, b, now).Ok?
    ensures SameService(p, db, EndSession(db, p, b, now).value) && EndSession(db, p, b, now).value.workers == db.workers
  {
  }

  lemma ClearWorkerKeepsService(db: Db, p: Profile, token: Uuid)
    ensures SameService(p, db, ClearWorker(db, p, token))
  {
  }

  lemma LaneTick(h: Hash, p: Profile, w: World, ph: Phase, env: Env, fuel: nat, next: World) returns (to: Phase)
    requires In(h, p, w, ph) && (ph.LivePhase? || ph.FencedPhase?) && next == Tick(h, p, w, env, fuel).w
    ensures In(h, p, next, to) && (to.LivePhase? || to.FencedPhase?) && to.b == ph.b && SameService(p, w.db, next.db)
  {
    to := TickMoves(h, p, w, ph, env, fuel);
    TickKeepsService(h, p, w, ph, env, fuel);
    if to.PreparedPhase? { TickFenced(h, p, w, ph.b, ph.j, env, fuel); }
  }

  /** Any ticks on a live or fenced admission leave it live or fenced, and serviceable. */
  lemma {:induction false} TicksMove(h: Hash, p: Profile, w: World, ph: Phase, ts: seq<(Env, nat)>, end: World) returns (to: Phase)
    requires In(h, p, w, ph) && (ph.LivePhase? || ph.FencedPhase?) && end == Ticks(h, p, w, ts)
    ensures In(h, p, end, to) && (to.LivePhase? || to.FencedPhase?) && to.b == ph.b
    ensures SameService(p, w.db, end.db)
    decreases |ts|
  {
    if ts == [] {
      to := ph;
    } else {
      var next := Tick(h, p, w, ts[0].0, ts[0].1).w;
      var mid := LaneTick(h, p, w, ph, ts[0].0, ts[0].1, next);
      to := TicksMove(h, p, next, mid, ts[1..], end);
    }
  }

  function RequestFor(b: Binding, receipt: Sha, intent: Sha, seen: string): Doc {
    RequestDoc(Awaiting, b.root, b.id, b.epoch, b.epoch + 1, ReceiptFile(b.id, b.epoch), receipt,
               IntentFile(b.epoch + 1), intent, seen)
  }

  /** The request for the next launch: of this binding and the epoch after it, by the paths and
      digests of the receipt and the intent that are stored. */
  ghost predicate Announces(files: Files, b: Binding) {
    var receipt, intent := Read(files, ReceiptFile(b.id, b.epoch)), Read(files, IntentFile(b.epoch + 1));
    && receipt.Ok? && receipt.value.ReceiptDoc? && intent.Ok? && intent.value.IntentDoc?
    && RequestFile in files
    && exists seen :: files[RequestFile] == Line(RequestFor(b, receipt.value.receipt.digest, intent.value.intent.digest, seen))
  }

  lemma RequestAnnounces(h: Hash, p: Profile, w: World, f: Fencing)
    requires RequestStep(h, p, w, f).Ok?
    ensures Announces(RequestStep(h, p, w, f).value.files, f.b)
  {
    var next := RequestStep(h, p, w, f).value.files;
    var receipt := LoadReceipt(h, p, w.files, ReceiptFile(f.b.id, f.b.epoch)).value;
    var intent := LoadIntent(h, p, w.files, IntentFile(f.b.epoch + 1)).value;
    assert next[RequestFile] == Line(RequestFor(f.b, receipt.digest, intent.digest, f.seen));
  }

  lemma BeatAnnounces(w: World, action: string, b: Binding, seen: string)
    requires Announces(w.files, b)
    ensures Announces(BeatStep(w, action, b, seen).files, b)
  {
  }

  lemma {:induction false} FenceAnnounces(h: Hash, p: Profile, w: World, f: Fencing, i: nat, fuel: nat, after: After)
    requires i <= FENCE_STEPS && FenceFrom(h, p, w, f, i, fuel) == after && after.out == Fenced
    requires i > 5 ==> Announces(w.files, f.b)
    ensures Announces(after.w.files, f.b)
    decreases FENCE_STEPS - i
  {
    if i < FENCE_STEPS {
      if i == 5 { RequestAnnounces(h, p, w, f); }
      if i > 5 { BeatAnnounces(w, "revoked-awaiting-restart", f.b, f.seen); }
      FenceAnnounces(h, p, FenceStep(h, p, w, f, i).value, f, i + 1, fuel - 1, after);
    }
  }

  lemma AnnouncedExactly(h: Hash, p: Profile, files: Files, b: Binding)
    requires FileStage(h, p, files, b, 5) && Announces(files, b)
    ensures exists seen :: files[RequestFile] == Line(RequestFor(b, TheReceipt(h, p, b).digest, TheIntent(h, p, b).digest, seen))
  {
  }

  /** A complete fence of `b`: fenced rows, all files, the request naming receipt and intent. */
  lemma FenceCompletes(h: Hash, p: Profile, w: World, b: Binding, x: Launch)
    requires In(h, p, w, LivePhase(b)) && Gone(x.fence.first) && Gone(x.fence.second)
    ensures var fenced := Fence(h, p, w, x);
            && fenced.out == Fenced && In(h, p, fenced.w, FencedPhase(b, 5)) && Announces(fenced.w.files, b)
            && SameService(p, w.db, fenced.w.db)
            && exists seen :: fenced.w.files[RequestFile] == Line(RequestFor(b, TheReceipt(h, p, b).digest, TheIntent(h, p, b).digest, seen))
  {
    var mid := Ticks(h, p, w, x.ticks);
    var ph := TicksMove(h, p, w, LivePhase(b), x.ticks, mid);
    assert LiveWorld(h, p, mid, b) || exists j :: FencedWorld(h, p, mid, b, j) by {
      if ph.FencedPhase? { assert FencedWorld(h, p, mid, b, ph.j); }
    }
    DeadProcessTick(h, p, mid, b, x.fence, FENCE_STEPS);
    TickKeepsService(h, p, mid, ph, x.fence, FENCE_STEPS);
    var to := TickMoves(h, p, mid, ph, x.fence, FENCE_STEPS);
    if ph.LivePhase? { DecideLive(h, p, mid, b, x.fence); } else { DecideFenced(h, p, mid, b, ph.j, x.fence); }
    FenceAnnounces(h, p, mid, Decide(h, p, mid, x.fence).f, 0, FENCE_STEPS, Fence(h, p, w, x));
    AnnouncedExactly(h, p, Fence(h, p, w, x).w.files, b);
  }

  /** What the recovery repeats against the rows, with what registering the mandate and opening the
      session need, is what has to be in service. */
  lemma LaunchExact(h: Hash, p: Profile, w: World, b: Binding, req: Request)
    requires In(h, p, w, FencedPhase(b, 5))
    ensures req.commit == b.release.commit && req.tree == b.release.tree && req.host == b.host ==>
              (&& StaticExact(w.db, p, TheIntent(h, p, b).basis, req) && MandateRegistrable(p, w.db)
               && w.db.workers[p.worker].active && w.db.workers[p.worker].manifestActive
               <==> Serviceable(p, w.db, b.release))
  {
  }

  /** The launch is of this profile, with the release and the host of `b`, for an allowed lease. */
  predicate SameTerms(h: Hash, p: Profile, b: Binding, req: Request, seconds: int) {
    && req.profileSha == h(Text(ProfileDoc(p))) && req.commit == b.release.commit && req.tree == b.release.tree
    && req.host == b.host && 30 <= seconds <= 300
  }

  /** From a complete fence a launch is prepared exactly when it keeps the terms and everything it
      needs is in service; so never under a mandate that is completed or withdrawn. */
  lemma LaunchPreparedIff(h: Hash, p: Profile, w: World, b: Binding, req: Request, ids: Fresh, now: Time, seconds: int)
    requires In(h, p, w, FencedPhase(b, 5))
    ensures PrepareRecovery(h, p, w, req, IntentFile(b.epoch + 1), ids, now, seconds).Ok? <==>
            SameTerms(h, p, b, req, seconds) && Serviceable(p, w.db, b.release)
  {
    assert w.files[IntentFile(b.epoch + 1) := Line(IntentDoc(TheIntent(h, p, b)))] == w.files;
    IntentReadable(h, p, w.files, b);
    NewRecoveryIff(h, p, w, req, IntentFile(b.epoch + 1), TheIntent(h, p, b), ids, now, seconds);
    LaunchExact(h, p, w, b, req);
  }

  lemma NewRecoveryIff(h: Hash, p: Profile, w: World, req: Request, path: Path, intent: Intent, ids: Fresh, now: Time, seconds: int)
    requires LoadIntent(h, p, w.files, path) == Ok(intent) && intent.basis.prior !in w.db.open
    ensures PrepareRecovery(h, p, w, req, path, ids, now, seconds).Ok? <==>
            && 30 <= seconds <= 300 && Unchanged(intent.basis, req, p, h) && StaticExact(w.db, p, intent.basis, req)
            && MandateRegistrable(p, w.db) && w.db.workers[p.worker].active && w.db.workers[p.worker].manifestActive
  {
    SessionOpensIff(p, w.db, ids, now, now + seconds);
  }

  lemma SessionOpensIff(p: Profile, db: Db, ids: Fresh, now: Time, expires: Time)
    ensures var begun := OpenSession(EndStale(db, p, now), p, ids, expires);
            && (begun.Ok? <==> OwnWorker(p, db) && db.workers[p.worker].active && db.workers[p.worker].manifestActive)
            && (begun.Ok? ==> begun.value.mandates == db.mandates && begun.value.open == db.open)
  {
  }

  /** Own active sessions past their lease are ended; nothing else about sessions changes, and the
      workers change at most in token and lease of the own one. */
  ghost predicate OnlyStaleEnded(p: Profile, db: Db, next: Db, now: Time) {
    && next.sessions.Keys == db.sessions.Keys && next.workers.Keys == db.workers.Keys
    && (forall id | id in db.sessions ::
          var s := db.sessions[id];
          next.sessions[id] ==
          if s.company == p.company && s.role == p.role && s.worker == p.worker && s.state == Active && s.lease <= now
          then EndedAt(s, now) else s)
    && (forall k | k in db.workers && k != p.worker :: next.workers[k] == db.workers[k])
    && (p.worker in db.workers ==>
        next.workers[p.worker] == db.workers[p.worker].(token := next.workers[p.worker].token, lease := next.workers[p.worker].lease))
    && next == db.(sessions := next.sessions, workers := next.workers)
  }

  lemma StaleEnded(db: Db, p: Profile, now: Time)
    ensures OnlyStaleEnded(p, db, EndStale(db, p, now), now)
  {
    StaleSessions(db.sessions, p, now, EndedSessions(db.sessions, p, now));
    StaleWorkers(db, p, now, EndStale(db, p, now));
  }

  lemma StaleSessions(sessions: map<Uuid, Session>, p: Profile, now: Time, next: map<Uuid, Session>)
    requires next == EndedSessions(sessions, p, now)
    ensures next.Keys == sessions.Keys
    ensures forall id | id in sessions :: next[id] == if Stale(p, sessions[id], now) then EndedAt(sessions[id], now) else sessions[id]
  {
  }

  lemma StaleWorkers(db: Db, p: Profile, now: Time, next: Db)
    requires next == EndStale(db, p, now)
    ensures next == db.(sessions := EndedSessions(db.sessions, p, now), workers := next.workers)
    ensures next.workers == db.workers
            || (p.worker in db.workers && next.workers == db.workers[p.worker := db.workers[p.worker].(token := None, lease := None)])
  {
  }

  function EndedAt(s: Session, now: Time): Session {
    s.(state := Ended, endedAt := Some(if s.endedAt.Some? then s.endedAt.value else now))
  }

  /** The candidate of the epoch after `b`: drawn identifiers, the launched process, and all else as it was. */
  function NextBinding(h: Hash, p: Profile, b: Binding, req: Request, ids: Fresh, expires: Time): Binding {
    var c := Binding(p, ids.admission, ids.session, ids.token, b.epoch + 1, expires, b.release, b.host, req.process, b.fence,
                     ids.admission, "", b.root, Recovered(b.id, ids.intentRow, TheReceipt(h, p, b).digest, TheIntent(h, p, b).digest));
    c.(subject := h(Text(SubjectDoc(c))))
  }

  /** Everything that such a preparation does: the candidate handed out is the next one, and it is
      recorded as open; stale sessions are ended; one session is opened, which the worker serves
      until the lease ends; no file and no other row changes. */
  lemma PreparedExactly(h: Hash, p: Profile, w: World, b: Binding, req: Request, ids: Fresh, now: Time, seconds: int, stale: Db)
    requires In(h, p, w, FencedPhase(b, 5)) && SameTerms(h, p, b, req, seconds) && Serviceable(p, w.db, b.release)
    requires stale == EndStale(w.db, p, now)
    ensures OnlyStaleEnded(p, w.db, stale, now)
    ensures var c := NextBinding(h, p, b, req, ids, now + seconds);
            var session := Session(p.company, p.role, p.worker, b.release.agent, ids.token, Active, now + seconds, None);
            var worker := w.db.workers[p.worker].(token := Some(ids.token), lease := Some(now + seconds));
            PrepareRecovery(h, p, w, req, IntentFile(b.epoch + 1), ids, now, seconds)
            == Ok((World(w.db.(sessions := stale.sessions[ids.session := session],
                               workers := stale.workers[p.worker := worker],
                               open := w.db.open[b.id := Recovery(c, req, Prepared)]), w.files), c))
  {
    StaleEnded(w.db, p, now);
    LaunchPreparedIff(h, p, w, b, req, ids, now, seconds);
    PreparedShape(h, p, w, b, req, ids, now, seconds);
  }

  /** Once it is prepared, a candidate is handed out again exactly to its own request, on the same
      terms, while its lease runs; and nothing changes. */
  lemma HandedOutAgainIff(h: Hash, p: Profile, w: World, b: Binding, c: Binding, req: Request, ids: Fresh, now: Time, seconds: int)
    requires In(h, p, w, PreparedPhase(b, c))
    ensures var r := PrepareRecovery(h, p, w, req, IntentFile(b.epoch + 1), ids, now, seconds);
            && (r.Ok? <==> SameTerms(h, p, b, req, seconds) && req == w.db.open[b.id].request && now < c.leaseExpires)
            && (r.Ok? ==> r == Ok((w, c)))
  {
    assert w.files[IntentFile(b.epoch + 1) := Line(IntentDoc(TheIntent(h, p, b)))] == w.files;
    IntentReadable(h, p, w.files, b);
  }

  /** A recovered candidate is admitted exactly when it is the prepared one, while its lease runs,
      and to the launch that it was prepared for; then its row and its binding file are there and
      its recovery is consumed, and otherwise nothing changes. */
  lemma AdmittedWithinLease(h: Hash, p: Profile, w: World, b: Binding, c: Binding, req: Request, d: Binding, at: Time)
    requires In(h, p, w, PreparedPhase(b, c)) && d.authority.Recovered?
    ensures var end := Admit(h, p, w, req, d, at, 2);
            if && d == c && at < c.leaseExpires && req.profileSha == h(Text(ProfileDoc(p)))
               && req == Request(req.profileSha, c.release.commit, c.release.tree, c.host, c.process)
            then end == After(AdmittedTo(w, b, c), Renewed) && In(h, p, end.w, LivePhase(c))
            else end == After(w, Rejected)
  {
    if AdmitTx(h, p, w.db, req, d, at).Ok? {
      OnlyPreparedInserts(h, p, w, PreparedPhase(b, c), req, d, at);
      AdmittedFromPrepared(h, p, w, b, c, req, at);
    }
  }

  function AdmittedTo(w: World, b: Binding, c: Binding): World
    requires b.id in w.db.open
  {
    World(w.db.(admissions := w.db.admissions[c.id := Admission(c, Live, c.leaseExpires)],
                open := w.db.open[b.id := Recovery(c, w.db.open[b.id].request, Consumed)]),
          w.files[BindingFile := Stored(c)])
  }

  lemma RelaunchSucceeds(h: Hash, p: Profile, w: World, b: Binding, x: Launch) returns (c: Binding)
    requires In(h, p, w, FencedPhase(b, 5)) && Serviceable(p, w.db, b.release) && Announces(w.files, b)
    requires x.req.profileSha == ProfileSha(h, p) && x.req.commit == b.release.commit && x.req.tree == b.release.tree
    requires x.req.host == b.host && x.req.process.pid > 1 && FreshIds(w, x.ids)
    requires 30 <= x.seconds <= 300 && x.admitAt < x.prepareAt + x.seconds
    ensures Relaunch(h, p, w, x).Ok? && In(h, p, Relaunch(h, p, w, x).value, LivePhase(c))
    ensures Succeeds(h, p, b, c) && SameService(p, w.db, Relaunch(h, p, w, x).value.db)
  {
    var ready: World;
    ready, c := LaunchReady(h, p, w, b, x);
    LaunchAdmitted(h, p, ready, b, c, x);
    RelaunchIs(h, p, w, b, x, ready, c, Admit(h, p, ready, x.req, c, x.admitAt, 2).w);
  }

  lemma LaunchReady(h: Hash, p: Profile, w: World, b: Binding, x: Launch) returns (ready: World, c: Binding)
    requires In(h, p, w, FencedPhase(b, 5)) && Serviceable(p, w.db, b.release)
    requires x.req.profileSha == ProfileSha(h, p) && x.req.commit == b.release.commit && x.req.tree == b.release.tree
    requires x.req.host == b.host && x.req.process.pid > 1 && FreshIds(w, x.ids) && 30 <= x.seconds <= 300
    ensures PrepareRecovery(h, p, w, x.req, IntentFile(b.epoch + 1), x.ids, x.prepareAt, x.seconds) == Ok((ready, c))
    ensures In(h, p, ready, PreparedPhase(b, c)) && SameService(p, w.db, ready.db)
    ensures SameLaunch(p, h, x.req, c) && c.leaseExpires == x.prepareAt + x.seconds
  {
    LaunchPreparedIff(h, p, w, b, x.req, x.ids, x.prepareAt, x.seconds);
    var r := PrepareRecovery(h, p, w, x.req, IntentFile(b.epoch + 1), x.ids, x.prepareAt, x.seconds).value;
    ready, c := r.0, r.1;
    PreparedFromFence(h, p, w, b, x.req, x.ids, x.prepareAt, x.seconds);
    PrepareKeepsService(h, p, w, b, x);
  }

  lemma RelaunchIs(h: Hash, p: Profile, w: World, b: Binding, x: Launch, ready: World, c: Binding, end: World)
    requires Announces(w.files, b)
    requires PrepareRecovery(h, p, w, x.req, IntentFile(b.epoch + 1), x.ids, x.prepareAt, x.seconds) == Ok((ready, c))
    requires Admit(h, p, ready, x.req, c, x.admitAt, 2) == After(end, Renewed)
    ensures Relaunch(h, p, w, x) == Ok(end)
  {
    AnnouncedIntent(w.files, b);
  }

  lemma AnnouncedIntent(files: Files, b: Binding)
    requires Announces(files, b)
    ensures Read(files, RequestFile).Ok? && Read(files, RequestFile).value.RequestDoc?
    ensures Read(files, RequestFile).value.intentPath == IntentFile(b.epoch + 1)
  {
  }

  lemma LaunchAdmitted(h: Hash, p: Profile, w: World, b: Binding, c: Binding, x: Launch)
    requires In(h, p, w, PreparedPhase(b, c)) && SameLaunch(p, h, x.req, c) && x.admitAt < c.leaseExpires
    ensures var admitted := Admit(h, p, w, x.req, c, x.admitAt, 2);
            admitted.out == Renewed && In(h, p, admitted.w, LivePhase(c)) && SameService(p, w.db, admitted.w.db)
  {
    AdmittedWithinLease(h, p, w, b, c, x.req, c, x.admitAt);
  }

  lemma PrepareKeepsService(h: Hash, p: Profile, w: World, b: Binding, x: Launch)
    requires FencedWorld(h, p, w, b, 5) && b.id !in w.db.open
    requires PrepareRecovery(h, p, w, x.req, IntentFile(b.epoch + 1), x.ids, x.prepareAt, x.seconds).Ok?
    ensures SameService(p, w.db, PrepareRecovery(h, p, w, x.req, IntentFile(b.epoch + 1), x.ids, x.prepareAt, x.seconds).value.0.db)
  {
    PreparedShape(h, p, w, b, x.req, x.ids, x.prepareAt, x.seconds);
    SessionKeepsService(p, w.db, x.ids, x.prepareAt, x.prepareAt + x.seconds);
  }

  lemma SessionKeepsService(p: Profile, db: Db, ids: Fresh, now: Time, expires: Time)
    ensures OpenSession(EndStale(db, p, now), p, ids, expires).Ok? ==>
              SameService(p, db, OpenSession(EndStale(db, p, now), p, ids, expires).value)
  {
    assert SameService(p, db, EndStale(db, p, now));
  }

  lemma CycleSucceeds(h: Hash, p: Profile, w: World, b: Binding, x: Launch) returns (c: Binding)
    requires In(h, p, w, LivePhase(b)) && Serviceable(p, w.db, b.release) && GoodLaunch(h, p, b, w, x)
    ensures Cycle(h, p, w, x).Ok? && In(h, p, Cycle(h, p, w, x).value, LivePhase(c))
    ensures Succeeds(h, p, b, c) && Serviceable(p, Cycle(h, p, w, x).value.db, c.release)
  {
    FenceCompletes(h, p, w, b, x);
    c := RelaunchSucceeds(h, p, Fence(h, p, w, x).w, b, x);
  }

  ghost predicate GoodLaunches(h: Hash, p: Profile, b: Binding, w: World, xs: seq<Launch>)
    decreases |xs|
  {
    xs == [] ||
    (GoodLaunch(h, p, b, w, xs[0]) &&
     (Cycle(h, p, w, xs[0]).Ok? ==> GoodLaunches(h, p, b, Cycle(h, p, w, xs[0]).value, xs[1..])))
  }

  /** Bindings of one chain: each next one names the admission just before it as prior. */
  ghost predicate Linked(h: Hash, p: Profile, chain: seq<Binding>) {
    forall i :: 0 <= i < |chain| - 1 ==> Succeeds(h, p, chain[i], chain[i + 1])
  }

  lemma GoodLaunchesAgree(h: Hash, p: Profile, b: Binding, c: Binding, w: World, xs: seq<Launch>)
    requires b.release == c.release && b.host == c.host
    ensures GoodLaunches(h, p, b, w, xs) == GoodLaunches(h, p, c, w, xs)
    decreases |xs|
  {
    if xs != [] && Cycle(h, p, w, xs[0]).Ok? {
      GoodLaunchesAgree(h, p, b, c, Cycle(h, p, w, xs[0]).value, xs[1..]);
    }
  }

  /** All that identifies the lane is the same, `n` epochs on. */
  predicate Continues(b: Binding, last: Binding, n: nat) {
    && last.epoch == b.epoch + n && last.root == b.root && last.profile == b.profile
    && last.release == b.release && last.host == b.host && last.fence == b.fence
  }

  /** The chain of `n` cycles from `b`, whose last binding is live in `end`. */
  ghost predicate ChainOf(h: Hash, p: Profile, b: Binding, end: World, n: nat, chain: seq<Binding>) {
    && |chain| == n + 1 && chain[0] == b && Linked(h, p, chain)
    && In(h, p, end, LivePhase(chain[n])) && Continues(b, chain[n], n)
  }

  lemma LinkedLonger(h: Hash, p: Profile, b: Binding, rest: seq<Binding>)
    requires rest != [] && Linked(h, p, rest) && Succeeds(h, p, b, rest[0])
    ensures Linked(h, p, [b] + rest)
  {
    var chain := [b] + rest;
    forall i | 0 <= i < |chain| - 1 ensures Succeeds(h, p, chain[i], chain[i + 1]) {
      if i > 0 { assert chain[i] == rest[i - 1] && chain[i + 1] == rest[i]; }
    }
  }

  lemma ChainGrows(h: Hash, p: Profile, b: Binding, c: Binding, end: World, n: nat, rest: seq<Binding>)
    requires Succeeds(h, p, b, c) && ChainOf(h, p, c, end, n, rest)
    ensures ChainOf(h, p, b, end, n + 1, [b] + rest)
  {
    LinkedLonger(h, p, b, rest);
  }

  /** The first of several cycles, and what is left of them. */
  lemma FirstCycle(h: Hash, p: Profile, w: World, b: Binding, xs: seq<Launch>, end: Result<World>) returns (next: World, c: Binding)
    requires xs != [] && In(h, p, w, LivePhase(b)) && Serviceable(p, w.db, b.release) && GoodLaunches(h, p, b, w, xs)
    requires end == Cycles(h, p, w, xs)
    ensures In(h, p, next, LivePhase(c)) && Succeeds(h, p, b, c) && Serviceable(p, next.db, c.release)
    ensures GoodLaunches(h, p, c, next, xs[1..]) && end == Cycles(h, p, next, xs[1..])
  {
    c := CycleSucceeds(h, p, w, b, xs[0]);
    next := Cycle(h, p, w, xs[0]).value;
    GoodLaunchesAgree(h, p, b, c, next, xs[1..]);
  }

  lemma {:induction false} CyclesChain(h: Hash, p: Profile, w: World, b: Binding, xs: seq<Launch>, end: Result<World>) returns (chain: seq<Binding>)
    requires In(h, p, w, LivePhase(b)) && Serviceable(p, w.db, b.release) && GoodLaunches(h, p, b, w, xs)
    requires end == Cycles(h, p, w, xs)
    ensures end.Ok? && ChainOf(h, p, b, end.value, |xs|, chain)
    decreases |xs|
  {
    if xs == [] {
      chain := [b];
    } else {
      var next, c := FirstCycle(h, p, w, b, xs, end);
      var rest := CyclesChain(h, p, next, c, xs[1..], end);
      chain := [b] + rest;
      ChainGrows(h, p, b, c, end.value, |xs| - 1, rest);
    }
  }

  /** For every number of cycles: no cycle dead-ends, and the live binding afterwards ends
      a chain of that many links, with the epoch that many steps on and the same root,
      worker, mandate, package, release, host and fence. */
  lemma CyclesNeverDeadEnd(h: Hash, p: Profile, w: World, b: Binding, xs: seq<Launch>) returns (chain: seq<Binding>)
    requires In(h, p, w, LivePhase(b)) && Serviceable(p, w.db, b.release) && GoodLaunches(h, p, b, w, xs)
    ensures Cycles(h, p, w, xs).Ok? && |chain| == |xs| + 1 && chain[0] == b && Linked(h, p, chain)
    ensures In(h, p, Cycles(h, p, w, xs).value, LivePhase(chain[|xs|])) && Continues(b, chain[|xs|], |xs|)
  {
    chain := CyclesChain(h, p, w, b, xs, Cycles(h, p, w, xs));
  }

  /** Nothing is left half-recovered: recoveries are consumed, intents are spent. */
  ghost predicate CleanLane(p: Profile, w: World) {
    && (forall k | k in w.db.open :: w.db.open[k].candidate.profile == p ==> w.db.open[k].state == Consumed)
    && (forall path | path in w.files ::
          Parse(w.files[path]).Some? && Parse(w.files[path]).value.IntentDoc?
          ==> Parse(w.files[path]).value.intent.basis.prior in w.db.open)
  }

  /** The first admission: in a clean lane with no live row, a prepared initial candidate
      admitted within its lease is live, and starts a chain of its own. */
  lemma InitialAdmission(h: Hash, p: Profile, w: World, req: Request, fence: Sha, package: Uuid, previous: int,
                         ids: Fresh, now: Time, seconds: int, at: Time)
    requires PrepareInitial(h, p, w, req, fence, package, previous, ids, now, seconds).Ok?
    requires FreshIds(w, ids) && CleanLane(p, w) && req.process.pid > 1 && previous >= 0 && at < now + seconds
    requires forall e :: e > previous + 1 ==> IntentFile(e) !in w.files
    ensures var r := PrepareInitial(h, p, w, req, fence, package, previous, ids, now, seconds).value;
            var admitted := Admit(h, p, r.0, req, r.1, at, 2);
            && admitted.out == Renewed && In(h, p, admitted.w, LivePhase(r.1))
            && r.1.epoch == previous + 1 && r.1.root == r.1.id
            && Serviceable(p, admitted.w.db, r.1.release)
  {
    var r := PrepareInitial(h, p, w, req, fence, package, previous, ids, now, seconds).value;
    InitialShape(h, p, w, req, fence, package, previous, ids, now, seconds);
    InitialAdmitted(h, p, r.0, req, r.1, at);
  }

  /** When the first candidate is prepared: for an allowed lease, with this package the one that is
      installed for the role, and of the request's release, worker and manifest active, no live
      admission, no session that still runs, and the mandate active and verified. */
  lemma InitialPreparedIff(h: Hash, p: Profile, w: World, req: Request, fence: Sha, package: Uuid, previous: int,
                           ids: Fresh, now: Time, seconds: int)
    ensures PrepareInitial(h, p, w, req, fence, package, previous, ids, now, seconds).Ok? <==>
            && 30 <= seconds <= 300 && req.profileSha == h(Text(ProfileDoc(p)))
            && p.worker in w.db.workers && w.db.workers[p.worker].company == p.company && w.db.workers[p.worker].role == p.role
            && w.db.workers[p.worker].active && w.db.workers[p.worker].manifestActive
            && package in w.db.packages && w.db.packages[package].commit == req.commit && w.db.packages[package].tree == req.tree
            && (forall id | id in w.db.packages ::
                  var pk := w.db.packages[id];
                  pk.installed && pk.company == p.company && pk.role == p.role && pk.deployment == p.deployment <==> id == package)
            && NoLive(w.db, p.company, p.role)
            && (forall id | id in w.db.sessions ::
                  var s := w.db.sessions[id];
                  s.company == p.company && s.role == p.role && s.worker == p.worker && s.state == Active ==> s.lease <= now)
            && MandateStands(p, w.db)
  {
    SessionOpensIff(p, w.db, ids, now, now + seconds);
  }

  lemma InitialShape(h: Hash, p: Profile, w: World, req: Request, fence: Sha, package: Uuid, previous: int,
                     ids: Fresh, now: Time, seconds: int)
    requires PrepareInitial(h, p, w, req, fence, package, previous, ids, now, seconds).Ok?
    requires FreshIds(w, ids) && req.process.pid > 1 && previous >= 0
    requires forall e :: e > previous + 1 ==> IntentFile(e) !in w.files
    ensures var r := PrepareInitial(h, p, w, req, fence, package, previous, ids, now, seconds).value;
            && AwaitsFirst(h, p, r.0, r.1) && r.1.leaseExpires == now + seconds && r.1.epoch == previous + 1
            && SameLaunch(p, h, req, r.1) && Serviceable(p, r.0.db, r.1.release)
            && r.0.files == w.files && r.0.db.open == w.db.open
  {
    var r := PrepareInitial(h, p, w, req, fence, package, previous, ids, now, seconds).value;
    assert r.0.db.admissions == w.db.admissions && r.0.db.open == w.db.open;
  }

  /** An initial candidate whose session is open in a lane with no live row. */
  ghost predicate AwaitsFirst(h: Hash, p: Profile, w: World, c: Binding) {
    && Fits(p, c) && c.authority.Initial? && c.approval == c.id && c.subject == SubjectOf(h, c)
    && c.id !in w.db.admissions && UnusedId(w, c.id) && NoLive(w.db, p.company, p.role)
    && c.session in w.db.sessions && OwnSession(p, w.db.sessions[c.session])
    && w.db.sessions[c.session].state == Active && w.db.sessions[c.session].token == c.token
    && OwnWorker(p, w.db) && w.db.workers[p.worker].token == Some(c.token) && w.db.workers[p.worker].lease.Some?
    && forall e :: e > c.epoch ==> IntentFile(e) !in w.files
  }

  lemma InitialAdmitted(h: Hash, p: Profile, w: World, req: Request, c: Binding, at: Time)
    requires AwaitsFirst(h, p, w, c) && CleanLane(p, w) && SameLaunch(p, h, req, c) && at < c.leaseExpires
    ensures var admitted := Admit(h, p, w, req, c, at, 2);
            admitted.out == Renewed && In(h, p, admitted.w, LivePhase(c)) && SameService(p, w.db, admitted.w.db)
  {
    var db := AdmitTx(h, p, w.db, req, c, at);
    assert db.Ok? && OwnRows(h, p, db.value, c);
  }
}
