/** Whole runs of a role lane: crash convergence, the invariant over every event, and
    any number of fence-and-recover cycles. */
module RoleRuns {
  import opened Outcome
  import opened LaneRecords
  import opened RoleLane
  import opened RolePhases

  // --------------------------------------------------------- crash convergence

  function Ticks(h: Hash, p: Profile, w: World, ts: seq<(Env, nat)>): World
    decreases |ts|
  {
    if ts == [] then w else Ticks(h, p, Tick(h, p, w, ts[0].0, ts[0].1).w, ts[1..])
  }

  ghost predicate Touched(b: Binding, path: Path) {
    path in {BindingFile, ArchiveFile(b.id, b.epoch), ReceiptFile(b.id, b.epoch), IntentFile(b.epoch + 1), RequestFile, HeartbeatFile}
  }

  ghost predicate SameElsewhere(f: Files, g: Files, b: Binding) {
    forall path :: Touched(b, path) || SameAt(f, g, path)
  }

  lemma FenceStepFrame(h: Hash, p: Profile, w: World, f: Fencing, i: nat)
    requires FenceStep(h, p, w, f, i).Ok?
    ensures SameElsewhere(w.files, FenceStep(h, p, w, f, i).value.files, f.b)
  {
  }

  lemma {:induction false} FenceFrame(h: Hash, p: Profile, w: World, f: Fencing, i: nat, fuel: nat, after: After)
    requires i <= FENCE_STEPS && after == FenceFrom(h, p, w, f, i, fuel)
    ensures SameElsewhere(w.files, after.w.files, f.b)
    decreases FENCE_STEPS - i
  {
    if i < FENCE_STEPS && fuel > 0 && FenceStep(h, p, w, f, i).Ok? {
      FenceStepFrame(h, p, w, f, i);
      FenceFrame(h, p, FenceStep(h, p, w, f, i).value, f, i + 1, fuel - 1, after);
    }
  }

  lemma TickFrame(h: Hash, p: Profile, w: World, b: Binding, env: Env, fuel: nat)
    requires LiveWorld(h, p, w, b) || exists j :: FencedWorld(h, p, w, b, j)
    ensures SameElsewhere(w.files, Tick(h, p, w, env, fuel).w.files, b)
  {
    if LiveWorld(h, p, w, b) {
      DecideLive(h, p, w, b, env);
    } else {
      var j :| FencedWorld(h, p, w, b, j);
      DecideFenced(h, p, w, b, j, env);
    }
    var v := Decide(h, p, w, env);
    if v.Fence? { FenceFrame(h, p, w, v.f, 0, fuel, Tick(h, p, w, env, fuel)); }
  }

  /** Once the revocation has committed, any number of ticks, each dying wherever it
      may, keeps every row and only ever adds the missing files. */
  lemma {:induction false} TicksFenced(h: Hash, p: Profile, w: World, b: Binding, j: nat, ts: seq<(Env, nat)>) returns (k: nat)
    requires FencedWorld(h, p, w, b, j)
    ensures k >= j && FencedWorld(h, p, Ticks(h, p, w, ts), b, k)
    ensures Ticks(h, p, w, ts).db == w.db
    ensures SameElsewhere(w.files, Ticks(h, p, w, ts).files, b)
    decreases |ts|
  {
    if ts == [] {
      k := j;
    } else {
      TickFenced(h, p, w, b, j, ts[0].0, ts[0].1);
      TickFrame(h, p, w, b, ts[0].0, ts[0].1);
      var next := Tick(h, p, w, ts[0].0, ts[0].1).w;
      k := TicksFenced(h, p, next, b, if next == w then j else Max(j, Min(ts[0].1, 5)), ts[1..]);
      assert Ticks(h, p, w, ts) == Ticks(h, p, next, ts[1..]);
    }
  }

  /** Crash convergence. The first tick dies after `fuel` steps with the revocation
      committed; any ticks follow, each under any probes and dying anywhere; the last
      one completes. The rows, the archive, the pointer, the receipt bytes and the intent
      bytes are those of a run that never crashed; only the restart request and the
      heartbeat, which name the last tick, may differ. */
  lemma CrashConverges(h: Hash, p: Profile, w: World, b: Binding, env: Env, fuel: nat, ts: seq<(Env, nat)>, last: (Env, nat))
    requires LiveWorld(h, p, w, b)
    requires Decide(h, p, w, env).Fence? && Tick(h, p, w, env, fuel).w != w
    requires Tick(h, p, Ticks(h, p, Tick(h, p, w, env, fuel).w, ts), last.0, last.1).out == Fenced
    ensures var crashed := Tick(h, p, Ticks(h, p, Tick(h, p, w, env, fuel).w, ts), last.0, last.1).w;
            var clean := Tick(h, p, w, env, FENCE_STEPS);
            clean.out == Fenced && crashed.db == clean.w.db && SameButNotes(crashed.files, clean.w.files)
  {
    var f := Decide(h, p, w, env).f;
    DecideLive(h, p, w, b, env);
    FenceLive(h, p, w, f, fuel, Tick(h, p, w, env, fuel));
    FenceLive(h, p, w, f, FENCE_STEPS, Tick(h, p, w, env, FENCE_STEPS));
    TickFrame(h, p, w, b, env, fuel);
    TickFrame(h, p, w, b, env, FENCE_STEPS);
    var w1 := Tick(h, p, w, env, fuel).w;
    var k := TicksFenced(h, p, w1, b, Min(fuel, 5), ts);
    var w2 := Ticks(h, p, w1, ts);
    TickFenced(h, p, w2, b, k, last.0, last.1);
    TickFrame(h, p, w2, b, last.0, last.1);
    FramesAgree(h, p, b, w.files, w1.files, w2.files, Tick(h, p, w2, last.0, last.1).w.files, Tick(h, p, w, env, FENCE_STEPS).w.files);
  }

  /** All files but the restart request and the heartbeat are the same. */
  ghost predicate SameButNotes(f: Files, g: Files) {
    forall path :: path == RequestFile || path == HeartbeatFile || SameAt(f, g, path)
  }

  lemma FramesAgree(h: Hash, p: Profile, b: Binding, f0: Files, f1: Files, f2: Files, f3: Files, clean: Files)
    requires SameElsewhere(f0, f1, b) && SameElsewhere(f1, f2, b) && SameElsewhere(f2, f3, b) && SameElsewhere(f0, clean, b)
    requires FileStage(h, p, f3, b, 5) && FileStage(h, p, clean, b, 5)
    ensures SameButNotes(f3, clean)
  {
    forall path | path != RequestFile && path != HeartbeatFile
      ensures SameAt(f3, clean, path)
    {
      if !Touched(b, path) {
        assert SameAt(f0, f1, path) && SameAt(f1, f2, path) && SameAt(f2, f3, path) && SameAt(f0, clean, path);
      }
    }
  }

  // ---------------------------------------------- a binding stored otherwise

  /** Where the file steps refuse after the rows are already revoked: a live admission
      whose stored bytes are not canonical is revoked by a tick that then refuses, and
      a canonical one never is. */
  lemma RowsRevokedYetRefused(h: Hash, p: Profile, w: World, b: Binding, env: Env)
    requires LiveRows(h, p, w.db, b)
    requires BindingFile in w.files && Parse(w.files[BindingFile]) == Some(BindingDoc(b))
    requires FileStage(h, p, w.files[BindingFile := Stored(b)], b, 0)
    requires Gone(env.first) && Gone(env.second)
    ensures var after := Tick(h, p, w, env, FENCE_STEPS);
            && b.id in after.w.db.admissions && after.w.db.admissions[b.id].state == Revoked
            && (after.out == Rejected <==> w.files[BindingFile] != Stored(b))
  {
    assert LoadBinding(p, w.files) == Ok(b);
    var f := Decide(h, p, w, env).f;
    RevokeLive(h, p, w.db, b, env.now, false);
    if w.files[BindingFile] == Stored(b) {
      assert w.files[BindingFile := Stored(b)] == w.files;
      DecideLive(h, p, w, b, env);
      FenceLive(h, p, w, f, FENCE_STEPS, Tick(h, p, w, env, FENCE_STEPS));
    } else {
      var next := RevokeStep(p, w, f).value;
      assert FenceStep(h, p, w, f, 0) == Ok(next);
      assert ArchiveStep(next, b).Refused?;
      assert FenceStep(h, p, next, f, 1).Refused?;
      assert FenceFrom(h, p, next, f, 1, FENCE_STEPS - 1) == After(next, Rejected);
    }
  }

  // -------------------------------------------------------- replay at any time

  /** Replaying the rollback of `b` against any database: it refuses, or touches only
      rows of that epoch. */
  lemma ReplayTouchesOnlyItsEpoch(p: Profile, db: Db, b: Binding, now: Time, holds: bool)
    ensures RevokeTx(db, p, b, now, holds).Ok? ==> OnlyEpochOf(db, RevokeTx(db, p, b, now, holds).value, b)
  {
    if RevokeTx(db, p, b, now, holds).Ok? {
      var revoked := RevokeParts(db, p, b, now, holds);
      RevokeRowOnly(db, p, b);
      EndSessionOnly(revoked, p, b, now);
      ClearWorkerOnly(EndSession(revoked, p, b, now).value, p, b);
    }
  }

  /** The three updates of a committed rollback, one after the other. */
  lemma RevokeParts(db: Db, p: Profile, b: Binding, now: Time, holds: bool) returns (revoked: Db)
    requires RevokeTx(db, p, b, now, holds).Ok?
    ensures RevokeRow(db, p, b) == Ok(revoked) && EndSession(revoked, p, b, now).Ok?
    ensures RevokeTx(db, p, b, now, holds).value == ClearWorker(EndSession(revoked, p, b, now).value, p, b.token)
  {
    revoked := RevokeRow(db, p, b).value;
  }

  lemma RevokeRowOnly(db: Db, p: Profile, b: Binding)
    requires RevokeRow(db, p, b).Ok?
    ensures var next := RevokeRow(db, p, b).value;
            OnlyEpochOf(db, next, b) && OtherRolesSame(db, next, p.role)
            && next.sessions == db.sessions && next.workers == db.workers
  {
    var next := RevokeRow(db, p, b).value;
    if next != db { AdmissionReplaced(db, b, next.admissions[b.id], p.role); }
  }

  lemma AdmissionReplaced(db: Db, b: Binding, row: Admission, role: string)
    requires b.id in db.admissions && db.admissions[b.id].b.profile.role == role
    ensures var next := db.(admissions := db.admissions[b.id := row]);
            OnlyEpochOf(db, next, b) && OtherRolesSame(db, next, role)
  {
  }

  lemma EndSessionOnly(db: Db, p: Profile, b: Binding, now: Time)
    requires EndSession(db, p, b, now).Ok?
    ensures var next := EndSession(db, p, b, now).value;
            OnlyEpochOf(db, next, b) && OtherRolesSame(db, next, p.role)
            && next.admissions == db.admissions && next.workers == db.workers
  {
  }

  lemma ClearWorkerOnly(db: Db, p: Profile, b: Binding)
    ensures var next := ClearWorker(db, p, b.token);
            OnlyEpochOf(db, next, b) && OtherRolesSame(db, next, p.role)
            && next.admissions == db.admissions && next.sessions == db.sessions
  {
  }

  /** Rows of other roles are the same in both databases. */
  ghost predicate OtherRolesSame(db: Db, next: Db, role: string) {
    && (forall id :: id in db.admissions && db.admissions[id].b.profile.role != role ==> SameRowAt(db.admissions, next.admissions, id))
    && (forall id :: id in db.sessions && db.sessions[id].role != role ==> SameRowAt(db.sessions, next.sessions, id))
    && (forall id :: id in db.workers && db.workers[id].role != role ==> SameRowAt(db.workers, next.workers, id))
  }

  /** Neither renewing nor rolling back one role reaches a row of another role. */
  lemma OtherRolesUntouched(p: Profile, db: Db, b: Binding, now: Time, seconds: int, holds: bool)
    ensures RevokeTx(db, p, b, now, holds).Ok? ==> OtherRolesSame(db, RevokeTx(db, p, b, now, holds).value, p.role)
    ensures RenewTx(db, p, b, now, seconds).Ok? ==> OtherRolesSame(db, RenewTx(db, p, b, now, seconds).value, p.role)
  {
    if RevokeTx(db, p, b, now, holds).Ok? {
      var revoked := RevokeParts(db, p, b, now, holds);
      RevokeRowOnly(db, p, b);
      EndSessionOnly(revoked, p, b, now);
      ClearWorkerOnly(EndSession(revoked, p, b, now).value, p, b);
    }
    if RenewTx(db, p, b, now, seconds).Ok? { RenewOnly(db, p, b, now, seconds); }
  }

  lemma RenewOnly(db: Db, p: Profile, b: Binding, now: Time, seconds: int)
    requires RenewTx(db, p, b, now, seconds).Ok?
    ensures OtherRolesSame(db, RenewTx(db, p, b, now, seconds).value, p.role)
  {
  }

  // ------------------------------------------------------------------- phases

  ghost predicate Succeeds(h: Hash, p: Profile, b: Binding, c: Binding) {
    && c.epoch == b.epoch + 1 && c.root == b.root && c.profile == b.profile && c.release == b.release
    && c.host == b.host && c.fence == b.fence
    && c.authority.Recovered? && c.authority.prior == b.id
    && c.authority.receipt == TheReceipt(h, p, b).digest && c.authority.intent == TheIntent(h, p, b).digest
  }

  /** `c` waits for admission: its session is open and its recovery row prepared. */
  ghost predicate PreparedWorld(h: Hash, p: Profile, w: World, b: Binding, c: Binding) {
    && RevokedRows(h, p, w.db, b) && FileStage(h, p, w.files, b, 5) && NoLive(w.db, p.company, p.role)
    && Fits(p, c) && c.subject == SubjectOf(h, c) && Succeeds(h, p, b, c)
    && c.id !in w.db.admissions && UnusedId(w, c.id)
    && c.session in w.db.sessions && OwnSession(p, w.db.sessions[c.session]) && w.db.sessions[c.session].token == c.token
    && w.db.sessions[c.session].state == Active
    && w.db.workers[p.worker].token == Some(c.token) && w.db.workers[p.worker].lease.Some? && c.token != b.token
    && b.id in w.db.open && w.db.open[b.id].candidate == c && w.db.open[b.id].state == Prepared
  }

  /** The row of `c` is live but the process died before its binding file was written. */
  ghost predicate AdmittingWorld(h: Hash, p: Profile, w: World, b: Binding, c: Binding) {
    && RevokedRows(h, p, w.db, b) && FileStage(h, p, w.files, b, 5) && b.id in w.db.open
    && LiveRows(h, p, w.db, c) && Succeeds(h, p, b, c) && UnusedId(w, c.id) && c.token != b.token
  }

  datatype Phase =
    | LivePhase(b: Binding)
    | FencedPhase(b: Binding, j: nat)
    | PreparedPhase(b: Binding, c: Binding)
    | AdmittingPhase(b: Binding, c: Binding)

  /** Recoveries of this lane other than that of `b` are all consumed. */
  ghost predicate SpentRecoveries(p: Profile, db: Db, b: Binding) {
    forall k | k in db.open && k != b.id :: db.open[k].candidate.profile == p ==> db.open[k].state == Consumed
  }

  /** Every stored intent other than the next one of `b` names a prior already recovered. */
  ghost predicate SpentIntents(w: World, b: Binding) {
    forall path | path in w.files && path != IntentFile(b.epoch + 1) ::
      Parse(w.files[path]).Some? && Parse(w.files[path]).value.IntentDoc?
      ==> Parse(w.files[path]).value.intent.basis.prior in w.db.open
  }

  ghost predicate In(h: Hash, p: Profile, w: World, ph: Phase) {
    && SpentRecoveries(p, w.db, ph.b) && SpentIntents(w, ph.b)
    && match ph
       case LivePhase(b) => LiveWorld(h, p, w, b) && b.id !in w.db.open
       case FencedPhase(b, j) => FencedWorld(h, p, w, b, j) && b.id !in w.db.open
       case PreparedPhase(b, c) => PreparedWorld(h, p, w, b, c)
       case AdmittingPhase(b, c) =>
         AdmittingWorld(h, p, w, b, c) && w.db.open[b.id].state == Consumed
  }

  datatype Event =
    | TickEvent(env: Env, fuel: nat)
    | PrepareEvent(req: Request, path: Path, ids: Fresh, now: Time, seconds: int)
    | AdmitEvent(launch: Request, candidate: Binding, at: Time, steps: nat)

  function Next(h: Hash, p: Profile, w: World, e: Event): World {
    match e
    case TickEvent(env, fuel) => Tick(h, p, w, env, fuel).w
    case PrepareEvent(req, path, ids, now, seconds) =>
      (match PrepareRecovery(h, p, w, req, path, ids, now, seconds)
       case Ok(r) => r.0
       case Refused => w)
    case AdmitEvent(req, c, at, fuel) => Admit(h, p, w, req, c, at, fuel).w
  }

  /** Drawn identifiers are unused, launched processes are real, and only recoveries are
      admitted: a second initial admission would start another chain. */
  ghost predicate Admissible(w: World, e: Event) {
    match e
    case TickEvent(_, _) => true
    case PrepareEvent(req, _, ids, _, _) => FreshIds(w, ids) && req.process.pid > 1
    case AdmitEvent(_, c, _, _) => c.authority.Recovered?
  }

  /** The moves between phases: forward along one epoch, then on to the next. */
  ghost predicate Moves(from: Phase, to: Phase) {
    || to == from
    || (to.FencedPhase? && to.b == from.b
        && (from.LivePhase? || (from.FencedPhase? && to.j >= from.j)))
    || (from.FencedPhase? && from.j == 5 && to.PreparedPhase? && to.b == from.b)
    || (from.PreparedPhase? && to.AdmittingPhase? && to.b == from.b && to.c == from.c)
    || (from.PreparedPhase? && to.LivePhase? && to.b == from.c)
  }

  lemma FilesKeepSpent(h: Hash, p: Profile, w: World, next: World, b: Binding, j: nat)
    requires SpentIntents(w, b) && SpentRecoveries(p, w.db, b) && next.db.open == w.db.open
    requires SameElsewhere(w.files, next.files, b) && FileStage(h, p, next.files, b, j)
    requires forall path | path in next.files && (path == RequestFile || path == HeartbeatFile) ::
               SameAt(w.files, next.files, path) || (Parse(next.files[path]).Some? && !Parse(next.files[path]).value.IntentDoc?)
    ensures SpentIntents(next, b) && SpentRecoveries(p, next.db, b)
  {
    forall path | path in next.files && path != IntentFile(b.epoch + 1)
      ensures Parse(next.files[path]).Some? && Parse(next.files[path]).value.IntentDoc?
              ==> Parse(next.files[path]).value.intent.basis.prior in next.db.open
    {
      if !Touched(b, path) { assert SameAt(w.files, next.files, path); }
    }
  }

  /** The restart request and the heartbeat never hold an intent. */
  ghost predicate PlainNotes(w: World, next: World) {
    forall path | path in next.files && (path == RequestFile || path == HeartbeatFile) ::
      SameAt(w.files, next.files, path) || (Parse(next.files[path]).Some? && !Parse(next.files[path]).value.IntentDoc?)
  }

  lemma StepWritesPlainNotes(h: Hash, p: Profile, w: World, f: Fencing, i: nat)
    requires FenceStep(h, p, w, f, i).Ok?
    ensures PlainNotes(w, FenceStep(h, p, w, f, i).value)
  {
  }

  lemma PlainNotesCompose(w: World, mid: World, next: World)
    requires PlainNotes(w, mid) && PlainNotes(mid, next)
    ensures PlainNotes(w, next)
  {
    forall path | path in next.files && (path == RequestFile || path == HeartbeatFile)
      ensures SameAt(w.files, next.files, path) || (Parse(next.files[path]).Some? && !Parse(next.files[path]).value.IntentDoc?)
    {
      if SameAt(mid.files, next.files, path) { assert path in mid.files; }
    }
  }

  lemma {:induction false} FenceWritesPlainNotes(h: Hash, p: Profile, w: World, f: Fencing, i: nat, fuel: nat, after: After)
    requires i <= FENCE_STEPS && after == FenceFrom(h, p, w, f, i, fuel)
    ensures PlainNotes(w, after.w)
    decreases FENCE_STEPS - i
  {
    if i < FENCE_STEPS && fuel > 0 && FenceStep(h, p, w, f, i).Ok? {
      var next := FenceStep(h, p, w, f, i).value;
      StepWritesPlainNotes(h, p, w, f, i);
      FenceWritesPlainNotes(h, p, next, f, i + 1, fuel - 1, after);
      PlainNotesCompose(w, next, after.w);
    }
  }

  lemma TickWritesPlainNotes(h: Hash, p: Profile, w: World, env: Env, fuel: nat)
    ensures PlainNotes(w, Tick(h, p, w, env, fuel).w)
  {
    var v := Decide(h, p, w, env);
    if v.Fence? { FenceWritesPlainNotes(h, p, w, v.f, 0, fuel, Tick(h, p, w, env, fuel)); }
  }

  lemma TickMoves(h: Hash, p: Profile, w: World, ph: Phase, env: Env, fuel: nat) returns (to: Phase)
    requires In(h, p, w, ph)
    ensures In(h, p, Tick(h, p, w, env, fuel).w, to) && Moves(ph, to)
    ensures ph.PreparedPhase? || ph.AdmittingPhase? ==> Tick(h, p, w, env, fuel).w == w
  {
    var next := Tick(h, p, w, env, fuel).w;
    var b := ph.b;
    TickWritesPlainNotes(h, p, w, env, fuel);
    match ph
    case LivePhase(_) =>
      TickLive(h, p, w, b, env, fuel);
      TickFrame(h, p, w, b, env, fuel);
      if next == w || next.db == RenewedTo(w.db, p, b, env.now + env.leaseSeconds) {
        to := ph;
        FilesKeepSpent(h, p, w, next, b, 0);
      } else {
        to := FencedPhase(b, Min(fuel, 5));
        ReplayTouchesOnlyItsEpoch(p, w.db, b, env.now, HoldsLock(env.second) == Ok(true));
        FilesKeepSpent(h, p, w, next, b, Min(fuel, 5));
      }
    case FencedPhase(_, j) =>
      TickFenced(h, p, w, b, j, env, fuel);
      TickFrame(h, p, w, b, env, fuel);
      if next == w {
        to := ph;
      } else {
        to := FencedPhase(b, Max(j, Min(fuel, 5)));
        FilesKeepSpent(h, p, w, next, b, to.j);
      }
    case PreparedPhase(_, c) =>
      to := ph;
      DecideFenced(h, p, w, b, 5, env);
      SupersededTick(h, p, w, b, env, fuel);
    case AdmittingPhase(_, c) =>
      to := ph;
      DecideFenced(h, p, w, b, 5, env);
      SupersededTick(h, p, w, b, env, fuel);
  }

  /** While the next session is open, every tick on the old epoch leaves the world as it is. */
  lemma SupersededTick(h: Hash, p: Profile, w: World, b: Binding, env: Env, fuel: nat)
    requires RevokedRows(h, p, w.db, b) && FileStage(h, p, w.files, b, 5)
    requires w.db.workers[p.worker].token.Some? && w.db.workers[p.worker].token != Some(b.token)
    ensures Tick(h, p, w, env, fuel).w == w
  {
    DecideFenced(h, p, w, b, 5, env);
    var v := Decide(h, p, w, env);
    if v.Fence? && fuel > 0 {
      var holds := HoldsLock(v.f.env.second);
      if holds.Ok? { RevokeSuperseded(h, p, w.db, b, env.now, holds.value); }
      assert FenceStep(h, p, w, v.f, 0).Refused?;
    }
  }

  /** A preparation that changes the world read an intent whose prior has no recovery yet. */
  lemma PrepareReads(h: Hash, p: Profile, w: World, req: Request, path: Path, ids: Fresh, now: Time, seconds: int)
    requires PrepareRecovery(h, p, w, req, path, ids, now, seconds).Ok?
    requires PrepareRecovery(h, p, w, req, path, ids, now, seconds).value.0 != w
    ensures path in w.files && Parse(w.files[path]).Some? && Parse(w.files[path]).value.IntentDoc?
    ensures Parse(w.files[path]).value.intent.basis.prior !in w.db.open
    ensures MandateStands(p, w.db)
  {
  }

  /** The mandate is active, verified and of its artifact. */
  predicate MandateStands(p: Profile, db: Db) {
    p.mandate.id in db.mandates && db.mandates[p.mandate.id] == MandateRow(p.mandate.artifact, MandateActive, true)
  }

  /** The only unspent intent is the next one, and it is stored only once the fence is complete. */
  lemma UnspentIntent(h: Hash, p: Profile, w: World, ph: Phase, path: Path)
    requires In(h, p, w, ph)
    requires path in w.files && Parse(w.files[path]).Some? && Parse(w.files[path]).value.IntentDoc?
    requires Parse(w.files[path]).value.intent.basis.prior !in w.db.open
    ensures path == IntentFile(ph.b.epoch + 1) && ph.FencedPhase? && ph.j == 5
  {
    match ph
    case LivePhase(_) =>
    case FencedPhase(_, _) =>
    case PreparedPhase(_, _) =>
    case AdmittingPhase(_, _) =>
  }

  /** A preparation changes nothing, or prepares the recovery of a complete fence, under an active
      mandate. */
  lemma PrepareMoves(h: Hash, p: Profile, w: World, ph: Phase, e: Event) returns (to: Phase)
    requires In(h, p, w, ph) && e.PrepareEvent? && Admissible(w, e)
    ensures In(h, p, Next(h, p, w, e), to) && Moves(ph, to)
    ensures Next(h, p, w, e) != w ==> ph.FencedPhase? && ph.j == 5 && to.PreparedPhase? && MandateStands(p, w.db)
  {
    to := ph;
    if Next(h, p, w, e) != w {
      to := NewRecoveryMoves(h, p, w, ph, e.req, e.path, e.ids, e.now, e.seconds);
    }
  }

  lemma NewRecoveryMoves(h: Hash, p: Profile, w: World, ph: Phase, req: Request, path: Path, ids: Fresh,
                         now: Time, seconds: int) returns (to: Phase)
    requires In(h, p, w, ph) && FreshIds(w, ids) && req.process.pid > 1
    requires PrepareRecovery(h, p, w, req, path, ids, now, seconds).Ok?
    requires PrepareRecovery(h, p, w, req, path, ids, now, seconds).value.0 != w
    ensures In(h, p, PrepareRecovery(h, p, w, req, path, ids, now, seconds).value.0, to) && Moves(ph, to)
    ensures ph.FencedPhase? && ph.j == 5 && to.PreparedPhase? && MandateStands(p, w.db)
  {
    PrepareReads(h, p, w, req, path, ids, now, seconds);
    UnspentIntent(h, p, w, ph, path);
    to := PreparedPhase(ph.b, PrepareRecovery(h, p, w, req, path, ids, now, seconds).value.1);
    PreparedFromFence(h, p, w, ph.b, req, ids, now, seconds);
  }

  /** Ending stale sessions and opening a new one leaves a fenced epoch alone. */
  lemma SessionOpens(h: Hash, p: Profile, w: World, b: Binding, ids: Fresh, now: Time, expires: Time)
    requires FencedRows(h, p, w.db, b) && FreshIds(w, ids)
    requires OpenSession(EndStale(w.db, p, now), p, ids, expires).Ok?
    ensures var db := OpenSession(EndStale(w.db, p, now), p, ids, expires).value;
            && db == w.db.(sessions := db.sessions, workers := db.workers)
            && RevokedRows(h, p, db, b) && ids.token != b.token
            && ids.session in db.sessions && db.sessions[ids.session].state == Active
            && OwnSession(p, db.sessions[ids.session]) && db.sessions[ids.session].token == ids.token
            && db.workers[p.worker].token == Some(ids.token) && db.workers[p.worker].lease.Some?
  {
  }

  /** The world after preparing candidate `c` with the sessions and workers of `db`. */
  function WithRecovery(w: World, db: Db, b: Binding, req: Request, c: Binding): World {
    w.(db := db.(open := db.open[b.id := Recovery(c, req, Prepared)]))
  }

  /** The recovery candidate that follows the fenced binding `b`. */
  function CandidateOf(h: Hash, p: Profile, b: Binding, req: Request, ids: Fresh, expires: Time): Binding {
    var i := TheIntent(h, p, b);
    Candidate(h, p, ids, b.release, req, b.epoch + 1, expires, b.fence, b.root,
              Recovered(b.id, ids.intentRow, i.basis.receiptSha, i.digest))
  }

  /** What a successful preparation from a complete fence returns. */
  lemma PreparedShape(h: Hash, p: Profile, w: World, b: Binding, req: Request, ids: Fresh, now: Time, seconds: int)
    requires FencedWorld(h, p, w, b, 5) && b.id !in w.db.open
    requires PrepareRecovery(h, p, w, req, IntentFile(b.epoch + 1), ids, now, seconds).Ok?
    ensures OpenSession(EndStale(w.db, p, now), p, ids, now + seconds).Ok? && req.host == b.host
    ensures var c := CandidateOf(h, p, b, req, ids, now + seconds);
            var db := OpenSession(EndStale(w.db, p, now), p, ids, now + seconds).value;
            PrepareRecovery(h, p, w, req, IntentFile(b.epoch + 1), ids, now, seconds) == Ok((WithRecovery(w, db, b, req, c), c))
  {
    assert w.files[IntentFile(b.epoch + 1) := Line(IntentDoc(TheIntent(h, p, b)))] == w.files;
    IntentReadable(h, p, w.files, b);
  }

  lemma PreparedFromFence(h: Hash, p: Profile, w: World, b: Binding, req: Request, ids: Fresh, now: Time, seconds: int)
    requires FencedWorld(h, p, w, b, 5) && b.id !in w.db.open && FreshIds(w, ids) && req.process.pid > 1
    requires SpentRecoveries(p, w.db, b) && SpentIntents(w, b)
    requires PrepareRecovery(h, p, w, req, IntentFile(b.epoch + 1), ids, now, seconds).Ok?
    ensures var r := PrepareRecovery(h, p, w, req, IntentFile(b.epoch + 1), ids, now, seconds).value;
            In(h, p, r.0, PreparedPhase(b, r.1)) && r.1 == CandidateOf(h, p, b, req, ids, now + seconds)
  {
    PreparedShape(h, p, w, b, req, ids, now, seconds);
    RecoveryOpened(h, p, w, b, req, ids, now, seconds);
  }

  lemma RecoveryOpened(h: Hash, p: Profile, w: World, b: Binding, req: Request, ids: Fresh, now: Time, seconds: int)
    requires FencedWorld(h, p, w, b, 5) && b.id !in w.db.open && FreshIds(w, ids) && req.process.pid > 1
    requires SpentRecoveries(p, w.db, b) && SpentIntents(w, b) && req.host == b.host
    requires OpenSession(EndStale(w.db, p, now), p, ids, now + seconds).Ok?
    ensures var db := OpenSession(EndStale(w.db, p, now), p, ids, now + seconds).value;
            var c := CandidateOf(h, p, b, req, ids, now + seconds);
            In(h, p, WithRecovery(w, db, b, req, c), PreparedPhase(b, c))
  {
    SessionOpens(h, p, w, b, ids, now, now + seconds);
    var db := OpenSession(EndStale(w.db, p, now), p, ids, now + seconds).value;
    var c := CandidateOf(h, p, b, req, ids, now + seconds);
    CandidateFits(h, p, w.db, b, req, ids, now + seconds);
    RecoveryAssembled(h, p, w, db, b, req, c);
  }

  lemma RecoveryAssembled(h: Hash, p: Profile, w: World, db: Db, b: Binding, req: Request, c: Binding)
    requires FencedWorld(h, p, w, b, 5) && SpentRecoveries(p, w.db, b) && SpentIntents(w, b)
    requires db == w.db.(sessions := db.sessions, workers := db.workers) && RevokedRows(h, p, db, b)
    requires Fits(p, c) && c.subject == SubjectOf(h, c) && Succeeds(h, p, b, c) && c.token != b.token
    requires c.id !in w.db.admissions && UnusedId(w, c.id)
    requires c.session in db.sessions && OwnSession(p, db.sessions[c.session]) && db.sessions[c.session].token == c.token
    requires db.sessions[c.session].state == Active
    requires db.workers[p.worker].token == Some(c.token) && db.workers[p.worker].lease.Some?
    ensures In(h, p, WithRecovery(w, db, b, req, c), PreparedPhase(b, c))
  {
    var next := WithRecovery(w, db, b, req, c);
    assert OwnRows(h, p, next.db, b);
  }

  lemma CandidateFits(h: Hash, p: Profile, db: Db, b: Binding, req: Request, ids: Fresh, expires: Time)
    requires OwnRows(h, p, db, b) && ids.admission !in db.admissions && req.process.pid > 1 && req.host == b.host
    ensures var c := CandidateOf(h, p, b, req, ids, expires);
            Fits(p, c) && c.subject == SubjectOf(h, c) && Succeeds(h, p, b, c)
  {
  }

  lemma AdmitMoves(h: Hash, p: Profile, w: World, ph: Phase, e: Event) returns (to: Phase)
    requires In(h, p, w, ph) && e.AdmitEvent? && Admissible(w, e)
    ensures In(h, p, Next(h, p, w, e), to) && Moves(ph, to)
  {
    to := ph;
    var b := ph.b;
    var c := e.candidate;
    var r := AdmitTx(h, p, w.db, e.launch, c, e.at);
    if e.steps > 0 && r.Ok? {
      OnlyPreparedInserts(h, p, w, ph, e.launch, c, e.at);
      AdmittedFromPrepared(h, p, w, b, c, e.launch, e.at);
      to := if e.steps == 1 then AdmittingPhase(b, c) else LivePhase(c);
    }
  }

  /** The triggers let one candidate in: the one whose recovery is prepared. */
  lemma OnlyPreparedInserts(h: Hash, p: Profile, w: World, ph: Phase, req: Request, c: Binding, at: Time)
    requires In(h, p, w, ph) && c.authority.Recovered? && AdmitTx(h, p, w.db, req, c, at).Ok?
    ensures ph == PreparedPhase(ph.b, c)
  {
    assert NoLive(w.db, p.company, p.role);
    match ph
    case LivePhase(b) =>
    case FencedPhase(b, _) =>
    case PreparedPhase(b, _) => assert c.authority.prior == b.id;
    case AdmittingPhase(_, d) =>
  }

  lemma AdmittedFromPrepared(h: Hash, p: Profile, w: World, b: Binding, c: Binding, req: Request, at: Time)
    requires In(h, p, w, PreparedPhase(b, c)) && AdmitTx(h, p, w.db, req, c, at).Ok?
    ensures var db := AdmitTx(h, p, w.db, req, c, at).value;
            && In(h, p, World(db, w.files), AdmittingPhase(b, c))
            && In(h, p, World(db, w.files[BindingFile := Stored(c)]), LivePhase(c))
  {
    var db := AdmitTx(h, p, w.db, req, c, at).value;
    AdmittedRows(h, p, w, b, c, req, at);
    assert SpentIntents(World(db, w.files), b);
    BindingPublished(h, p, World(db, w.files), b, c);
  }

  lemma AdmittedRows(h: Hash, p: Profile, w: World, b: Binding, c: Binding, req: Request, at: Time)
    requires In(h, p, w, PreparedPhase(b, c)) && AdmitTx(h, p, w.db, req, c, at).Ok?
    ensures var db := AdmitTx(h, p, w.db, req, c, at).value;
            && RevokedRows(h, p, db, b) && LiveRows(h, p, db, c)
            && db.open == w.db.open[b.id := w.db.open[b.id].(state := Consumed)]
            && SpentRecoveries(p, db, b) && SpentRecoveries(p, db, c)
  {
  }

  lemma BindingPublished(h: Hash, p: Profile, w: World, b: Binding, c: Binding)
    requires AdmittingWorld(h, p, w, b, c) && SpentIntents(w, b)
    ensures var next := w.(files := w.files[BindingFile := Stored(c)]);
            LiveWorld(h, p, next, c) && SpentIntents(next, c)
  {
    var files := w.files[BindingFile := Stored(c)];
    assert w.files[IntentFile(b.epoch + 1)] == Line(IntentDoc(TheIntent(h, p, b)));
    assert FileStage(h, p, files, c, 0);
  }

  /** Every event, from every phase, ends in a phase that phase may move to. */
  lemma EventMoves(h: Hash, p: Profile, w: World, ph: Phase, e: Event) returns (to: Phase)
    requires In(h, p, w, ph) && Admissible(w, e)
    ensures In(h, p, Next(h, p, w, e), to) && Moves(ph, to)
  {
    match e
    case TickEvent(env, fuel) => to := TickMoves(h, p, w, ph, env, fuel);
    case PrepareEvent(_, _, _, _, _) => to := PrepareMoves(h, p, w, ph, e);
    case AdmitEvent(_, _, _, _) => to := AdmitMoves(h, p, w, ph, e);
  }

  function Run(h: Hash, p: Profile, w: World, es: seq<Event>): World
    decreases |es|
  {
    if es == [] then w else Run(h, p, Next(h, p, w, es[0]), es[1..])
  }

  ghost predicate AdmissibleRun(h: Hash, p: Profile, w: World, es: seq<Event>)
    decreases |es|
  {
    es == [] || (Admissible(w, es[0]) && AdmissibleRun(h, p, Next(h, p, w, es[0]), es[1..]))
  }

  /** The binding a phase stands for: the one admitted, or about to be. */
  function Current(ph: Phase): Binding {
    if ph.AdmittingPhase? then ph.c else ph.b
  }

  ghost predicate SameChain(b: Binding, c: Binding) {
    && c.epoch >= b.epoch && c.root == b.root && c.profile == b.profile && c.release == b.release
    && c.host == b.host && c.fence == b.fence
  }

  /** Over every run of ticks, preparations and admissions, in any order and dying
      anywhere, the lane stays in one of its phases: one root, one release, one host,
      epochs that never go back, and at most one live admission. */
  lemma {:induction false} RunStaysInLane(h: Hash, p: Profile, w: World, ph: Phase, es: seq<Event>) returns (to: Phase)
    requires In(h, p, w, ph) && AdmissibleRun(h, p, w, es)
    ensures In(h, p, Run(h, p, w, es), to) && SameChain(Current(ph), Current(to))
    ensures forall k, l :: LiveIn(p, Run(h, p, w, es).db, k) && LiveIn(p, Run(h, p, w, es).db, l) ==> k == l
    decreases |es|
  {
    if es == [] {
      to := ph;
      AtMostOneLive(h, p, w, ph);
    } else {
      var mid := EventMoves(h, p, w, ph, es[0]);
      to := RunStaysInLane(h, p, Next(h, p, w, es[0]), mid, es[1..]);
      assert Run(h, p, w, es) == Run(h, p, Next(h, p, w, es[0]), es[1..]);
    }
  }

  lemma AtMostOneLive(h: Hash, p: Profile, w: World, ph: Phase)
    requires In(h, p, w, ph)
    ensures forall k, l :: LiveIn(p, w.db, k) && LiveIn(p, w.db, l) ==> k == l
  {
    match ph
    case LivePhase(b) =>
    case FencedPhase(b, _) =>
    case PreparedPhase(b, _) =>
    case AdmittingPhase(_, c) =>
  }

  ghost predicate LiveIn(p: Profile, db: Db, id: Uuid) {
    && id in db.admissions && db.admissions[id].state == Live
    && db.admissions[id].b.profile.company == p.company && db.admissions[id].b.profile.role == p.role
  }

  // ------------------------------------------------------------------ dead ends

  /** A prepared candidate whose lease has ended can neither be admitted nor replaced:
      no tick, preparation or admission of this lane changes the world again. */
  lemma ExpiredCandidateDeadEnds(h: Hash, p: Profile, w: World, b: Binding, c: Binding, e: Event)
    requires In(h, p, w, PreparedPhase(b, c)) && Admissible(w, e)
    requires e.AdmitEvent? ==> e.at >= c.leaseExpires
    ensures Next(h, p, w, e) == w
    ensures e.PrepareEvent? && e.now >= c.leaseExpires && e.path == IntentFile(b.epoch + 1) ==>
              PrepareRecovery(h, p, w, e.req, e.path, e.ids, e.now, e.seconds).Refused?
  {
    match e
    case TickEvent(env, fuel) => SupersededTick(h, p, w, b, env, fuel);
    case PrepareEvent(_, _, _, _, _) =>
      OpenRecoveryStays(h, p, w, PreparedPhase(b, c), e);
      if e.now >= c.leaseExpires { ExpiredRecoveryRefuses(h, p, w, b, c, e.req, e.ids, e.now, e.seconds); }
    case AdmitEvent(_, _, _, _) =>
  }

  /** While the recovery of `b` is open, preparing again changes nothing. */
  lemma OpenRecoveryStays(h: Hash, p: Profile, w: World, ph: Phase, e: Event)
    requires In(h, p, w, ph) && (ph.PreparedPhase? || ph.AdmittingPhase?) && e.PrepareEvent?
    ensures Next(h, p, w, e) == w
  {
    var r := PrepareRecovery(h, p, w, e.req, e.path, e.ids, e.now, e.seconds);
    if r.Ok? && r.value.0 != w {
      PrepareReads(h, p, w, e.req, e.path, e.ids, e.now, e.seconds);
      UnspentIntent(h, p, w, ph, e.path);
      assert false;
    }
  }

  lemma ExpiredRecoveryRefuses(h: Hash, p: Profile, w: World, b: Binding, c: Binding, req: Request, ids: Fresh, now: Time, seconds: int)
    requires PreparedWorld(h, p, w, b, c) && now >= c.leaseExpires
    ensures PrepareRecovery(h, p, w, req, IntentFile(b.epoch + 1), ids, now, seconds).Refused?
  {
    assert Parse(w.files[IntentFile(b.epoch + 1)]) == Some(IntentDoc(TheIntent(h, p, b)));
  }

  /** If the process dies between the insert and the binding file, the role lane cannot
      finish the admission: no event changes the world, and admitting again refuses. */
  lemma TornAdmissionDeadEnds(h: Hash, p: Profile, w: World, b: Binding, c: Binding, e: Event)
    requires In(h, p, w, AdmittingPhase(b, c)) && Admissible(w, e)
    ensures Next(h, p, w, e) == w
    ensures forall req, at, fuel :: fuel > 0 ==> Admit(h, p, w, req, c, at, fuel) == After(w, Rejected)
  {
    assert w.db.admissions[c.id].state == Live;
    match e
    case TickEvent(env, fuel) => SupersededTick(h, p, w, b, env, fuel);
    case PrepareEvent(_, _, _, _, _) => OpenRecoveryStays(h, p, w, AdmittingPhase(b, c), e);
    case AdmitEvent(_, _, _, _) =>
  }
}
