/** Whole runs of the Scribe lane: files that are written once, convergence after crashes
    and losses, and the invariant over every event. */
module ScribeRuns {
  import opened Outcome
  import opened LaneRecords
  import opened ScribeLane
  import opened ScribePhases

  // ------------------------------------------------------------------ frames

  predicate WrittenOnce(path: Path) {
    path.ArchiveFile? || path.ReceiptFile? || path.IntentFile? || path.RestartReceiptFile?
  }

  /** No archive, receipt or intent of any epoch has been lost or altered. */
  ghost predicate Kept(f: Files, g: Files) {
    forall path | path in f && WrittenOnce(path) :: path in g && g[path] == f[path]
  }

  predicate Owned(path: Path, b: Binding) {
    || path == BindingFile || Aside(path, b.epoch)
    || path == ArchiveFile(b.id, b.epoch) || path == ReceiptFile(b.id, b.epoch)
  }

  /** Only files of `b` changed, and the only intent among them is its next one. */
  ghost predicate Frame(f: Files, g: Files, b: Binding) {
    forall path :: SameAt(f, g, path) || path == IntentFile(b.epoch + 1) || (Owned(path, b) && (path in g ==> NotIntent(g[path])))
  }

  lemma FrameThenFrame(f: Files, g: Files, next: Files, b: Binding)
    requires Frame(f, g, b) && Frame(g, next, b)
    ensures Frame(f, next, b)
  {
    forall path ensures SameAt(f, next, path) || path == IntentFile(b.epoch + 1) || (Owned(path, b) && (path in next ==> NotIntent(next[path]))) {
      if SameAt(g, next, path) && !SameAt(f, g, path) && path != IntentFile(b.epoch + 1) { assert Owned(path, b) && (path in g ==> NotIntent(g[path])); }
    }
  }

  /** One private file of `b` written, and not over an earlier one that is written once. */
  lemma WriteFrame(f: Files, g: Files, path: Path, bytes: Bytes, b: Binding)
    requires g == f[path := bytes]
    requires path == IntentFile(b.epoch + 1) || (Owned(path, b) && NotIntent(bytes))
    requires WrittenOnce(path) && path in f ==> f[path] == bytes
    ensures Frame(f, g, b) && Kept(f, g)
  {
  }

  lemma FenceStepFrame(h: Hash, s: Site, w: World, f: Fencing, i: nat, next: World)
    requires FenceStep(h, s, w, f, i) == Ok(next)
    ensures Frame(w.files, next.files, f.b) && Kept(w.files, next.files)
  {
    if next.files != w.files {
      var path := if i == 2 then ArchiveFile(f.b.id, f.b.epoch) else if i == 3 then BindingFile
                  else if i == 4 then ReceiptFile(f.b.id, f.b.epoch) else if i == 5 then IntentFile(f.b.epoch + 1)
                  else if i == 6 then RequestFile else HeartbeatFile;
      WriteFrame(w.files, next.files, path, next.files[path], f.b);
    }
  }

  /** A fence stops where it is, or takes one step and goes on. */
  lemma FenceUnfolds(h: Hash, s: Site, w: World, f: Fencing, i: nat, fuel: nat, after: After) returns (stepped: Option<World>)
    requires i <= FENCE_STEPS && after == FenceFrom(h, s, w, f, i, fuel)
    ensures stepped.None? ==> after.w == w
    ensures stepped.Some? ==> i < FENCE_STEPS && fuel > 0 && FenceStep(h, s, w, f, i) == Ok(stepped.value)
    ensures stepped.Some? ==> after == FenceFrom(h, s, stepped.value, f, i + 1, fuel - 1)
  {
    if i == FENCE_STEPS || fuel == 0 { return None; }
    match FenceStep(h, s, w, f, i) {
      case Refused => stepped := None;
      case Ok(next) => stepped := Some(next);
    }
  }

  lemma {:induction false} FenceFrame(h: Hash, s: Site, w: World, f: Fencing, i: nat, fuel: nat, after: After)
    requires i <= FENCE_STEPS && after == FenceFrom(h, s, w, f, i, fuel)
    ensures Frame(w.files, after.w.files, f.b) && Kept(w.files, after.w.files)
    decreases FENCE_STEPS - i
  {
    var stepped := FenceUnfolds(h, s, w, f, i, fuel, after);
    if stepped.Some? {
      var next := stepped.value;
      FenceStepFrame(h, s, w, f, i, next);
      FenceFrame(h, s, next, f, i + 1, fuel - 1, after);
      FrameThenFrame(w.files, next.files, after.w.files, f.b);
    }
  }

  lemma RestartKeeps(h: Hash, s: Site, w: World, c: Binding, env: Env, done: World)
    requires ReceiptRestart(h, s, w, c, env).Ok? && done == ReceiptRestart(h, s, w, c, env).value.0
    ensures Kept(w.files, done.files)
  {
  }

  lemma PublishFrame(h: Hash, s: Site, w: World, b: Binding, env: Env, fuel: nat, after: After)
    requires after == PublishFrom(h, s, w, b, env, fuel)
    ensures Frame(w.files, after.w.files, b) && Kept(w.files, after.w.files)
  {
    PublishAside(h, s, w, b, env, fuel, after);
    var receipted, completed := PublishShape(h, s, w, b, env, fuel, after);
    if receipted != Leased(w, b, env) { RestartKeeps(h, s, Leased(w, b, env), b, env, receipted); }
  }

  lemma RenewFrame(h: Hash, s: Site, w: World, b: Binding, env: Env, fuel: nat, after: After)
    requires after == RenewFrom(h, s, w, b, env, fuel)
    ensures Frame(w.files, after.w.files, b) && Kept(w.files, after.w.files)
  {
    var tx := RenewTx(w.db, b, env.now, env.leaseSeconds);
    if fuel > 0 && tx.Ok? { PublishFrame(h, s, w.(db := tx.value), b, env, fuel - 1, after); }
  }

  lemma InspectFrame(h: Hash, s: Site, w: World, b: Binding, env: Env, fuel: nat, after: After)
    requires after == InspectFrom(h, s, w, b, env, fuel)
    ensures Frame(w.files, after.w.files, b) && Kept(w.files, after.w.files)
  {
    if env.probe.state == Unprovable {
    } else if LineageBroken(JoinedLease(w.db, b)) {
      FenceFrame(h, s, w, Fencing(b, "lease_or_lineage_stale", env), 0, fuel, after);
    } else if env.probe.state != ExactLive {
      FenceFrame(h, s, w, Fencing(b, Label(env.probe.state), env), 0, fuel, after);
    } else if env.probe.lock == Held {
      RenewFrame(h, s, w, b, env, fuel, after);
    }
  }

  lemma RestoreFrame(h: Hash, s: Site, w: World, b: Binding, env: Env, fuel: nat, after: After)
    requires after == InspectFrom(h, s, Restore(w, b), b, env, fuel)
    ensures Frame(w.files, after.w.files, b) && Kept(w.files, after.w.files)
  {
    InspectFrame(h, s, Restore(w, b), b, env, fuel, after);
    FrameThenFrame(w.files, Restore(w, b).files, after.w.files, b);
  }

  lemma ActKeepsWritten(h: Hash, s: Site, w: World, v: Verdict, env: Env, fuel: nat, after: After)
    requires after == Act(h, s, w, v, env, fuel)
    ensures Kept(w.files, after.w.files)
  {
    match v
    case Inspect(b, restored) =>
      if !restored { InspectFrame(h, s, w, b, env, fuel, after); }
      else if fuel > 0 { RestoreFrame(h, s, w, b, env, fuel - 1, after); }
    case Resume(b) => FenceFrame(h, s, w, Fencing(b, "revoked", env), 0, fuel, after);
    case Await =>
    case Malformed =>
    case Stuck =>
  }

  /** In any world, under any probes and answers, a tick neither loses nor alters an
      archive, a receipt or an intent that exists. */
  lemma TickKeepsWritten(h: Hash, s: Site, w: World, env: Env, fuel: nat, after: After)
    requires after == Tick(h, s, w, env, fuel)
    ensures Kept(w.files, after.w.files)
  {
    ActKeepsWritten(h, s, w, Decide(h, s, w, env.found), env, fuel, after);
  }

  /** A tick on `b` changes only files of `b`. */
  lemma TickFrame(h: Hash, s: Site, w: World, b: Binding, env: Env, fuel: nat)
    requires Facts(h, w.files, b) && OwnRows(h, s, w.db, b) && Highest(s, w.db, b) && Answers(s, w.db, env.found)
    requires OnlyLive(s, w.db, b.id)
    ensures Frame(w.files, Tick(h, s, w, env, fuel).w.files, b)
  {
    TickFinds(h, s, w, b, env, fuel);
    var after := Tick(h, s, w, env, fuel);
    if Lost(w.files) {
      if fuel > 0 { RestoreFrame(h, s, w, b, env, fuel - 1, after); }
    } else if w.files[BindingFile] == Stored(b) {
      InspectFrame(h, s, w, b, env, fuel, after);
    } else {
      FenceFrame(h, s, w, Fencing(b, "revoked", env), 0, fuel, after);
    }
  }

  // ------------------------------------------------------------------ events

  datatype Event =
    | TickEvent(env: Env, fuel: nat)
    | LoseEvent(rest: Option<Bytes>)
    | PrepareEvent(req: Request, m: Mandate, path: Path, ids: Fresh, now: Time, seconds: int)
    | AdmitEvent(launch: Request, mandate: Mandate, candidate: Binding, at: Time, steps: nat)

  /** The binding file is removed, or overwritten with bytes that do not parse. */
  function Lose(files: Files, rest: Option<Bytes>): Files {
    match rest
    case None => files - {BindingFile}
    case Some(bytes) => files[BindingFile := bytes]
  }

  function Next(h: Hash, s: Site, w: World, e: Event): World {
    match e
    case TickEvent(env, fuel) => Tick(h, s, w, env, fuel).w
    case LoseEvent(rest) => w.(files := Lose(w.files, rest))
    case PrepareEvent(req, m, path, ids, now, seconds) =>
      (match PrepareRecovery(h, s, w, req, m, path, ids, now, seconds)
       case Ok(r) => r.0
       case Refused => w)
    case AdmitEvent(req, m, c, at, fuel) => Admit(h, w, req, m, c, at, fuel).w
  }

  function Run(h: Hash, s: Site, w: World, es: seq<Event>): World
    decreases |es|
  {
    if es == [] then w else Run(h, s, Next(h, s, w, es[0]), es[1..])
  }

  lemma EventKeepsWritten(h: Hash, s: Site, w: World, e: Event)
    ensures Kept(w.files, Next(h, s, w, e).files)
  {
    match e
    case TickEvent(env, fuel) => TickKeepsWritten(h, s, w, env, fuel, Tick(h, s, w, env, fuel));
    case LoseEvent(rest) =>
    case PrepareEvent(req, m, path, ids, now, seconds) => PrepareKeepsFiles(h, s, w, req, m, path, ids, now, seconds);
    case AdmitEvent(_, _, _, _, _) =>
  }

  lemma PrepareKeepsFiles(h: Hash, s: Site, w: World, req: Request, m: Mandate, path: Path, ids: Fresh, now: Time, seconds: int)
    ensures PrepareRecovery(h, s, w, req, m, path, ids, now, seconds).Ok? ==>
              PrepareRecovery(h, s, w, req, m, path, ids, now, seconds).value.0.files == w.files
  {
  }

  /** Over every run from every world, the receipt of an epoch, once it exists, is the
      only one that epoch ever has; so too its archive and the next intent. */
  lemma {:induction false} WrittenForever(h: Hash, s: Site, w: World, es: seq<Event>, end: World)
    requires end == Run(h, s, w, es)
    ensures Kept(w.files, end.files)
    decreases |es|
  {
    if es != [] {
      EventKeepsWritten(h, s, w, es[0]);
      WrittenForever(h, s, Next(h, s, w, es[0]), es[1..], end);
    }
  }

  // ------------------------------------------------------------ convergence

  /** Ticks that ask a truthful database, and losses of the binding file. */
  ghost predicate Disturbance(w: World, s: Site, e: Event) {
    match e
    case TickEvent(env, _) => Answers(s, w.db, env.found)
    case LoseEvent(rest) => rest.None? || Parse(rest.value).None?
    case _ => false
  }

  ghost predicate Disturbances(h: Hash, s: Site, w: World, es: seq<Event>)
    decreases |es|
  {
    es == [] || (Disturbance(w, s, es[0]) && Disturbances(h, s, Next(h, s, w, es[0]), es[1..]))
  }

  ghost predicate Underway(h: Hash, s: Site, w: World, b: Binding) {
    LiveWorld(h, s, w, b) || FencedWorld(h, s, w, b)
  }

  lemma LoseKeepsFacts(h: Hash, files: Files, b: Binding, rest: Option<Bytes>)
    requires Facts(h, files, b) && (rest.None? || Parse(rest.value).None?)
    ensures Facts(h, Lose(files, rest), b) && Grows(files, Lose(files, rest), b)
    ensures Untouched(files, b) ==> Untouched(Lose(files, rest), b)
  {
  }

  lemma DisturbanceKeeps(h: Hash, s: Site, w: World, b: Binding, e: Event)
    requires Underway(h, s, w, b) && Disturbance(w, s, e)
    ensures Underway(h, s, Next(h, s, w, e), b)
    ensures FencedWorld(h, s, w, b) ==> FencedWorld(h, s, Next(h, s, w, e), b) && Next(h, s, w, e).db == w.db
  {
    match e
    case LoseEvent(rest) => LoseKeepsFacts(h, w.files, b, rest);
    case TickEvent(env, fuel) =>
      if LiveWorld(h, s, w, b) { TickLive(h, s, w, b, env, fuel); } else { TickRevoked(h, s, w, b, env, fuel); }
    case _ =>
  }

  lemma {:induction false} DisturbancesKeep(h: Hash, s: Site, w: World, b: Binding, es: seq<Event>, end: World)
    requires Underway(h, s, w, b) && Disturbances(h, s, w, es) && end == Run(h, s, w, es)
    ensures Underway(h, s, end, b)
    ensures FencedWorld(h, s, w, b) ==> FencedWorld(h, s, end, b) && end.db == w.db
    decreases |es|
  {
    if es != [] {
      DisturbanceKeeps(h, s, w, b, es[0]);
      DisturbancesKeep(h, s, Next(h, s, w, es[0]), b, es[1..], end);
    }
  }

  lemma DisturbanceFrame(h: Hash, s: Site, w: World, b: Binding, e: Event)
    requires Underway(h, s, w, b) && Disturbance(w, s, e)
    ensures Frame(w.files, Next(h, s, w, e).files, b)
  {
    match e
    case LoseEvent(rest) =>
    case TickEvent(env, fuel) => TickFrame(h, s, w, b, env, fuel);
    case _ =>
  }

  /** Disturbances of a live or fenced epoch touch only its own files. */
  lemma {:induction false} DisturbancesFrame(h: Hash, s: Site, w: World, b: Binding, es: seq<Event>, end: World)
    requires Underway(h, s, w, b) && Disturbances(h, s, w, es) && end == Run(h, s, w, es)
    ensures Frame(w.files, end.files, b)
    decreases |es|
  {
    if es != [] {
      var next := Next(h, s, w, es[0]);
      DisturbanceFrame(h, s, w, b, es[0]);
      DisturbanceKeeps(h, s, w, b, es[0]);
      DisturbancesFrame(h, s, next, b, es[1..], end);
      FrameThenFrame(w.files, next.files, end.files, b);
    }
  }

  /** The fence of `b` is complete: one receipt of this binding and its archived bytes, and
      one intent that continues it, behind a revoked pointer. */
  ghost predicate Complete(h: Hash, files: Files, b: Binding) {
    Facts(h, files, b) && Pointed(h, files, b) && Written(files, b)
  }

  /** Convergence. Any number of ticks, dying after any step, and any losses of the binding
      file are followed by one tick that finds the process gone: the admission is revoked,
      its session ended, the binding archived behind a pointer, with exactly one receipt
      and one intent; and once the rows were revoked they are never touched again. */
  lemma FenceConverges(h: Hash, s: Site, w: World, b: Binding, es: seq<Event>, env: Env, fuel: nat)
    requires Underway(h, s, w, b) && Disturbances(h, s, w, es)
    requires Answers(s, Run(h, s, w, es).db, env.found) && Cooperative(env) && fuel >= FENCE_STEPS + 1
    ensures var after := Tick(h, s, Run(h, s, w, es), env, fuel);
            && after.out == Fenced && FencedRows(h, s, after.w.db, b) && Complete(h, after.w.files, b)
            && Kept(w.files, after.w.files)
            && (FencedWorld(h, s, w, b) ==> after.w.db == w.db)
  {
    var end := Run(h, s, w, es);
    DisturbancesKeep(h, s, w, b, es, end);
    WrittenForever(h, s, w, es, end);
    TickKeepsWritten(h, s, end, env, fuel, Tick(h, s, end, env, fuel));
    if LiveWorld(h, s, end, b) { TickLive(h, s, end, b, env, fuel); } else { TickRevoked(h, s, end, b, env, fuel); }
  }

  /** Archiving again after archive and pointer are written succeeds exactly when the bytes
      archived were canonical: a predecessor's bytes are taken over once, and then refused. */
  lemma ArchiveAgain(h: Hash, w: World, b: Binding)
    requires BindingFile in w.files && !IsPointer(w.files[BindingFile]) && !Archived(w.files, b)
    requires ArchiveStep(h, w, b).Ok?
    ensures var archived := ArchiveStep(h, w, b).value;
            && archived.files[ArchiveFile(b.id, b.epoch)] == w.files[BindingFile]
            && PointerStep(h, archived, b).Ok?
            && (ArchiveStep(h, PointerStep(h, archived, b).value, b).Ok? <==> w.files[BindingFile] == Stored(b))
  {
  }

  // ----------------------------------------------------- replay of an old epoch

  /** Replaying the rollback of `b` against any database refuses, or touches only rows of
      that epoch. */
  lemma ReplayTouchesOnlyItsEpoch(db: Db, b: Binding)
    ensures RevokeTx(db, b).Ok? ==> OnlyEpochOf(db, RevokeTx(db, b).value, b)
  {
    if RevokeTx(db, b).Ok? {
      CloseTouches(db, b);
      EndTouches(CloseAdmission(db, b).value, b);
    }
  }

  lemma CloseTouches(db: Db, b: Binding)
    requires CloseAdmission(db, b).Ok?
    ensures var next := CloseAdmission(db, b).value;
            OnlyEpochOf(db, next, b) && next.sessions == db.sessions && next.workers == db.workers
  {
  }

  lemma EndTouches(db: Db, b: Binding)
    requires EndBoundSession(db, b).Ok?
    ensures OnlyEpochOf(db, EndBoundSession(db, b).value, b) && EndBoundSession(db, b).value.admissions == db.admissions
  {
  }
}
