/** The phases one role lane goes through, and what every supervisor tick does in each. */
module RolePhases {
  import opened Outcome
  import opened LaneRecords
  import opened RoleLane

  ghost predicate RootRow(p: Profile, db: Db, root: Uuid) {
    && root in db.admissions
    && var r := db.admissions[root].b;
       r.profile == p && r.authority.Initial? && r.root == root && r.approval == root
  }

  /** The rows that belong to the admission of `b`, whatever state they are in. */
  ghost predicate OwnRows(h: Hash, p: Profile, db: Db, b: Binding) {
    && Fits(p, b) && b.subject == SubjectOf(h, b)
    && b.id in db.admissions && db.admissions[b.id].b == b
    && b.session in db.sessions && OwnSession(p, db.sessions[b.session]) && db.sessions[b.session].token == b.token
    && OwnWorker(p, db) && RootRow(p, db, b.root)
  }

  ghost predicate OnlyLive(p: Profile, db: Db, id: Uuid) {
    forall k | k in db.admissions && k != id ::
      db.admissions[k].b.profile.company == p.company && db.admissions[k].b.profile.role == p.role
      ==> db.admissions[k].state != Live
  }

  ghost predicate LiveRows(h: Hash, p: Profile, db: Db, b: Binding) {
    && OwnRows(h, p, db, b) && db.admissions[b.id].state == Live
    && db.sessions[b.session].state == Active
    && db.workers[p.worker].token == Some(b.token) && db.workers[p.worker].lease.Some?
    && OnlyLive(p, db, b.id)
  }

  ghost predicate RevokedRows(h: Hash, p: Profile, db: Db, b: Binding) {
    && OwnRows(h, p, db, b) && db.admissions[b.id].state == Revoked
    && db.sessions[b.session].state == Ended
  }

  ghost predicate FencedRows(h: Hash, p: Profile, db: Db, b: Binding) {
    && RevokedRows(h, p, db, b)
    && db.workers[p.worker].token.None? && db.workers[p.worker].lease.None?
    && NoLive(db, p.company, p.role)
  }

  function TheReceipt(h: Hash, p: Profile, b: Binding): Receipt {
    ReceiptOf(h, p, b, Stored(b))
  }

  function TheIntent(h: Hash, p: Profile, b: Binding): Intent {
    IntentOf(h, p, b, TheReceipt(h, p, b))
  }

  ghost predicate Holds(files: Files, path: Path, bytes: Bytes, present: bool) {
    if present then path in files && files[path] == bytes else path !in files
  }

  /** The private files when the first `j` steps of the fence of `b` have been done. */
  ghost predicate FileStage(h: Hash, p: Profile, files: Files, b: Binding, j: nat) {
    && Holds(files, BindingFile, if j < 3 then Stored(b) else PointerTo(h, p, b, Stored(b)), true)
    && Holds(files, ArchiveFile(b.id, b.epoch), Stored(b), j >= 2)
    && Holds(files, ReceiptFile(b.id, b.epoch), Line(ReceiptDoc(TheReceipt(h, p, b))), j >= 4)
    && Holds(files, IntentFile(b.epoch + 1), Line(IntentDoc(TheIntent(h, p, b))), j >= 5)
    && (forall e :: e > b.epoch + 1 ==> IntentFile(e) !in files)
  }

  ghost predicate LiveWorld(h: Hash, p: Profile, w: World, b: Binding) {
    LiveRows(h, p, w.db, b) && FileStage(h, p, w.files, b, 0)
  }

  ghost predicate FencedWorld(h: Hash, p: Profile, w: World, b: Binding, j: nat) {
    1 <= j <= 5 && FencedRows(h, p, w.db, b) && FileStage(h, p, w.files, b, j)
  }

  function Min(a: nat, b: nat): nat { if a < b then a else b }
  function Max(a: nat, b: nat): nat { if a < b then b else a }

  // ----------------------------------------------------------- transactions

  /** The worker serves and none of the three leases has run out. */
  predicate LeasesRun(db: Db, p: Profile, b: Binding, now: Time) {
    && b.id in db.admissions && db.admissions[b.id].lease > now
    && b.session in db.sessions && db.sessions[b.session].lease > now
    && p.worker in db.workers && db.workers[p.worker].active
    && db.workers[p.worker].lease.Some? && db.workers[p.worker].lease.value > now
  }

  /** The rows of `b` with the admission revoked, the session ended and the worker free. */
  function RevokedTo(db: Db, p: Profile, b: Binding, now: Time): Db
    requires b.id in db.admissions && b.session in db.sessions && p.worker in db.workers
  {
    var s := db.sessions[b.session];
    db.(admissions := db.admissions[b.id := Admission(db.admissions[b.id].b, Revoked, db.admissions[b.id].lease)],
        sessions := db.sessions[b.session := s.(state := Ended, endedAt := Some(if s.endedAt.Some? then s.endedAt.value else now))],
        workers := db.workers[p.worker := db.workers[p.worker].(token := None, lease := None)])
  }

  /** From live rows the rollback commits exactly when no live authority stands
      behind a process that holds the lock, and then it fences exactly those rows. */
  lemma RevokeLive(h: Hash, p: Profile, db: Db, b: Binding, now: Time, holds: bool)
    requires LiveRows(h, p, db, b)
    ensures RevokeTx(db, p, b, now, holds).Ok? <==> !(holds && LeasesRun(db, p, b, now))
    ensures RevokeTx(db, p, b, now, holds).Ok? ==>
              RevokeTx(db, p, b, now, holds) == Ok(RevokedTo(db, p, b, now)) && FencedRows(h, p, RevokedTo(db, p, b, now), b)
  {
    LeasesJoined(h, p, db, b, now);
    RevokedInParts(h, p, db, b, now);
    RevokedFenced(h, p, db, b, now);
  }

  lemma RevokedInParts(h: Hash, p: Profile, db: Db, b: Binding, now: Time)
    requires LiveRows(h, p, db, b)
    ensures RevokeRow(db, p, b).Ok? && EndSession(RevokeRow(db, p, b).value, p, b, now).Ok?
    ensures ClearWorker(EndSession(RevokeRow(db, p, b).value, p, b, now).value, p, b.token) == RevokedTo(db, p, b, now)
  {
  }

  lemma RevokedFenced(h: Hash, p: Profile, db: Db, b: Binding, now: Time)
    requires LiveRows(h, p, db, b)
    ensures FencedRows(h, p, RevokedTo(db, p, b, now), b)
  {
    var cleared := RevokedTo(db, p, b, now);
    assert NoLive(cleared, p.company, p.role);
    assert OwnRows(h, p, cleared, b);
  }

  lemma LeasesJoined(h: Hash, p: Profile, db: Db, b: Binding, now: Time)
    requires LiveRows(h, p, db, b)
    ensures LeasesRun(db, p, b, now) <==> AuthorityLive(JoinedLease(db, p, b), now)
    ensures LineageBroken(JoinedLease(db, p, b)) <==> !db.workers[p.worker].active
  {
  }

  /** Replayed on rows already fenced, the rollback changes nothing. */
  lemma RevokeFenced(h: Hash, p: Profile, db: Db, b: Binding, now: Time, holds: bool)
    requires FencedRows(h, p, db, b)
    ensures RevokeTx(db, p, b, now, holds) == Ok(db)
  {
  }

  /** Once the worker serves a later session, the rollback of `b` refuses. */
  lemma RevokeSuperseded(h: Hash, p: Profile, db: Db, b: Binding, now: Time, holds: bool)
    requires RevokedRows(h, p, db, b)
    requires db.workers[p.worker].token.Some? && db.workers[p.worker].token != Some(b.token)
    ensures RevokeTx(db, p, b, now, holds).Refused?
  {
  }

  // -------------------------------------------------------------- the fence

  /** One file step, on rows already fenced, moves stage `j` to at least `i + 1`. */
  lemma FileStepAdvances(h: Hash, p: Profile, w: World, f: Fencing, i: nat, j: nat)
    requires 1 <= i < FENCE_STEPS && FencedWorld(h, p, w, f.b, j) && Min(i, 5) <= j
    ensures FenceStep(h, p, w, f, i).Ok?
    ensures var next := FenceStep(h, p, w, f, i).value;
            next.db == w.db && FencedWorld(h, p, next, f.b, Max(j, Min(i + 1, 5)))
  {
    var b := f.b;
    var next := FenceStep(h, p, w, f, i);
    match i
    case 1 =>
    case 2 =>
    case 3 =>
      if j >= 4 { assert LoadReceipt(h, p, w.files, ReceiptFile(b.id, b.epoch)) == Ok(TheReceipt(h, p, b)); }
    case 4 =>
      IntentReadable(h, p, w.files, b);
    case 5 =>
      assert w.files[IntentFile(b.epoch + 1)] == Line(IntentDoc(TheIntent(h, p, b)));
      assert w.files[IntentFile(b.epoch + 1) := Line(IntentDoc(TheIntent(h, p, b)))] == w.files;
      IntentReadable(h, p, w.files, b);
    case 6 =>
  }

  /** A stored intent of `b` loads whenever its receipt is stored. */
  lemma IntentReadable(h: Hash, p: Profile, files: Files, b: Binding)
    requires Fits(p, b)
    requires Holds(files, ReceiptFile(b.id, b.epoch), Line(ReceiptDoc(TheReceipt(h, p, b))), true)
    ensures LoadReceipt(h, p, files, ReceiptFile(b.id, b.epoch)) == Ok(TheReceipt(h, p, b))
    ensures LoadIntent(h, p, files[IntentFile(b.epoch + 1) := Line(IntentDoc(TheIntent(h, p, b)))], IntentFile(b.epoch + 1))
            == Ok(TheIntent(h, p, b))
  {
    var path := IntentFile(b.epoch + 1);
    var more := files[path := Line(IntentDoc(TheIntent(h, p, b)))];
    assert LoadReceipt(h, p, more, ReceiptFile(b.id, b.epoch)) == Ok(TheReceipt(h, p, b));
    assert Read(more, path) == Ok(IntentDoc(TheIntent(h, p, b)));
  }

  lemma FenceContinues(h: Hash, p: Profile, w: World, f: Fencing, i: nat, j: nat, fuel: nat) returns (next: World)
    requires 1 <= i < FENCE_STEPS && FencedWorld(h, p, w, f.b, j) && Min(i, 5) <= j && fuel > 0
    ensures next.db == w.db && FencedWorld(h, p, next, f.b, Max(j, Min(i + 1, 5)))
    ensures FenceFrom(h, p, w, f, i, fuel) == FenceFrom(h, p, next, f, i + 1, fuel - 1)
  {
    FileStepAdvances(h, p, w, f, i, j);
    next := FenceStep(h, p, w, f, i).value;
  }

  /** From fenced rows the rest of the fence always goes through, keeps the rows,
      and reaches exactly the stage its fuel allows. */
  lemma {:induction false} FenceAdvances(h: Hash, p: Profile, w: World, f: Fencing, i: nat, j: nat, fuel: nat, after: After)
    requires 1 <= i <= FENCE_STEPS && FencedWorld(h, p, w, f.b, j) && Min(i, 5) <= j
    requires after == FenceFrom(h, p, w, f, i, fuel)
    ensures && after.w.db == w.db
            && FencedWorld(h, p, after.w, f.b, Max(j, Min(i + fuel, 5)))
            && after.out == (if fuel >= FENCE_STEPS - i then Fenced else Crashed)
    decreases FENCE_STEPS - i
  {
    if i < FENCE_STEPS && fuel > 0 {
      var next := FenceContinues(h, p, w, f, i, j, fuel);
      FenceAdvances(h, p, next, f, i + 1, Max(j, Min(i + 1, 5)), fuel - 1, after);
    }
  }

  /** What the tick's two inspections let it do with a fence. */
  ghost predicate Permits(f: Fencing) {
    HoldsLock(f.env.second).Ok? && (HoldsLock(f.env.second).value ==> f.authorityLost)
  }

  /** The first step on a live admission: refused, or the rows are fenced. */
  lemma RevokeStepLive(h: Hash, p: Profile, w: World, f: Fencing)
    requires LiveWorld(h, p, w, f.b)
    ensures var db := RevokeTx(w.db, p, f.b, f.env.now, HoldsLock(f.env.second) == Ok(true));
            && RevokeStep(p, w, f) == (if !Permits(f) || db.Refused? then Refused else Ok(w.(db := db.value)))
            && (RevokeStep(p, w, f).Ok? ==> FencedWorld(h, p, w.(db := db.value), f.b, 1))
  {
    if Permits(f) { RevokeLive(h, p, w.db, f.b, f.env.now, HoldsLock(f.env.second).value); }
  }

  /** Fencing a live admission: refused, or the rows are revoked first and then the
      files follow one by one. */
  lemma FenceLive(h: Hash, p: Profile, w: World, f: Fencing, fuel: nat, after: After)
    requires LiveWorld(h, p, w, f.b) && after == FenceFrom(h, p, w, f, 0, fuel)
    ensures var db := RevokeTx(w.db, p, f.b, f.env.now, HoldsLock(f.env.second) == Ok(true));
            if fuel == 0 then after == After(w, Crashed)
            else if !Permits(f) || db.Refused? then after == After(w, Rejected)
            else after.w.db == db.value && FencedWorld(h, p, after.w, f.b, Min(fuel, 5))
                 && after.out == (if fuel >= FENCE_STEPS then Fenced else Crashed)
  {
    if fuel > 0 {
      FenceBegins(h, p, w, f, fuel, after);
      RevokeStepLive(h, p, w, f);
      if RevokeStep(p, w, f).Ok? { FenceRevoked(h, p, RevokeStep(p, w, f).value, f, fuel, after); }
    }
  }

  lemma FenceRevoked(h: Hash, p: Profile, w: World, f: Fencing, fuel: nat, after: After)
    requires fuel > 0 && FencedWorld(h, p, w, f.b, 1) && after == FenceFrom(h, p, w, f, 1, fuel - 1)
    ensures after.w.db == w.db && FencedWorld(h, p, after.w, f.b, Min(fuel, 5))
    ensures after.out == (if fuel >= FENCE_STEPS then Fenced else Crashed)
  {
    FenceAdvances(h, p, w, f, 1, 1, fuel - 1, after);
  }

  lemma FenceBegins(h: Hash, p: Profile, w: World, f: Fencing, fuel: nat, after: After)
    requires fuel > 0 && after == FenceFrom(h, p, w, f, 0, fuel)
    ensures after == match RevokeStep(p, w, f)
                     case Refused => After(w, Rejected)
                     case Ok(next) => FenceFrom(h, p, next, f, 1, fuel - 1)
  {
    assert FenceStep(h, p, w, f, 0) == RevokeStep(p, w, f);
  }

  /** Fencing again after a crash: the rows stay exactly as they are. */
  lemma FenceAgain(h: Hash, p: Profile, w: World, f: Fencing, j: nat, fuel: nat, after: After)
    requires FencedWorld(h, p, w, f.b, j) && after == FenceFrom(h, p, w, f, 0, fuel)
    ensures if fuel == 0 then after == After(w, Crashed)
            else if !Permits(f) then after == After(w, Rejected)
            else after.w.db == w.db && FencedWorld(h, p, after.w, f.b, Max(j, Min(fuel, 5)))
                 && after.out == (if fuel >= FENCE_STEPS then Fenced else Crashed)
  {
    if fuel > 0 && Permits(f) {
      var holds := HoldsLock(f.env.second).value;
      RevokeFenced(h, p, w.db, f.b, f.env.now, holds);
      assert FenceStep(h, p, w, f, 0) == Ok(w);
      FenceAdvances(h, p, w, f, 1, j, fuel - 1, after);
    }
  }

  // --------------------------------------------------------------- decisions

  /** Both ways of reading the binding file name the same binding. */
  lemma BindingReadable(h: Hash, p: Profile, files: Files, b: Binding, j: nat)
    requires Fits(p, b) && FileStage(h, p, files, b, j)
    ensures LoadRollbackBinding(h, p, files) == Ok(b)
    ensures LoadBinding(p, files) == if j < 3 then Ok(b) else Refused
  {
  }

  /** On a live admission the tick renews exactly when the exact process holds the
      lock and the joined rows are unbroken. */
  lemma DecideLive(h: Hash, p: Profile, w: World, b: Binding, env: Env)
    requires LiveWorld(h, p, w, b)
    ensures var v := Decide(h, p, w, env);
            && (v.Renew? <==> env.first == Probe(ExactLive, Held) && !LineageBroken(JoinedLease(w.db, p, b)))
            && (v.Renew? ==> v.b == b)
            && (v.Hold? <==> env.first == Probe(ExactLive, LockUnsafe))
            && (v.Fence? ==> v.f.b == b && v.f.env == env)
  {
    BindingReadable(h, p, w.files, b, 0);
  }

  /** After the revocation no tick renews: it fences on, or holds. */
  lemma DecideFenced(h: Hash, p: Profile, w: World, b: Binding, j: nat, env: Env)
    requires RevokedRows(h, p, w.db, b) && FileStage(h, p, w.files, b, j) && j >= 1
    ensures var v := Decide(h, p, w, env);
            && !v.Renew?
            && (v.Fence? ==> v.f.b == b && v.f.env == env)
            && (v.Hold? ==> env.first == Probe(ExactLive, LockUnsafe))
  {
    BindingReadable(h, p, w.files, b, j);
  }

  // ------------------------------------------------------------------- ticks

  /** Every tick on a live admission does exactly one of three things, or dies while
      doing it: it renews the three leases to one common expiry, it fences, or it
      leaves rows and files as they were. */
  lemma TickLive(h: Hash, p: Profile, w: World, b: Binding, env: Env, fuel: nat)
    requires LiveWorld(h, p, w, b)
    ensures var after := Tick(h, p, w, env, fuel);
            || after.w == w
            || (&& after.w.db == RenewedTo(w.db, p, b, env.now + env.leaseSeconds)
                && LiveWorld(h, p, after.w, b) && env.first == Probe(ExactLive, Held))
            || (&& fuel > 0 && FencedWorld(h, p, after.w, b, Min(fuel, 5))
                && RevokeTx(w.db, p, b, env.now, HoldsLock(env.second) == Ok(true)) == Ok(after.w.db))
    ensures var after := Tick(h, p, w, env, fuel);
            && (after.out == Rejected ==> after.w == w)
            && (after.out == Renewed ==> after.w.db == RenewedTo(w.db, p, b, env.now + env.leaseSeconds))
            && (after.out == Fenced ==> FencedWorld(h, p, after.w, b, 5))
            && after.out != Idle
  {
    DecideLive(h, p, w, b, env);
    var v := Decide(h, p, w, env);
    if v.Fence? {
      FenceLive(h, p, w, v.f, fuel, Tick(h, p, w, env, fuel));
    } else if v.Renew? {
      TickRenews(h, p, w, b, env, fuel);
    }
  }

  lemma TickRenews(h: Hash, p: Profile, w: World, b: Binding, env: Env, fuel: nat)
    requires LiveWorld(h, p, w, b) && Decide(h, p, w, env) == Renew(b)
    ensures var after := Tick(h, p, w, env, fuel);
            || (after.w == w && (after.out == Rejected || after.out == Crashed))
            || (&& after.w.db == RenewedTo(w.db, p, b, env.now + env.leaseSeconds) && LiveWorld(h, p, after.w, b)
                && (after.out == Renewed || after.out == Crashed))
  {
    if fuel > 0 && RenewTx(w.db, p, b, env.now, env.leaseSeconds).Ok? {
      RenewLive(h, p, w, b, env);
      assert FileStage(h, p, Tick(h, p, w, env, fuel).w.files, b, 0);
    }
  }

  function RenewedTo(db: Db, p: Profile, b: Binding, expires: Time): Db
    requires b.id in db.admissions && b.session in db.sessions && p.worker in db.workers
  {
    db.(admissions := db.admissions[b.id := db.admissions[b.id].(lease := expires)],
        sessions := db.sessions[b.session := db.sessions[b.session].(lease := expires)],
        workers := db.workers[p.worker := db.workers[p.worker].(lease := Some(expires))])
  }

  lemma RenewLive(h: Hash, p: Profile, w: World, b: Binding, env: Env)
    requires LiveWorld(h, p, w, b)
    requires RenewTx(w.db, p, b, env.now, env.leaseSeconds).Ok?
    ensures RenewTx(w.db, p, b, env.now, env.leaseSeconds).value == RenewedTo(w.db, p, b, env.now + env.leaseSeconds)
    ensures forall files | FileStage(h, p, files, b, 0) ::
              LiveWorld(h, p, World(RenewTx(w.db, p, b, env.now, env.leaseSeconds).value, files), b)
  {
    var db := RenewTx(w.db, p, b, env.now, env.leaseSeconds).value;
    assert OwnRows(h, p, db, b);
  }

  /** Whether an inspection tells if the exact process holds the lock. */
  predicate Tells(probe: Probe) {
    probe.state != Unprovable && probe != Probe(ExactLive, LockUnsafe)
  }

  /** What a whole tick on a live admission ends in, from what it finds: renewed exactly when the
      exact process holds the lock, the worker is active and the lease is an allowed one; fenced
      exactly when not, unless the lock is unsafe, the second inspection tells nothing, or it
      finds the exact process holding the lock, and the first had found no authority lost or
      the three leases still run; and otherwise refused. */
  lemma TickLiveIff(h: Hash, p: Profile, w: World, b: Binding, env: Env, fuel: nat)
    requires LiveWorld(h, p, w, b) && fuel >= FENCE_STEPS
    ensures var out := Tick(h, p, w, env, fuel).out;
            var active := w.db.workers[p.worker].active;
            var exact := Probe(ExactLive, Held);
            && (out == Renewed <==> env.first == exact && active && 30 <= env.leaseSeconds <= 300)
            && (out == Fenced <==>
                && env.first != Probe(ExactLive, LockUnsafe) && !(env.first == exact && active) && Tells(env.second)
                && (env.second == exact ==> (env.first.state == Unprovable || env.first == exact) && !LeasesRun(w.db, p, b, env.now)))
            && (out == Renewed || out == Fenced || out == Rejected)
  {
    DecideExactly(h, p, w, b, env);
    match Decide(h, p, w, env)
    case Hold =>
    case Renew(_) => RenewsWithin(h, p, w, b, env);
    case Fence(f) => WholeFence(h, p, w, f, fuel, Tick(h, p, w, env, fuel));
  }

  lemma DecideExactly(h: Hash, p: Profile, w: World, b: Binding, env: Env)
    requires LiveWorld(h, p, w, b)
    ensures var v := Decide(h, p, w, env);
            && (v == Renew(b) <==> env.first == Probe(ExactLive, Held) && w.db.workers[p.worker].active)
            && (v.Renew? ==> v == Renew(b))
            && (v.Hold? <==> env.first == Probe(ExactLive, LockUnsafe))
            && (v.Fence? ==> v.f.b == b && v.f.env == env
                             && (v.f.authorityLost <==> env.first.state == Unprovable || env.first == Probe(ExactLive, Held)))
  {
    BindingReadable(h, p, w.files, b, 0);
    LeasesJoined(h, p, w.db, b, env.now);
  }

  lemma WholeFence(h: Hash, p: Profile, w: World, f: Fencing, fuel: nat, after: After)
    requires LiveWorld(h, p, w, f.b) && fuel >= FENCE_STEPS && after == FenceFrom(h, p, w, f, 0, fuel)
    ensures after.out == if Tells(f.env.second)
                            && (f.env.second == Probe(ExactLive, Held) ==> f.authorityLost && !LeasesRun(w.db, p, f.b, f.env.now))
                         then Fenced else Rejected
  {
    FenceLive(h, p, w, f, fuel, after);
    RevokeLive(h, p, w.db, f.b, f.env.now, HoldsLock(f.env.second) == Ok(true));
  }

  lemma RenewsWithin(h: Hash, p: Profile, w: World, b: Binding, env: Env)
    requires LiveWorld(h, p, w, b) && w.db.workers[p.worker].active
    ensures RenewTx(w.db, p, b, env.now, env.leaseSeconds).Ok? <==> 30 <= env.leaseSeconds <= 300
  {
  }

  /** The same after the revocation: a whole tick completes the fence exactly unless it still
      reads the live binding and finds the lock unsafe, the second inspection tells nothing, or
      that finds the exact process holding the lock and the first had found no authority lost. */
  lemma TickFencedIff(h: Hash, p: Profile, w: World, b: Binding, j: nat, env: Env, fuel: nat)
    requires FencedWorld(h, p, w, b, j) && fuel >= FENCE_STEPS
    ensures var out := Tick(h, p, w, env, fuel).out;
            var exact := Probe(ExactLive, Held);
            && (out == Fenced <==>
                && (j >= 3 || env.first != Probe(ExactLive, LockUnsafe)) && Tells(env.second)
                && (env.second == exact ==> j >= 3 || env.first.state == Unprovable || env.first == exact))
            && (out == Fenced || out == Rejected)
  {
    BindingReadable(h, p, w.files, b, j);
    var v := Decide(h, p, w, env);
    if v.Fence? { FenceAgain(h, p, w, v.f, j, fuel, Tick(h, p, w, env, fuel)); }
  }

  /** The supervisor never revokes an admission whose exact process holds the runtime
      lock at the rollback's own inspection while all three leases are unexpired. */
  lemma NeverFencesLiveAuthority(h: Hash, p: Profile, w: World, b: Binding, env: Env, fuel: nat)
    requires LiveWorld(h, p, w, b)
    requires env.second == Probe(ExactLive, Held) && LeasesRun(w.db, p, b, env.now)
    ensures LiveWorld(h, p, Tick(h, p, w, env, fuel).w, b)
  {
    TickLive(h, p, w, b, env, fuel);
    DecideLive(h, p, w, b, env);
    var v := Decide(h, p, w, env);
    if v.Fence? {
      RevokeLive(h, p, w.db, b, env.now, true);
      FenceLive(h, p, w, v.f, fuel, Tick(h, p, w, env, fuel));
    }
  }

  /** A tick after the revocation keeps every row and never loses a stage. */
  lemma TickFenced(h: Hash, p: Profile, w: World, b: Binding, j: nat, env: Env, fuel: nat)
    requires FencedWorld(h, p, w, b, j)
    ensures var after := Tick(h, p, w, env, fuel);
            && after.w.db == w.db && after.out != Renewed
            && (after.w == w || FencedWorld(h, p, after.w, b, Max(j, Min(fuel, 5))))
            && (after.out == Fenced ==> FencedWorld(h, p, after.w, b, 5))
            && (after.out == Rejected ==> after.w == w)
  {
    DecideFenced(h, p, w, b, j, env);
    var v := Decide(h, p, w, env);
    if v.Fence? {
      FenceAgain(h, p, w, v.f, j, fuel, Tick(h, p, w, env, fuel));
    }
  }

  /** A tick whose process is gone always completes the fence, from any stage. */
  lemma DeadProcessTick(h: Hash, p: Profile, w: World, b: Binding, env: Env, fuel: nat)
    requires LiveWorld(h, p, w, b) || exists j :: FencedWorld(h, p, w, b, j)
    requires Gone(env.first) && Gone(env.second)
    requires fuel >= FENCE_STEPS
    ensures Tick(h, p, w, env, fuel).out == Fenced && FencedWorld(h, p, Tick(h, p, w, env, fuel).w, b, 5)
  {
    if LiveWorld(h, p, w, b) {
      DecideLive(h, p, w, b, env);
      RevokeLive(h, p, w.db, b, env.now, false);
      FenceLive(h, p, w, Decide(h, p, w, env).f, fuel, Tick(h, p, w, env, fuel));
    } else {
      var j :| FencedWorld(h, p, w, b, j);
      DecideFenced(h, p, w, b, j, env);
      FenceAgain(h, p, w, Decide(h, p, w, env).f, j, fuel, Tick(h, p, w, env, fuel));
    }
  }
}
