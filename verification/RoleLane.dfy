/** The generic Company role lane: preparing and admitting a candidate, renewing it,
    and fencing it through a rollback receipt and a restart intent. */
module RoleLane {
  import opened Outcome
  import opened LaneRecords

  // ------------------------------------------------------------ documents

  function ProfileSha(h: Hash, p: Profile): Sha {
    h(Text(ProfileDoc(p)))
  }

  /** The authority subject covers the whole tuple except the subject fields themselves. */
  function SubjectOf(h: Hash, b: Binding): Sha {
    h(Text(SubjectDoc(b.(subject := ""))))
  }

  /** What `from_mapping` accepts under profile `p`. */
  predicate Fits(p: Profile, b: Binding) {
    && b.process.pid > 1 && b.epoch > 0
    && b.profile == p
    && (b.authority.Initial? <==> b.root == b.id)
  }

  function PointerTo(h: Hash, p: Profile, b: Binding, archived: Bytes): Bytes {
    Line(PointerDoc(ProfileSha(h, p), p.role, p.deployment, b.id, b.epoch, ArchiveFile(b.id, b.epoch), h(archived)))
  }

  function LoadBinding(p: Profile, files: Files): Result<Binding> {
    var doc :- Read(files, BindingFile);
    if doc.BindingDoc? && Fits(p, doc.binding) then Ok(doc.binding) else Refused
  }

  /** The live binding, or the archived one that an exact revoked pointer names. */
  function LoadRollbackBinding(h: Hash, p: Profile, files: Files): Result<Binding> {
    var doc :- Read(files, BindingFile);
    match doc
    case BindingDoc(b) => if Fits(p, b) then Ok(b) else Refused
    case PointerDoc(sha, role, deployment, id, epoch, archive, archiveSha) =>
      var _ :- Check(sha == ProfileSha(h, p) && role == p.role && deployment == p.deployment);
      var archived :- Read(files, archive);
      if && h(files[archive]) == archiveSha && archived.BindingDoc? && Fits(p, archived.binding)
         && archived.binding.id == id && archived.binding.epoch == epoch
      then Ok(archived.binding) else Refused
    case _ => Refused
  }

  function ReceiptOf(h: Hash, p: Profile, b: Binding, archived: Bytes): Receipt {
    var basis := ReceiptBasis(
      p, ProfileSha(h, p), b.id, b.epoch, b.root, b.session, b.release, b.host, b.fence,
      h(Text(BindingDoc(b))), ArchiveFile(b.id, b.epoch), h(archived), SupervisorFenced(b.epoch), None);
    Receipt(basis, h(Text(ReceiptBasisDoc(basis))))
  }

  function LoadReceipt(h: Hash, p: Profile, files: Files, path: Path): Result<Receipt> {
    var doc :- Read(files, path);
    if && doc.ReceiptDoc?
       && doc.receipt.basis.profileSha == ProfileSha(h, p)
       && doc.receipt.basis.profile.role == p.role
       && doc.receipt.basis.profile.deployment == p.deployment
       && doc.receipt.digest == h(Text(ReceiptBasisDoc(doc.receipt.basis)))
    then Ok(doc.receipt) else Refused
  }

  predicate ContinuesBinding(r: ReceiptBasis, b: Binding) {
    && r.profile == b.profile && r.id == b.id && r.epoch == b.epoch && r.root == b.root
    && r.session == b.session && r.release == b.release && r.host == b.host && r.fence == b.fence
  }

  function IntentOf(h: Hash, p: Profile, b: Binding, receipt: Receipt): Intent {
    var basis := IntentBasis(
      p, ProfileSha(h, p), b.root, b.root, b.id, b.epoch, b.epoch + 1, b.release, b.host, b.fence,
      ReceiptFile(b.id, b.epoch), receipt.digest);
    Intent(basis, h(Text(IntentBasisDoc(basis))))
  }

  function LoadIntent(h: Hash, p: Profile, files: Files, path: Path): Result<Intent> {
    var doc :- Read(files, path);
    var _ :- Check(doc.IntentDoc?);
    var i := doc.intent.basis;
    var _ :- Check(
      && i.profileSha == ProfileSha(h, p) && i.profile == p
      && i.nextEpoch == i.priorEpoch + 1
      && doc.intent.digest == h(Text(IntentBasisDoc(i))));
    var receipt :- LoadReceipt(h, p, files, i.receiptPath);
    var r := receipt.basis;
    if && receipt.digest == i.receiptSha && r.root == i.root && r.id == i.prior && r.epoch == i.priorEpoch
       && r.release.packageId == i.release.packageId && r.release.package == i.release.package
       && r.host.identity == i.host.identity
    then Ok(doc.intent) else Refused
  }

  // ----------------------------------------------------- row-level queries

  predicate SameRow(p: Profile, r: Binding, b: Binding) {
    && r.profile.company == p.company && r.profile.role == p.role && r.profile.deployment == p.deployment
    && r.profile.worker == p.worker && r.session == b.session && r.release.packageId == b.release.packageId
    && r.epoch == b.epoch && r.subject == b.subject
  }

  predicate SameLineage(p: Profile, r: Binding, b: Binding) {
    SameRow(p, r, b) && r.root == b.root
  }

  /** The join of admission, session and worker that the supervisor reads. */
  function JoinedLease(db: Db, p: Profile, b: Binding): Option<Lease> {
    if b.id in db.admissions && SameLineage(p, db.admissions[b.id].b, b)
       && db.admissions[b.id].b.session in db.sessions && p.worker in db.workers
       && db.workers[p.worker].company == p.company
    then Some(Lease(db.admissions[b.id], db.sessions[db.admissions[b.id].b.session], db.workers[p.worker]))
    else None
  }

  predicate AuthorityLive(lease: Option<Lease>, now: Time) {
    && lease.Some?
    && lease.value.admission.state == Live && lease.value.admission.lease > now
    && lease.value.session.state == Active && lease.value.session.lease > now
    && lease.value.worker.active && lease.value.worker.lease.Some? && lease.value.worker.lease.value > now
  }

  predicate OwnSession(p: Profile, s: Session) {
    s.company == p.company && s.role == p.role && s.worker == p.worker
  }

  predicate OwnWorker(p: Profile, db: Db) {
    p.worker in db.workers && db.workers[p.worker].company == p.company && db.workers[p.worker].role == p.role
  }

  // ------------------------------------------------ renewal and revocation

  /** Renew admission, session and worker in one transaction, or change nothing. */
  function RenewTx(db: Db, p: Profile, b: Binding, now: Time, seconds: int): Result<Db> {
    var _ :- Check(30 <= seconds <= 300);
    var expires := now + seconds;
    var _ :- Check(
      && b.session in db.sessions && OwnSession(p, db.sessions[b.session])
      && db.sessions[b.session].state == Active && db.sessions[b.session].token == b.token
      && OwnWorker(p, db) && db.workers[p.worker].active && db.workers[p.worker].token == Some(b.token)
      && b.id in db.admissions && db.admissions[b.id].state == Live);
    var row := db.admissions[b.id];
    var _ :- Check(
      && row.b.profile.company == p.company && row.b.profile.role == p.role
      && row.b.profile.deployment == p.deployment && row.b.profile.worker == p.worker
      && row.b.session == b.session && row.b.release.packageId == b.release.packageId
      && row.b.token == b.token && row.b.subject == b.subject);
    Ok(db.(
      admissions := db.admissions[b.id := row.(lease := expires)],
      sessions := db.sessions[b.session := db.sessions[b.session].(lease := expires)],
      workers := db.workers[p.worker := db.workers[p.worker].(lease := Some(expires))]))
  }

  function RevokeRow(db: Db, p: Profile, b: Binding): Result<Db> {
    var _ :- Check(b.id in db.admissions);
    var row := db.admissions[b.id];
    if SameLineage(p, row.b, b) && row.b.profile.mandate == p.mandate && row.state == Live then
      Ok(db.(admissions := db.admissions[b.id := row.(state := Revoked)]))
    else if SameRow(p, row.b, b) && row.state == Revoked then Ok(db)
    else Refused
  }

  function EndSession(db: Db, p: Profile, b: Binding, now: Time): Result<Db> {
    var _ :- Check(b.session in db.sessions && OwnSession(p, db.sessions[b.session]));
    var s := db.sessions[b.session];
    if s.state == Active && s.token == b.token then
      Ok(db.(sessions := db.sessions[b.session := s.(state := Ended, endedAt := if s.endedAt.Some? then s.endedAt else Some(now))]))
    else if s.state == Ended then Ok(db)
    else Refused
  }

  function ClearWorker(db: Db, p: Profile, token: Uuid): Db {
    if OwnWorker(p, db) && db.workers[p.worker].token == Some(token) then
      db.(workers := db.workers[p.worker := db.workers[p.worker].(token := None, lease := None)])
    else db
  }

  /** The rollback transaction: all of it commits, or none. */
  function RevokeTx(db: Db, p: Profile, b: Binding, now: Time, holdsLock: bool): Result<Db> {
    var _ :- Check(!(holdsLock && AuthorityLive(JoinedLease(db, p, b), now)));
    var revoked :- RevokeRow(db, p, b);
    var ended :- EndSession(revoked, p, b, now);
    var cleared := ClearWorker(ended, p, b.token);
    if && OwnWorker(p, cleared) && cleared.workers[p.worker].token.None? && cleared.workers[p.worker].lease.None?
       && NoLive(cleared, p.company, p.role)
    then Ok(cleared) else Refused
  }

  // -------------------------------------------------------- supervisor tick

  /** `first` answers the tick's own inspection, `second` the one inside the rollback. */
  datatype Env = Env(now: Time, first: Probe, second: Probe, leaseSeconds: int)

  datatype Fencing = Fencing(b: Binding, seen: string, authorityLost: bool, env: Env)

  datatype Verdict = Renew(b: Binding) | Fence(f: Fencing) | Hold

  /** The reading half of a tick: which of the three outcomes it goes for. */
  function Decide(h: Hash, p: Profile, w: World, env: Env): Verdict {
    var live := LoadBinding(p, w.files);
    if live.Refused? || env.first.state == Unprovable then
      match LoadRollbackBinding(h, p, w.files)
      case Ok(b) => Fence(Fencing(b, "revoked", true, env))
      case Refused => Hold
    else if env.first.state != ExactLive then
      Fence(Fencing(live.value, Label(env.first.state), false, env))
    else if env.first.lock == LockUnsafe then Hold
    else if env.first.lock == Unheld then
      Fence(Fencing(live.value, "runtime_lock_unheld", false, env))
    else if LineageBroken(JoinedLease(w.db, p, live.value)) then
      Fence(Fencing(live.value, "lease_or_lineage_stale", true, env))
    else Renew(live.value)
  }

  /** Whether the exact bound process holds the runtime lock, when that can be told. */
  function HoldsLock(probe: Probe): Result<bool> {
    match probe.state
    case Unprovable => Refused
    case ExactLive => if probe.lock == LockUnsafe then Refused else Ok(probe.lock == Held)
    case _ => Ok(false)
  }

  function RevokeStep(p: Profile, w: World, f: Fencing): Result<World> {
    var holds :- HoldsLock(f.env.second);
    var _ :- Check(!(holds && !f.authorityLost));
    var db :- RevokeTx(w.db, p, f.b, f.env.now, holds);
    Ok(w.(db := db))
  }

  function ArchiveStep(w: World, b: Binding): Result<World> {
    var path := ArchiveFile(b.id, b.epoch);
    if path in w.files then
      if w.files[path] == Stored(b) then Ok(w) else Refused
    else if BindingFile in w.files && w.files[BindingFile] == Stored(b) then
      Ok(w.(files := w.files[path := Stored(b)]))
    else Refused  // a pointer without its archive, or another binding
  }

  function PointerStep(h: Hash, p: Profile, w: World, b: Binding): Result<World> {
    var path := ArchiveFile(b.id, b.epoch);
    if path !in w.files then Refused
    else Ok(w.(files := w.files[BindingFile := PointerTo(h, p, b, w.files[path])]))
  }

  function ReceiptStep(h: Hash, p: Profile, w: World, b: Binding): Result<World> {
    var archive := ArchiveFile(b.id, b.epoch);
    var path := ReceiptFile(b.id, b.epoch);
    var _ :- Check(archive in w.files);
    var receipt := ReceiptOf(h, p, b, w.files[archive]);
    if path !in w.files then Ok(w.(files := w.files[path := Line(ReceiptDoc(receipt))]))
    else if LoadReceipt(h, p, w.files, path) == Ok(receipt) then Ok(w)
    else Refused
  }

  function IntentStep(h: Hash, p: Profile, w: World, b: Binding): Result<World> {
    var receipt :- LoadReceipt(h, p, w.files, ReceiptFile(b.id, b.epoch));
    var _ :- Check(ContinuesBinding(receipt.basis, b));
    var path := IntentFile(b.epoch + 1);
    var intent := IntentOf(h, p, b, receipt);
    var files :- WriteOnce(w.files, path, Line(IntentDoc(intent)));
    if LoadIntent(h, p, files, path) == Ok(intent) then Ok(w.(files := files)) else Refused
  }

  function RequestStep(h: Hash, p: Profile, w: World, f: Fencing): Result<World> {
    var receipt :- LoadReceipt(h, p, w.files, ReceiptFile(f.b.id, f.b.epoch));
    var intent :- LoadIntent(h, p, w.files, IntentFile(f.b.epoch + 1));
    Ok(w.(files := w.files[RequestFile := Line(RequestDoc(
      Awaiting, f.b.root, f.b.id, f.b.epoch, f.b.epoch + 1, ReceiptFile(f.b.id, f.b.epoch), receipt.digest,
      IntentFile(f.b.epoch + 1), intent.digest, f.seen))]))
  }

  function BeatStep(w: World, action: string, b: Binding, seen: string): World {
    w.(files := w.files[HeartbeatFile := Line(HeartbeatDoc(action, b.id, b.epoch, seen))])
  }

  /** Step `i` of a fence: one transaction, then one private file at a time. */
  function FenceStep(h: Hash, p: Profile, w: World, f: Fencing, i: nat): Result<World> {
    match i
    case 0 => RevokeStep(p, w, f)
    case 1 => ArchiveStep(w, f.b)
    case 2 => PointerStep(h, p, w, f.b)
    case 3 => ReceiptStep(h, p, w, f.b)
    case 4 => IntentStep(h, p, w, f.b)
    case 5 => RequestStep(h, p, w, f)
    case _ => Ok(BeatStep(w, "revoked-awaiting-restart", f.b, f.seen))
  }

  const FENCE_STEPS := 7

  /** Run the fence from step `i`; the process dies after `fuel` more steps. */
  function FenceFrom(h: Hash, p: Profile, w: World, f: Fencing, i: nat, fuel: nat): After
    requires i <= FENCE_STEPS
    decreases FENCE_STEPS - i, fuel
  {
    if i == FENCE_STEPS then After(w, Fenced)
    else if fuel == 0 then After(w, Crashed)
    else match FenceStep(h, p, w, f, i)
         case Refused => After(w, Rejected)
         case Ok(next) => FenceFrom(h, p, next, f, i + 1, fuel - 1)
  }

  /** One supervisor tick that dies after `fuel` steps, if it has not ended by then. */
  function Tick(h: Hash, p: Profile, w: World, env: Env, fuel: nat): After {
    match Decide(h, p, w, env)
    case Hold => After(w, Rejected)
    case Fence(f) => FenceFrom(h, p, w, f, 0, fuel)
    case Renew(b) =>
      if fuel == 0 then After(w, Crashed)
      else match RenewTx(w.db, p, b, env.now, env.leaseSeconds)
           case Refused => After(w, Rejected)
           case Ok(db) =>
             if fuel == 1 then After(w.(db := db), Crashed)
             else After(BeatStep(w.(db := db), "exact_live", b, "exact_live"), Renewed)
  }

  // --------------------------------------------------- prepare and admit

  predicate Stale(p: Profile, s: Session, now: Time) {
    OwnSession(p, s) && s.state == Active && s.lease <= now
  }

  function EndedSessions(sessions: map<Uuid, Session>, p: Profile, now: Time): map<Uuid, Session> {
    map id | id in sessions ::
      if Stale(p, sessions[id], now) then
        sessions[id].(state := Ended, endedAt := if sessions[id].endedAt.Some? then sessions[id].endedAt else Some(now))
      else sessions[id]
  }

  function EndStale(db: Db, p: Profile, now: Time): Db {
    var sessions := EndedSessions(db.sessions, p, now);
    var lapsed := OwnWorker(p, db) && exists id | id in db.sessions ::
      Stale(p, db.sessions[id], now) && db.workers[p.worker].token == Some(db.sessions[id].token);
    if lapsed then
      db.(sessions := sessions, workers := db.workers[p.worker := db.workers[p.worker].(token := None, lease := None)])
    else db.(sessions := sessions)
  }

  function OpenSession(db: Db, p: Profile, ids: Fresh, expires: Time): Result<Db> {
    var _ :- Check(OwnWorker(p, db) && db.workers[p.worker].active && db.workers[p.worker].manifestActive);
    var worker := db.workers[p.worker];
    Ok(db.(
      sessions := db.sessions[ids.session := Session(p.company, p.role, p.worker, worker.agent, ids.token, Active, expires, None)],
      workers := db.workers[p.worker := worker.(token := Some(ids.token), lease := Some(expires))]))
  }

  /** The mandate row that lets an activation subject be registered. */
  predicate MandateRegistrable(p: Profile, db: Db) {
    && p.mandate.id in db.mandates && db.mandates[p.mandate.id].artifact == p.mandate.artifact
    && db.mandates[p.mandate.id].status == MandateActive && db.mandates[p.mandate.id].verified
  }

  function Candidate(h: Hash, p: Profile, ids: Fresh, release: Release, req: Request, epoch: int,
                     expires: Time, fence: Sha, root: Uuid, authority: Authority): Binding {
    var b := Binding(p, ids.admission, ids.session, ids.token, epoch, expires, release, req.host, req.process,
                     fence, ids.admission, "", root, authority);
    b.(subject := SubjectOf(h, b))
  }

  predicate InstalledFor(p: Profile, pk: Package) {
    pk.installed && pk.company == p.company && pk.role == p.role && pk.deployment == p.deployment
  }

  /** `package` and `previous` are what the two queries return: the one installed
      package and the highest epoch so far. */
  function PrepareInitial(h: Hash, p: Profile, w: World, req: Request, fence: Sha, package: Uuid, previous: int,
                          ids: Fresh, now: Time, seconds: int): Result<(World, Binding)> {
    var db := w.db;
    var _ :- Check(30 <= seconds <= 300 && req.profileSha == ProfileSha(h, p));
    var _ :- Check(OwnWorker(p, db) && db.workers[p.worker].active && db.workers[p.worker].manifestActive);
    var _ :- Check(
      && package in db.packages
      && forall id | id in db.packages :: InstalledFor(p, db.packages[id]) <==> id == package);
    var pk := db.packages[package];
    var _ :- Check(pk.commit == req.commit && pk.tree == req.tree);
    var _ :- Check(
      && NoLive(db, p.company, p.role)
      && forall id | id in db.sessions :: OwnSession(p, db.sessions[id]) && db.sessions[id].state == Active
                                          ==> db.sessions[id].lease <= now);
    var begun :- OpenSession(EndStale(db, p, now), p, ids, now + seconds);
    var _ :- Check(MandateRegistrable(p, begun));
    var release := Release(package, pk.sha, db.workers[p.worker].agent, pk.kernel, pk.commit, pk.tree);
    Ok((w.(db := begun),
        Candidate(h, p, ids, release, req, previous + 1, now + seconds, fence, ids.admission, Initial)))
  }

  predicate Unchanged(i: IntentBasis, req: Request, p: Profile, h: Hash) {
    && req.profileSha == ProfileSha(h, p) && i.release.commit == req.commit && i.release.tree == req.tree
    && i.host == req.host
  }

  /** Every equality the recovery repeats against the database. */
  predicate StaticExact(db: Db, p: Profile, i: IntentBasis, req: Request) {
    && p.mandate.id in db.mandates && db.mandates[p.mandate.id].artifact == p.mandate.artifact
    && db.mandates[p.mandate.id].status != MandateWithdrawn
    && i.root in db.admissions && i.prior in db.admissions
    && var root := db.admissions[i.root].b;
       var prior := db.admissions[i.prior];
       && root.profile.company == p.company && root.profile.role == p.role
       && root.profile.deployment == p.deployment && root.profile.worker == p.worker
       && root.authority.Initial? && root.root == i.root && root.approval == i.approval
       && prior.b.profile.company == p.company && prior.b.profile.role == p.role
       && prior.b.profile.deployment == p.deployment && prior.b.profile.worker == p.worker
       && prior.state == Revoked && prior.b.session in db.sessions && db.sessions[prior.b.session].state == Ended
       && prior.b.root == i.root && prior.b.epoch + 1 == i.nextEpoch && prior.b.release == i.release
       && prior.b.release.commit == req.commit && prior.b.release.tree == req.tree
       && prior.b.host.identity == req.host.identity
       && i.release.packageId in db.packages
       && var pk := db.packages[i.release.packageId];
          && InstalledFor(p, pk) && pk.sha == i.release.package && pk.kernel == i.release.kernel
          && pk.commit == req.commit && pk.tree == req.tree
          && OwnWorker(p, db) && db.workers[p.worker].active && db.workers[p.worker].agent == i.release.agent
          && NoLive(db, p.company, p.role)
  }

  /** An open recovery is handed out again only to the same request, within its lease. */
  predicate Reusable(db: Db, r: Recovery, req: Request, intent: Sha, now: Time) {
    && r.request == req && r.candidate.authority.Recovered? && r.candidate.authority.intent == intent
    && r.candidate.session in db.sessions && db.sessions[r.candidate.session].state == Active
    && r.candidate.leaseExpires > now
    && (r.state == Prepared
        || (r.candidate.id in db.admissions && db.admissions[r.candidate.id].state == Live))
  }

  function PrepareRecovery(h: Hash, p: Profile, w: World, req: Request, path: Path,
                           ids: Fresh, now: Time, seconds: int): Result<(World, Binding)> {
    var _ :- Check(30 <= seconds <= 300);
    var intent :- LoadIntent(h, p, w.files, path);
    var i := intent.basis;
    var _ :- Check(Unchanged(i, req, p, h));
    if i.prior in w.db.open then
      if Reusable(w.db, w.db.open[i.prior], req, intent.digest, now) && Fits(p, w.db.open[i.prior].candidate)
      then Ok((w, w.db.open[i.prior].candidate)) else Refused
    else
      var _ :- Check(StaticExact(w.db, p, i, req));
      var begun :- OpenSession(EndStale(w.db, p, now), p, ids, now + seconds);
      var _ :- Check(MandateRegistrable(p, begun));
      var c := Candidate(h, p, ids, i.release, req, i.nextEpoch, now + seconds, i.fence, i.root,
                         Recovered(i.prior, ids.intentRow, i.receiptSha, intent.digest));
      Ok((w.(db := begun.(open := begun.open[i.prior := Recovery(c, req, Prepared)])), c))
  }

  predicate SameLaunch(p: Profile, h: Hash, req: Request, c: Binding) {
    && req.profileSha == ProfileSha(h, p) && req.process == c.process && req.commit == c.release.commit
    && req.tree == c.release.tree && req.host == c.host
  }

  /** What the insert triggers demand of a new live row. */
  predicate Insertable(db: Db, p: Profile, c: Binding, now: Time) {
    && c.id !in db.admissions
    && c.session in db.sessions && db.sessions[c.session].state == Active && db.sessions[c.session].token == c.token
    && c.leaseExpires > now
    && NoLive(db, p.company, p.role)
    && (c.authority.Recovered? ==>
        && c.authority.prior in db.open && db.open[c.authority.prior].candidate == c
        && db.open[c.authority.prior].state == Prepared)
  }

  /** Insert the live row and consume the recovery it came from. */
  function AdmitTx(h: Hash, p: Profile, db: Db, req: Request, c: Binding, now: Time): Result<Db> {
    var _ :- Check(SameLaunch(p, h, req, c) && c.profile == p && c.subject == SubjectOf(h, c));
    var _ :- Check(Insertable(db, p, c, now));
    var open := if c.authority.Recovered?
                then db.open[c.authority.prior := db.open[c.authority.prior].(state := Consumed)] else db.open;
    Ok(db.(admissions := db.admissions[c.id := Admission(c, Live, c.leaseExpires)], open := open))
  }

  /** Admission: the insert, then the local binding file. */
  function Admit(h: Hash, p: Profile, w: World, req: Request, c: Binding, now: Time, fuel: nat): After {
    if fuel == 0 then After(w, Crashed)
    else match AdmitTx(h, p, w.db, req, c, now)
         case Refused => After(w, Rejected)
         case Ok(db) =>
           if fuel == 1 then After(w.(db := db), Crashed)
           else After(World(db, w.files[BindingFile := Stored(c)]), Renewed)
  }
}
