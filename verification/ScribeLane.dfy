/** The Scribe lane: the same epochs as a role lane, with its own rollback, receipts,
    candidate abandonment and idempotent admission. */
module ScribeLane {
  import opened Outcome
  import opened LaneRecords

  /** The company and deployment the Scribe is configured for. */
  datatype Site = Site(company: string, deployment: string)

  const SCRIBE := "scribe"

  // ------------------------------------------------------------ documents

  /** The activation subject covers the tuple except the subject itself, the lease token,
      the fence receipt and the mandate's artifact digest. */
  function SubjectOf(h: Hash, b: Binding): Sha {
    h(Text(SubjectDoc(b.(subject := "", token := 0, fence := "",
                         profile := b.profile.(mandate := b.profile.mandate.(artifact := ""))))))
  }

  predicate Fits(h: Hash, s: Site, b: Binding) {
    && b.process.pid > 1 && b.epoch > 0
    && b.profile.company == s.company && b.profile.deployment == s.deployment && b.profile.role == SCRIBE
    && (b.authority.Initial? <==> b.root == b.id)
    && b.subject == SubjectOf(h, b)
  }

  function PointerTo(h: Hash, b: Binding, archived: Bytes): Bytes {
    Line(ScribePointerDoc(b.id, b.epoch, ArchiveFile(b.id, b.epoch), h(archived)))
  }

  function LoadBinding(h: Hash, s: Site, files: Files): Result<Binding> {
    var doc :- Read(files, BindingFile);
    if doc.BindingDoc? && Fits(h, s, doc.binding) then Ok(doc.binding) else Refused
  }

  function LoadRollbackBinding(h: Hash, s: Site, files: Files): Result<Binding> {
    var doc :- Read(files, BindingFile);
    match doc
    case BindingDoc(b) => if Fits(h, s, b) then Ok(b) else Refused
    case ScribePointerDoc(id, epoch, archive, archiveSha) =>
      var archived :- Read(files, archive);
      if && h(files[archive]) == archiveSha && archived.BindingDoc? && Fits(h, s, archived.binding)
         && archived.binding.id == id && archived.binding.epoch == epoch
      then Ok(archived.binding) else Refused
    case _ => Refused
  }

  predicate ExactDigest(h: Hash, r: Receipt) {
    r.basis.closure.Some? && r.digest == h(Text(ReceiptBasisDoc(r.basis)))
  }

  function LoadReceipt(h: Hash, files: Files, path: Path): Result<Receipt> {
    var doc :- Read(files, path);
    if doc.ReceiptDoc? && ExactDigest(h, doc.receipt) then Ok(doc.receipt) else Refused
  }

  function ReceiptOf(h: Hash, b: Binding, archived: Bytes, closure: Closure): Receipt {
    var basis := ReceiptBasis(
      b.profile, "", b.id, b.epoch, b.root, b.session, b.release, b.host, b.fence,
      h(Text(BindingDoc(b))), ArchiveFile(b.id, b.epoch), h(archived), SupervisorFenced(b.epoch), Some(closure));
    Receipt(basis, h(Text(ReceiptBasisDoc(basis))))
  }

  /** An existing receipt is taken over only if it names this binding and this reason. */
  predicate ReceiptNames(h: Hash, r: Receipt, b: Binding) {
    && ExactDigest(h, r) && r.basis.id == b.id && r.basis.epoch == b.epoch
    && r.basis.bindingSha == h(Text(BindingDoc(b))) && r.basis.reason == SupervisorFenced(b.epoch)
  }

  predicate ContinuesBinding(r: ReceiptBasis, b: Binding) {
    && r.profile == b.profile && r.id == b.id && r.epoch == b.epoch && r.root == b.root && r.session == b.session
    && r.release.packageId == b.release.packageId && r.release.package == b.release.package
    && r.release.kernel == b.release.kernel && r.release.commit == b.release.commit && r.release.tree == b.release.tree
    && r.host.identity == b.host.identity && r.fence == b.fence
    && r.closure.Some? && r.closure.value.approval == b.approval
  }

  function IntentOf(h: Hash, b: Binding, receipt: Receipt): Intent {
    var basis := IntentBasis(
      b.profile, "", b.root, b.approval, b.id, b.epoch, b.epoch + 1, b.release, b.host, b.fence,
      ReceiptFile(b.id, b.epoch), receipt.digest);
    Intent(basis, h(Text(IntentBasisDoc(basis))))
  }

  function LoadIntent(h: Hash, s: Site, files: Files, path: Path): Result<Intent> {
    var doc :- Read(files, path);
    var _ :- Check(doc.IntentDoc?);
    var i := doc.intent.basis;
    var _ :- Check(
      && i.profile.company == s.company && i.profile.deployment == s.deployment
      && i.nextEpoch == i.priorEpoch + 1
      && doc.intent.digest == h(Text(IntentBasisDoc(i))));
    var receipt :- LoadReceipt(h, files, i.receiptPath);
    var r := receipt.basis;
    if && receipt.digest == i.receiptSha && r.profile == i.profile && r.root == i.root
       && r.closure.value.approval == i.approval && r.id == i.prior && r.epoch == i.priorEpoch
       && r.release == i.release && r.host == i.host && r.fence == i.fence
    then Ok(doc.intent) else Refused
  }

  // ----------------------------------------------------- row-level queries

  function JoinedLease(db: Db, b: Binding): Option<Lease> {
    if b.id in db.admissions && db.admissions[b.id].b.profile.company == b.profile.company
       && db.admissions[b.id].b.session in db.sessions
       && db.admissions[b.id].b.profile.worker in db.workers
       && db.workers[db.admissions[b.id].b.profile.worker].company == b.profile.company
    then Some(Lease(db.admissions[b.id], db.sessions[db.admissions[b.id].b.session],
                    db.workers[db.admissions[b.id].b.profile.worker]))
    else None
  }

  predicate IsScribe(s: Site, b: Binding) {
    b.profile.company == s.company && b.profile.role == SCRIBE
  }

  /** What the lookups of the live row, and then of the latest revoked one, return. */
  datatype Lookup = NoRow | Row(id: Uuid) | Duplicate

  ghost predicate Answers(s: Site, db: Db, found: Lookup) {
    match found
    case NoRow => forall k | k in db.admissions :: !IsScribe(s, db.admissions[k].b)
    case Row(id) =>
      && id in db.admissions && IsScribe(s, db.admissions[id].b)
      && (forall k | k in db.admissions && k != id && IsScribe(s, db.admissions[k].b) :: db.admissions[k].state != Live)
      && (db.admissions[id].state == Live ||
          forall k | k in db.admissions && IsScribe(s, db.admissions[k].b) :: db.admissions[k].b.epoch <= db.admissions[id].b.epoch)
    case Duplicate =>
      exists k, l | k in db.admissions && l in db.admissions :: k != l
        && IsScribe(s, db.admissions[k].b) && db.admissions[k].state == Live
        && IsScribe(s, db.admissions[l].b) && db.admissions[l].state == Live
  }

  predicate OwnSession(b: Binding, row: Session) {
    && row.company == b.profile.company && row.worker == b.profile.worker && row.role == SCRIBE
    && row.agent == b.release.agent && row.token == b.token
  }

  predicate OwnWorker(b: Binding, db: Db) {
    && b.profile.worker in db.workers && db.workers[b.profile.worker].company == b.profile.company
    && db.workers[b.profile.worker].role == SCRIBE
  }

  // ------------------------------------------------ renewal and revocation

  function RenewTx(db: Db, b: Binding, now: Time, seconds: int): Result<Db> {
    var _ :- Check(30 <= seconds <= 300);
    var expires := now + seconds;
    var _ :- Check(
      && b.session in db.sessions && OwnSession(b, db.sessions[b.session]) && db.sessions[b.session].state == Active
      && OwnWorker(b, db) && db.workers[b.profile.worker].active && db.workers[b.profile.worker].token == Some(b.token)
      && b.id in db.admissions && db.admissions[b.id].state == Live);
    var row := db.admissions[b.id];
    var _ :- Check(
      && row.b.profile.company == b.profile.company && row.b.profile.deployment == b.profile.deployment
      && row.b.profile.worker == b.profile.worker && row.b.session == b.session
      && row.b.process.pid == b.process.pid && row.b.process.start == b.process.start
      && row.b.epoch == b.epoch && row.b.subject == b.subject && row.b.token == b.token);
    Ok(db.(
      admissions := db.admissions[b.id := row.(lease := expires)],
      sessions := db.sessions[b.session := db.sessions[b.session].(lease := expires)],
      workers := db.workers[b.profile.worker := db.workers[b.profile.worker].(lease := Some(expires))]))
  }

  /** Close exactly the bound admission; a closed one must be this one. */
  function CloseAdmission(db: Db, b: Binding): Result<Db> {
    var _ :- Check(b.id in db.admissions && db.admissions[b.id].b.profile.company == b.profile.company);
    var row := db.admissions[b.id];
    if row.b.(leaseExpires := b.leaseExpires, profile := row.b.profile.(role := b.profile.role)) == b && row.state == Live then
      Ok(db.(admissions := db.admissions[b.id := row.(state := Revoked)]))
    else if row.state == Revoked && row.b.epoch == b.epoch && row.b.process.pid == b.process.pid && row.b.subject == b.subject then
      Ok(db)
    else Refused
  }

  /** End exactly the bound session, and take the worker's lease only if it is this session's. */
  function EndBoundSession(db: Db, b: Binding): Result<Db> {
    var _ :- Check(b.session in db.sessions && db.sessions[b.session].company == b.profile.company);
    var row := db.sessions[b.session];
    var _ :- Check(
      || (OwnSession(b, row) && row.state == Active)
      || (row.state == Ended && row.worker == b.profile.worker && row.token == b.token));
    var ended := db.(sessions := db.sessions[b.session := row.(state := Ended)]);
    if OwnWorker(b, ended) && ended.workers[b.profile.worker].token == Some(b.token) then
      Ok(ended.(workers := ended.workers[b.profile.worker := ended.workers[b.profile.worker].(token := None, lease := None)]))
    else Ok(ended)
  }

  function RevokeTx(db: Db, b: Binding): Result<Db> {
    var closed :- CloseAdmission(db, b);
    EndBoundSession(closed, b)
  }

  // -------------------------------------------------------- supervisor tick

  /** `probe` answers the tick's inspection, `after` the one made beside an existing
      receipt, and `quiescence` says how the bound process was stopped, if it was. */
  datatype Env = Env(now: Time, probe: Probe, after: Probe, found: Lookup, quiescence: Option<string>,
                     snapshot: Sha, leaseSeconds: int)

  datatype Fencing = Fencing(b: Binding, seen: string, env: Env)

  predicate ClosedRows(s: Site, db: Db, b: Binding) {
    && b.id in db.admissions && db.admissions[b.id].b.profile.company == b.profile.company
    && db.admissions[b.id].state == Revoked
    && NoLive(db, s.company, SCRIBE)
  }

  /** Either take over an existing receipt, or revoke the rows. */
  function RevokeStep(h: Hash, s: Site, w: World, f: Fencing): Result<World> {
    var path := ReceiptFile(f.b.id, f.b.epoch);
    if path in w.files then
      var doc :- Read(w.files, path);
      if doc.ReceiptDoc? && ReceiptNames(h, doc.receipt, f.b) then Ok(w) else Refused
    else
      var db :- RevokeTx(w.db, f.b);
      Ok(w.(db := db))
  }

  /** Stop the bound process, unless a receipt already records that it was stopped. */
  function QuiesceStep(w: World, f: Fencing): Result<World> {
    if ReceiptFile(f.b.id, f.b.epoch) in w.files || f.env.quiescence.Some? then Ok(w) else Refused
  }

  predicate IsPointer(bytes: Bytes) {
    Parse(bytes).Some? && Parse(bytes).value.ScribePointerDoc?
  }

  /** Archive the stored bytes: the exact canonical ones, or a predecessor's bytes that
      denote this binding. */
  function ArchiveStep(h: Hash, w: World, b: Binding): Result<World> {
    var archive := ArchiveFile(b.id, b.epoch);
    if BindingFile !in w.files then
      if archive in w.files && w.files[archive] == Stored(b) then Ok(w) else Refused
    else if IsPointer(w.files[BindingFile]) then
      if archive in w.files && w.files[archive] == Stored(b)
         && Parse(w.files[BindingFile]) == Parse(PointerTo(h, b, w.files[archive])) then Ok(w) else Refused
    else if w.files[BindingFile] == Stored(b) || Parse(w.files[BindingFile]) == Some(BindingDoc(b)) then
      var files :- WriteOnce(w.files, archive, w.files[BindingFile]);
      Ok(w.(files := files))
    else Refused
  }

  function PointerStep(h: Hash, w: World, b: Binding): Result<World> {
    var archive := ArchiveFile(b.id, b.epoch);
    var _ :- Check(archive in w.files);
    if BindingFile in w.files && IsPointer(w.files[BindingFile]) then Ok(w)
    else Ok(w.(files := w.files[BindingFile := PointerTo(h, b, w.files[archive])]))
  }

  /** Write the receipt once the rows are seen closed; beside an existing one, see that the
      rows and the process are still as it says. */
  function ReceiptStep(h: Hash, s: Site, w: World, f: Fencing): Result<World> {
    var b := f.b;
    var path := ReceiptFile(b.id, b.epoch);
    var _ :- Check(ClosedRows(s, w.db, b) && b.session in w.db.sessions);
    var session := w.db.sessions[b.session];
    if path in w.files then
      var _ :- Check(session.company == b.profile.company && session.state == Ended);
      if f.env.after.state != ExactLive && f.env.after.state != Unprovable then Ok(w) else Refused
    else
      var archive := ArchiveFile(b.id, b.epoch);
      var _ :- Check(archive in w.files && w.db.admissions[b.id].b.epoch == b.epoch && f.env.quiescence.Some?);
      var closure := Closure(b.approval, b.process, session.endedAt, f.env.snapshot, f.env.quiescence.value);
      Ok(w.(files := w.files[path := Line(ReceiptDoc(ReceiptOf(h, b, w.files[archive], closure)))]))
  }

  function IntentStep(h: Hash, s: Site, w: World, b: Binding): Result<World> {
    var receipt :- LoadReceipt(h, w.files, ReceiptFile(b.id, b.epoch));
    var _ :- Check(ContinuesBinding(receipt.basis, b));
    var path := IntentFile(b.epoch + 1);
    var intent := IntentOf(h, b, receipt);
    var files :- WriteOnce(w.files, path, Line(IntentDoc(intent)));
    if LoadIntent(h, s, files, path) == Ok(intent) then Ok(w.(files := files)) else Refused
  }

  function RequestStep(h: Hash, s: Site, w: World, b: Binding): Result<World> {
    var receipt :- LoadReceipt(h, w.files, ReceiptFile(b.id, b.epoch));
    var intent :- LoadIntent(h, s, w.files, IntentFile(b.epoch + 1));
    Ok(w.(files := w.files[RequestFile := Line(RequestDoc(
      Awaiting, b.root, b.id, b.epoch, b.epoch + 1, ReceiptFile(b.id, b.epoch), receipt.digest,
      IntentFile(b.epoch + 1), intent.digest, ""))]))
  }

  function Beat(w: World, action: string, id: Uuid, epoch: int, seen: string): World {
    w.(files := w.files[HeartbeatFile := Line(HeartbeatDoc(action, id, epoch, seen))])
  }

  function FenceStep(h: Hash, s: Site, w: World, f: Fencing, i: nat): Result<World> {
    match i
    case 0 => RevokeStep(h, s, w, f)
    case 1 => QuiesceStep(w, f)
    case 2 => ArchiveStep(h, w, f.b)
    case 3 => PointerStep(h, w, f.b)
    case 4 => ReceiptStep(h, s, w, f)
    case 5 => IntentStep(h, s, w, f.b)
    case 6 => RequestStep(h, s, w, f.b)
    case _ => Ok(Beat(w, "revoked-awaiting-restart", f.b.id, f.b.epoch, f.seen))
  }

  const FENCE_STEPS := 8

  /** Run the fence from step `i`; the process dies after `fuel` more steps. */
  function FenceFrom(h: Hash, s: Site, w: World, f: Fencing, i: nat, fuel: nat): After
    requires i <= FENCE_STEPS
    decreases FENCE_STEPS - i, fuel
  {
    if i == FENCE_STEPS then After(w, Fenced)
    else if fuel == 0 then After(w, Crashed)
    else match FenceStep(h, s, w, f, i)
         case Refused => After(w, Rejected)
         case Ok(next) => FenceFrom(h, s, next, f, i + 1, fuel - 1)
  }

  // ------------------------------------------------- the restart epoch receipt

  function LoadRestartReceipt(h: Hash, files: Files, path: Path): Result<(RestartBasis, Sha)> {
    var doc :- Read(files, path);
    if && doc.RestartDoc? && doc.restartSha == h(Text(RestartBasisDoc(doc.restart)))
       && doc.restart.epoch == doc.restart.priorEpoch + 1
    then Ok((doc.restart, doc.restartSha)) else Refused
  }

  /** The restart request, if there is one, with its intent and receipt still exact. */
  function LoadRequest(h: Hash, s: Site, files: Files): Result<Option<Doc>> {
    if RequestFile !in files then Ok(None)
    else
      var r :- Read(files, RequestFile);
      var _ :- Check(r.RequestDoc? && r.nextEpoch == r.priorEpoch + 1);
      var intent :- LoadIntent(h, s, files, r.intentPath);
      var i := intent.basis;
      var _ :- Check(
        && intent.digest == r.intentSha && i.receiptSha == r.receiptSha && i.root == r.root
        && i.prior == r.prior && i.priorEpoch == r.priorEpoch && i.nextEpoch == r.nextEpoch);
      match r.state
      case Awaiting => Ok(Some(r))
      case Completed(path, sha) =>
        var done :- LoadRestartReceipt(h, files, path);
        if && done.1 == sha && done.0.receiptSha == r.receiptSha && done.0.root == r.root && done.0.prior == r.prior
           && done.0.priorEpoch == r.priorEpoch && done.0.epoch == r.nextEpoch && done.0.intent == r.intentSha
        then Ok(Some(r)) else Refused
  }

  predicate ContinuesEpoch(prior: Receipt, c: Binding) {
    var r := prior.basis;
    && c.authority.Recovered? && r.profile == c.profile && r.release.packageId == c.release.packageId
    && r.release.package == c.release.package && r.release.kernel == c.release.kernel
    && r.release.commit == c.release.commit && r.release.tree == c.release.tree
    && r.host.identity == c.host.identity && r.root == c.root
    && r.closure.Some? && r.closure.value.approval == c.approval && r.fence == c.fence
    && r.id == c.authority.prior && prior.digest == c.authority.receipt && r.epoch + 1 == c.epoch
  }

  predicate MandateStands(db: Db, m: Mandate) {
    && m.id in db.mandates && db.mandates[m.id].artifact == m.artifact
    && (db.mandates[m.id].status == MandateActive
        || (db.mandates[m.id].status == MandateCompleted && db.mandates[m.id].verified))
  }

  /** The database half of the restart check: the old epoch closed, the new one live. */
  predicate RestartExact(s: Site, db: Db, prior: Receipt, c: Binding, env: Env)
    requires c.authority.Recovered?
  {
    && prior.basis.id in db.admissions && db.admissions[prior.basis.id].state == Revoked
    && db.admissions[prior.basis.id].b.session in db.sessions
    && db.sessions[db.admissions[prior.basis.id].b.session].state == Ended
    && c.id in db.admissions && db.admissions[c.id].state == Live && db.admissions[c.id].lease > env.now
    && db.admissions[c.id].b.epoch == c.epoch && db.admissions[c.id].b.session == c.session
    && db.admissions[c.id].b.process.pid == c.process.pid && db.admissions[c.id].b.process.start == c.process.start
    && db.admissions[c.id].b.subject == c.subject && db.admissions[c.id].b.authority == c.authority
    && db.admissions[c.id].b.root == c.root && db.admissions[c.id].b.token == c.token
    && (forall k | k in db.admissions && k != c.id :: IsScribe(s, db.admissions[k].b) ==> db.admissions[k].state != Live)
    && c.session in db.sessions && db.sessions[c.session].state == Active && db.sessions[c.session].lease > env.now
    && db.sessions[c.session].token == c.token
    && OwnWorker(c, db) && db.workers[c.profile.worker].active && db.workers[c.profile.worker].lease.Some?
    && db.workers[c.profile.worker].lease.value > env.now && db.workers[c.profile.worker].token == Some(c.token)
    && c.authority.prior in db.open && db.open[c.authority.prior].state == Consumed
    && db.open[c.authority.prior].candidate.id == c.id && db.open[c.authority.prior].candidate.root == c.root
    && db.open[c.authority.prior].candidate.authority == c.authority
    && db.open[c.authority.prior].candidate.epoch == c.epoch
    && c.root in db.admissions && db.admissions[c.root].b.authority.Initial? && db.admissions[c.root].b.root == c.root
    && db.admissions[c.root].b.approval == c.approval && db.admissions[c.root].b.fence == c.fence
    && MandateStands(db, c.profile.mandate)
    && prior.basis.closure.Some? && prior.basis.closure.value.snapshot == env.snapshot
  }

  function RestartOf(h: Hash, prior: Receipt, c: Binding, snapshot: Sha): Bytes
    requires c.authority.Recovered?
  {
    var basis := RestartBasis(prior.digest, prior.basis.id, prior.basis.epoch, c.id, c.epoch, c.session, c.root,
                              c.subject, c.authority.intentRow, c.authority.intent, snapshot);
    Line(RestartDoc(basis, h(Text(RestartBasisDoc(basis)))))
  }

  /** After a renewal: receipt the restarted epoch once. Also returns the completed request
      that is to be written next, if one awaits this epoch. */
  function ReceiptRestart(h: Hash, s: Site, w: World, c: Binding, env: Env): Result<(World, Option<Doc>)> {
    var found :- LoadRequest(h, s, w.files);
    if found.None? || !found.value.RequestDoc? || found.value.state != Awaiting || found.value.nextEpoch != c.epoch then Ok((w, None))
    else
      var request := found.value;
      var prior :- LoadReceipt(h, w.files, request.receiptPath);
      var _ :- Check(c.authority.Recovered? && ContinuesEpoch(prior, c));
      var _ :- Check(env.after == Probe(ExactLive, Held) && RestartExact(s, w.db, prior, c, env));
      var path := RestartReceiptFile(c.epoch);
      var files :- WriteOnce(w.files, path, RestartOf(h, prior, c, env.snapshot));
      var done :- LoadRestartReceipt(h, files, path);
      Ok((w.(files := files), Some(request.(state := Completed(path, done.1)))))
  }

  /** Write the completed request, if there is one to write. */
  function CompleteRequest(w: World, completed: Option<Doc>): World {
    if completed.None? then w else w.(files := w.files[RequestFile := Line(completed.value)])
  }

  // ------------------------------------------------------------------- tick

  datatype Verdict = Inspect(b: Binding, restored: bool) | Resume(revoked: Binding) | Await | Malformed | Stuck

  /** Find the binding this tick is about: the stored one, a revoked pointer's, or, when
      the file is gone or unreadable, the one the database answers. */
  function Decide(h: Hash, s: Site, w: World, found: Lookup): Verdict {
    var live := LoadBinding(h, s, w.files);
    if live.Ok? then Inspect(live.value, false)
    else if Read(w.files, BindingFile).Refused? then
      match found
      case NoRow => Await
      case Duplicate => Stuck
      case Row(id) =>
        if id in w.db.admissions && Fits(h, s, w.db.admissions[id].b) then Inspect(w.db.admissions[id].b, true) else Stuck
    else if Read(w.files, BindingFile).value.ScribePointerDoc? then
      match LoadRollbackBinding(h, s, w.files)
      case Ok(b) => Resume(b)
      case Refused => Stuck
    else Malformed
  }

  /** After the renewal has committed: publish the lease, receipt a restarted epoch, complete
      its request, and beat; each is one file. */
  function PublishFrom(h: Hash, s: Site, w: World, b: Binding, env: Env, fuel: nat): After {
    if fuel == 0 then After(w, Crashed)
    else
      var leased := w.(files := w.files[LeaseFile := Line(LeaseDoc(b.id, b.epoch, env.now + env.leaseSeconds))]);
      if fuel == 1 then After(leased, Crashed)
      else match ReceiptRestart(h, s, leased, b, env)
           case Refused => After(leased, Rejected)
           case Ok(receipted) =>
             if fuel == 2 then After(receipted.0, Crashed)
             else if fuel == 3 then After(CompleteRequest(receipted.0, receipted.1), Crashed)
             else After(Beat(CompleteRequest(receipted.0, receipted.1), "exact_live", b.id, b.epoch, "exact_live"), Renewed)
  }

  function RenewFrom(h: Hash, s: Site, w: World, b: Binding, env: Env, fuel: nat): After {
    if fuel == 0 then After(w, Crashed)
    else match RenewTx(w.db, b, env.now, env.leaseSeconds)
         case Refused => After(w, Rejected)
         case Ok(db) => PublishFrom(h, s, w.(db := db), b, env, fuel - 1)
  }

  function InspectFrom(h: Hash, s: Site, w: World, b: Binding, env: Env, fuel: nat): After {
    if env.probe.state == Unprovable then After(w, Rejected)
    else if LineageBroken(JoinedLease(w.db, b)) then
      FenceFrom(h, s, w, Fencing(b, "lease_or_lineage_stale", env), 0, fuel)
    else if env.probe.state != ExactLive then
      FenceFrom(h, s, w, Fencing(b, Label(env.probe.state), env), 0, fuel)
    else if env.probe.lock != Held then After(w, Rejected)
    else RenewFrom(h, s, w, b, env, fuel)
  }

  function Restore(w: World, b: Binding): World {
    w.(files := w.files[BindingFile := Stored(b)])
  }

  /** What a tick does about what it found. */
  function Act(h: Hash, s: Site, w: World, v: Verdict, env: Env, fuel: nat): After {
    match v
    case Stuck => After(w, Rejected)
    case Await => if fuel == 0 then After(w, Crashed) else After(Beat(w, "awaiting-external-launch", 0, 0, "absent"), Idle)
    case Malformed => if fuel == 0 then After(w, Crashed) else After(Beat(w, "held-malformed-binding", 0, 0, "unknown"), Rejected)
    case Resume(b) => FenceFrom(h, s, w, Fencing(b, "revoked", env), 0, fuel)
    case Inspect(b, restored) =>
      if !restored then InspectFrom(h, s, w, b, env, fuel)
      else if fuel == 0 then After(w, Crashed)
      else InspectFrom(h, s, Restore(w, b), b, env, fuel - 1)
  }

  function Tick(h: Hash, s: Site, w: World, env: Env, fuel: nat): After {
    Act(h, s, w, Decide(h, s, w, env.found), env, fuel)
  }

  // --------------------------------------------------- prepare and admit

  function OpenSession(db: Db, b: Binding, ids: Fresh, expires: Time): Result<Db> {
    var _ :- Check(OwnWorker(b, db) && db.workers[b.profile.worker].active && db.workers[b.profile.worker].manifestActive);
    var worker := db.workers[b.profile.worker];
    Ok(db.(
      sessions := db.sessions[ids.session := Session(b.profile.company, SCRIBE, b.profile.worker, worker.agent, ids.token, Active, expires, None)],
      workers := db.workers[b.profile.worker := worker.(token := Some(ids.token), lease := Some(expires))]))
  }

  /** The recovery candidate that continues the lineage of an intent. */
  function Candidate(h: Hash, i: IntentBasis, intent: Sha, req: Request, ids: Fresh, expires: Time): Binding {
    var b := Binding(i.profile, ids.admission, ids.session, ids.token, i.nextEpoch, expires, i.release, req.host,
                     req.process, i.fence, i.approval, "", i.root,
                     Recovered(i.prior, ids.intentRow, i.receiptSha, intent));
    b.(subject := SubjectOf(h, b))
  }

  predicate Stale(s: Site, worker: Uuid, row: Session, now: Time) {
    row.company == s.company && row.worker == worker && row.role == SCRIBE && row.state == Active && row.lease <= now
  }

  /** End every expired session of the worker, and the lease it still holds on the worker. */
  function EndStale(s: Site, db: Db, worker: Uuid, now: Time): Db {
    var sessions := map id | id in db.sessions ::
      if Stale(s, worker, db.sessions[id], now) then db.sessions[id].(state := Ended) else db.sessions[id];
    var lapsed := worker in db.workers && db.workers[worker].company == s.company && exists id | id in db.sessions ::
      Stale(s, worker, db.sessions[id], now) && db.workers[worker].token == Some(db.sessions[id].token);
    if lapsed then
      db.(sessions := sessions, workers := db.workers[worker := db.workers[worker].(token := None, lease := None)])
    else db.(sessions := sessions)
  }

  predicate InstalledHere(s: Site, pk: Package) {
    pk.installed && pk.company == s.company && pk.deployment == s.deployment
  }

  /** The fence receipt an initial admission carries: sixty-four zeros in the source. */
  const NO_FENCE: Sha := "0"

  /** `package` and `previous` are what the two queries return: the one installed package
      and the highest epoch so far. */
  function PrepareInitial(h: Hash, s: Site, w: World, req: Request, m: Mandate, worker: Uuid, package: Uuid,
                          previous: int, ids: Fresh, now: Time, seconds: int): Result<(World, Binding)> {
    var db := w.db;
    var _ :- Check(30 <= seconds <= 300);
    var _ :- Check(m.id in db.mandates && db.mandates[m.id].status == MandateActive && db.mandates[m.id].artifact == m.artifact);
    var _ :- Check(
      && worker in db.workers && db.workers[worker].company == s.company && db.workers[worker].role == SCRIBE
      && db.workers[worker].active);
    var _ :- Check(
      && package in db.packages
      && forall id | id in db.packages :: InstalledHere(s, db.packages[id]) <==> id == package);
    var pk := db.packages[package];
    var _ :- Check(pk.commit == req.commit && pk.tree == req.tree && NoLive(db, s.company, SCRIBE));
    var release := Release(package, pk.sha, db.workers[worker].agent, pk.kernel, pk.commit, pk.tree);
    var b := Binding(Profile(s.company, SCRIBE, s.deployment, worker, m), ids.admission, ids.session, ids.token,
                     previous + 1, now + seconds, release, req.host, req.process, NO_FENCE, ids.admission, "",
                     ids.admission, Initial);
    var begun :- OpenSession(EndStale(s, db, worker, now), b, ids, now + seconds);
    Ok((w.(db := begun), b.(subject := SubjectOf(h, b))))
  }

  predicate Unchanged(i: IntentBasis, req: Request, m: Mandate) {
    && i.profile.mandate == m && i.release.commit == req.commit && i.release.tree == req.tree && i.host == req.host
  }

  predicate StaticExact(s: Site, db: Db, i: IntentBasis, req: Request) {
    && MandateStands(db, i.profile.mandate)
    && i.root in db.admissions && i.prior in db.admissions
    && var root := db.admissions[i.root].b;
       var prior := db.admissions[i.prior];
       && root.profile.company == s.company && root.authority.Initial? && root.root == i.root && root.approval == i.approval
       && prior.b.profile.company == s.company && prior.state == Revoked
       && prior.b.session in db.sessions && db.sessions[prior.b.session].state == Ended
       && prior.b.root == i.root && prior.b.epoch + 1 == i.nextEpoch && prior.b.profile.worker == i.profile.worker
       && prior.b.profile.mandate == i.profile.mandate && prior.b.release == i.release
       && prior.b.host.identity == req.host.identity
       && i.release.packageId in db.packages
       && var pk := db.packages[i.release.packageId];
          && pk.company == s.company && pk.installed && pk.kernel == i.release.kernel && pk.sha == i.release.package
          && pk.commit == req.commit && pk.tree == req.tree
          && i.profile.worker in db.workers && db.workers[i.profile.worker].company == s.company
          && db.workers[i.profile.worker].active && db.workers[i.profile.worker].role == SCRIBE
          && db.workers[i.profile.worker].agent == i.release.agent
          && (forall k | k in db.admissions :: db.admissions[k].b.profile.company == s.company ==> db.admissions[k].state != Live)
  }

  predicate Reusable(db: Db, r: Recovery, req: Request, intent: Sha, now: Time) {
    && r.request == req && r.candidate.authority.Recovered? && r.candidate.authority.intent == intent
    && r.candidate.session in db.sessions && db.sessions[r.candidate.session].state == Active
    && r.candidate.leaseExpires > now
    && (r.state == Prepared
        || (r.candidate.id in db.admissions && db.admissions[r.candidate.id].state == Live))
  }

  /** Give up an expired prepared candidate: its session, its worker lease, its row. */
  function Abandon(db: Db, prior: Uuid): Db
    requires prior in db.open
  {
    var r := db.open[prior];
    var c := r.candidate;
    var sessions := if c.session in db.sessions && db.sessions[c.session].state == Active
                    then db.sessions[c.session := db.sessions[c.session].(state := Ended)] else db.sessions;
    var workers := if c.profile.worker in db.workers && db.workers[c.profile.worker].company == c.profile.company
                      && db.workers[c.profile.worker].token == Some(c.token)
                   then db.workers[c.profile.worker := db.workers[c.profile.worker].(token := None, lease := None)] else db.workers;
    db.(sessions := sessions, workers := workers, open := db.open - {prior}, abandoned := db.abandoned[c.id := r])
  }

  function NewRecovery(h: Hash, s: Site, w: World, db: Db, intent: Intent, req: Request, ids: Fresh,
                       now: Time, seconds: int): Result<(World, Binding)> {
    var i := intent.basis;
    var _ :- Check(StaticExact(s, db, i, req));
    var c := Candidate(h, i, intent.digest, req, ids, now + seconds);
    var begun :- OpenSession(db, c, ids, now + seconds);
    Ok((w.(db := begun.(open := begun.open[i.prior := Recovery(c, req, Prepared)])), c))
  }

  function PrepareRecovery(h: Hash, s: Site, w: World, req: Request, m: Mandate, path: Path, ids: Fresh,
                           now: Time, seconds: int): Result<(World, Binding)> {
    var _ :- Check(30 <= seconds <= 300);
    var intent :- LoadIntent(h, s, w.files, path);
    var prior := intent.basis.prior;
    var _ :- Check(Unchanged(intent.basis, req, m));
    if prior !in w.db.open then NewRecovery(h, s, w, w.db, intent, req, ids, now, seconds)
    else if Reusable(w.db, w.db.open[prior], req, intent.digest, now) then
      if Fits(h, s, w.db.open[prior].candidate) then Ok((w, w.db.open[prior].candidate)) else Refused
    else if w.db.open[prior].state == Prepared && w.db.open[prior].candidate.leaseExpires <= now then
      NewRecovery(h, s, w, Abandon(w.db, prior), intent, req, ids, now, seconds)
    else Refused
  }

  predicate SameLaunch(req: Request, c: Binding) {
    && req.process == c.process && req.commit == c.release.commit && req.tree == c.release.tree && req.host == c.host
  }

  predicate Insertable(db: Db, c: Binding, now: Time) {
    && c.session in db.sessions && db.sessions[c.session].state == Active && db.sessions[c.session].token == c.token
    && c.leaseExpires > now
    && NoLive(db, c.profile.company, SCRIBE)
    && (c.authority.Recovered? ==>
        && c.authority.prior in db.open && db.open[c.authority.prior].candidate == c
        && db.open[c.authority.prior].state == Prepared)
  }

  /** The fields the insert reads back: an existing live row must carry them all. */
  predicate SameAdmission(r: Binding, c: Binding) {
    && r.profile.company == c.profile.company && r.profile.deployment == c.profile.deployment
    && r.profile.worker == c.profile.worker && r.session == c.session && r.release.packageId == c.release.packageId
    && r.epoch == c.epoch && r.process.pid == c.process.pid && r.process.start == c.process.start
    && r.subject == c.subject && r.token == c.token && r.host.lock == c.host.lock
    && r.authority == c.authority && r.root == c.root
  }

  /** Insert the live row, or find exactly this admission already live. */
  function AdmitTx(h: Hash, db: Db, req: Request, m: Mandate, c: Binding, now: Time): Result<Db> {
    var _ :- Check(SameLaunch(req, c) && m == c.profile.mandate && c.subject == SubjectOf(h, c));
    if c.id in db.admissions then
      if db.admissions[c.id].state == Live && SameAdmission(db.admissions[c.id].b, c) then Ok(db) else Refused
    else
      var _ :- Check(Insertable(db, c, now));
      var open := if c.authority.Recovered?
                  then db.open[c.authority.prior := db.open[c.authority.prior].(state := Consumed)] else db.open;
      Ok(db.(admissions := db.admissions[c.id := Admission(c, Live, c.leaseExpires)], open := open))
  }

  /** After the insert: the lease pointer, then the local binding file. */
  function PublishAdmission(w: World, c: Binding, fuel: nat): After {
    if fuel == 0 then After(w, Crashed)
    else
      var leased := w.files[LeaseFile := Line(LeaseDoc(c.id, c.epoch, c.leaseExpires))];
      if fuel == 1 then After(w.(files := leased), Crashed)
      else After(w.(files := leased[BindingFile := Stored(c)]), Renewed)
  }

  function Admit(h: Hash, w: World, req: Request, m: Mandate, c: Binding, now: Time, fuel: nat): After {
    if fuel == 0 then After(w, Crashed)
    else match AdmitTx(h, w.db, req, m, c, now)
         case Refused => After(w, Rejected)
         case Ok(db) => PublishAdmission(w.(db := db), c, fuel - 1)
  }
}
