/** Records shared by the Scribe lane and the generic role lane: the admission
    binding, the database rows, the private files and the documents in them. */
module LaneRecords {
  import opened Outcome

  type Uuid = nat
  type Sha = string
  type Time = int

  datatype Mandate = Mandate(id: string, artifact: Sha)

  /** The closed identity of one lane (company, role, deployment, worker, mandate). */
  datatype Profile = Profile(company: string, role: string, deployment: string, worker: Uuid, mandate: Mandate)

  datatype Release = Release(packageId: Uuid, package: Sha, agent: Sha, kernel: Sha, commit: Sha, tree: Sha)

  datatype Host = Host(identity: Sha, executable: string, executableSha: Sha, lock: string)

  datatype Process = Process(task: string, session: string, pid: int, start: Sha, boot: Sha)

  /** An initial admission has no recovery values; a recovered one has all four. */
  datatype Authority = Initial | Recovered(prior: Uuid, intentRow: Uuid, receipt: Sha, intent: Sha)

  datatype Binding = Binding(
    profile: Profile, id: Uuid, session: Uuid, token: Uuid, epoch: int, leaseExpires: Time,
    release: Release, host: Host, process: Process, fence: Sha, approval: Uuid, subject: Sha,
    root: Uuid, authority: Authority)

  // ---------------------------------------------------------------- rows

  datatype RowState = Live | Revoked
  datatype Admission = Admission(b: Binding, state: RowState, lease: Time)

  datatype SessionState = Active | Ended
  datatype Session = Session(company: string, role: string, worker: Uuid, agent: Sha, token: Uuid,
                             state: SessionState, lease: Time, endedAt: Option<Time>)

  datatype Worker = Worker(company: string, role: string, agent: Sha, active: bool, manifestActive: bool,
                           token: Option<Uuid>, lease: Option<Time>)

  datatype RecoveryState = Prepared | Consumed
  datatype Recovery = Recovery(candidate: Binding, request: Request, state: RecoveryState)

  datatype Package = Package(company: string, role: string, deployment: string, installed: bool,
                             sha: Sha, kernel: Sha, commit: Sha, tree: Sha)

  datatype MandateStatus = MandateActive | MandateCompleted | MandateWithdrawn
  datatype MandateRow = MandateRow(artifact: Sha, status: MandateStatus, verified: bool)

  /** `open` holds the prepared or consumed recovery of each prior admission. */
  datatype Db = Db(
    admissions: map<Uuid, Admission>, sessions: map<Uuid, Session>, workers: map<Uuid, Worker>,
    open: map<Uuid, Recovery>, abandoned: map<Uuid, Recovery>,
    packages: map<Uuid, Package>, mandates: map<string, MandateRow>)

  /** The launcher's bootstrap request. */
  datatype Request = Request(profileSha: Sha, commit: Sha, tree: Sha, host: Host, process: Process)

  // ---------------------------------------------------------------- files

  datatype Path =
    | BindingFile
    | ArchiveFile(id: Uuid, epoch: int)
    | ReceiptFile(id: Uuid, epoch: int)
    | IntentFile(next: int)
    | RestartReceiptFile(epoch: int)
    | RequestFile
    | HeartbeatFile
    | LeaseFile

  datatype Reason = SupervisorFenced(epoch: int) | OtherReason(text: string)

  /** The part of a rollback receipt that only the Scribe lane writes. */
  datatype Closure = Closure(approval: Uuid, process: Process, endedAt: Option<Time>, snapshot: Sha, quiescence: string)

  datatype ReceiptBasis = ReceiptBasis(
    profile: Profile, profileSha: Sha, id: Uuid, epoch: int, root: Uuid, session: Uuid, release: Release,
    host: Host, fence: Sha, bindingSha: Sha, archive: Path, archiveSha: Sha, reason: Reason,
    closure: Option<Closure>)

  datatype IntentBasis = IntentBasis(
    profile: Profile, profileSha: Sha, root: Uuid, approval: Uuid, prior: Uuid, priorEpoch: int,
    nextEpoch: int, release: Release, host: Host, fence: Sha, receiptPath: Path, receiptSha: Sha)

  datatype Receipt = Receipt(basis: ReceiptBasis, digest: Sha)
  datatype Intent = Intent(basis: IntentBasis, digest: Sha)

  datatype RestartBasis = RestartBasis(
    receiptSha: Sha, prior: Uuid, priorEpoch: int, id: Uuid, epoch: int, session: Uuid, root: Uuid,
    subject: Sha, intentRow: Uuid, intent: Sha, snapshot: Sha)

  datatype RequestState = Awaiting | Completed(receiptPath: Path, receiptSha: Sha)

  datatype Doc =
    | BindingDoc(binding: Binding)
    | SubjectDoc(tuple: Binding)
    | ProfileDoc(profile: Profile)
    | ScribePointerDoc(revoked: Uuid, revokedEpoch: int, archivedAt: Path, archivedSha: Sha)
    | PointerDoc(profileSha: Sha, role: string, deployment: string, id: Uuid, epoch: int, archive: Path, archiveSha: Sha)
    | ReceiptBasisDoc(receiptBasis: ReceiptBasis)
    | ReceiptDoc(receipt: Receipt)
    | IntentBasisDoc(intentBasis: IntentBasis)
    | IntentDoc(intent: Intent)
    | RestartBasisDoc(restartBasis: RestartBasis)
    | RestartDoc(restart: RestartBasis, restartSha: Sha)
    | RequestDoc(state: RequestState, root: Uuid, prior: Uuid, priorEpoch: int, nextEpoch: int,
                 receiptPath: Path, receiptSha: Sha, intentPath: Path, intentSha: Sha, fenced: string)
    | HeartbeatDoc(action: string, admission: Uuid, admissionEpoch: int, processState: string)
    | LeaseDoc(leaseOf: Uuid, leaseEpoch: int, expires: Time)
    | OtherDoc(kind: nat)

  /** File contents: `Line(d)` is the canonical JSON of `d` with a newline, `Text(d)`
      the canonical JSON alone, and `Foreign` any other bytes, with what they parse to. */
  datatype Bytes =
    | Line(doc: Doc)
    | Text(text: Doc)
    | Foreign(parsed: Option<Doc>, variant: nat)

  function Parse(bytes: Bytes): Option<Doc> {
    match bytes
    case Line(d) => Some(d)
    case Text(d) => Some(d)
    case Foreign(p, _) => p
  }

  type Files = map<Path, Bytes>
  type Hash = Bytes -> Sha

  datatype World = World(db: Db, files: Files)

  function Read(files: Files, path: Path): Result<Doc> {
    if path !in files then Refused
    else match Parse(files[path]) case Some(d) => Ok(d) case None => Refused
  }

  /** Create a file once; an existing file must hold the same bytes. */
  function WriteOnce(files: Files, path: Path, bytes: Bytes): Result<Files> {
    if path !in files then Ok(files[path := bytes])
    else if files[path] == bytes then Ok(files)
    else Refused
  }

  /** How a binding is stored: canonically. */
  function Stored(b: Binding): Bytes {
    Line(BindingDoc(b))
  }

  ghost predicate SameAt(f: Files, g: Files, path: Path) {
    (path in f <==> path in g) && (path in f ==> f[path] == g[path])
  }

  // ---------------------------------------------------------------- probes

  datatype ProcessState = ExactLive | PreviousBoot | Absent | Zombie | PidReused | Unprovable
  datatype LockState = Held | Unheld | LockUnsafe

  /** What the operating system answers when the bound process is inspected. */
  datatype Probe = Probe(state: ProcessState, lock: LockState)

  function Label(s: ProcessState): string {
    match s
    case ExactLive => "exact_live"
    case PreviousBoot => "previous_boot"
    case Absent => "absent"
    case Zombie => "zombie"
    case PidReused => "pid_reused"
    case Unprovable => "unprovable"
  }

  /** The bound process is provably not running. */
  predicate Gone(probe: Probe) {
    probe.state != ExactLive && probe.state != Unprovable
  }

  // ------------------------------------------------------------- rows of one epoch

  datatype Lease = Lease(admission: Admission, session: Session, worker: Worker)

  predicate LineageBroken(lease: Option<Lease>) {
    lease.None? || lease.value.admission.state != Live || lease.value.session.state != Active
    || !lease.value.worker.active || lease.value.worker.lease.None?
  }

  predicate NoLive(db: Db, company: string, role: string) {
    forall id | id in db.admissions ::
      db.admissions[id].b.profile.company == company && db.admissions[id].b.profile.role == role
      ==> db.admissions[id].state != Live
  }

  /** The identifiers one preparation draws: uuid4 values and a lease token. */
  datatype Fresh = Fresh(session: Uuid, token: Uuid, admission: Uuid, intentRow: Uuid)

  ghost predicate UnusedId(w: World, id: Uuid) {
    && id !in w.db.open
    && (forall e :: ArchiveFile(id, e) !in w.files && ReceiptFile(id, e) !in w.files)
  }

  ghost predicate FreshIds(w: World, ids: Fresh) {
    && ids.session !in w.db.sessions && ids.admission !in w.db.admissions && UnusedId(w, ids.admission)
    && (forall s | s in w.db.sessions :: w.db.sessions[s].token != ids.token)
    && (forall k | k in w.db.workers :: w.db.workers[k].token != Some(ids.token))
  }

  predicate SameRowAt<Row(==)>(rows: map<Uuid, Row>, next: map<Uuid, Row>, id: Uuid) {
    (id in rows <==> id in next) && (id in rows ==> rows[id] == next[id])
  }

  /** `next` differs from `db` at most in the admission, the session and the worker of `b`,
      and in the worker only if it still serves the session of `b`. */
  ghost predicate OnlyEpochOf(db: Db, next: Db, b: Binding) {
    && (forall id :: id != b.id ==> SameRowAt(db.admissions, next.admissions, id))
    && (forall id :: id != b.session ==> SameRowAt(db.sessions, next.sessions, id))
    && (forall id :: !(id in db.workers && db.workers[id].token == Some(b.token)) ==> SameRowAt(db.workers, next.workers, id))
    && next == db.(admissions := next.admissions, sessions := next.sessions, workers := next.workers)
  }

  /** The outcome of a supervisor tick; `Crashed` means the process died mid-way. */
  datatype Ended = Renewed | Fenced | Idle | Rejected | Crashed
  datatype After = After(w: World, out: Ended)
}
