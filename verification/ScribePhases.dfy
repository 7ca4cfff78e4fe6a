/** The states the Scribe lane goes through, and what every supervisor tick does in each,
    with the process dying between any two steps and the binding file lost at any time. */
module ScribePhases {
  import opened Outcome
  import opened LaneRecords
  import opened ScribeLane

  // ------------------------------------------------------------------ rows

  ghost predicate RootRow(s: Site, db: Db, b: Binding) {
    && b.root in db.admissions
    && var r := db.admissions[b.root].b;
       r.profile.company == s.company && r.authority.Initial? && r.root == b.root && r.approval == b.approval && r.fence == b.fence
  }

  /** The rows that belong to the admission of `b`, whatever state they are in. */
  ghost predicate OwnRows(h: Hash, s: Site, db: Db, b: Binding) {
    && Fits(h, s, b)
    && b.id in db.admissions && db.admissions[b.id].b == b
    && b.session in db.sessions && OwnSession(b, db.sessions[b.session])
    && OwnWorker(b, db) && RootRow(s, db, b)
  }

  /** No other Scribe row has an epoch as high as that of `b`. */
  ghost predicate Highest(s: Site, db: Db, b: Binding) {
    forall k | k in db.admissions && k != b.id :: IsScribe(s, db.admissions[k].b) ==> db.admissions[k].b.epoch < b.epoch
  }

  ghost predicate OnlyLive(s: Site, db: Db, id: Uuid) {
    forall k | k in db.admissions && k != id :: IsScribe(s, db.admissions[k].b) ==> db.admissions[k].state != Live
  }

  ghost predicate LiveRows(h: Hash, s: Site, db: Db, b: Binding) {
    && OwnRows(h, s, db, b) && db.admissions[b.id].state == Live && db.sessions[b.session].state == Active
    && db.workers[b.profile.worker].token == Some(b.token) && db.workers[b.profile.worker].lease.Some?
    && OnlyLive(s, db, b.id) && Highest(s, db, b)
  }

  ghost predicate RevokedRows(h: Hash, s: Site, db: Db, b: Binding) {
    OwnRows(h, s, db, b) && db.admissions[b.id].state == Revoked && db.sessions[b.session].state == Ended
  }

  ghost predicate FencedRows(h: Hash, s: Site, db: Db, b: Binding) {
    && RevokedRows(h, s, db, b) && NoLive(db, s.company, SCRIBE) && Highest(s, db, b)
    && db.workers[b.profile.worker].token.None? && db.workers[b.profile.worker].lease.None?
  }

  // ----------------------------------------------------------------- files

  /** The binding file is gone or no longer parses. */
  predicate Lost(files: Files) {
    BindingFile !in files || Parse(files[BindingFile]).None?
  }

  predicate Archived(files: Files, b: Binding) { ArchiveFile(b.id, b.epoch) in files }
  predicate Receipted(files: Files, b: Binding) { ReceiptFile(b.id, b.epoch) in files }
  predicate Intended(files: Files, b: Binding) { IntentFile(b.epoch + 1) in files }
  predicate Pointed(h: Hash, files: Files, b: Binding) {
    BindingFile in files && files[BindingFile] == PointerTo(h, b, Stored(b))
  }

  /** These bytes are the rollback receipt of `b` and of the bytes archived for it. */
  predicate IsReceipt(h: Hash, bytes: Bytes, b: Binding) {
    && bytes.Line? && bytes.doc.ReceiptDoc?
    && var closure := bytes.doc.receipt.basis.closure;
       closure.Some? && closure.value.approval == b.approval && bytes.doc.receipt == ReceiptOf(h, b, Stored(b), closure.value)
  }

  /** The one receipt of the epoch, and the one intent that continues it. */
  function TheReceipt(h: Hash, files: Files, b: Binding): Receipt
    requires Receipted(files, b) && IsReceipt(h, files[ReceiptFile(b.id, b.epoch)], b)
  {
    files[ReceiptFile(b.id, b.epoch)].doc.receipt
  }

  /** What is true of the private files whenever `b` is the latest epoch: each file that
      exists is exact, and exists only after the files it is derived from. */
  ghost predicate Facts(h: Hash, files: Files, b: Binding) {
    && (Lost(files) || files[BindingFile] == Stored(b) || (Pointed(h, files, b) && Archived(files, b)))
    && (Archived(files, b) ==> files[ArchiveFile(b.id, b.epoch)] == Stored(b))
    && (Receipted(files, b) ==> Archived(files, b) && IsReceipt(h, files[ReceiptFile(b.id, b.epoch)], b))
    && (Intended(files, b) ==>
        Receipted(files, b) && files[IntentFile(b.epoch + 1)] == Line(IntentDoc(IntentOf(h, b, TheReceipt(h, files, b)))))
    && (forall e :: e > b.epoch + 1 ==> IntentFile(e) !in files)
  }

  /** Archive, receipt and intent, once written, keep their bytes. */
  ghost predicate Grows(f: Files, g: Files, b: Binding) {
    && (Archived(f, b) ==> Archived(g, b) && g[ArchiveFile(b.id, b.epoch)] == f[ArchiveFile(b.id, b.epoch)])
    && (Receipted(f, b) ==> Receipted(g, b) && g[ReceiptFile(b.id, b.epoch)] == f[ReceiptFile(b.id, b.epoch)])
    && (Intended(f, b) ==> Intended(g, b) && g[IntentFile(b.epoch + 1)] == f[IntentFile(b.epoch + 1)])
  }

  ghost predicate Untouched(files: Files, b: Binding) {
    !Archived(files, b) && !Receipted(files, b) && !Intended(files, b)
  }

  ghost predicate Written(files: Files, b: Binding) {
    Archived(files, b) && Receipted(files, b) && Intended(files, b)
  }

  ghost predicate LiveWorld(h: Hash, s: Site, w: World, b: Binding) {
    LiveRows(h, s, w.db, b) && Facts(h, w.files, b) && Untouched(w.files, b)
  }

  ghost predicate FencedWorld(h: Hash, s: Site, w: World, b: Binding) {
    FencedRows(h, s, w.db, b) && Facts(h, w.files, b)
  }

  /** Whatever the tick asks for, the bound process is gone and was quiesced. */
  predicate Cooperative(env: Env) {
    Gone(env.probe) && Gone(env.after) && env.quiescence.Some?
  }

  // ---------------------------------------------------------- transactions

  /** The rows of `b` with the admission revoked, the session ended and the worker free. */
  function RevokedTo(db: Db, b: Binding): Db
    requires b.id in db.admissions && b.session in db.sessions && b.profile.worker in db.workers
  {
    db.(admissions := db.admissions[b.id := Admission(db.admissions[b.id].b, Revoked, db.admissions[b.id].lease)],
        sessions := db.sessions[b.session := db.sessions[b.session].(state := Ended)],
        workers := db.workers[b.profile.worker := db.workers[b.profile.worker].(token := None, lease := None)])
  }

  /** From live rows the rollback always commits, and fences exactly those rows. */
  lemma RevokeLive(h: Hash, s: Site, db: Db, b: Binding)
    requires LiveRows(h, s, db, b)
    ensures RevokeTx(db, b) == Ok(RevokedTo(db, b)) && FencedRows(h, s, RevokedTo(db, b), b)
  {
    var closed := CloseAdmission(db, b).value;
    assert OwnRows(h, s, closed, b);
  }

  /** Replayed on rows already fenced, the rollback changes nothing. */
  lemma RevokeFenced(h: Hash, s: Site, db: Db, b: Binding)
    requires FencedRows(h, s, db, b)
    ensures RevokeTx(db, b) == Ok(db)
  {
    assert db.sessions[b.session := db.sessions[b.session].(state := Ended)] == db.sessions;
  }

  // -------------------------------------------------------------- the fence

  /** What step `i` of a fence finds done before it. */
  ghost predicate Ready(h: Hash, files: Files, b: Binding, i: nat) {
    && !Lost(files)
    && (i >= 3 ==> Archived(files, b)) && (i >= 4 ==> Pointed(h, files, b))
    && (i >= 5 ==> Receipted(files, b)) && (i >= 6 ==> Intended(files, b))
  }

  /** A stored intent of `b` loads whenever its receipt is stored. */
  lemma IntentReadable(h: Hash, s: Site, files: Files, b: Binding)
    requires Fits(h, s, b) && Facts(h, files, b) && Receipted(files, b)
    ensures var receipt := TheReceipt(h, files, b);
            var intent := IntentOf(h, b, receipt);
            && LoadReceipt(h, files, ReceiptFile(b.id, b.epoch)) == Ok(receipt)
            && ReceiptNames(h, receipt, b) && ContinuesBinding(receipt.basis, b)
            && LoadIntent(h, s, files[IntentFile(b.epoch + 1) := Line(IntentDoc(intent))], IntentFile(b.epoch + 1)) == Ok(intent)
            && (Intended(files, b) ==> LoadIntent(h, s, files, IntentFile(b.epoch + 1)) == Ok(intent))
  {
    var path := IntentFile(b.epoch + 1);
    var receipt := TheReceipt(h, files, b);
    var more := files[path := Line(IntentDoc(IntentOf(h, b, receipt)))];
    assert LoadReceipt(h, more, ReceiptFile(b.id, b.epoch)) == Ok(receipt);
    assert Read(more, path) == Ok(IntentDoc(IntentOf(h, b, receipt)));
    assert Intended(files, b) ==> more == files;
  }

  /** What one later step of a fence may do, wherever it stops. */
  ghost predicate Stepped(h: Hash, w: World, next: World, b: Binding, i: nat) {
    next.db == w.db && Facts(h, next.files, b) && Ready(h, next.files, b, i) && Grows(w.files, next.files, b)
  }

  /** Every step after the revocation keeps the rows and the facts, whatever the probes say. */
  lemma FileStepKeeps(h: Hash, s: Site, w: World, f: Fencing, i: nat)
    requires 1 <= i < FENCE_STEPS && RevokedRows(h, s, w.db, f.b) && Facts(h, w.files, f.b) && Ready(h, w.files, f.b, i)
    requires FenceStep(h, s, w, f, i).Ok?
    ensures Stepped(h, w, FenceStep(h, s, w, f, i).value, f.b, i + 1)
  {
    var b := f.b;
    match i
    case 1 =>
    case 2 =>
    case 3 =>
    case 4 => ReceiptStepKeeps(h, s, w, f);
    case 5 => IntentReadable(h, s, w.files, b);
    case 6 =>
    case 7 =>
  }

  lemma ReceiptStepKeeps(h: Hash, s: Site, w: World, f: Fencing)
    requires Facts(h, w.files, f.b) && Ready(h, w.files, f.b, 4) && ReceiptStep(h, s, w, f).Ok?
    ensures Stepped(h, w, ReceiptStep(h, s, w, f).value, f.b, 5)
  {
    var next := ReceiptStep(h, s, w, f).value;
    if !Receipted(w.files, f.b) { assert IsReceipt(h, next.files[ReceiptFile(f.b.id, f.b.epoch)], f.b); }
  }

  /** With the process gone, no later step refuses. */
  lemma FileStepGoes(h: Hash, s: Site, w: World, f: Fencing, i: nat)
    requires 1 <= i < FENCE_STEPS && RevokedRows(h, s, w.db, f.b) && Facts(h, w.files, f.b) && Ready(h, w.files, f.b, i)
    requires NoLive(w.db, s.company, SCRIBE) && Gone(f.env.after) && f.env.quiescence.Some?
    ensures FenceStep(h, s, w, f, i).Ok?
  {
    var b := f.b;
    match i
    case 1 =>
    case 2 =>
    case 3 =>
    case 4 =>
    case 5 =>
      IntentReadable(h, s, w.files, b);
      if Intended(w.files, b) {
        assert w.files[IntentFile(b.epoch + 1)] == Line(IntentDoc(IntentOf(h, b, TheReceipt(h, w.files, b))));
      }
    case 6 => IntentReadable(h, s, w.files, b);
    case 7 =>
  }

  lemma {:induction false} FenceRest(h: Hash, s: Site, w: World, f: Fencing, i: nat, fuel: nat, after: After)
    requires 1 <= i <= FENCE_STEPS && RevokedRows(h, s, w.db, f.b) && Facts(h, w.files, f.b) && Ready(h, w.files, f.b, i)
    requires after == FenceFrom(h, s, w, f, i, fuel)
    ensures after.w.db == w.db && Facts(h, after.w.files, f.b) && Grows(w.files, after.w.files, f.b)
    ensures after.out == Fenced ==> Ready(h, after.w.files, f.b, FENCE_STEPS)
    ensures NoLive(w.db, s.company, SCRIBE) && Gone(f.env.after) && f.env.quiescence.Some? && fuel >= FENCE_STEPS - i
            ==> after.out == Fenced
    ensures !NoLive(w.db, s.company, SCRIBE) && i <= 4 ==> after.out != Fenced
    ensures after.out != Renewed && after.out != Idle
    decreases FENCE_STEPS - i
  {
    if i < FENCE_STEPS && fuel > 0 {
      var step := FenceStep(h, s, w, f, i);
      if step.Ok? {
        FileStepKeeps(h, s, w, f, i);
        FenceRest(h, s, step.value, f, i + 1, fuel - 1, after);
      } else if NoLive(w.db, s.company, SCRIBE) && Gone(f.env.after) && f.env.quiescence.Some? {
        FileStepGoes(h, s, w, f, i);
      }
    }
  }

  /** What the fence of a closed epoch asks of the process: an existing receipt needs it gone, and a
      new one needs to know how it was stopped. */
  predicate Lets(files: Files, f: Fencing) {
    if Receipted(files, f.b) then f.env.after.state in {PreviousBoot, Absent, Zombie, PidReused} else f.env.quiescence.Some?
  }

  lemma FileStepIff(h: Hash, s: Site, w: World, f: Fencing, i: nat)
    requires 1 <= i < FENCE_STEPS && RevokedRows(h, s, w.db, f.b) && Facts(h, w.files, f.b) && Ready(h, w.files, f.b, i)
    requires NoLive(w.db, s.company, SCRIBE)
    ensures i >= 5 || Lets(w.files, f) ==> FenceStep(h, s, w, f, i).Ok?
    ensures i == 4 && !Lets(w.files, f) ==> FenceStep(h, s, w, f, i).Refused?
    ensures i < 4 && FenceStep(h, s, w, f, i).Ok? ==> Lets(FenceStep(h, s, w, f, i).value.files, f) == Lets(w.files, f)
  {
    match i
    case 1 =>
    case 2 =>
    case 3 =>
    case 4 =>
    case 5 => IntentStepGoes(h, s, w, f);
    case 6 => IntentReadable(h, s, w.files, f.b);
    case 7 =>
  }

  lemma IntentStepGoes(h: Hash, s: Site, w: World, f: Fencing)
    requires Fits(h, s, f.b) && Facts(h, w.files, f.b) && Ready(h, w.files, f.b, 5)
    ensures FenceStep(h, s, w, f, 5).Ok?
  {
    var b := f.b;
    IntentReadable(h, s, w.files, b);
    if Intended(w.files, b) {
      assert w.files[IntentFile(b.epoch + 1)] == Line(IntentDoc(IntentOf(h, b, TheReceipt(h, w.files, b))));
    }
  }

  /** The rest of a fence, given time, completes exactly when the process lets it. */
  lemma {:induction false} FenceRestIff(h: Hash, s: Site, w: World, f: Fencing, i: nat, fuel: nat, after: After)
    requires 1 <= i <= FENCE_STEPS && RevokedRows(h, s, w.db, f.b) && Facts(h, w.files, f.b) && Ready(h, w.files, f.b, i)
    requires NoLive(w.db, s.company, SCRIBE) && fuel >= FENCE_STEPS - i && after == FenceFrom(h, s, w, f, i, fuel)
    ensures after.out == if i >= 5 || Lets(w.files, f) then Fenced else Rejected
    decreases FENCE_STEPS - i
  {
    if i < FENCE_STEPS {
      FileStepIff(h, s, w, f, i);
      var step := FenceStep(h, s, w, f, i);
      if step.Ok? {
        FileStepKeeps(h, s, w, f, i);
        FenceRestIff(h, s, step.value, f, i + 1, fuel - 1, after);
      }
    }
  }

  /** Fencing an epoch whose rows are revoked already changes no row. */
  lemma FenceRevoked(h: Hash, s: Site, w: World, f: Fencing, fuel: nat, after: After)
    requires RevokedRows(h, s, w.db, f.b) && Facts(h, w.files, f.b) && !Lost(w.files)
    requires Receipted(w.files, f.b) || FencedRows(h, s, w.db, f.b)
    requires after == FenceFrom(h, s, w, f, 0, fuel)
    ensures after.w.db == w.db && Facts(h, after.w.files, f.b) && Grows(w.files, after.w.files, f.b)
    ensures after.out == Fenced ==> Ready(h, after.w.files, f.b, FENCE_STEPS) && NoLive(w.db, s.company, SCRIBE)
    ensures NoLive(w.db, s.company, SCRIBE) && Gone(f.env.after) && f.env.quiescence.Some? && fuel >= FENCE_STEPS
            ==> after.out == Fenced
    ensures after.out != Renewed && after.out != Idle
  {
    if fuel > 0 {
      RevokeStepAgain(h, s, w, f);
      assert FenceStep(h, s, w, f, 0) == Ok(w);
      FenceRest(h, s, w, f, 1, fuel - 1, after);
    }
  }

  lemma RevokeStepAgain(h: Hash, s: Site, w: World, f: Fencing)
    requires RevokedRows(h, s, w.db, f.b) && Facts(h, w.files, f.b)
    requires Receipted(w.files, f.b) || FencedRows(h, s, w.db, f.b)
    ensures RevokeStep(h, s, w, f) == Ok(w)
  {
    if Receipted(w.files, f.b) { IntentReadable(h, s, w.files, f.b); } else { RevokeFenced(h, s, w.db, f.b); }
  }

  /** Fencing a live admission: its first step revokes the rows, the rest follows. */
  lemma FenceLive(h: Hash, s: Site, w: World, f: Fencing, fuel: nat, after: After)
    requires LiveWorld(h, s, w, f.b) && !Lost(w.files) && after == FenceFrom(h, s, w, f, 0, fuel)
    ensures if fuel == 0 then after == After(w, Crashed)
            else RevokeTx(w.db, f.b) == Ok(after.w.db) && FencedWorld(h, s, after.w, f.b)
    ensures after.out == Fenced ==> Ready(h, after.w.files, f.b, FENCE_STEPS)
    ensures Gone(f.env.after) && f.env.quiescence.Some? && fuel >= FENCE_STEPS ==> after.out == Fenced
    ensures after.out != Renewed && after.out != Idle
  {
    if fuel > 0 {
      RevokeLive(h, s, w.db, f.b);
      var next := w.(db := RevokeTx(w.db, f.b).value);
      assert FenceStep(h, s, w, f, 0) == Ok(next);
      FenceRest(h, s, next, f, 1, fuel - 1, after);
    }
  }

  // --------------------------------------------------------------- decisions

  /** A binding file that is in place names `b`, whatever the database answers. */
  lemma DecideStored(h: Hash, s: Site, w: World, b: Binding, found: Lookup)
    requires Facts(h, w.files, b) && Fits(h, s, b) && !Lost(w.files)
    ensures Decide(h, s, w, found) == if w.files[BindingFile] == Stored(b) then Inspect(b, false) else Resume(b)
  {
  }

  /** In every phase of `b` the tick finds `b`: stored, restored from its row, or pointed to. */
  lemma DecideFinds(h: Hash, s: Site, w: World, b: Binding, found: Lookup)
    requires Facts(h, w.files, b) && OwnRows(h, s, w.db, b) && Highest(s, w.db, b) && Answers(s, w.db, found)
    requires OnlyLive(s, w.db, b.id)
    ensures Decide(h, s, w, found) ==
            if Lost(w.files) then Inspect(b, true)
            else if w.files[BindingFile] == Stored(b) then Inspect(b, false)
            else Resume(b)
  {
    if Lost(w.files) { AnswerIs(s, w.db, b, found); } else { DecideStored(h, s, w, b, found); }
  }

  lemma AnswerIs(s: Site, db: Db, b: Binding, found: Lookup)
    requires Answers(s, db, found) && b.id in db.admissions && db.admissions[b.id].b == b && IsScribe(s, b)
    requires Highest(s, db, b) && OnlyLive(s, db, b.id)
    ensures found == Row(b.id)
  {
  }

  lemma RestoredLive(h: Hash, s: Site, w: World, b: Binding)
    requires LiveWorld(h, s, w, b)
    ensures LiveWorld(h, s, Restore(w, b), b) && !Lost(Restore(w, b).files)
  {
  }

  lemma RestoredFacts(h: Hash, w: World, b: Binding)
    requires Facts(h, w.files, b)
    ensures Facts(h, Restore(w, b).files, b) && !Lost(Restore(w, b).files) && Grows(w.files, Restore(w, b).files, b)
  {
  }

  // ----------------------------------------------------------- the live tick

  function RenewedTo(db: Db, b: Binding, expires: Time): Db
    requires b.id in db.admissions && b.session in db.sessions && b.profile.worker in db.workers
  {
    db.(admissions := db.admissions[b.id := db.admissions[b.id].(lease := expires)],
        sessions := db.sessions[b.session := db.sessions[b.session].(lease := expires)],
        workers := db.workers[b.profile.worker := db.workers[b.profile.worker].(lease := Some(expires))])
  }

  lemma RenewLive(h: Hash, s: Site, db: Db, b: Binding, now: Time, seconds: int)
    requires LiveRows(h, s, db, b) && RenewTx(db, b, now, seconds).Ok?
    ensures RenewTx(db, b, now, seconds).value == RenewedTo(db, b, now + seconds)
    ensures LiveRows(h, s, RenewedTo(db, b, now + seconds), b)
  {
    assert OwnRows(h, s, RenewedTo(db, b, now + seconds), b);
  }

  /** Files a live epoch shares with no fence: the lease, the request, the heartbeat, and the
      restart receipt of this epoch. */
  predicate Aside(path: Path, epoch: int) {
    path == LeaseFile || path == RequestFile || path == HeartbeatFile || path == RestartReceiptFile(epoch)
  }

  predicate NotIntent(bytes: Bytes) {
    Parse(bytes).Some? ==> !Parse(bytes).value.IntentDoc?
  }

  ghost predicate OnlyAside(f: Files, g: Files, epoch: int) {
    forall path :: SameAt(f, g, path) || (Aside(path, epoch) && path in g && NotIntent(g[path]))
  }

  lemma AsideKeepsFacts(h: Hash, f: Files, g: Files, b: Binding)
    requires OnlyAside(f, g, b.epoch) && Facts(h, f, b)
    ensures Facts(h, g, b) && (Untouched(f, b) ==> Untouched(g, b)) && (Lost(g) <==> Lost(f))
  {
    assert SameAt(f, g, BindingFile) && SameAt(f, g, ArchiveFile(b.id, b.epoch)) && SameAt(f, g, ReceiptFile(b.id, b.epoch));
    assert SameAt(f, g, IntentFile(b.epoch + 1));
    forall e | e > b.epoch + 1 ensures IntentFile(e) !in g { assert SameAt(f, g, IntentFile(e)); }
  }

  lemma RestartAside(h: Hash, s: Site, w: World, c: Binding, env: Env)
    requires ReceiptRestart(h, s, w, c, env).Ok?
    ensures var r := ReceiptRestart(h, s, w, c, env).value;
            r.0.db == w.db && OnlyAside(w.files, r.0.files, c.epoch) && (r.1.Some? ==> r.1.value.RequestDoc?)
  {
  }

  lemma WriteAside(f: Files, g: Files, next: Files, path: Path, bytes: Bytes, epoch: int)
    requires OnlyAside(f, g, epoch) && Aside(path, epoch) && next == g[path := bytes] && NotIntent(bytes)
    ensures OnlyAside(f, next, epoch)
  {
  }

  lemma AsideThenAside(f: Files, g: Files, next: Files, epoch: int)
    requires OnlyAside(f, g, epoch) && OnlyAside(g, next, epoch)
    ensures OnlyAside(f, next, epoch)
  {
    forall path ensures SameAt(f, next, path) || (Aside(path, epoch) && path in next && NotIntent(next[path])) {
      if SameAt(g, next, path) && !SameAt(f, g, path) { assert path in g && NotIntent(g[path]); }
    }
  }

  lemma CompletionAside(f: Files, w: World, completed: Option<Doc>, epoch: int)
    requires OnlyAside(f, w.files, epoch) && (completed.Some? ==> completed.value.RequestDoc?)
    ensures OnlyAside(f, CompleteRequest(w, completed).files, epoch) && CompleteRequest(w, completed).db == w.db
  {
    if completed.Some? { WriteAside(f, w.files, CompleteRequest(w, completed).files, RequestFile, Line(completed.value), epoch); }
  }

  function Leased(w: World, b: Binding, env: Env): World {
    w.(files := w.files[LeaseFile := Line(LeaseDoc(b.id, b.epoch, env.now + env.leaseSeconds))])
  }

  /** The worlds a publication can stop in. */
  lemma PublishShape(h: Hash, s: Site, w: World, b: Binding, env: Env, fuel: nat, after: After)
    returns (receipted: World, completed: Option<Doc>)
    requires after == PublishFrom(h, s, w, b, env, fuel)
    ensures (receipted == Leased(w, b, env) && completed.None?) || ReceiptRestart(h, s, Leased(w, b, env), b, env) == Ok((receipted, completed))
    ensures var done := CompleteRequest(receipted, completed);
            after.w in {w, Leased(w, b, env), receipted, done, Beat(done, "exact_live", b.id, b.epoch, "exact_live")}
    ensures after.out != Fenced && after.out != Idle
  {
    var step := ReceiptRestart(h, s, Leased(w, b, env), b, env);
    receipted, completed := Leased(w, b, env), None;
    if step.Ok? { receipted, completed := step.value.0, step.value.1; }
  }

  /** Publishing a renewal keeps the rows and writes only files aside. */
  lemma PublishAside(h: Hash, s: Site, w: World, b: Binding, env: Env, fuel: nat, after: After)
    requires after == PublishFrom(h, s, w, b, env, fuel)
    ensures after.w.db == w.db && OnlyAside(w.files, after.w.files, b.epoch) && after.out != Fenced && after.out != Idle
  {
    var leased := Leased(w, b, env);
    WriteAside(w.files, w.files, leased.files, LeaseFile, leased.files[LeaseFile], b.epoch);
    var receipted, completed := PublishShape(h, s, w, b, env, fuel, after);
    ReceiptedAside(h, s, w, b, env, receipted, completed);
    CompletionAside(w.files, receipted, completed, b.epoch);
    var done := CompleteRequest(receipted, completed);
    var beat := Beat(done, "exact_live", b.id, b.epoch, "exact_live");
    WriteAside(w.files, done.files, beat.files, HeartbeatFile, beat.files[HeartbeatFile], b.epoch);
  }

  lemma ReceiptedAside(h: Hash, s: Site, w: World, b: Binding, env: Env, receipted: World, completed: Option<Doc>)
    requires OnlyAside(w.files, Leased(w, b, env).files, b.epoch)
    requires (receipted == Leased(w, b, env) && completed.None?) || ReceiptRestart(h, s, Leased(w, b, env), b, env) == Ok((receipted, completed))
    ensures receipted.db == w.db && OnlyAside(w.files, receipted.files, b.epoch) && (completed.Some? ==> completed.value.RequestDoc?)
  {
    if receipted != Leased(w, b, env) || completed.Some? {
      RestartAside(h, s, Leased(w, b, env), b, env);
      AsideThenAside(w.files, Leased(w, b, env).files, receipted.files, b.epoch);
    }
  }

  lemma RenewKeeps(h: Hash, s: Site, w: World, b: Binding, env: Env, fuel: nat, after: After)
    requires LiveWorld(h, s, w, b) && after == RenewFrom(h, s, w, b, env, fuel)
    ensures && LiveWorld(h, s, after.w, b) && OnlyAside(w.files, after.w.files, b.epoch)
            && (after.w.db == w.db || after.w.db == RenewedTo(w.db, b, env.now + env.leaseSeconds))
            && after.out != Fenced && after.out != Idle
            && (after.out == Renewed ==> after.w.db == RenewedTo(w.db, b, env.now + env.leaseSeconds))
  {
    var tx := RenewTx(w.db, b, env.now, env.leaseSeconds);
    if fuel > 0 && tx.Ok? {
      RenewLive(h, s, w.db, b, env.now, env.leaseSeconds);
      PublishAside(h, s, w.(db := tx.value), b, env, fuel - 1, after);
      AsideKeepsFacts(h, w.files, after.w.files, b);
    }
  }

  /** The rows after a tick: as before, renewed to one common expiry, or rolled back. */
  ghost predicate LiveOrFenced(h: Hash, s: Site, db: Db, next: World, b: Binding, env: Env)
    requires b.id in db.admissions && b.session in db.sessions && b.profile.worker in db.workers
  {
    || (LiveWorld(h, s, next, b) && (next.db == db || next.db == RenewedTo(db, b, env.now + env.leaseSeconds)))
    || (FencedWorld(h, s, next, b) && RevokeTx(db, b) == Ok(next.db))
  }

  /** What a tick on a live admission leaves behind; `steps` says that it had time to finish. */
  ghost predicate TickedLive(h: Hash, s: Site, db: Db, b: Binding, env: Env, steps: bool, after: After)
    requires b.id in db.admissions && b.session in db.sessions && b.profile.worker in db.workers
  {
    && LiveOrFenced(h, s, db, after.w, b, env) && after.out != Idle
    && (after.out == Fenced ==> FencedWorld(h, s, after.w, b) && Ready(h, after.w.files, b, FENCE_STEPS))
    && (after.out == Renewed ==> after.w.db == RenewedTo(db, b, env.now + env.leaseSeconds))
    && (Cooperative(env) && steps ==> after.out == Fenced)
    && (env.probe.state == Unprovable || (env.probe.state == ExactLive && !LineageBroken(JoinedLease(db, b)))
        ==> LiveWorld(h, s, after.w, b) && after.out != Fenced)
  }

  lemma FencedTick(h: Hash, s: Site, w: World, f: Fencing, fuel: nat, after: After)
    requires LiveWorld(h, s, w, f.b) && !Lost(w.files) && after == FenceFrom(h, s, w, f, 0, fuel)
    requires LineageBroken(JoinedLease(w.db, f.b)) || (f.env.probe.state != ExactLive && f.env.probe.state != Unprovable)
    requires f.env.probe.state != Unprovable
    ensures TickedLive(h, s, w.db, f.b, f.env, fuel >= FENCE_STEPS, after)
  {
    FenceLive(h, s, w, f, fuel, after);
  }

  lemma RenewedTick(h: Hash, s: Site, w: World, b: Binding, env: Env, fuel: nat, after: After)
    requires LiveWorld(h, s, w, b) && after == RenewFrom(h, s, w, b, env, fuel) && env.probe.state == ExactLive
    ensures TickedLive(h, s, w.db, b, env, fuel >= FENCE_STEPS, after)
  {
    RenewKeeps(h, s, w, b, env, fuel, after);
  }

  /** The inspection of a live epoch whose binding file is in place. */
  lemma InspectLive(h: Hash, s: Site, w: World, b: Binding, env: Env, fuel: nat, after: After)
    requires LiveWorld(h, s, w, b) && !Lost(w.files) && after == InspectFrom(h, s, w, b, env, fuel)
    ensures TickedLive(h, s, w.db, b, env, fuel >= FENCE_STEPS, after)
  {
    if env.probe.state == Unprovable {
    } else if LineageBroken(JoinedLease(w.db, b)) {
      FencedTick(h, s, w, Fencing(b, "lease_or_lineage_stale", env), fuel, after);
    } else if env.probe.state != ExactLive {
      FencedTick(h, s, w, Fencing(b, Label(env.probe.state), env), fuel, after);
    } else if env.probe.lock == Held {
      RenewedTick(h, s, w, b, env, fuel, after);
    }
  }

  /** A tick on `b` is an inspection or a resumed fence, after restoring a lost file. */
  lemma TickFinds(h: Hash, s: Site, w: World, b: Binding, env: Env, fuel: nat)
    requires Facts(h, w.files, b) && OwnRows(h, s, w.db, b) && Highest(s, w.db, b) && Answers(s, w.db, env.found)
    requires OnlyLive(s, w.db, b.id)
    ensures Tick(h, s, w, env, fuel) ==
            if Lost(w.files) then
              if fuel == 0 then After(w, Crashed) else InspectFrom(h, s, Restore(w, b), b, env, fuel - 1)
            else if w.files[BindingFile] == Stored(b) then InspectFrom(h, s, w, b, env, fuel)
            else FenceFrom(h, s, w, Fencing(b, "revoked", env), 0, fuel)
  {
    DecideFinds(h, s, w, b, env.found);
  }

  /** Every tick on a live admission does exactly one of three things, or dies while doing
      it: renew the three leases to one common expiry, roll back, or leave the rows. */
  lemma TickLive(h: Hash, s: Site, w: World, b: Binding, env: Env, fuel: nat)
    requires LiveWorld(h, s, w, b) && Answers(s, w.db, env.found)
    ensures TickedLive(h, s, w.db, b, env, fuel >= FENCE_STEPS + 1, Tick(h, s, w, env, fuel))
  {
    TickFinds(h, s, w, b, env, fuel);
    if !Lost(w.files) {
      PointerMeansArchive(h, w.files, b);
      InspectLive(h, s, w, b, env, fuel, Tick(h, s, w, env, fuel));
    } else if fuel > 0 {
      RestoredLive(h, s, w, b);
      InspectLive(h, s, Restore(w, b), b, env, fuel - 1, Tick(h, s, w, env, fuel));
    }
  }

  lemma PointerMeansArchive(h: Hash, files: Files, b: Binding)
    requires Facts(h, files, b) && !Lost(files) && !Archived(files, b)
    ensures files[BindingFile] == Stored(b)
  {
  }

  /** An admission whose rows are in order and whose exact process answers is never rolled
      back, whatever became of its binding file. */
  lemma NeverFencesLiveAuthority(h: Hash, s: Site, w: World, b: Binding, env: Env, fuel: nat)
    requires LiveWorld(h, s, w, b) && Answers(s, w.db, env.found)
    requires env.probe.state == ExactLive && w.db.workers[b.profile.worker].active
    ensures LiveWorld(h, s, Tick(h, s, w, env, fuel).w, b) && Tick(h, s, w, env, fuel).out != Fenced
  {
    TickLive(h, s, w, b, env, fuel);
    assert !LineageBroken(JoinedLease(w.db, b));
  }

  // ----------------------------------------------------- ticks after the rollback

  /** What a tick on a revoked epoch leaves behind: the rows, and every file written so far. */
  ghost predicate TickedRevoked(h: Hash, s: Site, w: World, b: Binding, env: Env, steps: bool, after: After) {
    && after.w.db == w.db && Facts(h, after.w.files, b) && Grows(w.files, after.w.files, b)
    && (after.out == Fenced ==> Ready(h, after.w.files, b, FENCE_STEPS))
    && (NoLive(w.db, s.company, SCRIBE) && Cooperative(env) && steps ==> after.out == Fenced)
    && after.out != Renewed && after.out != Idle
  }

  lemma InspectRevoked(h: Hash, s: Site, w: World, b: Binding, env: Env, fuel: nat, after: After)
    requires RevokedRows(h, s, w.db, b) && Facts(h, w.files, b) && !Lost(w.files)
    requires Receipted(w.files, b) || FencedRows(h, s, w.db, b)
    requires after == InspectFrom(h, s, w, b, env, fuel)
    ensures TickedRevoked(h, s, w, b, env, fuel >= FENCE_STEPS, after)
  {
    if env.probe.state != Unprovable {
      assert LineageBroken(JoinedLease(w.db, b));
      FenceRevoked(h, s, w, Fencing(b, "lease_or_lineage_stale", env), fuel, after);
    }
  }

  lemma GrowsThenGrows(f: Files, g: Files, next: Files, b: Binding)
    requires Grows(f, g, b) && Grows(g, next, b)
    ensures Grows(f, next, b)
  {
  }

  /** A tick on a revoked epoch keeps every row and never loses or alters a written file;
      with the process gone it completes the fence. */
  lemma TickRevoked(h: Hash, s: Site, w: World, b: Binding, env: Env, fuel: nat)
    requires RevokedRows(h, s, w.db, b) && Facts(h, w.files, b) && Highest(s, w.db, b) && NoLive(w.db, s.company, SCRIBE)
    requires Receipted(w.files, b) || FencedRows(h, s, w.db, b)
    requires Answers(s, w.db, env.found)
    ensures TickedRevoked(h, s, w, b, env, fuel >= FENCE_STEPS + 1, Tick(h, s, w, env, fuel))
  {
    TickFinds(h, s, w, b, env, fuel);
    var after := Tick(h, s, w, env, fuel);
    if Lost(w.files) {
      if fuel > 0 {
        RestoredFacts(h, w, b);
        InspectRevoked(h, s, Restore(w, b), b, env, fuel - 1, after);
        GrowsThenGrows(w.files, Restore(w, b).files, after.w.files, b);
      }
    } else if w.files[BindingFile] == Stored(b) {
      InspectRevoked(h, s, w, b, env, fuel, after);
    } else {
      FenceRevoked(h, s, w, Fencing(b, "revoked", env), fuel, after);
    }
  }

  // -------------------------------------------------- what a whole tick ends in

  lemma WholeFenceLive(h: Hash, s: Site, w: World, f: Fencing, fuel: nat, after: After)
    requires LiveWorld(h, s, w, f.b) && !Lost(w.files) && fuel >= FENCE_STEPS && after == FenceFrom(h, s, w, f, 0, fuel)
    ensures after.out == if f.env.quiescence.Some? then Fenced else Rejected
  {
    RevokeLive(h, s, w.db, f.b);
    var next := w.(db := RevokedTo(w.db, f.b));
    assert FenceStep(h, s, w, f, 0) == Ok(next);
    FenceRestIff(h, s, next, f, 1, fuel - 1, after);
  }

  lemma WholeFenceRevoked(h: Hash, s: Site, w: World, f: Fencing, fuel: nat, after: After)
    requires FencedWorld(h, s, w, f.b) && !Lost(w.files) && fuel >= FENCE_STEPS && after == FenceFrom(h, s, w, f, 0, fuel)
    ensures after.out == if Lets(w.files, f) then Fenced else Rejected
  {
    RevokeStepAgain(h, s, w, f);
    assert FenceStep(h, s, w, f, 0) == Ok(w);
    FenceRestIff(h, s, w, f, 1, fuel - 1, after);
  }

  /** The world in which the restart is receipted, once the leases are renewed. */
  function Published(w: World, b: Binding, env: Env): World
    requires b.id in w.db.admissions && b.session in w.db.sessions && b.profile.worker in w.db.workers
  {
    Leased(w.(db := RenewedTo(w.db, b, env.now + env.leaseSeconds)), b, env)
  }

  lemma WholeInspection(h: Hash, s: Site, w: World, b: Binding, env: Env, fuel: nat, out: Ended)
    requires LiveWorld(h, s, w, b) && !Lost(w.files) && fuel >= FENCE_STEPS && out == InspectFrom(h, s, w, b, env, fuel).out
    ensures var active := w.db.workers[b.profile.worker].active;
            && (out == Renewed <==>
                && env.probe == Probe(ExactLive, Held) && active && 30 <= env.leaseSeconds <= 300
                && ReceiptRestart(h, s, Published(w, b, env), b, env).Ok?)
            && (out == Fenced <==> env.probe.state != Unprovable && !(env.probe.state == ExactLive && active) && env.quiescence.Some?)
            && (out == Renewed || out == Fenced || out == Rejected)
  {
    var active := w.db.workers[b.profile.worker].active;
    assert LineageBroken(JoinedLease(w.db, b)) <==> !active;
    if env.probe.state != Unprovable && !active {
      WholeFenceLive(h, s, w, Fencing(b, "lease_or_lineage_stale", env), fuel, InspectFrom(h, s, w, b, env, fuel));
    } else if env.probe.state != Unprovable && env.probe.state != ExactLive {
      WholeFenceLive(h, s, w, Fencing(b, Label(env.probe.state), env), fuel, InspectFrom(h, s, w, b, env, fuel));
    } else if env.probe == Probe(ExactLive, Held) {
      var tx := RenewTx(w.db, b, env.now, env.leaseSeconds);
      RenewsWithin(h, s, w.db, b, env.now, env.leaseSeconds, tx);
      WholeRenewal(h, s, w, b, env, fuel, Published(w, b, env).db, ReceiptRestart(h, s, Published(w, b, env), b, env));
    }
  }

  lemma WholeRenewal(h: Hash, s: Site, w: World, b: Binding, env: Env, fuel: nat, renewed: Db, step: Result<(World, Option<Doc>)>)
    requires fuel >= FENCE_STEPS && step == ReceiptRestart(h, s, Leased(w.(db := renewed), b, env), b, env)
    requires RenewTx(w.db, b, env.now, env.leaseSeconds) == if 30 <= env.leaseSeconds <= 300 then Ok(renewed) else Refused
    ensures RenewFrom(h, s, w, b, env, fuel).out == if 30 <= env.leaseSeconds <= 300 && step.Ok? then Renewed else Rejected
  {
    RenewUnfolds(h, s, w, b, env, fuel, RenewTx(w.db, b, env.now, env.leaseSeconds));
    WholePublication(h, s, w.(db := renewed), b, env, fuel - 1, step);
  }

  lemma RenewsWithin(h: Hash, s: Site, db: Db, b: Binding, now: Time, seconds: int, tx: Result<Db>)
    requires LiveRows(h, s, db, b) && db.workers[b.profile.worker].active && tx == RenewTx(db, b, now, seconds)
    ensures tx == if 30 <= seconds <= 300 then Ok(RenewedTo(db, b, now + seconds)) else Refused
  {
  }

  lemma RenewUnfolds(h: Hash, s: Site, w: World, b: Binding, env: Env, fuel: nat, tx: Result<Db>)
    requires fuel > 0 && tx == RenewTx(w.db, b, env.now, env.leaseSeconds)
    ensures RenewFrom(h, s, w, b, env, fuel) ==
            if tx.Ok? then PublishFrom(h, s, w.(db := tx.value), b, env, fuel - 1) else After(w, Rejected)
  {
  }

  lemma WholePublication(h: Hash, s: Site, w: World, b: Binding, env: Env, fuel: nat, step: Result<(World, Option<Doc>)>)
    requires fuel >= 4 && step == ReceiptRestart(h, s, Leased(w, b, env), b, env)
    ensures PublishFrom(h, s, w, b, env, fuel).out == if step.Ok? then Renewed else Rejected
  {
  }

  /** What a whole tick on a live admission ends in, from what it finds: renewed exactly when the
      exact process holds the lock, the worker is active, the lease is an allowed one and a
      restart under way can be receipted; fenced exactly when the process is known not to be
      the exact one, or the worker is not active, and it is known how the process was
      stopped; and otherwise refused. */
  lemma TickLiveIff(h: Hash, s: Site, w: World, b: Binding, env: Env, fuel: nat, found: World, out: Ended)
    requires LiveWorld(h, s, w, b) && Answers(s, w.db, env.found) && fuel >= FENCE_STEPS + 1
    requires found == (if Lost(w.files) then Restore(w, b) else w) && out == Tick(h, s, w, env, fuel).out
    ensures var active := w.db.workers[b.profile.worker].active;
            && (out == Renewed <==>
                && env.probe == Probe(ExactLive, Held) && active && 30 <= env.leaseSeconds <= 300
                && ReceiptRestart(h, s, Published(found, b, env), b, env).Ok?)
            && (out == Fenced <==> env.probe.state != Unprovable && !(env.probe.state == ExactLive && active) && env.quiescence.Some?)
            && (out == Renewed || out == Fenced || out == Rejected)
  {
    TickFinds(h, s, w, b, env, fuel);
    if Lost(w.files) {
      RestoredLive(h, s, w, b);
      WholeInspection(h, s, found, b, env, fuel - 1, out);
    } else {
      PointerMeansArchive(h, w.files, b);
      WholeInspection(h, s, found, b, env, fuel, out);
    }
  }

  /** The same of a fenced epoch: a whole tick completes the fence exactly when the process lets it,
      and, where the binding file does not say already that it is revoked, an inspection tells. */
  lemma TickFencedIff(h: Hash, s: Site, w: World, b: Binding, env: Env, fuel: nat, out: Ended)
    requires FencedWorld(h, s, w, b) && Answers(s, w.db, env.found) && fuel >= FENCE_STEPS + 1 && out == Tick(h, s, w, env, fuel).out
    ensures out == if && (if Receipted(w.files, b) then Gone(env.after) else env.quiescence.Some?)
                      && (env.probe.state != Unprovable || (!Lost(w.files) && w.files[BindingFile] != Stored(b)))
                   then Fenced else Rejected
  {
    TickFinds(h, s, w, b, env, fuel);
    if Lost(w.files) {
      RestoredFacts(h, w, b);
      FencedInspection(h, s, Restore(w, b), b, env, fuel - 1, out);
    } else if w.files[BindingFile] == Stored(b) {
      FencedInspection(h, s, w, b, env, fuel, out);
    } else {
      WholeFenceRevoked(h, s, w, Fencing(b, "revoked", env), fuel, Tick(h, s, w, env, fuel));
    }
  }

  lemma FencedInspection(h: Hash, s: Site, w: World, b: Binding, env: Env, fuel: nat, out: Ended)
    requires FencedWorld(h, s, w, b) && !Lost(w.files) && fuel >= FENCE_STEPS && out == InspectFrom(h, s, w, b, env, fuel).out
    ensures out == if Lets(w.files, Fencing(b, "", env)) && env.probe.state != Unprovable then Fenced else Rejected
  {
    assert LineageBroken(JoinedLease(w.db, b));
    if env.probe.state != Unprovable {
      WholeFenceRevoked(h, s, w, Fencing(b, "lease_or_lineage_stale", env), fuel, InspectFrom(h, s, w, b, env, fuel));
    }
  }
}
