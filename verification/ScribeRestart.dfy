/** The first renewals after a restart: receipt the restarted epoch once, and complete the
    request that awaited it. Every cycle of the lane leads there. */
module ScribeRestart {
  import opened Outcome
  import opened LaneRecords
  import opened ScribeLane
  import opened ScribePhases
  import opened ScribeRuns
  import opened ScribeEpochs
  import opened ScribeCycles

  /** The company snapshot that the rollback receipt of `b` recorded. */
  function Recorded(h: Hash, files: Files, b: Binding): Sha
    requires Receipted(files, b) && IsReceipt(h, files[ReceiptFile(b.id, b.epoch)], b)
  {
    TheReceipt(h, files, b).basis.closure.value.snapshot
  }

  /** The one restart receipt of the epoch `c` after `b`. */
  function TheRestart(h: Hash, files: Files, b: Binding, c: Binding): Bytes
    requires Receipted(files, b) && IsReceipt(h, files[ReceiptFile(b.id, b.epoch)], b) && c.authority.Recovered?
  {
    RestartOf(h, TheReceipt(h, files, b), c, Recorded(h, files, b))
  }

  /** The request of `b`, completed by that receipt. */
  function CompletedBy(h: Hash, files: Files, b: Binding, c: Binding): Doc
    requires Receipted(files, b) && IsReceipt(h, files[ReceiptFile(b.id, b.epoch)], b) && c.authority.Recovered?
  {
    var awaited := Awaited(h, files, b);
    awaited.(state := Completed(RestartReceiptFile(c.epoch), TheRestart(h, files, b, c).doc.restartSha))
  }

  /** The rows of `b` and of the epoch `c` admitted after it. */
  ghost predicate RestartedRows(h: Hash, s: Site, db: Db, b: Binding, c: Binding) {
    && RevokedRows(h, s, db, b) && LiveRows(h, s, db, c)
    && b.id in db.open && db.open[b.id].candidate == c && db.open[b.id].state == Consumed
    && MandateStands(db, c.profile.mandate) && db.workers[c.profile.worker].active
  }

  /** The files of the completed fence of `b` with `c` admitted after it. */
  ghost predicate FenceFiles(h: Hash, files: Files, b: Binding, c: Binding) {
    && Succeeds(h, files, b, c)
    && Intended(files, b) && files[IntentFile(b.epoch + 1)] == Line(IntentDoc(IntentOf(h, b, TheReceipt(h, files, b))))
    && RequestFile in files
  }

  /** The request still awaits the restart; its receipt may have been written already. */
  ghost predicate AwaitingFiles(h: Hash, files: Files, b: Binding, c: Binding) {
    && FenceFiles(h, files, b, c) && Requested(h, files, b)
    && (RestartReceiptFile(c.epoch) in files ==> files[RestartReceiptFile(c.epoch)] == TheRestart(h, files, b, c))
  }

  /** The restart is receipted, and its request completed. */
  ghost predicate CompletedFiles(h: Hash, files: Files, b: Binding, c: Binding) {
    && FenceFiles(h, files, b, c) && files[RequestFile] == Line(CompletedBy(h, files, b, c))
    && RestartReceiptFile(c.epoch) in files && files[RestartReceiptFile(c.epoch)] == TheRestart(h, files, b, c)
  }

  /** Where the restart of `c` after `b` stands, whatever crashed on the way. */
  ghost predicate Restarting(h: Hash, s: Site, w: World, b: Binding, c: Binding) {
    RestartedRows(h, s, w.db, b, c) && (AwaitingFiles(h, w.files, b, c) || CompletedFiles(h, w.files, b, c))
  }

  // ------------------------------------------------------------- the requests load

  lemma PartsLoad(h: Hash, s: Site, files: Files, b: Binding, c: Binding)
    requires Fits(h, s, b) && FenceFiles(h, files, b, c)
    ensures LoadReceipt(h, files, ReceiptFile(b.id, b.epoch)) == Ok(TheReceipt(h, files, b))
    ensures LoadIntent(h, s, files, IntentFile(b.epoch + 1)) == Ok(IntentOf(h, b, TheReceipt(h, files, b)))
    ensures ContinuesEpoch(TheReceipt(h, files, b), c)
  {
    var receipt := TheReceipt(h, files, b);
    assert LoadReceipt(h, files, ReceiptFile(b.id, b.epoch)) == Ok(receipt);
  }

  lemma AwaitedLoads(h: Hash, s: Site, files: Files, b: Binding, c: Binding)
    requires Fits(h, s, b) && AwaitingFiles(h, files, b, c)
    ensures LoadRequest(h, s, files) == Ok(Some(Awaited(h, files, b)))
  {
    PartsLoad(h, s, files, b, c);
  }

  /** The request completed by the restart receipt is itself accepted from then on. */
  lemma CompletedLoads(h: Hash, s: Site, files: Files, b: Binding, c: Binding)
    requires Fits(h, s, b) && CompletedFiles(h, files, b, c)
    ensures LoadRequest(h, s, files) == Ok(Some(CompletedBy(h, files, b, c)))
  {
    PartsLoad(h, s, files, b, c);
    assert LoadRestartReceipt(h, files, RestartReceiptFile(c.epoch)).Ok?;
  }

  // --------------------------------------------------------------- one publication

  /** The rows right after a renewal at `env.now` pass the restart check exactly when the
      snapshot is the one that the rollback receipt recorded. */
  lemma RestartExactIff(h: Hash, s: Site, db: Db, files: Files, b: Binding, c: Binding, env: Env)
    requires RestartedRows(h, s, db, b, c) && FenceFiles(h, files, b, c)
    requires db.admissions[c.id].lease > env.now && db.sessions[c.session].lease > env.now
    requires db.workers[c.profile.worker].lease.value > env.now
    ensures RestartExact(s, db, TheReceipt(h, files, b), c, env) <==> env.snapshot == Recorded(h, files, b)
  {
  }

  /** The restart is receipted exactly when its process holds the lock and the snapshot is
      unchanged, and then with the one receipt, whether or not it was there already. */
  lemma ReceiptRestartIff(h: Hash, s: Site, w: World, b: Binding, c: Binding, env: Env)
    requires RestartedRows(h, s, w.db, b, c) && AwaitingFiles(h, w.files, b, c)
    requires w.db.admissions[c.id].lease > env.now && w.db.sessions[c.session].lease > env.now
    requires w.db.workers[c.profile.worker].lease.value > env.now
    ensures ReceiptRestart(h, s, w, c, env) ==
            if env.after == Probe(ExactLive, Held) && env.snapshot == Recorded(h, w.files, b)
            then Ok((w.(files := w.files[RestartReceiptFile(c.epoch) := TheRestart(h, w.files, b, c)]), Some(CompletedBy(h, w.files, b, c))))
            else Refused
  {
    AwaitedLoads(h, s, w.files, b, c);
    PartsLoad(h, s, w.files, b, c);
    RestartExactIff(h, s, w.db, w.files, b, c, env);
    if RestartReceiptFile(c.epoch) in w.files {
      assert w.files[RestartReceiptFile(c.epoch) := TheRestart(h, w.files, b, c)] == w.files;
    }
  }

  /** Writing the lease or the heartbeat does not disturb the restart. */
  lemma AsideStays(h: Hash, files: Files, b: Binding, c: Binding, path: Path, bytes: Bytes)
    requires (path == LeaseFile || path == HeartbeatFile) && (AwaitingFiles(h, files, b, c) || CompletedFiles(h, files, b, c))
    ensures var next := files[path := bytes];
            && (AwaitingFiles(h, files, b, c) ==> AwaitingFiles(h, next, b, c))
            && (CompletedFiles(h, files, b, c) ==> CompletedFiles(h, next, b, c))
            && Recorded(h, next, b) == Recorded(h, files, b) && TheRestart(h, next, b, c) == TheRestart(h, files, b, c)
  {
  }

  /** The two writes of the restart: the receipt keeps the request awaiting, and the request
      completes it. */
  lemma RestartWrites(h: Hash, files: Files, b: Binding, c: Binding)
    requires AwaitingFiles(h, files, b, c)
    ensures var receipted := files[RestartReceiptFile(c.epoch) := TheRestart(h, files, b, c)];
            && AwaitingFiles(h, receipted, b, c)
            && CompletedFiles(h, receipted[RequestFile := Line(CompletedBy(h, files, b, c))], b, c)
  {
  }

  /** Whether the leases of `c` still run at `now`. */
  predicate LeasesRun(db: Db, c: Binding, now: Time) {
    && c.id in db.admissions && db.admissions[c.id].lease > now && c.session in db.sessions && db.sessions[c.session].lease > now
    && c.profile.worker in db.workers && db.workers[c.profile.worker].lease.Some? && db.workers[c.profile.worker].lease.value > now
  }

  /** The later files are of the same restart, and have not lost its completion. */
  ghost predicate GoesOn(h: Hash, f: Files, g: Files, b: Binding, c: Binding)
    requires FenceFiles(h, f, b, c) && FenceFiles(h, g, b, c)
  {
    && TheRestart(h, g, b, c) == TheRestart(h, f, b, c) && Recorded(h, g, b) == Recorded(h, f, b)
    && (CompletedFiles(h, f, b, c) ==> CompletedFiles(h, g, b, c))
  }

  /** The renewal ended renewed, with the restart completed, exactly if it was completed
      already, or the process is in place and the snapshot unchanged; else it refused. */
  ghost predicate EndsRestart(h: Hash, files: Files, b: Binding, c: Binding, env: Env, end: After)
    requires FenceFiles(h, files, b, c)
  {
    var good := env.after == Probe(ExactLive, Held) && env.snapshot == Recorded(h, files, b);
    && (end.out == Renewed <==> CompletedFiles(h, files, b, c) || good)
    && (end.out == Renewed ==> CompletedFiles(h, end.w.files, b, c))
    && (end.out != Renewed ==> end.out == Rejected)
  }

  /** A publication, dying anywhere or refused, leaves the restart under way; with the process
      in place, the snapshot unchanged and time enough, it leaves it completed. */
  lemma PublicationRestarts(h: Hash, s: Site, w: World, b: Binding, c: Binding, env: Env, fuel: nat, end: After)
    requires Restarting(h, s, w, b, c) && LeasesRun(w.db, c, env.now) && end == PublishFrom(h, s, w, c, env, fuel)
    ensures Restarting(h, s, end.w, b, c) && end.w.db == w.db && GoesOn(h, w.files, end.w.files, b, c)
    ensures fuel >= 4 ==> EndsRestart(h, w.files, b, c, env, end)
  {
    if fuel > 0 {
      var leased := Leased(w, c, env);
      AsideStays(h, w.files, b, c, LeaseFile, leased.files[LeaseFile]);
      assert Restarting(h, s, leased, b, c);
      if fuel > 1 { LeasedRestarts(h, s, leased, b, c, env, fuel, end); }
    }
  }

  lemma LeasedRestarts(h: Hash, s: Site, leased: World, b: Binding, c: Binding, env: Env, fuel: nat, end: After)
    requires Restarting(h, s, leased, b, c) && LeasesRun(leased.db, c, env.now) && fuel > 1
    requires end == match ReceiptRestart(h, s, leased, c, env)
                    case Refused => After(leased, Rejected)
                    case Ok(r) =>
                      if fuel == 2 then After(r.0, Crashed)
                      else if fuel == 3 then After(CompleteRequest(r.0, r.1), Crashed)
                      else After(Beat(CompleteRequest(r.0, r.1), "exact_live", c.id, c.epoch, "exact_live"), Renewed)
    ensures Restarting(h, s, end.w, b, c) && end.w.db == leased.db && GoesOn(h, leased.files, end.w.files, b, c)
    ensures fuel >= 4 ==> EndsRestart(h, leased.files, b, c, env, end)
  {
    if CompletedFiles(h, leased.files, b, c) {
      CompletedLoads(h, s, leased.files, b, c);
      assert ReceiptRestart(h, s, leased, c, env) == Ok((leased, None));
      AsideStays(h, leased.files, b, c, HeartbeatFile, Line(HeartbeatDoc("exact_live", c.id, c.epoch, "exact_live")));
    } else {
      ReceiptRestartIff(h, s, leased, b, c, env);
      RestartWrites(h, leased.files, b, c);
      var receipted := leased.files[RestartReceiptFile(c.epoch) := TheRestart(h, leased.files, b, c)];
      var completed := receipted[RequestFile := Line(CompletedBy(h, leased.files, b, c))];
      AsideStays(h, completed, b, c, HeartbeatFile, Line(HeartbeatDoc("exact_live", c.id, c.epoch, "exact_live")));
    }
  }

  // ---------------------------------------------------------------- the renewals

  lemma RenewedRows(h: Hash, s: Site, db: Db, b: Binding, c: Binding, expires: Time)
    requires RestartedRows(h, s, db, b, c)
    ensures RestartedRows(h, s, RenewedTo(db, c, expires), b, c)
  {
    var next := RenewedTo(db, c, expires);
    assert OwnRows(h, s, next, c);
    assert OwnRows(h, s, next, b);
  }

  lemma RenewalUnfolds(h: Hash, s: Site, w: World, c: Binding, env: Env, fuel: nat, end: After)
    requires LiveRows(h, s, w.db, c) && end == RenewFrom(h, s, w, c, env, fuel)
    ensures end.w == w || (fuel > 0 && 30 <= env.leaseSeconds <= 300
                           && end == PublishFrom(h, s, w.(db := RenewedTo(w.db, c, env.now + env.leaseSeconds)), c, env, fuel - 1))
    ensures fuel > 0 && 30 <= env.leaseSeconds <= 300 && w.db.workers[c.profile.worker].active ==>
              end == PublishFrom(h, s, w.(db := RenewedTo(w.db, c, env.now + env.leaseSeconds)), c, env, fuel - 1)
  {
    if RenewTx(w.db, c, env.now, env.leaseSeconds).Ok? { RenewLive(h, s, w.db, c, env.now, env.leaseSeconds); }
  }

  /** A renewal of the restarted epoch, wherever it dies, leaves the restart under way. Run to
      its end it renews the three leases in any case; it ends renewed, with the restart
      receipted and its request completed, exactly if it was completed already or the process
      is in place with the snapshot unchanged, and refuses otherwise. */
  lemma RenewalRestarts(h: Hash, s: Site, w: World, b: Binding, c: Binding, env: Env, fuel: nat, end: After)
    requires Restarting(h, s, w, b, c) && end == RenewFrom(h, s, w, c, env, fuel)
    ensures Restarting(h, s, end.w, b, c) && GoesOn(h, w.files, end.w.files, b, c)
    ensures fuel >= 5 && 30 <= env.leaseSeconds <= 300 ==>
              end.w.db == RenewedTo(w.db, c, env.now + env.leaseSeconds) && EndsRestart(h, w.files, b, c, env, end)
  {
    RenewalUnfolds(h, s, w, c, env, fuel, end);
    if end.w != w || (fuel > 0 && 30 <= env.leaseSeconds <= 300) { RenewalPublished(h, s, w, b, c, env, fuel, end); }
  }

  lemma RenewalPublished(h: Hash, s: Site, w: World, b: Binding, c: Binding, env: Env, fuel: nat, end: After)
    requires Restarting(h, s, w, b, c) && fuel > 0 && 30 <= env.leaseSeconds <= 300
    requires end == PublishFrom(h, s, w.(db := RenewedTo(w.db, c, env.now + env.leaseSeconds)), c, env, fuel - 1)
    ensures Restarting(h, s, end.w, b, c) && GoesOn(h, w.files, end.w.files, b, c)
    ensures end.w.db == RenewedTo(w.db, c, env.now + env.leaseSeconds)
    ensures fuel >= 5 ==> EndsRestart(h, w.files, b, c, env, end)
  {
    RenewedRows(h, s, w.db, b, c, env.now + env.leaseSeconds);
    PublicationRestarts(h, s, w.(db := RenewedTo(w.db, c, env.now + env.leaseSeconds)), b, c, env, fuel - 1, end);
  }

  // ------------------------------------------------------------ every run of ticks

  /** The binding file is not among the files of the restart. */
  lemma BindingAside(h: Hash, f: Files, g: Files, b: Binding, c: Binding)
    requires (AwaitingFiles(h, f, b, c) || CompletedFiles(h, f, b, c)) && forall path :: path != BindingFile ==> SameAt(f, g, path)
    ensures AwaitingFiles(h, f, b, c) ==> AwaitingFiles(h, g, b, c)
    ensures CompletedFiles(h, f, b, c) ==> CompletedFiles(h, g, b, c)
    ensures FenceFiles(h, g, b, c) && GoesOn(h, f, g, b, c)
  {
    assert SameAt(f, g, ReceiptFile(b.id, b.epoch)) && SameAt(f, g, IntentFile(b.epoch + 1));
    assert SameAt(f, g, RequestFile) && SameAt(f, g, RestartReceiptFile(c.epoch));
  }

  /** A restart under way in an epoch that is live. */
  ghost predicate LiveRestart(h: Hash, s: Site, w: World, b: Binding, c: Binding) {
    Restarting(h, s, w, b, c) && LiveWorld(h, s, w, c)
  }

  /** From one world to a later one: the epoch was rolled back, or its restart goes on. */
  ghost predicate StaysOrFenced(h: Hash, s: Site, w: World, next: World, b: Binding, c: Binding)
    requires LiveRestart(h, s, w, b, c)
  {
    FencedWorld(h, s, next, c) || (LiveRestart(h, s, next, b, c) && GoesOn(h, w.files, next.files, b, c))
  }

  /** An inspection that finds the exact process, or cannot tell. */
  predicate Gentle(env: Env) {
    env.probe.state == ExactLive || env.probe.state == Unprovable
  }

  lemma InspectRestarts(h: Hash, s: Site, w: World, b: Binding, c: Binding, env: Env, fuel: nat, end: After)
    requires LiveRestart(h, s, w, b, c) && !Lost(w.files) && end == InspectFrom(h, s, w, c, env, fuel)
    ensures StaysOrFenced(h, s, w, end.w, b, c) && (Gentle(env) ==> LiveWorld(h, s, end.w, c))
  {
    assert !LineageBroken(JoinedLease(w.db, c));
    if env.probe.state == Unprovable {
    } else if env.probe.state != ExactLive {
      FenceLive(h, s, w, Fencing(c, Label(env.probe.state), env), fuel, end);
    } else if env.probe.lock == Held {
      RenewKeeps(h, s, w, c, env, fuel, end);
      RenewalRestarts(h, s, w, b, c, env, fuel, end);
    }
  }

  lemma RestoreRestarts(h: Hash, s: Site, w: World, b: Binding, c: Binding)
    requires LiveRestart(h, s, w, b, c) && Lost(w.files)
    ensures LiveRestart(h, s, Restore(w, c), b, c) && !Lost(Restore(w, c).files) && GoesOn(h, w.files, Restore(w, c).files, b, c)
  {
    BindingAside(h, w.files, Restore(w, c).files, b, c);
    RestoredLive(h, s, w, c);
  }

  lemma StaysThenStays(h: Hash, s: Site, w: World, mid: World, end: World, b: Binding, c: Binding)
    requires LiveRestart(h, s, w, b, c) && LiveRestart(h, s, mid, b, c)
    requires GoesOn(h, w.files, mid.files, b, c) && StaysOrFenced(h, s, mid, end, b, c)
    ensures StaysOrFenced(h, s, w, end, b, c)
  {
  }

  /** A tick while the restart is under way rolls the epoch back, or the restart goes on. */
  lemma TickRestarts(h: Hash, s: Site, w: World, b: Binding, c: Binding, env: Env, fuel: nat, end: After)
    requires LiveRestart(h, s, w, b, c) && Answers(s, w.db, env.found) && end == Tick(h, s, w, env, fuel)
    ensures StaysOrFenced(h, s, w, end.w, b, c) && (Gentle(env) ==> LiveWorld(h, s, end.w, c))
  {
    TickFinds(h, s, w, c, env, fuel);
    if !Lost(w.files) {
      PointerMeansArchive(h, w.files, c);
      InspectRestarts(h, s, w, b, c, env, fuel, end);
    } else if fuel > 0 {
      RestoreRestarts(h, s, w, b, c);
      InspectRestarts(h, s, Restore(w, c), b, c, env, fuel - 1, end);
      StaysThenStays(h, s, w, Restore(w, c), end.w, b, c);
    }
  }

  lemma DisturbanceRestarts(h: Hash, s: Site, w: World, b: Binding, c: Binding, e: Event)
    requires LiveRestart(h, s, w, b, c) && Disturbance(w, s, e)
    ensures StaysOrFenced(h, s, w, Next(h, s, w, e), b, c)
    ensures (e.TickEvent? ==> Gentle(e.env)) ==> LiveWorld(h, s, Next(h, s, w, e), c)
  {
    match e
    case TickEvent(env, fuel) => TickRestarts(h, s, w, b, c, env, fuel, Tick(h, s, w, env, fuel));
    case LoseEvent(rest) =>
      LoseKeepsFacts(h, w.files, c, rest);
      BindingAside(h, w.files, Lose(w.files, rest), b, c);
    case _ =>
  }

  ghost predicate GentleRun(es: seq<Event>) {
    forall k | 0 <= k < |es| && es[k].TickEvent? :: Gentle(es[k].env)
  }

  lemma LiveIsNotFenced(h: Hash, s: Site, w: World, c: Binding)
    requires LiveWorld(h, s, w, c)
    ensures !FencedWorld(h, s, w, c)
  {
  }

  /** Any ticks, dying anywhere, and any losses of the binding file roll the epoch back, or leave
      its restart under way; ticks that find the exact process, or cannot tell, do the latter. */
  lemma {:induction false} RunRestarts(h: Hash, s: Site, w: World, b: Binding, c: Binding, es: seq<Event>, end: World)
    requires LiveRestart(h, s, w, b, c) && Disturbances(h, s, w, es) && end == Run(h, s, w, es)
    ensures StaysOrFenced(h, s, w, end, b, c) && (GentleRun(es) ==> LiveWorld(h, s, end, c))
    decreases |es|
  {
    if es != [] {
      var next := Next(h, s, w, es[0]);
      DisturbanceRestarts(h, s, w, b, c, es[0]);
      assert GentleRun(es) ==> GentleRun(es[1..]) && (es[0].TickEvent? ==> Gentle(es[0].env));
      if FencedWorld(h, s, next, c) {
        DisturbancesKeep(h, s, next, c, es[1..], end);
        if GentleRun(es) { LiveIsNotFenced(h, s, next, c); }
      } else {
        RunRestarts(h, s, next, b, c, es[1..], end);
        StaysThenStays(h, s, w, next, end, b, c);
      }
    }
  }

  /** A tick that finds the process in place and the snapshot unchanged completes the restart. */
  lemma GoodTickCompletes(h: Hash, s: Site, w: World, b: Binding, c: Binding, env: Env, fuel: nat, end: After)
    requires LiveRestart(h, s, w, b, c) && Answers(s, w.db, env.found) && end == Tick(h, s, w, env, fuel)
    requires fuel >= 6 && 30 <= env.leaseSeconds <= 300
    requires env.probe == env.after == Probe(ExactLive, Held) && env.snapshot == Recorded(h, w.files, b)
    ensures end.out == Renewed && CompletedFiles(h, end.w.files, b, c) && GoesOn(h, w.files, end.w.files, b, c)
  {
    assert !LineageBroken(JoinedLease(w.db, c));
    TickFinds(h, s, w, c, env, fuel);
    if !Lost(w.files) {
      PointerMeansArchive(h, w.files, c);
      RenewalRestarts(h, s, w, b, c, env, fuel, end);
    } else {
      RestoreRestarts(h, s, w, b, c);
      RenewalRestarts(h, s, Restore(w, c), b, c, env, fuel - 1, end);
    }
  }

  /** Convergence of the restart: any number of ticks, each dying anywhere (between the receipt
      and the request too), refused or renewing, and any losses of the binding file; then, unless
      one of them rolled the epoch back, a tick that finds the process in place and the snapshot
      unchanged completes the request, by the same receipt bytes as without any crash. Ticks that
      find the exact process, or cannot tell, never roll it back. */
  lemma RestartConverges(h: Hash, s: Site, w: World, b: Binding, c: Binding, es: seq<Event>, env: Env, fuel: nat)
    requires LiveRestart(h, s, w, b, c) && Disturbances(h, s, w, es) && Answers(s, Run(h, s, w, es).db, env.found)
    requires fuel >= 6 && 30 <= env.leaseSeconds <= 300
    requires env.probe == env.after == Probe(ExactLive, Held) && env.snapshot == Recorded(h, w.files, b)
    ensures var mid := Run(h, s, w, es);
            var end := Tick(h, s, mid, env, fuel);
            || FencedWorld(h, s, mid, c)
            || (end.out == Renewed && CompletedFiles(h, end.w.files, b, c)
                && end.w.files[RestartReceiptFile(c.epoch)] == TheRestart(h, w.files, b, c))
    ensures GentleRun(es) ==> !FencedWorld(h, s, Run(h, s, w, es), c)
  {
    var mid := Run(h, s, w, es);
    RunRestarts(h, s, w, b, c, es, mid);
    if GentleRun(es) { LiveIsNotFenced(h, s, mid, c); }
    if !FencedWorld(h, s, mid, c) { GoodTickCompletes(h, s, mid, b, c, env, fuel, Tick(h, s, mid, env, fuel)); }
  }

  // ------------------------------------------------------ every cycle leads there

  /** Between the fence of `b` and the admission of `c`, and right after it. */
  ghost predicate Handover(h: Hash, s: Site, db: Db, b: Binding, c: Binding) {
    && RevokedRows(h, s, db, b) && b.id in db.open && db.open[b.id].candidate == c
    && (db.open[b.id].state == Consumed <==> c.id in db.admissions)
  }

  lemma AdmitHandsOver(h: Hash, s: Site, w: World, b: Binding, c: Binding, req: Request, m: Mandate, at: Time, fuel: nat, end: After)
    requires Handover(h, s, w.db, b, c) && c.authority.Recovered? && c.authority.prior == b.id && end == Admit(h, w, req, m, c, at, fuel)
    ensures Handover(h, s, end.w.db, b, c)
    ensures forall path :: path != BindingFile && path != LeaseFile ==> SameAt(w.files, end.w.files, path)
  {
  }

  /** No restart of a later epoch than this one has a receipt. */
  ghost predicate Spare(files: Files, epoch: int) {
    forall e | e > epoch :: RestartReceiptFile(e) !in files
  }

  lemma SpareHandOver(f: Files, g: Files, epoch: int)
    requires Spare(f, epoch) && forall path :: path != BindingFile && path != LeaseFile ==> SameAt(f, g, path)
    ensures Spare(g, epoch)
  {
    forall e | e > epoch ensures RestartReceiptFile(e) !in g { assert SameAt(f, g, RestartReceiptFile(e)); }
  }

  lemma FilesHandOver(h: Hash, f: Files, g: Files, b: Binding, c: Binding)
    requires AwaitingFiles(h, f, b, c) && forall path :: path != BindingFile && path != LeaseFile ==> SameAt(f, g, path)
    ensures AwaitingFiles(h, g, b, c)
  {
    assert SameAt(f, g, ReceiptFile(b.id, b.epoch)) && SameAt(f, g, IntentFile(b.epoch + 1));
    assert SameAt(f, g, RequestFile) && SameAt(f, g, RestartReceiptFile(c.epoch));
  }

  /** From a complete fence whose next restart has no receipt yet, the admitted candidate is
      a restart under way. */
  lemma HandoverRestarts(h: Hash, s: Site, w: World, o: Binding, b: Binding, c: Binding, m: Mandate, x: Launch, end: After)
    requires In(h, s, w, PreparedPhase(b, c)) && Serviceable(s, w.db, o) && SameChain(o, b) && m == c.profile.mandate && x.attempts != []
    requires Complete(h, w.files, b) && Requested(h, w.files, b) && Spare(w.files, b.epoch) && c.epoch == b.epoch + 1
    requires var last := x.attempts[|x.attempts| - 1];
             && SameLaunch(last.req, c) && c.leaseExpires == last.at + last.seconds
             && x.admitAt < c.leaseExpires && (x.torn == 0 ==> x.retryAt < c.leaseExpires)
             && end == AdmitTwice(h, w, m, last.req, c, x.admitAt, x.torn, x.retryAt)
    ensures end.out == Renewed && Restarting(h, s, end.w, b, c) && In(h, s, end.w, LivePhase(c)) && SameChain(o, c)
    ensures Serviceable(s, end.w.db, o) && Kept(w.files, end.w.files) && Spare(end.w.files, c.epoch)
  {
    var req := x.attempts[|x.attempts| - 1].req;
    CandidateAdmitted(h, s, w, o, b, c, m, x, end);
    var first := Admit(h, w, req, m, c, x.admitAt, x.torn);
    AdmitHandsOver(h, s, w, b, c, req, m, x.admitAt, x.torn, first);
    AdmitHandsOver(h, s, first.w, b, c, req, m, x.retryAt, 3, end);
    FilesHandOver(h, w.files, first.w.files, b, c);
    FilesHandOver(h, first.w.files, end.w.files, b, c);
    SpareHandOver(w.files, first.w.files, b.epoch);
    SpareHandOver(first.w.files, end.w.files, b.epoch);
  }

  /** The complete, announced fence of `b` from which the launch `x` restarts the lane. */
  ghost predicate RelaunchReady(h: Hash, s: Site, w: World, o: Binding, b: Binding, x: Launch) {
    && In(h, s, w, FencedPhase(b)) && Complete(h, w.files, b) && Serviceable(s, w.db, o) && SameChain(o, b)
    && Requested(h, w.files, b) && Announces(w.files, IntentFile(b.epoch + 1)) && Spare(w.files, b.epoch)
    && x.attempts != [] && GoodAttempts(h, s, w, o, IntentFile(b.epoch + 1), x.attempts)
    && var last := x.attempts[|x.attempts| - 1];
       x.admitAt < last.at + last.seconds && (x.torn == 0 ==> x.retryAt < last.at + last.seconds)
  }

  lemma FenceReady(h: Hash, s: Site, w: World, o: Binding, b: Binding, x: Launch, fenced: After)
    requires In(h, s, w, LivePhase(b)) && Serviceable(s, w.db, o) && SameChain(o, b) && GoodLaunch(h, s, w, o, x)
    requires Spare(w.files, b.epoch) && fenced == FenceEnd(h, s, w, x)
    ensures fenced.out == Fenced && RelaunchReady(h, s, fenced.w, o, b, x)
  {
    FenceCompletes(h, s, w, o, b, x, fenced);
    FenceLeavesRestart(h, s, w, o, b, x, fenced);
    LaunchParts(h, s, w, o, x, fenced, IntentFile(b.epoch + 1));
  }

  lemma LaunchParts(h: Hash, s: Site, w: World, o: Binding, x: Launch, fenced: After, path: Path)
    requires GoodLaunch(h, s, w, o, x) && fenced == FenceEnd(h, s, w, x) && Announces(fenced.w.files, path)
    ensures x.attempts != [] && GoodAttempts(h, s, fenced.w, o, path, x.attempts)
    ensures var last := x.attempts[|x.attempts| - 1];
            x.admitAt < last.at + last.seconds && (x.torn == 0 ==> x.retryAt < last.at + last.seconds)
  {
  }

  lemma RelaunchRestarts(h: Hash, s: Site, w: World, o: Binding, b: Binding, x: Launch, end: Result<World>) returns (c: Binding)
    requires RelaunchReady(h, s, w, o, b, x) && end == Relaunch(h, s, w, o.profile.mandate, x)
    ensures end.Ok? && c.epoch == b.epoch + 1 && Restarting(h, s, end.value, b, c) && In(h, s, end.value, LivePhase(c))
    ensures SameChain(o, c) && Serviceable(s, end.value.db, o) && Spare(end.value.files, c.epoch)
  {
    var m := o.profile.mandate;
    var ready: World;
    ready, c := PreparesGo(h, s, w, o, b, x.attempts, Prepares(h, s, w, m, IntentFile(b.epoch + 1), x.attempts));
    RelaunchIs(h, s, w, m, x, IntentFile(b.epoch + 1), ready, c, end);
    HandoverRestarts(h, s, ready, o, b, c, m, x,
                     AdmitTwice(h, ready, m, x.attempts[|x.attempts| - 1].req, c, x.admitAt, x.torn, x.retryAt));
  }

  /** Every good cycle of the lane, as long as no later restart has a receipt yet, ends with its
      restart under way in a live epoch, and again without receipts of later ones. */
  lemma CycleRestarts(h: Hash, s: Site, w: World, o: Binding, b: Binding, x: Launch, end: Result<World>) returns (c: Binding)
    requires In(h, s, w, LivePhase(b)) && Serviceable(s, w.db, o) && SameChain(o, b) && GoodLaunch(h, s, w, o, x)
    requires Spare(w.files, b.epoch) && end == Cycle(h, s, w, o.profile.mandate, x)
    ensures end.Ok? && c.epoch == b.epoch + 1 && Restarting(h, s, end.value, b, c) && In(h, s, end.value, LivePhase(c))
    ensures SameChain(o, c) && Serviceable(s, end.value.db, o) && Spare(end.value.files, c.epoch)
  {
    var fenced := FenceEnd(h, s, w, x);
    FenceReady(h, s, w, o, b, x, fenced);
    c := RelaunchRestarts(h, s, fenced.w, o, b, x, end);
  }

  /** Over any number of cycles, if no receipt of a later restart is there at the start: the last
      of them leaves its restart under way in the epoch that is live then, ready to be completed
      as above. */
  lemma {:induction false} CyclesRestart(h: Hash, s: Site, w: World, o: Binding, b: Binding, xs: seq<Launch>, end: Result<World>)
    returns (prior: Binding, last: Binding)
    requires In(h, s, w, LivePhase(b)) && Serviceable(s, w.db, o) && SameChain(o, b) && GoodLaunches(h, s, w, o, xs)
    requires xs != [] && Spare(w.files, b.epoch) && end == Cycles(h, s, w, o.profile.mandate, xs)
    ensures end.Ok? && last.epoch == b.epoch + |xs| && LiveRestart(h, s, end.value, prior, last) && Spare(end.value.files, last.epoch)
    decreases |xs|
  {
    assert GoodThen(h, s, w, o, xs[0], xs[1..]);
    var cycle := Cycle(h, s, w, o.profile.mandate, xs[0]);
    var c := CycleRestarts(h, s, w, o, b, xs[0], cycle);
    assert end == CycleThen(h, s, w, o.profile.mandate, xs[0], xs[1..]);
    if |xs| == 1 {
      prior, last := b, c;
      assert xs[1..] == [];
    } else {
      prior, last := CyclesRestart(h, s, cycle.value, o, c, xs[1..], end);
    }
  }
}
