/** The Scribe supervisor as the program runs it: one step after another on the database
    and the private files, until it ends or the process dies. */
module ScribeSupervisor {
  import opened Outcome
  import opened LaneRecords
  import opened ScribeLane

  class Supervisor {
    const h: Hash
    const s: Site
    var db: Db
    var files: Files
    /** How many more steps the process lives to take. */
    var fuel: nat

    function State(): World
      reads this
    {
      World(db, files)
    }

    /** The fence `f`, begun at step `i` in world `w` with `k` steps to live, has ended as
        `end` says, or has come to step `j`. */
    ghost predicate Came(w: World, k: nat, f: Fencing, i: nat, end: Option<Ended>, j: nat)
      requires i <= FENCE_STEPS && j <= FENCE_STEPS
      reads this
    {
      FenceFrom(h, s, w, f, i, k) ==
      match end
      case Some(e) => After(State(), e)
      case None => FenceFrom(h, s, State(), f, j, fuel)
    }

    constructor (h: Hash, s: Site, db: Db, files: Files)
      ensures this.h == h && this.s == s && State() == World(db, files) && fuel == 0
    {
      this.h, this.s, this.db, this.files, this.fuel := h, s, db, files, 0;
    }

    /** Take over an existing receipt, or revoke admission, session and worker lease. */
    method RevokeRows(f: Fencing) returns (end: Option<Ended>)
      modifies this
      ensures Came(old(State()), old(fuel), f, 0, end, 1)
      ensures files == old(files)
    {
      if fuel == 0 { return Some(Crashed); }
      var path := ReceiptFile(f.b.id, f.b.epoch);
      if path in files {
        var doc := Read(files, path);
        if doc.Refused? || !doc.value.ReceiptDoc? || !ReceiptNames(h, doc.value.receipt, f.b) { return Some(Rejected); }
      } else {
        var committed := RevokeTx(db, f.b);
        if committed.Refused? { return Some(Rejected); }
        db := committed.value;
      }
      fuel := fuel - 1;
      return None;
    }

    method Quiesce(f: Fencing) returns (end: Option<Ended>)
      modifies this
      ensures Came(old(State()), old(fuel), f, 1, end, 2)
      ensures State() == old(State())
    {
      if fuel == 0 { return Some(Crashed); }
      if ReceiptFile(f.b.id, f.b.epoch) !in files && f.env.quiescence.None? { return Some(Rejected); }
      fuel := fuel - 1;
      return None;
    }

    method ArchiveBinding(f: Fencing) returns (end: Option<Ended>)
      modifies this
      ensures Came(old(State()), old(fuel), f, 2, end, 3)
      ensures db == old(db)
    {
      if fuel == 0 { return Some(Crashed); }
      var archive := ArchiveFile(f.b.id, f.b.epoch);
      if BindingFile !in files {
        if archive !in files || files[archive] != Stored(f.b) { return Some(Rejected); }
      } else if IsPointer(files[BindingFile]) {
        if archive !in files || files[archive] != Stored(f.b)
           || Parse(files[BindingFile]) != Parse(PointerTo(h, f.b, files[archive])) {
          return Some(Rejected);
        }
      } else {
        if files[BindingFile] != Stored(f.b) && Parse(files[BindingFile]) != Some(BindingDoc(f.b)) { return Some(Rejected); }
        var written := WriteOnce(files, archive, files[BindingFile]);
        if written.Refused? { return Some(Rejected); }
        files := written.value;
      }
      fuel := fuel - 1;
      return None;
    }

    method WritePointer(f: Fencing) returns (end: Option<Ended>)
      modifies this
      ensures Came(old(State()), old(fuel), f, 3, end, 4)
      ensures db == old(db)
    {
      if fuel == 0 { return Some(Crashed); }
      var archive := ArchiveFile(f.b.id, f.b.epoch);
      if archive !in files { return Some(Rejected); }
      if BindingFile !in files || !IsPointer(files[BindingFile]) {
        files := files[BindingFile := PointerTo(h, f.b, files[archive])];
      }
      fuel := fuel - 1;
      return None;
    }

    method WriteReceipt(f: Fencing) returns (end: Option<Ended>)
      modifies this
      ensures Came(old(State()), old(fuel), f, 4, end, 5)
      ensures db == old(db)
    {
      if fuel == 0 { return Some(Crashed); }
      var b := f.b;
      var path := ReceiptFile(b.id, b.epoch);
      var archive := ArchiveFile(b.id, b.epoch);
      if !ClosedRows(s, db, b) || b.session !in db.sessions { return Some(Rejected); }
      var session := db.sessions[b.session];
      if path in files {
        if session.company != b.profile.company || session.state != Ended
           || f.env.after.state == ExactLive || f.env.after.state == Unprovable {
          return Some(Rejected);
        }
      } else {
        if archive !in files || db.admissions[b.id].b.epoch != b.epoch || f.env.quiescence.None? { return Some(Rejected); }
        var closure := Closure(b.approval, b.process, session.endedAt, f.env.snapshot, f.env.quiescence.value);
        files := files[path := Line(ReceiptDoc(ReceiptOf(h, b, files[archive], closure)))];
      }
      fuel := fuel - 1;
      return None;
    }

    method CreateRestartIntent(f: Fencing) returns (end: Option<Ended>)
      modifies this
      ensures Came(old(State()), old(fuel), f, 5, end, 6)
      ensures db == old(db)
    {
      if fuel == 0 { return Some(Crashed); }
      var receipt := LoadReceipt(h, files, ReceiptFile(f.b.id, f.b.epoch));
      if receipt.Refused? || !ContinuesBinding(receipt.value.basis, f.b) { return Some(Rejected); }
      var path := IntentFile(f.b.epoch + 1);
      var intent := IntentOf(h, f.b, receipt.value);
      var written := WriteOnce(files, path, Line(IntentDoc(intent)));
      if written.Refused? || LoadIntent(h, s, written.value, path) != Ok(intent) { return Some(Rejected); }
      files, fuel := written.value, fuel - 1;
      return None;
    }

    method Announce(f: Fencing) returns (end: Option<Ended>)
      modifies this
      ensures Came(old(State()), old(fuel), f, 6, end, FENCE_STEPS) && end.Some?
      ensures db == old(db)
    {
      if fuel == 0 { return Some(Crashed); }
      var receipt := LoadReceipt(h, files, ReceiptFile(f.b.id, f.b.epoch));
      var intent := LoadIntent(h, s, files, IntentFile(f.b.epoch + 1));
      if receipt.Refused? || intent.Refused? { return Some(Rejected); }
      files := files[RequestFile := Line(RequestDoc(
        Awaiting, f.b.root, f.b.id, f.b.epoch, f.b.epoch + 1, ReceiptFile(f.b.id, f.b.epoch), receipt.value.digest,
        IntentFile(f.b.epoch + 1), intent.value.digest, ""))];
      fuel := fuel - 1;
      assert Came(old(State()), old(fuel), f, 6, None, 7);
      if fuel == 0 { return Some(Crashed); }
      files := files[HeartbeatFile := Line(HeartbeatDoc("revoked-awaiting-restart", f.b.id, f.b.epoch, f.seen))];
      fuel := fuel - 1;
      assert Came(old(State()), old(fuel), f, 6, None, FENCE_STEPS);
      return Some(Fenced);
    }

    /** The whole fence, step after step. */
    method FenceAdmission(f: Fencing) returns (end: Ended)
      modifies this
      ensures After(State(), end) == FenceFrom(h, s, old(State()), f, 0, old(fuel))
    {
      var stopped := RevokeRows(f);
      if stopped.Some? { return stopped.value; }
      stopped := Quiesce(f);
      if stopped.Some? { return stopped.value; }
      stopped := ArchiveBinding(f);
      if stopped.Some? { return stopped.value; }
      stopped := WritePointer(f);
      if stopped.Some? { return stopped.value; }
      stopped := WriteReceipt(f);
      if stopped.Some? { return stopped.value; }
      stopped := CreateRestartIntent(f);
      if stopped.Some? { return stopped.value; }
      stopped := Announce(f);
      return stopped.value;
    }

    method PublishRenewal(b: Binding, env: Env) returns (end: Ended)
      modifies this
      ensures After(State(), end) == PublishFrom(h, s, old(State()), b, env, old(fuel))
    {
      if fuel == 0 { return Crashed; }
      files := files[LeaseFile := Line(LeaseDoc(b.id, b.epoch, env.now + env.leaseSeconds))];
      if fuel == 1 { return Crashed; }
      var receipted := ReceiptRestart(h, s, World(db, files), b, env);
      if receipted.Refused? { return Rejected; }
      files := receipted.value.0.files;
      if fuel == 2 { return Crashed; }
      if receipted.value.1.Some? { files := files[RequestFile := Line(receipted.value.1.value)]; }
      if fuel == 3 { return Crashed; }
      files := files[HeartbeatFile := Line(HeartbeatDoc("exact_live", b.id, b.epoch, "exact_live"))];
      return Renewed;
    }

    method RenewAdmission(b: Binding, env: Env) returns (end: Ended)
      modifies this
      ensures After(State(), end) == RenewFrom(h, s, old(State()), b, env, old(fuel))
    {
      if fuel == 0 { return Crashed; }
      var committed := RenewTx(db, b, env.now, env.leaseSeconds);
      if committed.Refused? { return Rejected; }
      db, fuel := committed.value, fuel - 1;
      end := PublishRenewal(b, env);
    }

    method Inspect(b: Binding, env: Env) returns (end: Ended)
      modifies this
      ensures After(State(), end) == InspectFrom(h, s, old(State()), b, env, old(fuel))
    {
      if env.probe.state == Unprovable { return Rejected; }
      if LineageBroken(JoinedLease(db, b)) {
        end := FenceAdmission(Fencing(b, "lease_or_lineage_stale", env));
      } else if env.probe.state != ExactLive {
        end := FenceAdmission(Fencing(b, Label(env.probe.state), env));
      } else if env.probe.lock != Held {
        end := Rejected;
      } else {
        end := RenewAdmission(b, env);
      }
    }

    /** Do what the verdict asks for, in a process with `fuel` steps to live. */
    method Perform(v: Verdict, env: Env) returns (end: Ended)
      modifies this
      ensures After(State(), end) == Act(h, s, old(State()), v, env, old(fuel))
    {
      match v {
        case Stuck => return Rejected;
        case Await =>
          if fuel == 0 { return Crashed; }
          files := files[HeartbeatFile := Line(HeartbeatDoc("awaiting-external-launch", 0, 0, "absent"))];
          return Idle;
        case Malformed =>
          if fuel == 0 { return Crashed; }
          files := files[HeartbeatFile := Line(HeartbeatDoc("held-malformed-binding", 0, 0, "unknown"))];
          return Rejected;
        case Resume(b) => end := FenceAdmission(Fencing(b, "revoked", env));
        case Inspect(b, restored) =>
          if restored {
            if fuel == 0 { return Crashed; }
            files, fuel := files[BindingFile := Stored(b)], fuel - 1;
          }
          end := Inspect(b, env);
      }
    }

    /** One supervisor tick in a process that dies after `steps` steps. */
    method SuperviseOnce(env: Env, steps: nat) returns (end: Ended)
      modifies this
      ensures After(State(), end) == Tick(h, s, old(State()), env, steps)
    {
      fuel := steps;
      end := Perform(Decide(h, s, World(db, files), env.found), env);
    }

    /** Admit a candidate: insert the row or find it inserted, then the lease pointer, then
        the binding file. */
    method AdmitCandidate(req: Request, m: Mandate, c: Binding, now: Time, steps: nat) returns (end: Ended)
      modifies this
      ensures After(State(), end) == Admit(h, old(State()), req, m, c, now, steps)
    {
      if steps == 0 { return Crashed; }
      var committed := AdmitTx(h, db, req, m, c, now);
      if committed.Refused? { return Rejected; }
      db := committed.value;
      if steps == 1 { return Crashed; }
      files := files[LeaseFile := Line(LeaseDoc(c.id, c.epoch, c.leaseExpires))];
      if steps == 2 { return Crashed; }
      files := files[BindingFile := Stored(c)];
      return Renewed;
    }

    /** Give up a lapsed candidate: end its session, take its lease from the worker, and
        remember it as abandoned. */
    method AbandonCandidate(prior: Uuid) returns (next: Db)
      requires prior in db.open
      ensures next == Abandon(db, prior)
    {
      var r := db.open[prior];
      var c := r.candidate;
      next := db;
      if c.session in next.sessions && next.sessions[c.session].state == Active {
        next := next.(sessions := next.sessions[c.session := next.sessions[c.session].(state := Ended)]);
      }
      if c.profile.worker in next.workers && next.workers[c.profile.worker].company == c.profile.company
         && next.workers[c.profile.worker].token == Some(c.token) {
        next := next.(workers := next.workers[c.profile.worker := next.workers[c.profile.worker].(token := None, lease := None)]);
      }
      next := next.(open := next.open - {prior}, abandoned := next.abandoned[c.id := r]);
    }

    /** Open a session for a new candidate over the rows of `draft`, and record it. */
    method OpenRecovery(draft: Db, intent: Intent, req: Request, ids: Fresh, now: Time, seconds: int) returns (c: Option<Binding>)
      modifies this
      ensures match NewRecovery(h, s, old(State()), draft, intent, req, ids, now, seconds)
              case Ok(r) => State() == r.0 && c == Some(r.1)
              case Refused => State() == old(State()) && c == None
      ensures files == old(files) && (c.Some? ==> db.admissions == draft.admissions)
      ensures c.Some? ==> intent.basis.prior in db.open && db.open[intent.basis.prior] == Recovery(c.value, req, Prepared)
    {
      var i := intent.basis;
      if !StaticExact(s, draft, i, req) { return None; }
      var candidate := Candidate(h, i, intent.digest, req, ids, now + seconds);
      var begun := OpenSession(draft, candidate, ids, now + seconds);
      if begun.Refused? { return None; }
      db := begun.value.(open := begun.value.open[i.prior := Recovery(candidate, req, Prepared)]);
      return Some(candidate);
    }

    /** Prepare the next epoch in one transaction: hand out the open candidate again, or open
        a session for a new candidate, in place of a lapsed one, and record it. */
    method PrepareCandidate(req: Request, m: Mandate, path: Path, ids: Fresh, now: Time, seconds: int) returns (c: Option<Binding>)
      modifies this
      ensures match PrepareRecovery(h, s, old(State()), req, m, path, ids, now, seconds)
              case Ok(r) => State() == r.0 && c == Some(r.1)
              case Refused => State() == old(State()) && c == None
      ensures files == old(files) && db.admissions == old(db.admissions)
      ensures c.Some? ==> exists prior | prior in db.open :: db.open[prior].candidate == c.value && db.open[prior].request == req
    {
      if seconds < 30 || seconds > 300 { return None; }
      var loaded := LoadIntent(h, s, files, path);
      if loaded.Refused? || !Unchanged(loaded.value.basis, req, m) { return None; }
      var i := loaded.value.basis;
      var draft := db;
      if i.prior in db.open {
        var r := db.open[i.prior];
        if Reusable(db, r, req, loaded.value.digest, now) {
          if !Fits(h, s, r.candidate) { return None; }
          return Some(r.candidate);
        }
        if r.state != Prepared || r.candidate.leaseExpires > now { return None; }
        draft := AbandonCandidate(i.prior);
      }
      c := OpenRecovery(draft, loaded.value, req, ids, now, seconds);
    }
  }
}
