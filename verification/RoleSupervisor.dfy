/** The role supervisor as the program runs it: one step after another on the database
    and the private files, until it ends or the process dies. */
module RoleSupervisor {
  import opened Outcome
  import opened LaneRecords
  import opened RoleLane

  class Supervisor {
    const h: Hash
    const p: Profile
    var db: Db
    var files: Files
    /** How many more steps the process lives to take. */
    var fuel: nat

    function State(): World
      reads this
    {
      World(db, files)
    }

    /** The fence `f`, begun at step `i` in world `w` with `k` steps to live, has ended as
        `end` says, or has come to step `j`. */
    ghost predicate Came(w: World, k: nat, f: Fencing, i: nat, end: Option<Ended>, j: nat)
      requires i <= FENCE_STEPS && j <= FENCE_STEPS
      reads this
    {
      FenceFrom(h, p, w, f, i, k) ==
      match end
      case Some(e) => After(State(), e)
      case None => FenceFrom(h, p, State(), f, j, fuel)
    }

    constructor (h: Hash, p: Profile, db: Db, files: Files)
      ensures this.h == h && this.p == p && State() == World(db, files) && fuel == 0
    {
      this.h, this.p, this.db, this.files, this.fuel := h, p, db, files, 0;
    }

    method RevokeRows(f: Fencing) returns (end: Option<Ended>)
      modifies this
      ensures Came(old(State()), old(fuel), f, 0, end, 1)
      ensures files == old(files)
    {
      if fuel == 0 { return Some(Crashed); }
      var holds := HoldsLock(f.env.second);
      if holds.Refused? || (holds.value && !f.authorityLost) { return Some(Rejected); }
      var committed := RevokeTx(db, p, f.b, f.env.now, holds.value);
      if committed.Refused? { return Some(Rejected); }
      db, fuel := committed.value, fuel - 1;
      return None;
    }

    method ArchiveBinding(f: Fencing) returns (end: Option<Ended>)
      modifies this
      ensures Came(old(State()), old(fuel), f, 1, end, 3)
      ensures db == old(db)
    {
      if fuel == 0 { return Some(Crashed); }
      var archive := ArchiveFile(f.b.id, f.b.epoch);
      if archive in files {
        if files[archive] != Stored(f.b) { return Some(Rejected); }
      } else {
        if BindingFile !in files || files[BindingFile] != Stored(f.b) { return Some(Rejected); }
        files := files[archive := Stored(f.b)];
      }
      fuel := fuel - 1;
      assert Came(old(State()), old(fuel), f, 1, None, 2);
      if fuel == 0 { return Some(Crashed); }
      files, fuel := files[BindingFile := PointerTo(h, p, f.b, files[archive])], fuel - 1;
      return None;
    }

    method WriteReceipt(f: Fencing) returns (end: Option<Ended>)
      modifies this
      ensures Came(old(State()), old(fuel), f, 3, end, 4)
      ensures db == old(db)
    {
      if fuel == 0 { return Some(Crashed); }
      var archive := ArchiveFile(f.b.id, f.b.epoch);
      var path := ReceiptFile(f.b.id, f.b.epoch);
      if archive !in files { return Some(Rejected); }
      var receipt := ReceiptOf(h, p, f.b, files[archive]);
      if path in files {
        if LoadReceipt(h, p, files, path) != Ok(receipt) { return Some(Rejected); }
      } else {
        files := files[path := Line(ReceiptDoc(receipt))];
      }
      fuel := fuel - 1;
      return None;
    }

    method CreateRestartIntent(f: Fencing) returns (end: Option<Ended>)
      modifies this
      ensures Came(old(State()), old(fuel), f, 4, end, 5)
      ensures db == old(db)
    {
      if fuel == 0 { return Some(Crashed); }
      var receipt := LoadReceipt(h, p, files, ReceiptFile(f.b.id, f.b.epoch));
      if receipt.Refused? || !ContinuesBinding(receipt.value.basis, f.b) { return Some(Rejected); }
      var path := IntentFile(f.b.epoch + 1);
      var intent := IntentOf(h, p, f.b, receipt.value);
      var written := WriteOnce(files, path, Line(IntentDoc(intent)));
      if written.Refused? || LoadIntent(h, p, written.value, path) != Ok(intent) { return Some(Rejected); }
      files, fuel := written.value, fuel - 1;
      return None;
    }

    method Announce(f: Fencing) returns (end: Option<Ended>)
      modifies this
      ensures Came(old(State()), old(fuel), f, 5, end, FENCE_STEPS) && end.Some?
      ensures db == old(db)
    {
      if fuel == 0 { return Some(Crashed); }
      var receipt := LoadReceipt(h, p, files, ReceiptFile(f.b.id, f.b.epoch));
      var intent := LoadIntent(h, p, files, IntentFile(f.b.epoch + 1));
      if receipt.Refused? || intent.Refused? { return Some(Rejected); }
      files := files[RequestFile := Line(RequestDoc(
        Awaiting, f.b.root, f.b.id, f.b.epoch, f.b.epoch + 1, ReceiptFile(f.b.id, f.b.epoch), receipt.value.digest,
        IntentFile(f.b.epoch + 1), intent.value.digest, f.seen))];
      fuel := fuel - 1;
      assert Came(old(State()), old(fuel), f, 5, None, 6);
      if fuel == 0 { return Some(Crashed); }
      files := files[HeartbeatFile := Line(HeartbeatDoc("revoked-awaiting-restart", f.b.id, f.b.epoch, f.seen))];
      fuel := fuel - 1;
      assert Came(old(State()), old(fuel), f, 5, None, FENCE_STEPS);
      return Some(Fenced);
    }

    method FenceAdmission(f: Fencing) returns (end: Ended)
      modifies this
      ensures After(State(), end) == FenceFrom(h, p, old(State()), f, 0, old(fuel))
    {
      var stopped := RevokeRows(f);
      if stopped.Some? { return stopped.value; }
      stopped := ArchiveBinding(f);
      if stopped.Some? { return stopped.value; }
      stopped := WriteReceipt(f);
      if stopped.Some? { return stopped.value; }
      stopped := CreateRestartIntent(f);
      if stopped.Some? { return stopped.value; }
      stopped := Announce(f);
      return stopped.value;
    }

    /** One supervisor tick in a process that dies after `steps` steps. */
    method SuperviseOnce(env: Env, steps: nat) returns (end: Ended)
      modifies this
      ensures After(State(), end) == Tick(h, p, old(State()), env, steps)
    {
      fuel := steps;
      match Decide(h, p, World(db, files), env) {
        case Hold => return Rejected;
        case Fence(f) => end := FenceAdmission(f);
        case Renew(b) =>
          if fuel == 0 { return Crashed; }
          var committed := RenewTx(db, p, b, env.now, env.leaseSeconds);
          if committed.Refused? { return Rejected; }
          db := committed.value;
          if fuel == 1 { return Crashed; }
          files := files[HeartbeatFile := Line(HeartbeatDoc("exact_live", b.id, b.epoch, "exact_live"))];
          return Renewed;
      }
    }

    /** Admit a prepared candidate: insert the row, then publish its binding file. */
    method AdmitCandidate(req: Request, c: Binding, now: Time, steps: nat) returns (end: Ended)
      modifies this
      ensures After(State(), end) == Admit(h, p, old(State()), req, c, now, steps)
    {
      if steps == 0 { return Crashed; }
      var committed := AdmitTx(h, p, db, req, c, now);
      if committed.Refused? { return Rejected; }
      db := committed.value;
      if steps == 1 { return Crashed; }
      files := files[BindingFile := Stored(c)];
      return Renewed;
    }

    /** Prepare the next epoch in one transaction: hand out the open candidate again, or end
        stale sessions, open one for a new candidate and record it. */
    method PrepareCandidate(req: Request, path: Path, ids: Fresh, now: Time, seconds: int) returns (c: Option<Binding>)
      modifies this
      ensures match PrepareRecovery(h, p, old(State()), req, path, ids, now, seconds)
              case Ok(r) => State() == r.0 && c == Some(r.1)
              case Refused => State() == old(State()) && c == None
      ensures files == old(files) && db.admissions == old(db.admissions)
      ensures c.Some? ==> exists prior | prior in db.open :: db.open[prior].candidate == c.value && db.open[prior].request == req
      ensures db != old(db) ==>
                p.mandate.id in old(db.mandates) && old(db.mandates)[p.mandate.id] == MandateRow(p.mandate.artifact, MandateActive, true)
    {
      if seconds < 30 || seconds > 300 { return None; }
      var loaded := LoadIntent(h, p, files, path);
      if loaded.Refused? || !Unchanged(loaded.value.basis, req, p, h) { return None; }
      var i := loaded.value.basis;
      if i.prior in db.open {
        var candidate := db.open[i.prior].candidate;
        if !Reusable(db, db.open[i.prior], req, loaded.value.digest, now) || !Fits(p, candidate) { return None; }
        return Some(candidate);
      }
      if !StaticExact(db, p, i, req) { return None; }
      var begun := OpenSession(EndStale(db, p, now), p, ids, now + seconds);
      if begun.Refused? || !MandateRegistrable(p, begun.value) { return None; }
      var candidate := Candidate(h, p, ids, i.release, req, i.nextEpoch, now + seconds, i.fence, i.root,
                                 Recovered(i.prior, ids.intentRow, i.receiptSha, loaded.value.digest));
      db := begun.value.(open := begun.value.open[i.prior := Recovery(candidate, req, Prepared)]);
      assert i.prior in db.open;
      return Some(candidate);
    }
  }
}
