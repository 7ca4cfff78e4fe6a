/** Fleet manifests, their workers and the workers' sessions: provisioning, replacing,
    registering and opening, with the invariant that ties the three tables together. */
module FleetIdentity {
  import opened Outcome

  type Uuid = nat
  type Sha = string
  type Time = int

  datatype Fleet = Restaurant | Company
  datatype Standing = Active | Retired

  datatype Manifest = Manifest(tenant: string, fleet: Fleet, version: int, sha: Sha, standing: Standing, roles: map<string, Sha>)

  /** What a worker is, apart from its status and lease. */
  datatype Identity = Identity(model: string, effort: string, osPrincipal: string, root: string, dbPrincipal: string, key: string)

  datatype Worker = Worker(tenant: string, manifest: Uuid, fleet: Fleet, role: string, release: Sha, identity: Identity,
                           active: bool, token: Option<Uuid>, lease: Option<Time>)

  datatype SessionState = Starting | Running | Held | Ended
  datatype Session = Session(tenant: string, worker: Uuid, manifest: Uuid, role: string, release: Sha, state: SessionState,
                             token: Uuid, lease: Time)

  datatype Db = Db(manifests: map<Uuid, Manifest>, workers: map<Uuid, Worker>, sessions: map<Uuid, Session>)

  /** What a manifest's digest is taken of. */
  datatype Payload = Payload(tenant: string, fleet: Fleet, version: int, roles: map<string, Sha>, config: string)

  /** The reserved company tenant, the digest of a payload, and the manifest id made of
      tenant and digest. */
  datatype Naming = Naming(company: string, sha: Payload -> Sha, id: (string, Sha) -> Uuid)

  predicate ActiveOf(m: Manifest, tenant: string, fleet: Fleet) {
    m.standing == Active && m.tenant == tenant && m.fleet == fleet
  }

  /** What the query for the active manifest may answer. */
  ghost predicate Answers(db: Db, tenant: string, fleet: Fleet, found: Option<Uuid>) {
    match found
    case None => forall k | k in db.manifests :: !ActiveOf(db.manifests[k], tenant, fleet)
    case Some(id) => id in db.manifests && ActiveOf(db.manifests[id], tenant, fleet)
  }

  // ------------------------------------------------------------------ provisioning

  predicate Open(s: Session) {
    s.state != Ended
  }

  /** Retire one manifest: end its sessions, suspend its workers, mark it retired. */
  function Retire(db: Db, tenant: string, id: Uuid): Db
    requires id in db.manifests
  {
    Db(db.manifests[id := db.manifests[id].(standing := Retired)],
       map w | w in db.workers :: if db.workers[w].tenant == tenant && db.workers[w].manifest == id && db.workers[w].active
                                  then db.workers[w].(active := false, token := None, lease := None) else db.workers[w],
       map s | s in db.sessions :: if db.sessions[s].tenant == tenant && db.sessions[s].manifest == id && Open(db.sessions[s])
                                   then db.sessions[s].(state := Ended) else db.sessions[s])
  }

  function Insert(db: Db, id: Uuid, m: Manifest): Result<Db> {
    if id in db.manifests then Refused else Ok(db.(manifests := db.manifests[id := m]))
  }

  /** Create and activate a manifest, in place of the active one when told to. `proper` says
      that the enabled modules are among those of the fleet. */
  function Provision(n: Naming, db: Db, p: Payload, proper: bool, found: Option<Uuid>, replaceActive: bool): Result<(Db, Uuid)> {
    var _ :- Check((p.tenant == n.company <==> p.fleet == Company) && p.version >= 1 && proper);
    var sha := n.sha(p);
    var id := n.id(p.tenant, sha);
    var created := Manifest(p.tenant, p.fleet, p.version, sha, Active, p.roles);
    match found
    case None =>
      var next :- Insert(db, id, created);
      Ok((next, id))
    case Some(old0) =>
      var _ :- Check(old0 in db.manifests);
      if db.manifests[old0].sha == sha then Ok((db, old0))
      else
        var _ :- Check(replaceActive && p.version > db.manifests[old0].version);
        var next :- Insert(Retire(db, p.tenant, old0), id, created);
        Ok((next, id))
  }

  // ---------------------------------------------------------- workers and sessions

  /** `admitted` says that model, effort and database principal fit the role's release. */
  function Register(db: Db, tenant: string, manifest: Uuid, role: string, identity: Identity, admitted: bool, id: Uuid): Result<Db> {
    var _ :- Check(identity.root != "" && identity.root[0] == '/' && identity.key != "");
    var _ :- Check(
      && manifest in db.manifests && db.manifests[manifest].tenant == tenant && role in db.manifests[manifest].roles
      && db.manifests[manifest].standing == Active && admitted);
    var m := db.manifests[manifest];
    var worker := Worker(tenant, manifest, m.fleet, role, m.roles[role], identity, true, None, None);
    if id in db.workers then
      if db.workers[id].(token := None, lease := None) == worker then Ok(db) else Refused
    else Ok(db.(workers := db.workers[id := worker]))
  }

  function OpenSession(db: Db, tenant: string, worker: Uuid, admitted: bool, id: Uuid, token: Uuid, now: Time, lasting: int): Result<Db> {
    var _ :- Check(lasting > 0 && worker in db.workers && db.workers[worker].tenant == tenant);
    var w := db.workers[worker];
    var _ :- Check(
      && w.manifest in db.manifests && db.manifests[w.manifest].tenant == tenant && w.active
      && db.manifests[w.manifest].standing == Active && admitted && id !in db.sessions);
    Ok(db.(sessions := db.sessions[id := Session(tenant, worker, w.manifest, w.role, w.release, Running, token, now + lasting)],
           workers := db.workers[worker := w.(token := Some(token), lease := Some(now + lasting))]))
  }

  /** A session is ended by its lane; it is never opened again. */
  function EndSession(db: Db, id: Uuid): Result<Db> {
    if id in db.sessions then Ok(db.(sessions := db.sessions[id := db.sessions[id].(state := Ended)])) else Refused
  }

  // ------------------------------------------------------------------ the invariant

  ghost predicate OneActive(db: Db) {
    forall k, l | k in db.manifests && l in db.manifests ::
      ActiveOf(db.manifests[k], db.manifests[l].tenant, db.manifests[l].fleet) && db.manifests[l].standing == Active ==> k == l
  }

  /** A retired manifest was superseded: its fleet has an active one of a higher version. */
  ghost predicate Superseded(db: Db, id: Uuid)
    requires id in db.manifests
  {
    exists l | l in db.manifests ::
      ActiveOf(db.manifests[l], db.manifests[id].tenant, db.manifests[id].fleet) && db.manifests[l].version > db.manifests[id].version
  }

  ghost predicate OnActive(db: Db, tenant: string, manifest: Uuid) {
    manifest in db.manifests && db.manifests[manifest].standing == Active && db.manifests[manifest].tenant == tenant
  }

  ghost predicate Inv(db: Db) {
    && OneActive(db)
    && (forall k | k in db.manifests :: db.manifests[k].standing == Retired ==> Superseded(db, k))
    && (forall w | w in db.workers :: db.workers[w].active ==> OnActive(db, db.workers[w].tenant, db.workers[w].manifest))
    && (forall s | s in db.sessions :: Open(db.sessions[s]) ==> OnActive(db, db.sessions[s].tenant, db.sessions[s].manifest))
  }

  /** After retiring it, nothing is left on the old manifest. */
  lemma RetireClears(db: Db, id: Uuid)
    requires Inv(db) && id in db.manifests && db.manifests[id].standing == Active
    ensures var next := Retire(db, db.manifests[id].tenant, id);
            && (forall w | w in next.workers :: next.workers[w].active ==>
                  next.workers[w].manifest != id && OnActive(next, next.workers[w].tenant, next.workers[w].manifest))
            && (forall s | s in next.sessions :: Open(next.sessions[s]) ==>
                  next.sessions[s].manifest != id && OnActive(next, next.sessions[s].tenant, next.sessions[s].manifest))
  {
  }

  /** Inserting an active manifest of a higher version than its fleet ever had keeps the
      invariant, when the fleet has no active one. */
  lemma InsertKeeps(db: Db, id: Uuid, m: Manifest)
    requires id !in db.manifests && m.standing == Active
    requires OneActive(db)
    requires forall k | k in db.manifests :: !ActiveOf(db.manifests[k], m.tenant, m.fleet)
    requires forall k | k in db.manifests && db.manifests[k].tenant == m.tenant && db.manifests[k].fleet == m.fleet :: db.manifests[k].version < m.version
    requires forall k | k in db.manifests && !(db.manifests[k].tenant == m.tenant && db.manifests[k].fleet == m.fleet) ::
               db.manifests[k].standing == Retired ==> Superseded(db, k)
    requires forall w | w in db.workers :: db.workers[w].active ==> OnActive(db, db.workers[w].tenant, db.workers[w].manifest)
    requires forall s | s in db.sessions :: Open(db.sessions[s]) ==> OnActive(db, db.sessions[s].tenant, db.sessions[s].manifest)
    ensures Inv(db.(manifests := db.manifests[id := m]))
  {
    var next := db.(manifests := db.manifests[id := m]);
    forall k | k in next.manifests && next.manifests[k].standing == Retired ensures Superseded(next, k) {
      if db.manifests[k].tenant == m.tenant && db.manifests[k].fleet == m.fleet {
        assert ActiveOf(next.manifests[id], m.tenant, m.fleet);
      } else {
        var l :| l in db.manifests && ActiveOf(db.manifests[l], db.manifests[k].tenant, db.manifests[k].fleet)
                 && db.manifests[l].version > db.manifests[k].version;
        assert next.manifests[l] == db.manifests[l];
      }
    }
  }

  lemma RetireKeepsOthers(db: Db, id: Uuid)
    requires Inv(db) && id in db.manifests && db.manifests[id].standing == Active
    ensures var m := db.manifests[id];
            var next := Retire(db, m.tenant, id);
            && OneActive(next)
            && (forall k | k in next.manifests :: !ActiveOf(next.manifests[k], m.tenant, m.fleet))
            && (forall k | k in next.manifests && next.manifests[k].tenant == m.tenant && next.manifests[k].fleet == m.fleet ::
                  next.manifests[k].version <= m.version)
            && (forall k | k in next.manifests && !(next.manifests[k].tenant == m.tenant && next.manifests[k].fleet == m.fleet) ::
                  next.manifests[k].standing == Retired ==> Superseded(next, k))
  {
    var m := db.manifests[id];
    var next := Retire(db, m.tenant, id);
    forall k | k in db.manifests && db.manifests[k].tenant == m.tenant && db.manifests[k].fleet == m.fleet
      ensures db.manifests[k].version <= m.version
    {
      if k != id { assert db.manifests[k].standing == Retired && Superseded(db, k); }
    }
    forall k | k in next.manifests && !(next.manifests[k].tenant == m.tenant && next.manifests[k].fleet == m.fleet)
               && next.manifests[k].standing == Retired
      ensures Superseded(next, k)
    {
      var l :| l in db.manifests && ActiveOf(db.manifests[l], db.manifests[k].tenant, db.manifests[k].fleet)
               && db.manifests[l].version > db.manifests[k].version;
      assert next.manifests[l] == db.manifests[l];
    }
  }

  /** Provisioning and replacing keep the invariant. */
  lemma ProvisionKeeps(n: Naming, db: Db, p: Payload, proper: bool, found: Option<Uuid>, replaceActive: bool)
    requires Inv(db) && Answers(db, p.tenant, p.fleet, found)
    requires Provision(n, db, p, proper, found, replaceActive).Ok?
    ensures Inv(Provision(n, db, p, proper, found, replaceActive).value.0)
  {
    var id := n.id(p.tenant, n.sha(p));
    var created := Manifest(p.tenant, p.fleet, p.version, n.sha(p), Active, p.roles);
    match found
    case None =>
      forall k | k in db.manifests ensures !(db.manifests[k].tenant == p.tenant && db.manifests[k].fleet == p.fleet) {
        assert db.manifests[k].standing == Retired ==> Superseded(db, k);
      }
      InsertKeeps(db, id, created);
    case Some(old0) =>
      if db.manifests[old0].sha != n.sha(p) {
        RetireClears(db, old0);
        RetireKeepsOthers(db, old0);
        InsertKeeps(Retire(db, p.tenant, old0), id, created);
      }
  }

  lemma RegisterKeeps(db: Db, tenant: string, manifest: Uuid, role: string, identity: Identity, admitted: bool, id: Uuid)
    requires Inv(db) && Register(db, tenant, manifest, role, identity, admitted, id).Ok?
    ensures Inv(Register(db, tenant, manifest, role, identity, admitted, id).value)
  {
    SameManifests(db, Register(db, tenant, manifest, role, identity, admitted, id).value);
  }

  lemma SessionKeeps(db: Db, tenant: string, worker: Uuid, admitted: bool, id: Uuid, token: Uuid, now: Time, lasting: int)
    requires Inv(db) && OpenSession(db, tenant, worker, admitted, id, token, now, lasting).Ok?
    ensures Inv(OpenSession(db, tenant, worker, admitted, id, token, now, lasting).value)
  {
    SameManifests(db, OpenSession(db, tenant, worker, admitted, id, token, now, lasting).value);
  }

  /** What the invariant says of manifests alone carries over when they are unchanged. */
  lemma SameManifests(db: Db, next: Db)
    requires Inv(db) && next.manifests == db.manifests
    ensures OneActive(next) && forall k | k in next.manifests :: next.manifests[k].standing == Retired ==> Superseded(next, k)
  {
    forall k | k in next.manifests && next.manifests[k].standing == Retired ensures Superseded(next, k) {
      assert Superseded(db, k);
    }
  }

  // --------------------------------------------------------------------------- runs

  datatype Event =
    | ProvisionEvent(p: Payload, proper: bool, found: Option<Uuid>, replaceActive: bool)
    | RegisterEvent(tenant: string, manifest: Uuid, role: string, identity: Identity, admitted: bool, id: Uuid)
    | SessionEvent(of: string, worker: Uuid, fits: bool, session: Uuid, token: Uuid, now: Time, lasting: int)
    | EndEvent(ended: Uuid)

  function Next(n: Naming, db: Db, e: Event): Db {
    match e
    case ProvisionEvent(p, proper, found, r) =>
      (match Provision(n, db, p, proper, found, r) case Ok(next) => next.0 case Refused => db)
    case RegisterEvent(tenant, m, role, identity, admitted, id) =>
      (match Register(db, tenant, m, role, identity, admitted, id) case Ok(next) => next case Refused => db)
    case SessionEvent(tenant, w, fits, id, token, now, lasting) =>
      (match OpenSession(db, tenant, w, fits, id, token, now, lasting) case Ok(next) => next case Refused => db)
    case EndEvent(id) =>
      (match EndSession(db, id) case Ok(next) => next case Refused => db)
  }

  function Run(n: Naming, db: Db, es: seq<Event>): Db
    decreases |es|
  {
    if es == [] then db else Run(n, Next(n, db, es[0]), es[1..])
  }

  /** Queries answer from the tables as they are. */
  ghost predicate Truthful(n: Naming, db: Db, es: seq<Event>)
    decreases |es|
  {
    es == [] ||
    ((es[0].ProvisionEvent? ==> Answers(db, es[0].p.tenant, es[0].p.fleet, es[0].found)) && Truthful(n, Next(n, db, es[0]), es[1..]))
  }

  lemma NextKeeps(n: Naming, db: Db, e: Event)
    requires Inv(db) && (e.ProvisionEvent? ==> Answers(db, e.p.tenant, e.p.fleet, e.found))
    ensures Inv(Next(n, db, e))
  {
    match e
    case ProvisionEvent(p, proper, found, r) =>
      if Provision(n, db, p, proper, found, r).Ok? { ProvisionKeeps(n, db, p, proper, found, r); }
    case RegisterEvent(tenant, m, role, identity, admitted, id) =>
      if Register(db, tenant, m, role, identity, admitted, id).Ok? { RegisterKeeps(db, tenant, m, role, identity, admitted, id); }
    case SessionEvent(tenant, w, fits, id, token, now, lasting) =>
      if OpenSession(db, tenant, w, fits, id, token, now, lasting).Ok? { SessionKeeps(db, tenant, w, fits, id, token, now, lasting); }
    case EndEvent(id) =>
      if EndSession(db, id).Ok? { SameManifests(db, EndSession(db, id).value); }
  }

  /** The manifest is still there, unchanged apart from its standing. */
  ghost predicate Endures(db: Db, next: Db, id: Uuid) {
    && id in db.manifests && id in next.manifests
    && next.manifests[id] == db.manifests[id].(standing := next.manifests[id].standing)
  }

  lemma NextEndures(n: Naming, db: Db, e: Event)
    ensures forall id | id in db.manifests ::
              Endures(db, Next(n, db, e), id) && (db.manifests[id].standing == Retired ==> Next(n, db, e).manifests[id].standing == Retired)
  {
  }

  /** Over every run from empty tables or from any sound ones: one active manifest per tenant
      and fleet, each retired one superseded by a higher version, every active worker and
      every open session on an active manifest of its tenant; no manifest is ever changed or
      removed, and none comes back once retired. */
  lemma {:induction false} RunKeepsInv(n: Naming, db: Db, es: seq<Event>)
    requires Inv(db) && Truthful(n, db, es)
    ensures Inv(Run(n, db, es))
    ensures forall id | id in db.manifests ::
              Endures(db, Run(n, db, es), id) && (db.manifests[id].standing == Retired ==> Run(n, db, es).manifests[id].standing == Retired)
    decreases |es|
  {
    if es != [] {
      var next := Next(n, db, es[0]);
      NextKeeps(n, db, es[0]);
      NextEndures(n, db, es[0]);
      RunKeepsInv(n, next, es[1..]);
      forall id | id in db.manifests ensures Endures(db, Run(n, db, es), id) {
        assert Endures(db, next, id) && Endures(next, Run(n, next, es[1..]), id);
      }
    }
  }

  /** Replacement versions strictly increase: the manifest active later in a run is the one
      active before, or has a higher version. */
  lemma ActiveVersionsIncrease(n: Naming, db: Db, es: seq<Event>, before: Uuid, after: Uuid)
    requires Inv(db) && Truthful(n, db, es)
    requires before in db.manifests && db.manifests[before].standing == Active
    requires var end := Run(n, db, es);
             after in end.manifests && ActiveOf(end.manifests[after], db.manifests[before].tenant, db.manifests[before].fleet)
    ensures after == before || Run(n, db, es).manifests[after].version > db.manifests[before].version
  {
    RunKeepsInv(n, db, es);
    var end := Run(n, db, es);
    assert Endures(db, end, before);
    if after != before {
      assert end.manifests[before].standing == Retired;
      var l :| l in end.manifests && ActiveOf(end.manifests[l], end.manifests[before].tenant, end.manifests[before].fleet)
               && end.manifests[l].version > end.manifests[before].version;
      assert l == after;
    }
  }

  /** Provisioning the active content again changes nothing, and with any other content it
      is refused unless a replacement of a higher version is asked for. */
  lemma ProvisionAgainIff(n: Naming, db: Db, p: Payload, proper: bool, active: Uuid, replaceActive: bool)
    requires Inv(db) && Answers(db, p.tenant, p.fleet, Some(active)) && n.id(p.tenant, n.sha(p)) !in db.manifests
    requires (p.tenant == n.company <==> p.fleet == Company) && p.version >= 1 && proper
    ensures var r := Provision(n, db, p, proper, Some(active), replaceActive);
            && (db.manifests[active].sha == n.sha(p) ==> r == Ok((db, active)))
            && (db.manifests[active].sha != n.sha(p) ==>
                (r.Ok? <==> replaceActive && p.version > db.manifests[active].version))
            && (r.Ok? && db.manifests[active].sha != n.sha(p) ==>
                forall s | s in r.value.0.sessions :: r.value.0.sessions[s].manifest == active ==> !Open(r.value.0.sessions[s]))
  {
    if db.manifests[active].sha != n.sha(p) && replaceActive && p.version > db.manifests[active].version {
      RetireClears(db, active);
    }
  }

  /** What provisioning creates: the active manifest of this content under its own id; besides, only
      the manifest it replaces is retired, its active workers suspended and its open sessions
      ended. */
  lemma ProvisionCreates(n: Naming, db: Db, p: Payload, proper: bool, found: Option<Uuid>, replaceActive: bool, next: Db, id: Uuid)
    requires Inv(db) && Answers(db, p.tenant, p.fleet, found)
    requires Provision(n, db, p, proper, found, replaceActive) == Ok((next, id)) && next != db
    ensures id == n.id(p.tenant, n.sha(p)) && id !in db.manifests
    ensures next.manifests.Keys == db.manifests.Keys + {id} && next.manifests[id] == Manifest(p.tenant, p.fleet, p.version, n.sha(p), Active, p.roles)
    ensures forall k | k in db.manifests ::
              next.manifests[k] == if found == Some(k) then db.manifests[k].(standing := Retired) else db.manifests[k]
    ensures next.workers.Keys == db.workers.Keys && next.sessions.Keys == db.sessions.Keys
    ensures forall w | w in db.workers ::
              next.workers[w] == if db.workers[w].active && found == Some(db.workers[w].manifest)
                                 then db.workers[w].(active := false, token := None, lease := None) else db.workers[w]
    ensures forall s | s in db.sessions ::
              next.sessions[s] == if found == Some(db.sessions[s].manifest) && db.sessions[s].state != Ended
                                  then db.sessions[s].(state := Ended) else db.sessions[s]
  {
    if found.Some? {
      assert forall w | w in db.workers && db.workers[w].active :: OnActive(db, db.workers[w].tenant, db.workers[w].manifest);
      assert forall s | s in db.sessions && Open(db.sessions[s]) :: OnActive(db, db.sessions[s].tenant, db.sessions[s].manifest);
    }
  }

  // -------------------------------------------------------- workers and their leases

  /** A worker is registered exactly for a role of an active manifest of its tenant, with a rooted
      path and a key, if it is admitted and the id is free or has this very worker, active. */
  lemma RegisterIff(db: Db, tenant: string, manifest: Uuid, role: string, identity: Identity, admitted: bool, id: Uuid, r: Result<Db>)
    requires Inv(db) && r == Register(db, tenant, manifest, role, identity, admitted, id)
    ensures r.Ok? <==>
            && identity.root != "" && identity.root[0] == '/' && identity.key != "" && admitted
            && OnActive(db, tenant, manifest) && role in db.manifests[manifest].roles
            && (id in db.workers ==>
                && db.workers[id].active && db.workers[id].manifest == manifest && db.workers[id].tenant == tenant
                && db.workers[id].role == role && db.workers[id].release == db.manifests[manifest].roles[role]
                && db.workers[id].fleet == db.manifests[manifest].fleet && db.workers[id].identity == identity)
    ensures r.Ok? && id in db.workers ==> r == Ok(db)
    ensures r.Ok? && id !in db.workers ==>
              r == Ok(db.(workers := db.workers[id := Worker(tenant, manifest, db.manifests[manifest].fleet, role,
                                                             db.manifests[manifest].roles[role], identity, true, None, None)]))
  {
  }

  /** A session is opened exactly for an active worker of the tenant that is admitted, under a new id
      and for some time; its manifest is then sure to be the active one. The session runs
      until that time is over, and the worker holds its token for as long. */
  lemma SessionOpensIff(db: Db, tenant: string, worker: Uuid, admitted: bool, id: Uuid, token: Uuid, now: Time, lasting: int, r: Result<Db>)
    requires Inv(db) && r == OpenSession(db, tenant, worker, admitted, id, token, now, lasting)
    ensures r.Ok? <==>
            && lasting > 0 && admitted && id !in db.sessions
            && worker in db.workers && db.workers[worker].tenant == tenant && db.workers[worker].active
    ensures r.Ok? ==>
              var was, next := db.workers[worker], r.value;
              && next.manifests == db.manifests && OnActive(db, tenant, was.manifest)
              && next.sessions == db.sessions[id := Session(tenant, worker, was.manifest, was.role, was.release, Running, token, now + lasting)]
              && next.workers == db.workers[worker := Worker(tenant, was.manifest, was.fleet, was.role, was.release, was.identity, true,
                                                            Some(token), Some(now + lasting))]
  {
    assert worker in db.workers && db.workers[worker].active ==> OnActive(db, db.workers[worker].tenant, db.workers[worker].manifest);
  }

  /** A worker that holds a token got it with one of its own sessions, and until the same time. */
  ghost predicate Leased(db: Db) {
    forall w | w in db.workers ::
      (db.workers[w].token.Some? <==> db.workers[w].lease.Some?) && (db.workers[w].token.Some? ==> HasSession(db, w))
  }

  ghost predicate HasSession(db: Db, w: Uuid)
    requires w in db.workers
  {
    exists s | s in db.sessions ::
      && db.sessions[s].worker == w && db.sessions[s].tenant == db.workers[w].tenant
      && Some(db.sessions[s].token) == db.workers[w].token && Some(db.sessions[s].lease) == db.workers[w].lease
  }

  lemma SessionStays(db: Db, next: Db, w: Uuid)
    requires w in db.workers && w in next.workers && HasSession(db, w)
    requires next.workers[w].tenant == db.workers[w].tenant && next.workers[w].token == db.workers[w].token && next.workers[w].lease == db.workers[w].lease
    requires forall s | s in db.sessions :: s in next.sessions && next.sessions[s] == db.sessions[s].(state := next.sessions[s].state)
    ensures HasSession(next, w)
  {
    var s :| s in db.sessions && db.sessions[s].worker == w && db.sessions[s].tenant == db.workers[w].tenant
             && Some(db.sessions[s].token) == db.workers[w].token && Some(db.sessions[s].lease) == db.workers[w].lease;
    assert next.sessions[s].worker == w;
  }

  /** What an event does to sessions and to the workers that hold a token. */
  lemma NextLeased(n: Naming, db: Db, e: Event)
    requires Leased(db)
    ensures Leased(Next(n, db, e))
  {
    var next := Next(n, db, e);
    forall w | w in next.workers
      ensures (next.workers[w].token.Some? <==> next.workers[w].lease.Some?) && (next.workers[w].token.Some? ==> HasSession(next, w))
    {
      if e.SessionEvent? && next != db && w == e.worker {
        assert next.sessions[e.session].worker == w;
      } else if next.workers[w].token.Some? {
        SessionStays(db, next, w);
      }
    }
  }

  /** Over every run the leases of workers and sessions stay tied. */
  lemma {:induction false} RunKeepsLeased(n: Naming, db: Db, es: seq<Event>)
    requires Leased(db)
    ensures Leased(Run(n, db, es))
    decreases |es|
  {
    if es != [] {
      NextLeased(n, db, es[0]);
      RunKeepsLeased(n, Next(n, db, es[0]), es[1..]);
    }
  }

  // ---------------------------------------------------------------------- the class

  class Registry {
    var manifests: map<Uuid, Manifest>
    var workers: map<Uuid, Worker>
    var sessions: map<Uuid, Session>

    function Tables(): Db
      reads this
    {
      Db(manifests, workers, sessions)
    }

    constructor ()
      ensures Tables() == Db(map[], map[], map[]) && Inv(Tables())
    {
      manifests, workers, sessions := map[], map[], map[];
    }

    /** The three updates of a replacement, and the insert, in one transaction. */
    method ProvisionManifest(n: Naming, p: Payload, proper: bool, found: Option<Uuid>, replaceActive: bool) returns (r: Result<Uuid>)
      requires Inv(Tables()) && Answers(Tables(), p.tenant, p.fleet, found)
      modifies this
      ensures match Provision(n, old(Tables()), p, proper, found, replaceActive)
              case Ok(next) => Tables() == next.0 && r == Ok(next.1)
              case Refused => Tables() == old(Tables()) && r == Refused
      ensures Inv(Tables())
    {
      ghost var whole := Provision(n, Tables(), p, proper, found, replaceActive);
      if whole.Ok? { ProvisionKeeps(n, Tables(), p, proper, found, replaceActive); }
      if (p.tenant == n.company) != (p.fleet == Company) || p.version < 1 || !proper { return Refused; }
      var sha := n.sha(p);
      var id := n.id(p.tenant, sha);
      if found.Some? {
        var active := manifests[found.value];
        if active.sha == sha { return Ok(found.value); }
        if !replaceActive || p.version <= active.version || id in manifests { return Refused; }
        var retired := Retire(Db(manifests, workers, sessions), p.tenant, found.value);
        sessions := retired.sessions;
        workers := retired.workers;
        manifests := retired.manifests;
      } else if id in manifests {
        return Refused;
      }
      manifests := manifests[id := Manifest(p.tenant, p.fleet, p.version, sha, Active, p.roles)];
      return Ok(id);
    }

    method RegisterWorker(tenant: string, manifest: Uuid, role: string, identity: Identity, admitted: bool, id: Uuid) returns (ok: bool)
      requires Inv(Tables())
      modifies this`workers
      ensures match Register(old(Tables()), tenant, manifest, role, identity, admitted, id)
              case Ok(next) => Tables() == next && ok
              case Refused => Tables() == old(Tables()) && !ok
      ensures Inv(Tables())
    {
      ghost var whole := Register(Tables(), tenant, manifest, role, identity, admitted, id);
      if whole.Ok? { RegisterKeeps(Tables(), tenant, manifest, role, identity, admitted, id); }
      if identity.root == "" || identity.root[0] != '/' || identity.key == "" { return false; }
      if manifest !in manifests { return false; }
      var m := manifests[manifest];
      if m.tenant != tenant || role !in m.roles || m.standing != Active || !admitted { return false; }
      var worker := Worker(tenant, manifest, m.fleet, role, m.roles[role], identity, true, None, None);
      if id in workers { return workers[id].(token := None, lease := None) == worker; }
      workers := workers[id := worker];
      return true;
    }

    method OpenWorkerSession(tenant: string, worker: Uuid, admitted: bool, id: Uuid, token: Uuid, now: Time, lasting: int) returns (ok: bool)
      requires Inv(Tables())
      modifies this`workers, this`sessions
      ensures match OpenSession(old(Tables()), tenant, worker, admitted, id, token, now, lasting)
              case Ok(next) => Tables() == next && ok
              case Refused => Tables() == old(Tables()) && !ok
      ensures Inv(Tables())
    {
      ghost var whole := OpenSession(Tables(), tenant, worker, admitted, id, token, now, lasting);
      if whole.Ok? { SessionKeeps(Tables(), tenant, worker, admitted, id, token, now, lasting); }
      if lasting <= 0 || worker !in workers || workers[worker].tenant != tenant { return false; }
      var w := workers[worker];
      if w.manifest !in manifests || manifests[w.manifest].tenant != tenant || !w.active
         || manifests[w.manifest].standing != Active || !admitted || id in sessions {
        return false;
      }
      sessions := sessions[id := Session(tenant, worker, w.manifest, w.role, w.release, Running, token, now + lasting)];
      workers := workers[worker := w.(token := Some(token), lease := Some(now + lasting))];
      return true;
    }
  }
}
