/** Signed, short-lived evidence tokens: canonical JSON, base64url, a keyed digest, a validity
    window, and a key ring with one bounded prior key. */
module EvidenceToken {
  import opened Outcome
  import opened Json
  import opened TextLines
  import opened Utf8
  import opened Base64

  // -------------------------------------------------------------------- claims

  /** A 128-bit identifier, and a time in microseconds with its zone offset, if it has one. */
  type Uuid = n: nat | n < 0x1_0000_0000_0000_0000_0000_0000_0000_0000 witness 0
  datatype Moment = Moment(instant: int, offset: Option<int>)

  const MINUTE := 60_000_000
  const MAX_TTL := 10 * MINUTE
  const MAX_TOKEN_LENGTH := 4096
  const MAX_REVISION := 0x7FFF_FFFF_FFFF_FFFF

  datatype Claims = Claims(
    purpose: string, tenant: string, objective: Uuid, revision: int, evidence: string, action: string, nonce: Uuid,
    session: string, csrf: string, issued: Moment, expires: Moment, bundle: Option<Uuid>, artifact: Option<Uuid>,
    approval: Option<Uuid>, manifest: Option<string>, artifactSha: Option<string>, receipt: Option<string>)

  /** Library services: identifier text and version, timestamps of UTC times, the keyed digest. */
  datatype Tools = Tools(uuidText: Uuid -> string, version4: Uuid -> bool, iso: int -> string, inRange: int -> bool,
                         mac: (Bytes, Bytes) -> Bytes)

  /** Printable ASCII that JSON writes as it is. */
  predicate Plain(s: string) {
    forall c | c in s :: 32 <= c as int < 127 && c != '"' && c != '\\'
  }

  /** Identifier and timestamp texts are fixed-size, plain, and tell their values apart. */
  ghost predicate Faithful(t: Tools) {
    && (forall m: Uuid, n: Uuid :: t.uuidText(m) == t.uuidText(n) ==> m == n)
    && (forall n: Uuid :: |t.uuidText(n)| == 36 && Plain(t.uuidText(n)))
    && (forall i, j :: t.inRange(i) && t.inRange(j) && t.iso(i) == t.iso(j) ==> i == j)
    && (forall i :: t.inRange(i) ==> |t.iso(i)| == 27 && Plain(t.iso(i)))
    && (forall key: Bytes, payload: Bytes :: |t.mac(key, payload)| == 32)
    && (forall n: Uuid :: t.version4(n) ==> n != 0)
  }

  predicate LowerOrDigit(c: char) {
    'a' <= c <= 'z' || '0' <= c <= '9'
  }

  predicate Hex64(s: string) {
    |s| == 64 && forall c | c in s :: '0' <= c <= '9' || 'a' <= c <= 'f'
  }

  predicate KeyId(s: string) {
    1 <= |s| <= 64 && LowerOrDigit(s[0]) && forall c | c in s :: LowerOrDigit(c) || c in {'.', '_', '-'}
  }

  predicate Environment(s: string) {
    1 <= |s| <= 32 && LowerOrDigit(s[0]) && forall c | c in s :: LowerOrDigit(c) || c in {'.', '_'}
  }

  predicate Action(s: string) {
    1 <= |s| <= 64 && 'a' <= s[0] <= 'z' && forall c | c in s :: LowerOrDigit(c) || c == '_'
  }

  const OPERATOR := "operator_action"
  const CURRENT := "current_artifact_download"
  const SUPERSEDED := "superseded_artifact_download"

  predicate OptionalHex(s: Option<string>) {
    s.Some? ==> Hex64(s.value)
  }

  predicate Aware(t: Tools, m: Moment) {
    m.offset.Some? && t.inRange(m.instant)
  }

  predicate ArtifactBound(c: Claims) {
    && c.bundle.Some? && c.artifact.Some? && c.approval.Some? && c.manifest.Some? && c.artifactSha.Some?
    && c.action == "download"
    && (c.purpose == CURRENT <==> c.receipt.None?)
    && OptionalHex(c.manifest) && OptionalHex(c.artifactSha) && OptionalHex(c.receipt)
    && c.bundle.value != 0 && c.artifact.value != 0 && c.approval.value != 0
  }

  /** Every check the claims have to pass before they are signed or returned. */
  predicate Valid(t: Tools, c: Claims) {
    && c.purpose in {OPERATOR, CURRENT, SUPERSEDED} && Hex64(c.tenant) && c.objective != 0
    && 1 <= c.revision <= MAX_REVISION && Hex64(c.evidence) && Action(c.action) && t.version4(c.nonce)
    && Hex64(c.session) && Hex64(c.csrf) && Aware(t, c.issued) && Aware(t, c.expires)
    && c.issued.instant < c.expires.instant <= c.issued.instant + MAX_TTL
    && (if c.purpose == OPERATOR
        then && c.action != "download" && c.bundle.None? && c.artifact.None? && c.approval.None?
             && c.manifest.None? && c.artifactSha.None? && c.receipt.None?
        else ArtifactBound(c))
  }

  function Utc(m: Moment): Moment {
    m.(offset := Some(0))
  }

  function UtcForm(c: Claims): Claims {
    c.(issued := Utc(c.issued), expires := Utc(c.expires))
  }

  // ------------------------------------------------------------------ documents

  /** The nineteen fields of a token document, in key order. */
  datatype Doc = Doc(
    action: Json, approval: Json, receipt: Json, artifact: Json, artifactSha: Json, bundle: Json, csrf: Json,
    evidence: Json, revision: Json, expires: Json, issued: Json, keyId: Json, manifest: Json, nonce: Json,
    objective: Json, purpose: Json, session: Json, tenant: Json, version: Json)

  const NAMES := [
    "action", "approval_id", "approval_receipt_sha256", "artifact_id", "artifact_sha256", "bundle_id",
    "csrf_context_sha256", "evidence_sha256", "expected_revision", "expires_at", "issued_at", "key_id",
    "manifest_sha256", "nonce", "objective_id", "purpose", "session_subject_sha256", "tenant_subject_sha256", "version"]

  function Values(d: Doc): seq<Json> {
    [d.action, d.approval, d.receipt, d.artifact, d.artifactSha, d.bundle, d.csrf, d.evidence, d.revision, d.expires,
     d.issued, d.keyId, d.manifest, d.nonce, d.objective, d.purpose, d.session, d.tenant, d.version]
  }

  function FieldsOf(names: seq<string>, values: seq<Json>): Fields
    requires |names| == |values|
  {
    if names == [] then NoFields else Field(names[0], values[0], FieldsOf(names[1..], values[1..]))
  }

  function Canonical(d: Doc): Bytes {
    Encode(Write(Obj(FieldsOf(NAMES, Values(d)))))
  }

  function OptionalText(s: Option<string>): Json {
    if s.None? then Null else Str(s.value)
  }

  function OptionalId(t: Tools, n: Option<Uuid>): Json {
    if n.None? then Null else Str(t.uuidText(n.value))
  }

  function DocOf(t: Tools, c: Claims, keyId: string): Doc {
    Doc(Str(c.action), OptionalId(t, c.approval), OptionalText(c.receipt), OptionalId(t, c.artifact),
        OptionalText(c.artifactSha), OptionalId(t, c.bundle), Str(c.csrf), Str(c.evidence), Int(c.revision),
        Str(t.iso(c.expires.instant)), Str(t.iso(c.issued.instant)), Str(keyId), OptionalText(c.manifest),
        Str(t.uuidText(c.nonce)), Str(t.uuidText(c.objective)), Str(c.purpose), Str(c.session), Str(c.tenant), Int(1))
  }

  lemma {:induction false} FieldsOfInjective(names: seq<string>, xs: seq<Json>, ys: seq<Json>)
    requires |names| == |xs| == |ys| && FieldsOf(names, xs) == FieldsOf(names, ys)
    ensures xs == ys
  {
    if names != [] {
      FieldsOfInjective(names[1..], xs[1..], ys[1..]);
      assert xs == [xs[0]] + xs[1..] && ys == [ys[0]] + ys[1..];
    }
  }

  lemma ValuesInjective(d: Doc, e: Doc)
    requires Values(d) == Values(e)
    ensures d == e
  {
    var x, y := Values(d), Values(e);
    assert x[0] == y[0] && x[1] == y[1] && x[2] == y[2] && x[3] == y[3] && x[4] == y[4] && x[5] == y[5] && x[6] == y[6];
    assert x[7] == y[7] && x[8] == y[8] && x[9] == y[9] && x[10] == y[10] && x[11] == y[11] && x[12] == y[12];
    assert x[13] == y[13] && x[14] == y[14] && x[15] == y[15] && x[16] == y[16] && x[17] == y[17] && x[18] == y[18];
  }

  /** Two documents with the same canonical bytes are the same. */
  lemma CanonicalInjective(d: Doc, e: Doc)
    requires Canonical(d) == Canonical(e)
    ensures d == e
  {
    var x, y := Obj(FieldsOf(NAMES, Values(d))), Obj(FieldsOf(NAMES, Values(e)));
    EncodeInjective(Write(x), Write(y));
    WriteInjective(x, y);
    FieldsOfInjective(NAMES, Values(d), Values(e));
    ValuesInjective(d, e);
  }

  /** The document whose canonical bytes these are, if its version and key id are in order. */
  ghost function ParseDocument(payload: Bytes): (r: Result<Doc>)
    ensures r.Ok? ==> Canonical(r.value) == payload && r.value.keyId.Str? && KeyId(r.value.keyId.s)
    ensures r.Refused? ==> forall d :: Canonical(d) == payload ==> !(d.version == Int(1) && d.keyId.Str? && KeyId(d.keyId.s))
  {
    if exists d :: Canonical(d) == payload && d.version == Int(1) && d.keyId.Str? && KeyId(d.keyId.s) then
      var d :| Canonical(d) == payload && d.version == Int(1) && d.keyId.Str? && KeyId(d.keyId.s);
      Ok(d)
    else Refused
  }

  /** The non-zero identifier that this text is the canonical form of. */
  ghost function Identifier(t: Tools, j: Json): (r: Result<Uuid>)
    ensures r.Ok? ==> r.value != 0 && j == Str(t.uuidText(r.value))
    ensures r.Refused? ==> forall n: Uuid :: n != 0 ==> j != Str(t.uuidText(n))
  {
    if exists n: Uuid :: n != 0 && j == Str(t.uuidText(n)) then
      var n: Uuid :| n != 0 && j == Str(t.uuidText(n));
      Ok(n)
    else Refused
  }

  ghost function OptionalIdentifier(t: Tools, j: Json): Result<Option<Uuid>> {
    if j.Null? then Ok(None)
    else
      var n :- Identifier(t, j);
      Ok(Some(n))
  }

  ghost function Timestamp(t: Tools, j: Json): (r: Result<Moment>)
    ensures r.Ok? ==> t.inRange(r.value.instant) && r.value.offset == Some(0) && j == Str(t.iso(r.value.instant))
    ensures r.Refused? ==> forall i :: t.inRange(i) ==> j != Str(t.iso(i))
  {
    if exists i :: t.inRange(i) && j == Str(t.iso(i)) then
      var i :| t.inRange(i) && j == Str(t.iso(i));
      Ok(Moment(i, Some(0)))
    else Refused
  }

  predicate OptionalDigest(j: Json) {
    j.Null? || (j.Str? && Hex64(j.s))
  }

  function TextOrNone(j: Json): Option<string>
    requires OptionalDigest(j)
  {
    if j.Null? then None else Some(j.s)
  }

  /** The claims of a signed document, after all checks. */
  ghost function ClaimsOf(t: Tools, d: Doc): Result<Claims> {
    var objective :- Identifier(t, d.objective);
    var bundle :- OptionalIdentifier(t, d.bundle);
    var artifact :- OptionalIdentifier(t, d.artifact);
    var approval :- OptionalIdentifier(t, d.approval);
    var nonce :- Identifier(t, d.nonce);
    var issued :- Timestamp(t, d.issued);
    var expires :- Timestamp(t, d.expires);
    var _ :- Check(
      && d.purpose.Str? && d.tenant.Str? && d.revision.Int? && d.evidence.Str? && d.action.Str? && d.session.Str? && d.csrf.Str?
      && OptionalDigest(d.manifest) && OptionalDigest(d.artifactSha) && OptionalDigest(d.receipt));
    var c := Claims(d.purpose.s, d.tenant.s, objective, d.revision.n, d.evidence.s, d.action.s, nonce, d.session.s, d.csrf.s,
                    issued, expires, bundle, artifact, approval, TextOrNone(d.manifest), TextOrNone(d.artifactSha),
                    TextOrNone(d.receipt));
    if Valid(t, c) then Ok(c) else Refused
  }

  /** Reading back the document of valid claims gives them in UTC form. */
  lemma ClaimsOfDoc(t: Tools, c: Claims, keyId: string)
    requires Faithful(t) && Valid(t, c)
    ensures ClaimsOf(t, DocOf(t, c, keyId)) == Ok(UtcForm(c))
  {
    var d := DocOf(t, c, keyId);
    IdentifierBack(t, c.objective);
    IdentifierBack(t, c.nonce);
    OptionalBack(t, c.bundle);
    OptionalBack(t, c.artifact);
    OptionalBack(t, c.approval);
    TimestampBack(t, c.issued);
    TimestampBack(t, c.expires);
    assert Valid(t, UtcForm(c));
  }

  lemma IdentifierBack(t: Tools, n: Uuid)
    requires Faithful(t) && n != 0
    ensures Identifier(t, Str(t.uuidText(n))) == Ok(n)
  {
  }

  lemma OptionalBack(t: Tools, n: Option<Uuid>)
    requires Faithful(t) && (n.Some? ==> n.value != 0)
    ensures OptionalIdentifier(t, OptionalId(t, n)) == Ok(n)
  {
    if n.Some? { IdentifierBack(t, n.value); }
  }

  lemma TimestampBack(t: Tools, m: Moment)
    requires Faithful(t) && t.inRange(m.instant)
    ensures Timestamp(t, Str(t.iso(m.instant))) == Ok(Utc(m))
  {
  }

  /** The other way: a document whose claims are accepted is the document of those claims. */
  lemma DocOfClaims(t: Tools, d: Doc)
    requires ClaimsOf(t, d).Ok? && d.version == Int(1) && d.keyId.Str?
    ensures d == DocOf(t, ClaimsOf(t, d).value, d.keyId.s)
  {
  }

  // ------------------------------------------------------------------- key ring

  datatype Reference = Reference(id: string, secretRef: string, version: string)
  datatype Ring = Ring(environment: string, active: Reference, prior: Option<Reference>, priorExpires: Option<Moment>)

  /** What the secret store answers for a reference and a version. */
  type Resolver = (string, string) -> Option<Bytes>

  predicate ValidReference(r: Reference, environment: string) {
    && KeyId(r.id) && r.secretRef == "mise-payroll-evidence-hmac-" + environment + "-" + r.id
    && r.version != "" && r.version == Strip(r.version) && |r.version| <= 128
  }

  /** The ring as it counts at time `now`: an expired prior key is dropped, one that would
      stay for more than thirty minutes refuses the whole ring. */
  function ValidRing(ring: Ring, now: Moment): Result<Ring> {
    var _ :- Check(Environment(ring.environment) && now.offset.Some? && ValidReference(ring.active, ring.environment));
    match ring.prior
    case None => if ring.priorExpires.None? then Ok(ring) else Refused
    case Some(prior) =>
      var _ :- Check(
        && ValidReference(prior, ring.environment) && prior.id != ring.active.id
        && ring.priorExpires.Some? && ring.priorExpires.value.offset.Some?);
      var expiry := ring.priorExpires.value;
      if expiry.instant <= now.instant then Ok(ring.(prior := None, priorExpires := None))
      else if expiry.instant > now.instant + 30 * MINUTE then Refused
      else Ok(ring.(priorExpires := Some(Utc(expiry))))
  }

  function KeyOf(resolve: Resolver, r: Reference): Result<Bytes> {
    match resolve(r.secretRef, r.version)
    case None => Refused
    case Some(key) => if |key| >= 32 then Ok(key) else Refused
  }

  // -------------------------------------------------------------- mint and verify

  function TokenOf(t: Tools, payload: Bytes, key: Bytes): string {
    Encode64(payload) + "." + Encode64(t.mac(key, payload))
  }

  function Mint(t: Tools, ring: Ring, resolve: Resolver, now: Moment, c: Claims): Result<string> {
    var current :- ValidRing(ring, now);
    var _ :- Check(Valid(t, c) && c.issued.instant <= now.instant < c.expires.instant);
    var key :- KeyOf(resolve, current.active);
    var token := TokenOf(t, Canonical(DocOf(t, c, current.active.id)), key);
    if |token| <= MAX_TOKEN_LENGTH then Ok(token) else Refused
  }

  datatype Context = Context(purpose: string, action: string, tenant: string, objective: Uuid, session: string, csrf: string)

  function ContextOf(c: Claims): Context {
    Context(c.purpose, c.action, c.tenant, c.objective, c.session, c.csrf)
  }

  /** The parts before and after the one dot of a token. */
  function SplitToken(token: string): Result<(string, string)> {
    if '.' !in token then Refused
    else
      var k := DotIn(token);
      if '.' in token[k + 1..] then Refused else Ok((token[..k], token[k + 1..]))
  }

  function DotIn(token: string): (k: nat)
    requires '.' in token
    ensures k < |token| && token[k] == '.' && '.' !in token[..k]
  {
    if token[0] == '.' then 0 else 1 + DotIn(token[1..])
  }

  /** The key a document may be verified with: the active one, or the prior within its time. */
  function Chosen(ring: Ring, now: Moment, keyId: string): Result<Reference> {
    if keyId == ring.active.id then Ok(ring.active)
    else if ring.prior.Some? && ring.priorExpires.Some? && now.instant < ring.priorExpires.value.instant && keyId == ring.prior.value.id
    then Ok(ring.prior.value) else Refused
  }

  /** The payload and signature a token carries, if it is well formed. */
  function Envelope(token: string): Result<(Bytes, Bytes)> {
    var _ :- Check(|token| <= MAX_TOKEN_LENGTH);
    var parts :- SplitToken(token);
    var payload :- Decode64(parts.0);
    var signature :- Decode64(parts.1);
    if |signature| == 32 then Ok((payload, signature)) else Refused
  }

  /** The claims of a signed payload, if its key is available and all of it checks out. */
  ghost function VerifyPayload(t: Tools, current: Ring, resolve: Resolver, now: Moment, payload: Bytes, signature: Bytes,
                               expected: Context): Result<Claims> {
    var d :- ParseDocument(payload);
    var reference :- Chosen(current, now, d.keyId.s);
    var key :- KeyOf(resolve, reference);
    var _ :- Check(t.mac(key, payload) == signature);
    var c :- ClaimsOf(t, d);
    var _ :- Check(c.issued.instant <= now.instant < c.expires.instant);
    if Hex64(expected.tenant) && Hex64(expected.session) && Hex64(expected.csrf) && ContextOf(c) == expected then Ok(c) else Refused
  }

  ghost function Verify(t: Tools, ring: Ring, resolve: Resolver, now: Moment, token: string, expected: Context): Result<Claims> {
    var current :- ValidRing(ring, now);
    var envelope :- Envelope(token);
    VerifyPayload(t, current, resolve, now, envelope.0, envelope.1, expected)
  }

  // ---------------------------------------------------------------- the envelope

  lemma NoDot(text: string)
    requires AllInAlphabet(text)
    ensures '.' !in text
  {
  }

  /** A token of two encoded parts splits back into them. */
  lemma EnvelopeOfToken(payload: Bytes, signature: Bytes, token: string)
    requires payload != [] && |signature| == 32 && token == Encode64(payload) + "." + Encode64(signature)
    requires |token| <= MAX_TOKEN_LENGTH
    ensures Envelope(token) == Ok((payload, signature))
  {
    var p, s := Encode64(payload), Encode64(signature);
    Length64(payload);
    Length64(signature);
    NoDot(p);
    NoDot(s);
    Base64Bijection(payload, "");
    Base64Bijection(signature, "");
    DotAt(token, p, s);
  }

  lemma DotAt(token: string, p: string, s: string)
    requires '.' !in p && '.' !in s && token == p + "." + s
    ensures SplitToken(token) == Ok((p, s))
  {
    assert token[|p|] == '.';
    var k := DotIn(token);
    assert token[..|p|] == p;
    assert forall i | 0 <= i < |p| :: token[i] == p[i] && p[i] != '.';
    assert forall i | 0 <= i < k :: token[..k][i] == token[i] && token[i] != '.';
    assert k == |p|;
    assert token[k + 1..] == s;
  }

  lemma SplitJoins(token: string)
    requires SplitToken(token).Ok?
    ensures var parts := SplitToken(token).value; token == parts.0 + "." + parts.1
  {
    var k := DotIn(token);
    assert token == token[..k] + "." + token[k + 1..];
  }

  /** A well-formed envelope comes from exactly one token. */
  lemma TokenOfEnvelope(token: string, payload: Bytes, signature: Bytes)
    requires Envelope(token) == Ok((payload, signature))
    ensures token == Encode64(payload) + "." + Encode64(signature)
  {
    var parts := SplitToken(token).value;
    SplitJoins(token);
    Base64Bijection([], parts.0);
    Base64Bijection([], parts.1);
  }

  lemma CanonicalNotEmpty(d: Doc)
    ensures Canonical(d) != []
  {
    FirstTells(Obj(FieldsOf(NAMES, Values(d))));
  }

  // ----------------------------------------------------------------- main results

  /** Verifying at a time in the token's window, with a ring that still has its key, gives
      back the claims in UTC form. */
  lemma VerifiesWithKey(t: Tools, c: Claims, token: string, key: Bytes, minted: Reference, ring: Ring, resolve: Resolver, now: Moment)
    requires Faithful(t) && Valid(t, c) && KeyId(minted.id)
    requires token == TokenOf(t, Canonical(DocOf(t, c, minted.id)), key) && |token| <= MAX_TOKEN_LENGTH
    requires ValidRing(ring, now).Ok? && Chosen(ValidRing(ring, now).value, now, minted.id) == Ok(minted)
    requires KeyOf(resolve, minted) == Ok(key) && c.issued.instant <= now.instant < c.expires.instant
    ensures Verify(t, ring, resolve, now, token, ContextOf(c)) == Ok(UtcForm(c))
  {
    var d := DocOf(t, c, minted.id);
    var payload := Canonical(d);
    CanonicalNotEmpty(d);
    EnvelopeOfToken(payload, t.mac(key, payload), token);
    var parsed := ParseDocument(payload);
    assert parsed.Ok?;
    CanonicalInjective(parsed.value, d);
    ClaimsOfDoc(t, c, minted.id);
  }

  /** A minted token is the one its claims and the active key determine. */
  lemma MintedIs(t: Tools, ring: Ring, resolve: Resolver, now: Moment, c: Claims, token: string)
    requires Mint(t, ring, resolve, now, c) == Ok(token)
    ensures Valid(t, c) && KeyId(ring.active.id) && KeyOf(resolve, ring.active).Ok? && |token| <= MAX_TOKEN_LENGTH
    ensures token == TokenOf(t, Canonical(DocOf(t, c, ring.active.id)), KeyOf(resolve, ring.active).value)
    ensures c.issued.instant <= now.instant < c.expires.instant && ValidRing(ring, now).Ok?
  {
  }

  /** Verify undoes mint: at every later moment of the window, under the same ring. */
  lemma VerifyUndoesMint(t: Tools, ring: Ring, resolve: Resolver, now: Moment, c: Claims, token: string, later: Moment)
    requires Faithful(t) && Mint(t, ring, resolve, now, c) == Ok(token)
    requires ValidRing(ring, later).Ok? && now.instant <= later.instant < c.expires.instant
    ensures Verify(t, ring, resolve, later, token, ContextOf(c)) == Ok(UtcForm(c))
  {
    MintedIs(t, ring, resolve, now, c, token);
    VerifiesWithKey(t, c, token, KeyOf(resolve, ring.active).value, ring.active, ring, resolve, later);
  }

  /** At time `now` the key of `r` may be used: it is the active one, or the prior one before its
      expiry, and the secret store has at least 32 bytes for it. */
  predicate Usable(ring: Ring, resolve: Resolver, now: Moment, r: Reference) {
    && (|| r == ring.active
        || (ring.prior == Some(r) && ring.priorExpires.Some? && now.instant < ring.priorExpires.value.instant))
    && resolve(r.secretRef, r.version).Some? && |resolve(r.secretRef, r.version).value| >= 32
  }

  /** The token is the one that valid claims of this context, in their window and in UTC form, and
      the usable key of `r` determine. */
  ghost predicate Determined(t: Tools, ring: Ring, resolve: Resolver, now: Moment, c: Claims, expected: Context, r: Reference,
                             token: string) {
    && Usable(ring, resolve, now, r)
    && Valid(t, c) && ContextOf(c) == expected && c.issued.offset == c.expires.offset == Some(0)
    && c.issued.instant <= now.instant < c.expires.instant
    && token == TokenOf(t, Canonical(DocOf(t, c, r.id)), resolve(r.secretRef, r.version).value)
  }

  /** Verify accepts a token, with these claims, exactly when it is the one that they and a usable
      key determine. */
  lemma VerifyIff(t: Tools, ring: Ring, resolve: Resolver, now: Moment, token: string, expected: Context, c: Claims)
    requires Faithful(t)
    ensures Verify(t, ring, resolve, now, token, expected) == Ok(c)
            <==> ValidRing(ring, now).Ok? && exists r :: Determined(t, ring, resolve, now, c, expected, r, token)
  {
    if Verify(t, ring, resolve, now, token, expected) == Ok(c) {
      var r := AcceptedIsTheToken(t, ring, resolve, now, token, expected, c);
      assert Determined(t, ring, resolve, now, c, expected, r, token);
    }
    if ValidRing(ring, now).Ok? && exists r :: Determined(t, ring, resolve, now, c, expected, r, token) {
      var r :| Determined(t, ring, resolve, now, c, expected, r, token);
      DeterminedVerifies(t, ring, resolve, now, token, expected, c, r);
    }
  }

  lemma DeterminedVerifies(t: Tools, ring: Ring, resolve: Resolver, now: Moment, token: string, expected: Context, c: Claims,
                           r: Reference)
    requires Faithful(t) && ValidRing(ring, now).Ok? && Determined(t, ring, resolve, now, c, expected, r, token)
    ensures Verify(t, ring, resolve, now, token, expected) == Ok(c)
  {
    var key := resolve(r.secretRef, r.version).value;
    UsableIsChosen(ring, resolve, now, r);
    TokensAreShort(t, c, r.id, key);
    VerifiesWithKey(t, c, token, key, r, ring, resolve, now);
    assert UtcForm(c) == c;
  }

  lemma UsableIsChosen(ring: Ring, resolve: Resolver, now: Moment, r: Reference)
    requires ValidRing(ring, now).Ok? && Usable(ring, resolve, now, r)
    ensures KeyId(r.id) && Chosen(ValidRing(ring, now).value, now, r.id) == Ok(r)
    ensures KeyOf(resolve, r) == Ok(resolve(r.secretRef, r.version).value)
  {
  }

  /** A ring is in order exactly when its environment and keys are, and a prior key, which has
      another id, comes with an expiry at most thirty minutes away. */
  lemma RingIff(ring: Ring, now: Moment)
    ensures ValidRing(ring, now).Ok? <==>
            && Environment(ring.environment) && now.offset.Some? && ValidReference(ring.active, ring.environment)
            && (ring.prior.Some? <==> ring.priorExpires.Some?)
            && (ring.prior.Some? ==>
                && ValidReference(ring.prior.value, ring.environment) && ring.prior.value.id != ring.active.id
                && ring.priorExpires.value.offset.Some? && ring.priorExpires.value.instant <= now.instant + 1_800_000_000)
  {
  }

  /** What an accepted token grants: for at most ten minutes from its issue, an operator
      action other than a download, bound to no artifact, or the download of one artifact, with
      the approval receipt exactly when the artifact is a superseded one. */
  lemma GrantedByToken(t: Tools, ring: Ring, resolve: Resolver, now: Moment, token: string, expected: Context, c: Claims)
    requires Verify(t, ring, resolve, now, token, expected) == Ok(c)
    ensures c.issued.instant <= now.instant < c.expires.instant <= c.issued.instant + 600_000_000
    ensures expected.purpose == "operator_action" ==>
            && expected.action != "download" && c.bundle == c.artifact == c.approval == None && c.manifest == c.artifactSha == c.receipt == None
    ensures expected.purpose != "operator_action" ==>
            && expected.action == "download" && c.bundle.Some? && c.artifact.Some? && c.approval.Some? && c.manifest.Some?
            && c.artifactSha.Some? && (c.receipt.Some? <==> expected.purpose == "superseded_artifact_download")
  {
    var r := AcceptedIsTheToken(t, ring, resolve, now, token, expected, c);
  }

  /** Tokens are not malleable: an accepted token is, character for character, the one that
      its claims and a usable key determine. */
  lemma AcceptedIsTheToken(t: Tools, ring: Ring, resolve: Resolver, now: Moment, token: string, expected: Context, c: Claims)
    returns (r: Reference)
    requires Verify(t, ring, resolve, now, token, expected) == Ok(c)
    ensures ValidRing(ring, now).Ok? && Determined(t, ring, resolve, now, c, expected, r, token)
  {
    var current, payload, signature := VerifiedEnvelope(t, ring, resolve, now, token, expected, c);
    r := AcceptedPayload(t, current, resolve, now, payload, signature, expected, c);
  }

  /** The ring, payload and signature an accepted token was verified with. */
  lemma VerifiedEnvelope(t: Tools, ring: Ring, resolve: Resolver, now: Moment, token: string, expected: Context, c: Claims)
    returns (current: Ring, payload: Bytes, signature: Bytes)
    requires Verify(t, ring, resolve, now, token, expected) == Ok(c)
    ensures token == Encode64(payload) + "." + Encode64(signature)
    ensures ValidRing(ring, now).Ok? && KeepsKeys(ring, now, current)
    ensures VerifyPayload(t, current, resolve, now, payload, signature, expected) == Ok(c)
  {
    current, payload, signature := VerifyUnfolds(t, ring, resolve, now, token, expected, c);
    RingKeepsKeys(ring, now, current);
    TokenOfEnvelope(token, payload, signature);
  }

  /** A ring as it counts now has the keys of the configured one that are not expired. */
  predicate KeepsKeys(ring: Ring, now: Moment, current: Ring) {
    && current.active == ring.active
    && (current.prior.Some? ==>
        current.prior == ring.prior && ring.priorExpires.Some? && now.instant < ring.priorExpires.value.instant)
  }

  lemma RingKeepsKeys(ring: Ring, now: Moment, current: Ring)
    requires ValidRing(ring, now) == Ok(current)
    ensures KeepsKeys(ring, now, current)
  {
  }

  lemma VerifyUnfolds(t: Tools, ring: Ring, resolve: Resolver, now: Moment, token: string, expected: Context, c: Claims)
    returns (current: Ring, payload: Bytes, signature: Bytes)
    requires Verify(t, ring, resolve, now, token, expected) == Ok(c)
    ensures ValidRing(ring, now) == Ok(current) && Envelope(token) == Ok((payload, signature))
    ensures VerifyPayload(t, current, resolve, now, payload, signature, expected) == Ok(c)
  {
    current := ValidRing(ring, now).value;
    payload, signature := Envelope(token).value.0, Envelope(token).value.1;
  }

  lemma AcceptedPayload(t: Tools, ring: Ring, resolve: Resolver, now: Moment, payload: Bytes, signature: Bytes, expected: Context,
                        c: Claims) returns (r: Reference)
    requires VerifyPayload(t, ring, resolve, now, payload, signature, expected) == Ok(c)
    ensures Valid(t, c) && ContextOf(c) == expected && c.issued.offset == c.expires.offset == Some(0)
    ensures c.issued.instant <= now.instant < c.expires.instant
    ensures (r == ring.active || (ring.prior.Some? && r == ring.prior.value)) && KeyOf(resolve, r).Ok?
    ensures payload == Canonical(DocOf(t, c, r.id)) && signature == t.mac(KeyOf(resolve, r).value, payload)
  {
    var d: Doc;
    var key: Bytes;
    d, r, key := VerifiedParts(t, ring, resolve, now, payload, signature, expected);
    DocOfClaims(t, d);
    ClaimsInUtc(t, d);
  }

  lemma ClaimsInUtc(t: Tools, d: Doc)
    requires ClaimsOf(t, d).Ok?
    ensures var c := ClaimsOf(t, d).value; c.issued.offset == c.expires.offset == Some(0)
  {
  }

  /** What an accepted payload was found to consist of. */
  lemma VerifiedParts(t: Tools, ring: Ring, resolve: Resolver, now: Moment, payload: Bytes, signature: Bytes, expected: Context)
    returns (d: Doc, r: Reference, key: Bytes)
    requires VerifyPayload(t, ring, resolve, now, payload, signature, expected).Ok?
    ensures payload == Canonical(d) && signature == t.mac(key, payload) && d.version == Int(1) && d.keyId == Str(r.id)
    ensures KeyOf(resolve, r) == Ok(key) && (r == ring.active || (ring.prior.Some? && r == ring.prior.value))
    ensures ClaimsOf(t, d) == VerifyPayload(t, ring, resolve, now, payload, signature, expected)
    ensures var c := ClaimsOf(t, d).value;
            Valid(t, c) && ContextOf(c) == expected && c.issued.instant <= now.instant < c.expires.instant
  {
    d := ParseDocument(payload).value;
    ParsedVersion(payload);
    r := Chosen(ring, now, d.keyId.s).value;
    key := KeyOf(resolve, r).value;
  }

  lemma ParsedVersion(payload: Bytes)
    requires ParseDocument(payload).Ok?
    ensures ParseDocument(payload).value.version == Int(1)
  {
  }

  // ------------------------------------------------------------------ key rotation

  /** The ring after the active key of `ring` became the prior one, to expire at `expiry`. */
  function Rotated(ring: Ring, next: Reference, expiry: Moment): Ring {
    ring.(active := next, prior := Some(ring.active), priorExpires := Some(expiry))
  }

  /** Key rotation loses no token: when the old key expires between ten and thirty minutes
      after the rotation, every token minted before it verifies at each later moment of its
      own lifetime. */
  lemma RotationLosesNoToken(t: Tools, ring: Ring, resolve: Resolver, now: Moment, c: Claims, token: string, next: Reference,
                             rotatedAt: Moment, expiry: Moment, later: Moment)
    requires Faithful(t) && Mint(t, ring, resolve, now, c) == Ok(token)
    requires ValidReference(next, ring.environment) && next.id != ring.active.id
    requires now.instant <= rotatedAt.instant <= later.instant < c.expires.instant && later.offset.Some? && expiry.offset.Some?
    requires rotatedAt.instant + MAX_TTL <= expiry.instant <= rotatedAt.instant + 30 * MINUTE
    ensures Verify(t, Rotated(ring, next, expiry), resolve, later, token, ContextOf(c)) == Ok(UtcForm(c))
  {
    MintedIs(t, ring, resolve, now, c, token);
    var rotated := Rotated(ring, next, expiry);
    assert c.expires.instant <= now.instant + MAX_TTL;
    assert ValidRing(rotated, later) == Ok(rotated.(priorExpires := Some(Utc(expiry))));
    VerifiesWithKey(t, c, token, KeyOf(resolve, ring.active).value, ring.active, rotated, resolve, later);
  }

  /** From the prior key's expiry on, no token that names that key verifies. */
  lemma NothingAfterExpiry(t: Tools, ring: Ring, resolve: Resolver, now: Moment, token: string, expected: Context)
    requires ring.prior.Some? && ring.priorExpires.Some? && ring.priorExpires.value.instant <= now.instant
    requires Verify(t, ring, resolve, now, token, expected).Ok?
    ensures ParseDocument(Envelope(token).value.0).value.keyId.s == ring.active.id != ring.prior.value.id
  {
  }

  // ------------------------------------------------------------------------ length

  lemma {:induction false} PlainBody(s: string)
    requires Plain(s)
    ensures |Body(s)| == |s| + 1 && Ascii(Body(s))
  {
    if s != "" {
      assert s[0] in s && forall c | c in s[1..] :: c in s;
      PlainBody(s[1..]);
    }
  }

  predicate Ascii(s: string) {
    forall c | c in s :: c as int < 0x80
  }

  lemma {:induction false} AsciiBytes(s: string)
    requires Ascii(s)
    ensures |Encode(s)| == |s|
  {
    if s != "" {
      assert s[0] in s && forall c | c in s[1..] :: c in s;
      AsciiBytes(s[1..]);
    }
  }

  /** A value that is written in at most `cap` ASCII characters. */
  predicate Within(j: Json, cap: int) {
    |Write(j)| <= cap && Ascii(Write(j))
  }

  function Total(caps: seq<nat>): nat {
    if caps == [] then 0 else caps[0] + Total(caps[1..])
  }

  lemma {:induction false} TotalOfBoth(a: seq<nat>, b: seq<nat>)
    ensures Total(a + b) == Total(a) + Total(b)
  {
    if a == [] {
      assert a + b == b;
    } else {
      assert (a + b)[1..] == a[1..] + b;
      TotalOfBoth(a[1..], b);
    }
  }

  lemma TotalOfFive(a: nat, b: nat, c: nat, d: nat, e: nat)
    ensures Total([a, b, c, d, e]) == a + b + c + d + e
  {
    assert [a, b, c, d, e][1..] == [b, c, d, e] && [b, c, d, e][1..] == [c, d, e] && [c, d, e][1..] == [d, e] && [d, e][1..] == [e];
    assert [e][1..] == [] && Total([e]) == e;
    assert Total([d, e]) == d + Total([e]);
    assert Total([c, d, e]) == c + Total([d, e]);
    assert Total([b, c, d, e]) == b + Total([c, d, e]);
  }

  /** The fields are written within the total of their caps: name, value and punctuation. */
  lemma {:induction false} FieldsWithin(names: seq<string>, values: seq<Json>, caps: seq<nat>, first: bool)
    requires |names| == |values| == |caps|
    requires forall i | 0 <= i < |names| :: Plain(names[i]) && Within(values[i], caps[i] - |names[i]| - 4)
    ensures |WriteFields(FieldsOf(names, values), first)| <= Total(caps) + 1
    ensures Ascii(WriteFields(FieldsOf(names, values), first))
    decreases |names|
  {
    if names != [] {
      PlainBody(names[0]);
      FieldsWithin(names[1..], values[1..], caps[1..], false);
    }
  }

  lemma TextWithin(s: string, cap: nat)
    requires Plain(s) && |s| + 2 <= cap
    ensures Within(Str(s), cap)
  {
    PlainBody(s);
  }

  lemma {:induction false} DigitsLength(n: nat, k: nat)
    requires k > 0 && n < Power10(k)
    ensures |Digits(n)| <= k
    decreases k
  {
    if n >= 10 { DigitsLength(n / 10, k - 1); }
  }

  function Power10(k: nat): nat {
    if k == 0 then 1 else 10 * Power10(k - 1)
  }

  /** For each field: its name, its longest value, two quotes, a colon and a comma. */
  const CAPS: seq<nat> := [76, 53, 93, 53, 85] + ([51, 89, 85, 40, 43] + ([42, 76, 85, 47, 54] + [41, 92, 91, 12]))

  lemma CapsTotal()
    ensures |CAPS| == 19 && Total(CAPS) == 1208
  {
    var a: seq<nat>, b: seq<nat>, c: seq<nat>, d: seq<nat> := [76, 53, 93, 53, 85], [51, 89, 85, 40, 43], [42, 76, 85, 47, 54], [41, 92, 91, 12];
    TotalOfBoth(a, b + (c + d));
    TotalOfBoth(b, c + d);
    TotalOfBoth(c, d);
    TotalOfFive(76, 53, 93, 53, 85);
    TotalOfFive(51, 89, 85, 40, 43);
    TotalOfFive(42, 76, 85, 47, 54);
    TotalOfFive(41, 92, 91, 12, 0);
    TotalOfBoth(d, [0]);
    assert d + [0] == [41, 92, 91, 12, 0];
  }

  lemma NamesPlain()
    ensures forall i | 0 <= i < |NAMES| :: Plain(NAMES[i])
  {
  }

  lemma RevisionWithin(n: int)
    requires 1 <= n <= MAX_REVISION
    ensures Within(Int(n), 19)
  {
    assert Power10(5) == 100_000;
    assert Power10(10) == 10_000_000_000;
    assert Power10(15) == 1_000_000_000_000_000;
    assert Power10(19) == 10_000_000_000_000_000_000;
    DigitsLength(n, 19);
  }

  lemma HexWithin(s: Option<string>)
    requires OptionalHex(s)
    ensures Within(OptionalText(s), 66)
  {
    if s.Some? { TextWithin(s.value, 66); }
  }

  lemma IdWithin(t: Tools, n: Option<Uuid>)
    requires Faithful(t)
    ensures Within(OptionalId(t, n), 38)
  {
    if n.Some? { TextWithin(t.uuidText(n.value), 38); }
  }

  /** Each field of the document within its own cap. */
  predicate Capped(d: Doc) {
    && Within(d.action, 66) && Within(d.approval, 38) && Within(d.receipt, 66) && Within(d.artifact, 38)
    && Within(d.artifactSha, 66) && Within(d.bundle, 38) && Within(d.csrf, 66) && Within(d.evidence, 66)
    && Within(d.revision, 19) && Within(d.expires, 29) && Within(d.issued, 29) && Within(d.keyId, 66)
    && Within(d.manifest, 66) && Within(d.nonce, 38) && Within(d.objective, 38) && Within(d.purpose, 30)
    && Within(d.session, 66) && Within(d.tenant, 66) && Within(d.version, 1)
  }

  lemma PurposeWithin(purpose: string)
    requires purpose in {OPERATOR, CURRENT, SUPERSEDED}
    ensures Within(Str(purpose), 30)
  {
    assert Plain(OPERATOR) && Plain(CURRENT) && Plain(SUPERSEDED);
    TextWithin(purpose, 30);
  }

  lemma NamesWithin(action: string, keyId: string)
    requires Action(action) && KeyId(keyId)
    ensures Within(Str(action), 66) && Within(Str(keyId), 66)
  {
    TextWithin(action, 66);
    TextWithin(keyId, 66);
  }

  lemma TimesWithin(t: Tools, m: Moment)
    requires Faithful(t) && t.inRange(m.instant)
    ensures Within(Str(t.iso(m.instant)), 29)
  {
    TextWithin(t.iso(m.instant), 29);
  }

  lemma DigestsWithin(t: Tools, c: Claims)
    requires Valid(t, c)
    ensures Within(Str(c.csrf), 66) && Within(Str(c.evidence), 66) && Within(Str(c.session), 66) && Within(Str(c.tenant), 66)
    ensures Within(OptionalText(c.manifest), 66) && Within(OptionalText(c.artifactSha), 66) && Within(OptionalText(c.receipt), 66)
  {
    HexWithin(Some(c.csrf));
    HexWithin(Some(c.evidence));
    HexWithin(Some(c.session));
    HexWithin(Some(c.tenant));
    HexWithin(c.manifest);
    HexWithin(c.artifactSha);
    HexWithin(c.receipt);
  }

  lemma DocCapped(t: Tools, c: Claims, keyId: string)
    requires Faithful(t) && Valid(t, c) && KeyId(keyId)
    ensures Capped(DocOf(t, c, keyId))
  {
    PurposeWithin(c.purpose);
    NamesWithin(c.action, keyId);
    TimesWithin(t, c.issued);
    TimesWithin(t, c.expires);
    RevisionWithin(c.revision);
    assert Write(Int(1)) == "1";
    DigestsWithin(t, c);
    IdWithin(t, c.approval);
    IdWithin(t, c.artifact);
    IdWithin(t, c.bundle);
    IdWithin(t, Some(c.nonce));
    IdWithin(t, Some(c.objective));
  }

  const VALUE_CAPS: seq<int> := [66, 38, 66, 38, 66, 38, 66, 66, 19, 29, 29, 66, 66, 38, 38, 30, 66, 66, 1]

  lemma CappedValues(d: Doc)
    requires Capped(d)
    ensures forall i | 0 <= i < |NAMES| :: Within(Values(d)[i], VALUE_CAPS[i])
  {
  }

  lemma CapsSplit()
    ensures |CAPS| == |NAMES| == |VALUE_CAPS| == 19
    ensures forall i | 0 <= i < |NAMES| :: CAPS[i] == |NAMES[i]| + 4 + VALUE_CAPS[i]
  {
  }

  /** Every token that can be built from valid claims is at most 2048 characters long, so the
      transport bound of 4096 never refuses one. */
  lemma TokensAreShort(t: Tools, c: Claims, keyId: string, key: Bytes)
    requires Faithful(t) && Valid(t, c) && KeyId(keyId)
    ensures |TokenOf(t, Canonical(DocOf(t, c, keyId)), key)| <= 2048
  {
    var d := DocOf(t, c, keyId);
    DocCapped(t, c, keyId);
    DocumentIsShort(d);
    Length64(Canonical(d));
    Length64(t.mac(key, Canonical(d)));
  }

  lemma DocumentIsShort(d: Doc)
    requires Capped(d)
    ensures |Canonical(d)| <= 1210
  {
    NamesPlain();
    CapsTotal();
    CapsSplit();
    CappedValues(d);
    ObjectIsShort(NAMES, Values(d), CAPS);
  }

  lemma ObjectIsShort(names: seq<string>, values: seq<Json>, caps: seq<nat>)
    requires |names| == |values| == |caps|
    requires forall i | 0 <= i < |names| :: Plain(names[i]) && Within(values[i], caps[i] - |names[i]| - 4)
    ensures |Encode(Write(Obj(FieldsOf(names, values))))| <= Total(caps) + 2
  {
    FieldsWithin(names, values, caps, true);
    AsciiBytes(Write(Obj(FieldsOf(names, values))));
  }

  /** Minting refuses only for the ring, the claims, the window or the key: never for length. */
  lemma MintIff(t: Tools, ring: Ring, resolve: Resolver, now: Moment, c: Claims)
    requires Faithful(t)
    ensures Mint(t, ring, resolve, now, c).Ok? <==>
            && ValidRing(ring, now).Ok? && Valid(t, c) && c.issued.instant <= now.instant < c.expires.instant
            && KeyOf(resolve, ring.active).Ok?
  {
    if ValidRing(ring, now).Ok? && Valid(t, c) && c.issued.instant <= now.instant < c.expires.instant && KeyOf(resolve, ring.active).Ok? {
      var key := KeyOf(resolve, ring.active).value;
      TokensAreShort(t, c, ring.active.id, key);
      MintedUnlessLong(t, ring, resolve, now, c, key);
    } else {
      MintRefuses(t, ring, resolve, now, c);
    }
  }

  lemma MintedUnlessLong(t: Tools, ring: Ring, resolve: Resolver, now: Moment, c: Claims, key: Bytes)
    requires ValidRing(ring, now).Ok? && Valid(t, c) && c.issued.instant <= now.instant < c.expires.instant
    requires KeyOf(resolve, ring.active) == Ok(key) && |TokenOf(t, Canonical(DocOf(t, c, ring.active.id)), key)| <= MAX_TOKEN_LENGTH
    ensures Mint(t, ring, resolve, now, c).Ok?
  {
  }

  lemma MintRefuses(t: Tools, ring: Ring, resolve: Resolver, now: Moment, c: Claims)
    requires !(ValidRing(ring, now).Ok? && Valid(t, c) && c.issued.instant <= now.instant < c.expires.instant
               && KeyOf(resolve, ring.active).Ok?)
    ensures Mint(t, ring, resolve, now, c).Refused?
  {
  }
}
