/** What a restart intent vouches for: under a hash without collisions its digest fixes the
    receipt it continues, the binding behind that receipt, and so, link by link through the
    digests inside the bindings, the whole history back to the root. */
module RestartChain {
  import opened Outcome
  import opened LaneRecords
  import RolePhases
  import RoleLane
  import RoleRuns
  import RoleCycles
  import ScribeLane
  import ScribePhases
  import ScribeEpochs
  import ScribeCycles

  /** One accepted intent with the receipt it continues and the binding that was closed. */
  datatype Link = Link(intent: Intent, receipt: Receipt, b: Binding)

  ghost predicate Injective(h: Hash) {
    forall x: Bytes, y: Bytes :: h(x) == h(y) ==> x == y
  }

  /** The digests inside one link are exact. */
  predicate Exact(h: Hash, l: Link) {
    && l.intent.digest == h(Text(IntentBasisDoc(l.intent.basis)))
    && l.intent.basis.receiptSha == l.receipt.digest
    && l.receipt.digest == h(Text(ReceiptBasisDoc(l.receipt.basis)))
    && l.receipt.basis.bindingSha == h(Text(BindingDoc(l.b)))
  }

  /** The binding of `l` was admitted from the intent and the receipt of `older`. */
  predicate Follows(l: Link, older: Link) {
    && l.b.authority.Recovered?
    && l.b.authority.intent == older.intent.digest && l.b.authority.receipt == older.receipt.digest
  }

  /** Links from an initial admission on, each following the one before. */
  predicate Chained(history: seq<Link>) {
    history != [] && history[0].b.authority.Initial? && forall i | 0 < i < |history| :: FollowsAt(history, i)
  }

  /** An accepted history. */
  predicate Accepted(h: Hash, history: seq<Link>) {
    Chained(history) && forall l | l in history :: Exact(h, l)
  }

  predicate FollowsAt(history: seq<Link>, i: nat)
    requires 0 < i < |history|
  {
    Follows(history[i], history[i - 1])
  }

  /** The digest of an intent fixes the intent, its receipt and the binding behind it. */
  lemma DigestFixesLink(h: Hash, k: Link, l: Link)
    requires Injective(h) && Exact(h, k) && Exact(h, l) && k.intent.digest == l.intent.digest
    ensures k == l
  {
    assert Text(IntentBasisDoc(k.intent.basis)) == Text(IntentBasisDoc(l.intent.basis));
    assert Text(ReceiptBasisDoc(k.receipt.basis)) == Text(ReceiptBasisDoc(l.receipt.basis));
    assert Text(BindingDoc(k.b)) == Text(BindingDoc(l.b));
  }

  /** Links of the two histories with the same intent digest are the same. */
  ghost predicate OneToOne(xs: seq<Link>, ys: seq<Link>) {
    forall k, l | k in xs && l in ys :: k.intent.digest == l.intent.digest ==> k == l
  }

  lemma DigestsFixLinks(h: Hash, xs: seq<Link>, ys: seq<Link>)
    requires Injective(h) && Accepted(h, xs) && Accepted(h, ys)
    ensures OneToOne(xs, ys)
  {
    forall k, l | k in xs && l in ys ensures k.intent.digest == l.intent.digest ==> k == l {
      if k.intent.digest == l.intent.digest { DigestFixesLink(h, k, l); }
    }
  }

  /** From the newest link back, two histories agree as far as both of them go. */
  lemma {:induction false} SameFromTheEnd(xs: seq<Link>, ys: seq<Link>, k: nat)
    requires OneToOne(xs, ys) && Chained(xs) && Chained(ys) && k < |xs| && k < |ys|
    requires xs[|xs| - 1].intent.digest == ys[|ys| - 1].intent.digest
    ensures xs[|xs| - 1 - k] == ys[|ys| - 1 - k]
    decreases k
  {
    if k > 0 {
      SameFromTheEnd(xs, ys, k - 1);
      assert FollowsAt(xs, |xs| - k) && FollowsAt(ys, |ys| - k);
    }
  }

  lemma NoLonger(xs: seq<Link>, ys: seq<Link>)
    requires OneToOne(xs, ys) && Chained(xs) && Chained(ys)
    requires xs[|xs| - 1].intent.digest == ys[|ys| - 1].intent.digest
    ensures |ys| <= |xs|
  {
    if |ys| > |xs| {
      assert FollowsAt(ys, |ys| - |xs|);
      SameFromTheEnd(xs, ys, |xs| - 1);
    }
  }

  lemma SameHistory(xs: seq<Link>, ys: seq<Link>)
    requires OneToOne(xs, ys) && OneToOne(ys, xs) && Chained(xs) && Chained(ys)
    requires xs[|xs| - 1].intent.digest == ys[|ys| - 1].intent.digest
    ensures xs == ys
  {
    NoLonger(xs, ys);
    NoLonger(ys, xs);
    forall i | 0 <= i < |xs| ensures xs[i] == ys[i] { SameFromTheEnd(xs, ys, |xs| - 1 - i); }
  }

  /** Two accepted histories whose newest intents have the same digest are the same. */
  lemma DigestFixesHistory(h: Hash, xs: seq<Link>, ys: seq<Link>)
    requires Injective(h) && Accepted(h, xs) && Accepted(h, ys)
    requires xs[|xs| - 1].intent.digest == ys[|ys| - 1].intent.digest
    ensures xs == ys
  {
    DigestsFixLinks(h, xs, ys);
    DigestsFixLinks(h, ys, xs);
    SameHistory(xs, ys);
  }

  // ------------------------------------------------------- what the loaders accept

  /** Whatever binding has the digest that the receipt holds, it makes an exact link with it. */
  ghost predicate Links(h: Hash, intent: Intent, receipt: Receipt) {
    forall b :: h(Text(BindingDoc(b))) == receipt.basis.bindingSha ==> Exact(h, Link(intent, receipt, b))
  }

  lemma SameBasis(h: Hash, i: Intent, r: Receipt, j: Intent, q: Receipt)
    requires Injective(h) && i.digest == j.digest
    requires i.digest == h(Text(IntentBasisDoc(i.basis))) && j.digest == h(Text(IntentBasisDoc(j.basis)))
    requires i.basis.receiptSha == r.digest == h(Text(ReceiptBasisDoc(r.basis)))
    requires j.basis.receiptSha == q.digest == h(Text(ReceiptBasisDoc(q.basis)))
    ensures i == j && r == q
  {
    assert Text(IntentBasisDoc(i.basis)) == Text(IntentBasisDoc(j.basis));
    assert Text(ReceiptBasisDoc(r.basis)) == Text(ReceiptBasisDoc(q.basis));
  }

  lemma RoleIntentParts(h: Hash, p: Profile, f: Files, i: Intent, path: Path) returns (receipt: Receipt)
    requires RoleLane.LoadIntent(h, p, f, path) == Ok(i)
    ensures RoleLane.LoadReceipt(h, p, f, i.basis.receiptPath) == Ok(receipt)
    ensures i.digest == h(Text(IntentBasisDoc(i.basis)))
    ensures i.basis.receiptSha == receipt.digest == h(Text(ReceiptBasisDoc(receipt.basis)))
  {
    receipt := RoleLane.LoadReceipt(h, p, f, i.basis.receiptPath).value;
  }

  /** Two intents of one digest that roles accept, on any hosts, are the same intent of the
      same receipt, and an exact link with the binding whose digest that receipt holds. */
  lemma RoleIntentsAgree(h: Hash, p: Profile, f: Files, i: Intent, path: Path, q: Profile, g: Files, j: Intent, other: Path)
    returns (receipt: Receipt)
    requires RoleLane.LoadIntent(h, p, f, path) == Ok(i) && RoleLane.LoadIntent(h, q, g, other) == Ok(j)
    requires Injective(h) && i.digest == j.digest
    ensures i == j && Links(h, i, receipt)
    ensures RoleLane.LoadReceipt(h, p, f, i.basis.receiptPath) == RoleLane.LoadReceipt(h, q, g, j.basis.receiptPath) == Ok(receipt)
  {
    receipt := RoleIntentParts(h, p, f, i, path);
    var same := RoleIntentParts(h, q, g, j, other);
    SameBasis(h, i, receipt, j, same);
  }

  /** The same of intents that the Scribe lane accepts. */
  lemma ScribeIntentsAgree(h: Hash, s: ScribeLane.Site, f: Files, i: Intent, path: Path, q: ScribeLane.Site, g: Files, j: Intent, other: Path)
    returns (receipt: Receipt)
    requires ScribeLane.LoadIntent(h, s, f, path) == Ok(i) && ScribeLane.LoadIntent(h, q, g, other) == Ok(j)
    requires Injective(h) && i.digest == j.digest
    ensures i == j && Links(h, i, receipt)
    ensures ScribeLane.LoadReceipt(h, f, i.basis.receiptPath) == ScribeLane.LoadReceipt(h, g, j.basis.receiptPath) == Ok(receipt)
  {
    receipt := ScribeLane.LoadReceipt(h, f, i.basis.receiptPath).value;
    SameBasis(h, i, receipt, j, ScribeLane.LoadReceipt(h, g, j.basis.receiptPath).value);
  }

  // --------------------------------------------- the histories the lanes leave

  /** Every binding of the chain but its last has its receipt among the files. */
  predicate ScribeReceipts(h: Hash, files: Files, chain: seq<Binding>) {
    forall i | 0 <= i < |chain| - 1 ::
      ScribePhases.Receipted(files, chain[i]) && ScribePhases.IsReceipt(h, files[ReceiptFile(chain[i].id, chain[i].epoch)], chain[i])
  }

  function ScribeLink(h: Hash, files: Files, b: Binding): Link
    requires ScribePhases.Receipted(files, b) && ScribePhases.IsReceipt(h, files[ReceiptFile(b.id, b.epoch)], b)
  {
    var receipt := ScribePhases.TheReceipt(h, files, b);
    Link(ScribeLane.IntentOf(h, b, receipt), receipt, b)
  }

  /** The links behind the live end of a Scribe chain. */
  function ScribeHistory(h: Hash, files: Files, chain: seq<Binding>): seq<Link>
    requires chain != [] && ScribeReceipts(h, files, chain)
  {
    seq(|chain| - 1, i requires 0 <= i < |chain| - 1 => ScribeLink(h, files, chain[i]))
  }

  /** The links behind the live end of a role chain. */
  function RoleHistory(h: Hash, p: Profile, chain: seq<Binding>): seq<Link>
    requires chain != []
  {
    seq(|chain| - 1, i requires 0 <= i < |chain| - 1 =>
      Link(RolePhases.TheIntent(h, p, chain[i]), RolePhases.TheReceipt(h, p, chain[i]), chain[i]))
  }

  /** The receipts and intents that the Scribe's cycles leave make an accepted history. */
  lemma ScribeHistoryAccepted(h: Hash, files: Files, chain: seq<Binding>)
    requires |chain| > 1 && ScribeCycles.Linked(h, files, chain) && chain[0].authority.Initial?
    ensures ScribeReceipts(h, files, chain) && Accepted(h, ScribeHistory(h, files, chain))
    ensures ScribeHistory(h, files, chain)[|chain| - 2].intent.digest == chain[|chain| - 1].authority.intent
  {
    forall i | 0 <= i < |chain| - 1
      ensures ScribePhases.Receipted(files, chain[i]) && ScribePhases.IsReceipt(h, files[ReceiptFile(chain[i].id, chain[i].epoch)], chain[i])
    {
      assert ScribeEpochs.Succeeds(h, files, chain[i], chain[i + 1]);
    }
    var history := ScribeHistory(h, files, chain);
    forall i | 0 < i < |history| ensures FollowsAt(history, i) {
      assert ScribeEpochs.Succeeds(h, files, chain[i - 1], chain[i - 1 + 1]);
    }
    assert ScribeEpochs.Succeeds(h, files, chain[|chain| - 2], chain[|chain| - 2 + 1]);
  }

  /** The receipts and intents that a role's cycles leave make an accepted history. */
  lemma RoleHistoryAccepted(h: Hash, p: Profile, chain: seq<Binding>)
    requires |chain| > 1 && RoleCycles.Linked(h, p, chain) && chain[0].authority.Initial?
    ensures Accepted(h, RoleHistory(h, p, chain))
    ensures RoleHistory(h, p, chain)[|chain| - 2].intent.digest == chain[|chain| - 1].authority.intent
  {
    var history := RoleHistory(h, p, chain);
    forall i | 0 < i < |history| ensures FollowsAt(history, i) {
      assert RoleRuns.Succeeds(h, p, chain[i - 1], chain[i - 1 + 1]);
    }
    assert RoleRuns.Succeeds(h, p, chain[|chain| - 2], chain[|chain| - 2 + 1]);
  }

  /** Chains with the same history have the same bindings. */
  lemma SameHistorySameChain(history: seq<Link>, xs: seq<Binding>, ys: seq<Binding>)
    requires |xs| == |history| + 1 == |ys|
    requires forall i | 0 <= i < |history| :: history[i].b == xs[i] == ys[i]
    ensures xs[..|xs| - 1] == ys[..|ys| - 1]
  {
  }

  /** Two Scribe chains, on any hosts, whose live bindings carry the same restart-intent
      digest have the same bindings all the way back to the root. */
  lemma SameDigestSameChain(h: Hash, f: Files, g: Files, xs: seq<Binding>, ys: seq<Binding>)
    requires Injective(h) && |xs| > 1 && |ys| > 1 && xs[0].authority.Initial? && ys[0].authority.Initial?
    requires ScribeCycles.Linked(h, f, xs) && ScribeCycles.Linked(h, g, ys)
    requires xs[|xs| - 1].authority.Recovered? && ys[|ys| - 1].authority.Recovered?
    requires xs[|xs| - 1].authority.intent == ys[|ys| - 1].authority.intent
    ensures xs[..|xs| - 1] == ys[..|ys| - 1]
  {
    ScribeHistoryAccepted(h, f, xs);
    ScribeHistoryAccepted(h, g, ys);
    var history := ScribeHistory(h, f, xs);
    DigestFixesHistory(h, history, ScribeHistory(h, g, ys));
    forall i | 0 <= i < |history| ensures history[i].b == xs[i] == ys[i] {
      assert history[i] == ScribeHistory(h, g, ys)[i];
    }
    SameHistorySameChain(history, xs, ys);
  }

  /** The same for two chains of roles, whatever the roles. */
  lemma SameDigestSameRoleChain(h: Hash, p: Profile, q: Profile, xs: seq<Binding>, ys: seq<Binding>)
    requires Injective(h) && |xs| > 1 && |ys| > 1 && xs[0].authority.Initial? && ys[0].authority.Initial?
    requires RoleCycles.Linked(h, p, xs) && RoleCycles.Linked(h, q, ys)
    requires xs[|xs| - 1].authority.Recovered? && ys[|ys| - 1].authority.Recovered?
    requires xs[|xs| - 1].authority.intent == ys[|ys| - 1].authority.intent
    ensures xs[..|xs| - 1] == ys[..|ys| - 1]
  {
    RoleHistoryAccepted(h, p, xs);
    RoleHistoryAccepted(h, q, ys);
    var history := RoleHistory(h, p, xs);
    DigestFixesHistory(h, history, RoleHistory(h, q, ys));
    forall i | 0 <= i < |history| ensures history[i].b == xs[i] == ys[i] {
      assert history[i] == RoleHistory(h, q, ys)[i];
    }
    SameHistorySameChain(history, xs, ys);
  }
}
