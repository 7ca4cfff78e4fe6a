/** The identity-key builder: content is filtered, written canonically and hashed, so that
    two keys are equal exactly when subject and content are. */
module IdentityKey {
  import opened Outcome
  import opened Json
  import opened Utf8

  // ------------------------------------------------------------- Python values

  datatype Key = Name(s: string) | NoName

  /** What a caller may put into content: `Real` stands for any float, `Moment` for any date
      or time, `Other` for a value of any other type. */
  datatype Value =
    | Nothing
    | Truth(b: bool)
    | Whole(n: int)
    | Text(s: string)
    | Real
    | Moment
    | Other
    | Listing(tuple: bool, items: Values)
    | Mapping(entries: Entries)

  datatype Values = NoValues | Cons(head: Value, tail: Values)
  datatype Entries = NoEntries | Entry(key: Key, value: Value, rest: Entries)

  predicate HasKey(entries: Entries, key: Key) {
    entries.Entry? && (entries.key == key || HasKey(entries.rest, key))
  }

  /** Keys of a mapping are distinct, here and at every depth. */
  predicate Proper(v: Value)
    decreases v
  {
    match v
    case Listing(_, items) => ProperItems(items)
    case Mapping(entries) => ProperEntries(entries)
    case _ => true
  }

  predicate ProperItems(items: Values)
    decreases items
  {
    items.Cons? ==> Proper(items.head) && ProperItems(items.tail)
  }

  predicate ProperEntries(entries: Entries)
    decreases entries
  {
    entries.Entry? ==> !HasKey(entries.rest, entries.key) && Proper(entries.value) && ProperEntries(entries.rest)
  }

  // ----------------------------------------------------------------- the filter

  /** Refuse floats, dates, odd types, keys that are no strings, and banned names. */
  function Scan(banned: string -> bool, v: Value): Result<Json>
    decreases v
  {
    match v
    case Nothing => Ok(Null)
    case Truth(b) => Ok(Bool(b))
    case Whole(n) => Ok(Int(n))
    case Text(s) => Ok(Str(s))
    case Listing(_, items) =>
      var scanned :- ScanItems(banned, items);
      Ok(Arr(scanned))
    case Mapping(entries) =>
      var scanned :- ScanEntries(banned, entries);
      Ok(Obj(scanned))
    case _ => Refused
  }

  function ScanItems(banned: string -> bool, items: Values): Result<Items>
    decreases items
  {
    match items
    case NoValues => Ok(NoItems)
    case Cons(head, tail) =>
      var first :- Scan(banned, head);
      var others :- ScanItems(banned, tail);
      Ok(Item(first, others))
  }

  function ScanEntries(banned: string -> bool, entries: Entries): Result<Fields>
    decreases entries
  {
    match entries
    case NoEntries => Ok(NoFields)
    case Entry(key, value, rest) =>
      var _ :- Check(key.Name? && !banned(key.s));
      var first :- Scan(banned, value);
      var others :- ScanEntries(banned, rest);
      Ok(Field(key.s, first, others))
  }

  // ------------------------------------------------------------- sorting of keys

  /** Strings by code points, as Python compares them. */
  predicate Less(s: string, t: string) {
    if s == "" || t == "" then s == "" && t != ""
    else s[0] < t[0] || (s[0] == t[0] && Less(s[1..], t[1..]))
  }

  lemma {:induction false} LessTotal(s: string, t: string)
    ensures Less(s, t) || s == t || Less(t, s)
    ensures !(Less(s, t) && Less(t, s)) && !Less(s, s)
  {
    if s != "" { LessTotal(s[1..], s[1..]); }
    if s != "" && t != "" {
      LessTotal(s[1..], t[1..]);
      if s[0] == t[0] && s[1..] == t[1..] { assert s == [s[0]] + s[1..] && t == [t[0]] + t[1..]; }
    }
  }

  lemma {:induction false} LessTransitive(s: string, t: string, u: string)
    requires Less(s, t) && Less(t, u)
    ensures Less(s, u)
  {
    if s != "" && s[0] == t[0] && t[0] == u[0] { LessTransitive(s[1..], t[1..], u[1..]); }
  }

  function Insert(name: string, value: Json, fields: Fields): Fields {
    if fields.Field? && Less(fields.name, name) then Field(fields.name, fields.value, Insert(name, value, fields.rest))
    else Field(name, value, fields)
  }

  /** The value that `sort_keys` writes: every object with its fields in order. */
  function Norm(j: Json): Json
    decreases j
  {
    match j
    case Arr(items) => Arr(NormItems(items))
    case Obj(fields) => Obj(NormFields(fields))
    case _ => j
  }

  function NormItems(items: Items): Items
    decreases items
  {
    match items
    case NoItems => NoItems
    case Item(head, tail) => Item(Norm(head), NormItems(tail))
  }

  function NormFields(fields: Fields): Fields
    decreases fields
  {
    match fields
    case NoFields => NoFields
    case Field(name, value, rest) => Insert(name, Norm(value), NormFields(rest))
  }

  // --------------------------------------------------- equality as JSON values

  /** A JSON value up to the order of its fields. */
  datatype Plain = PNull | PBool(b: bool) | PInt(n: int) | PStr(s: string) | PArr(items: seq<Plain>) | PObj(fields: map<string, Plain>)

  function Meaning(j: Json): Plain
    decreases j
  {
    match j
    case Null => PNull
    case Bool(b) => PBool(b)
    case Int(n) => PInt(n)
    case Str(s) => PStr(s)
    case Arr(items) => PArr(ItemsMeaning(items))
    case Obj(fields) => PObj(FieldsMeaning(fields))
  }

  function ItemsMeaning(items: Items): seq<Plain>
    decreases items
  {
    match items
    case NoItems => []
    case Item(head, tail) => [Meaning(head)] + ItemsMeaning(tail)
  }

  function FieldsMeaning(fields: Fields): map<string, Plain>
    decreases fields
  {
    match fields
    case NoFields => map[]
    case Field(name, value, rest) => FieldsMeaning(rest)[name := Meaning(value)]
  }

  predicate Distinct(j: Json)
    decreases j
  {
    match j
    case Arr(items) => DistinctItems(items)
    case Obj(fields) => DistinctFields(fields)
    case _ => true
  }

  predicate DistinctItems(items: Items)
    decreases items
  {
    items.Item? ==> Distinct(items.head) && DistinctItems(items.tail)
  }

  predicate DistinctFields(fields: Fields)
    decreases fields
  {
    fields.Field? ==> fields.name !in FieldsMeaning(fields.rest) && Distinct(fields.value) && DistinctFields(fields.rest)
  }

  /** Fields in strictly ascending order, at every depth. */
  predicate Normal(j: Json)
    decreases j
  {
    match j
    case Arr(items) => NormalItems(items)
    case Obj(fields) => NormalFields(fields)
    case _ => true
  }

  predicate NormalItems(items: Items)
    decreases items
  {
    items.Item? ==> Normal(items.head) && NormalItems(items.tail)
  }

  predicate NormalFields(fields: Fields)
    decreases fields
  {
    fields.Field? ==>
      && Normal(fields.value) && NormalFields(fields.rest)
      && (fields.rest.Field? ==> Less(fields.name, fields.rest.name))
  }

  lemma {:induction false} InsertMeans(name: string, value: Json, fields: Fields)
    requires name !in FieldsMeaning(fields)
    ensures FieldsMeaning(Insert(name, value, fields)) == FieldsMeaning(fields)[name := Meaning(value)]
    decreases fields
  {
    if fields.Field? && Less(fields.name, name) { InsertMeans(name, value, fields.rest); }
  }

  /** The first name of a non-empty list of fields. */
  predicate Leads(fields: Fields, name: string) {
    fields.Field? && fields.name == name
  }

  lemma {:induction false} InsertSorts(name: string, value: Json, fields: Fields)
    requires NormalFields(fields) && Normal(value) && name !in FieldsMeaning(fields)
    ensures NormalFields(Insert(name, value, fields))
    ensures Leads(Insert(name, value, fields), name) || (fields.Field? && Leads(Insert(name, value, fields), fields.name))
    decreases fields
  {
    if fields.Field? {
      if Less(fields.name, name) {
        InsertSorts(name, value, fields.rest);
        InsertSecond(name, value, fields);
      } else {
        LessTotal(fields.name, name);
      }
    }
  }

  lemma InsertSecond(name: string, value: Json, fields: Fields)
    requires NormalFields(fields) && fields.Field? && Less(fields.name, name)
    requires NormalFields(Insert(name, value, fields.rest))
    requires Leads(Insert(name, value, fields.rest), name) || (fields.rest.Field? && Leads(Insert(name, value, fields.rest), fields.rest.name))
    ensures NormalFields(Insert(name, value, fields)) && Leads(Insert(name, value, fields), fields.name)
  {
  }

  /** Sorting brings the fields in order and leaves the value the same. */
  lemma {:induction false} NormKeeps(j: Json)
    requires Distinct(j)
    ensures Normal(Norm(j)) && Meaning(Norm(j)) == Meaning(j)
    decreases j
  {
    match j
    case Arr(items) => NormItemsKeeps(items);
    case Obj(fields) => NormFieldsKeeps(fields);
    case _ =>
  }

  lemma {:induction false} NormItemsKeeps(items: Items)
    requires DistinctItems(items)
    ensures NormalItems(NormItems(items)) && ItemsMeaning(NormItems(items)) == ItemsMeaning(items)
    decreases items
  {
    if items.Item? {
      NormKeeps(items.head);
      NormItemsKeeps(items.tail);
    }
  }

  lemma {:induction false} NormFieldsKeeps(fields: Fields)
    requires DistinctFields(fields)
    ensures NormalFields(NormFields(fields)) && FieldsMeaning(NormFields(fields)) == FieldsMeaning(fields)
    decreases fields
  {
    if fields.Field? {
      NormKeeps(fields.value);
      NormFieldsKeeps(fields.rest);
      InsertMeans(fields.name, Norm(fields.value), NormFields(fields.rest));
      InsertSorts(fields.name, Norm(fields.value), NormFields(fields.rest));
    }
  }

  /** In ordered fields, every name is the first one or comes after it. */
  lemma {:induction false} FirstIsLeast(fields: Fields, name: string)
    requires NormalFields(fields) && fields.Field? && name in FieldsMeaning(fields)
    ensures name == fields.name || (Less(fields.name, name) && name in FieldsMeaning(fields.rest))
    decreases fields
  {
    if name != fields.name {
      FirstIsLeast(fields.rest, name);
      if name != fields.rest.name { LessTransitive(fields.name, fields.rest.name, name); }
    }
  }

  lemma FirstNotInRest(fields: Fields)
    requires NormalFields(fields) && fields.Field?
    ensures fields.name !in FieldsMeaning(fields.rest)
  {
    if fields.name in FieldsMeaning(fields.rest) {
      FirstIsLeast(fields.rest, fields.name);
      LessTotal(fields.name, fields.rest.name);
      LessTotal(fields.name, fields.name);
    }
  }

  /** Ordered values that mean the same are the same. */
  lemma {:induction false} NormalInjective(a: Json, b: Json)
    requires Normal(a) && Normal(b) && Meaning(a) == Meaning(b)
    ensures a == b
    decreases a
  {
    match a
    case Arr(items) => NormalItemsInjective(items, b.items);
    case Obj(fields) => NormalFieldsInjective(fields, b.fields);
    case _ =>
  }

  lemma {:induction false} NormalItemsInjective(a: Items, b: Items)
    requires NormalItems(a) && NormalItems(b) && ItemsMeaning(a) == ItemsMeaning(b)
    ensures a == b
    decreases a
  {
    if a.Item? && b.Item? {
      assert ItemsMeaning(a)[0] == ItemsMeaning(b)[0] && ItemsMeaning(a)[1..] == ItemsMeaning(b)[1..];
      NormalInjective(a.head, b.head);
      NormalItemsInjective(a.tail, b.tail);
    }
  }

  lemma SameFirst(a: Fields, b: Fields)
    requires NormalFields(a) && NormalFields(b) && a.Field? && b.Field? && FieldsMeaning(a) == FieldsMeaning(b)
    ensures a.name == b.name
  {
    FirstIsLeast(b, a.name);
    FirstIsLeast(a, b.name);
    LessTotal(a.name, b.name);
  }

  lemma {:induction false} NormalFieldsInjective(a: Fields, b: Fields)
    requires NormalFields(a) && NormalFields(b) && FieldsMeaning(a) == FieldsMeaning(b)
    ensures a == b
    decreases a
  {
    assert (a.Field? ==> a.name in FieldsMeaning(a)) && (b.Field? ==> b.name in FieldsMeaning(b));
    if a.Field? && b.Field? {
      SameFirst(a, b);
      assert FieldsMeaning(a)[a.name] == Meaning(a.value) && FieldsMeaning(b)[b.name] == Meaning(b.value);
      NormalInjective(a.value, b.value);
      FirstNotInRest(a);
      FirstNotInRest(b);
      assert FieldsMeaning(a.rest) == FieldsMeaning(a) - {a.name};
      assert FieldsMeaning(b.rest) == FieldsMeaning(b) - {b.name};
      NormalFieldsInjective(a.rest, b.rest);
    }
  }

  /** Sorted texts of two values with distinct names are equal exactly when the values are
      equal up to the order of their fields. */
  lemma SortedTextIff(a: Json, b: Json)
    requires Distinct(a) && Distinct(b)
    ensures Encode(Write(Norm(a))) == Encode(Write(Norm(b))) <==> Meaning(a) == Meaning(b)
  {
    NormKeeps(a);
    NormKeeps(b);
    if Meaning(a) == Meaning(b) { NormalInjective(Norm(a), Norm(b)); }
    if Encode(Write(Norm(a))) == Encode(Write(Norm(b))) {
      EncodeInjective(Write(Norm(a)), Write(Norm(b)));
      WriteInjective(Norm(a), Norm(b));
    }
  }

  // -------------------------------------------------------------------- the key

  const SUBJECT_CONTRACTS: map<string, seq<string>> := map[
    "m9-live-route-authority/v2" := [
      "tenant_id", "required_route", "resolved_route", "authority_plane", "activation_program_id",
      "activation_mandate_id", "package_id", "package_sha256", "dispatch_phase", "controller_boundary"],
    "m9-held-live-checkpoint/v1" := [
      "tenant_id", "parent_payroll_run_id", "terminal_kind", "successor_request_sha256"]]

  function ValueAt(entries: Entries, key: Key): Value
    requires HasKey(entries, key)
  {
    if entries.key == key then entries.value else ValueAt(entries.rest, key)
  }

  predicate OnlyKeys(entries: Entries, contract: seq<string>) {
    entries.Entry? ==> entries.key.Name? && entries.key.s in contract && OnlyKeys(entries.rest, contract)
  }

  /** The contracted fields in contract order, each filtered. */
  function Cleaned(banned: string -> bool, contract: seq<string>, content: Entries): Result<Fields>
    requires forall f | f in contract :: HasKey(content, Name(f))
  {
    if contract == [] then Ok(NoFields)
    else
      var first :- Scan(banned, ValueAt(content, Name(contract[0])));
      var rest :- Cleaned(banned, contract[1..], content);
      Ok(Field(contract[0], first, rest))
  }

  function Payload(subject: string, cleaned: Fields): Json {
    Obj(Field("schema_id", Str("mise.identity-key/" + subject), Field("content", Obj(cleaned), NoFields)))
  }

  /** The filtered content of an accepted key. */
  function Accepted(banned: string -> bool, contracts: map<string, seq<string>>, subject: string, content: Entries): Result<Fields> {
    var _ :- Check(subject in contracts);
    var contract := contracts[subject];
    if (forall f | f in contract :: HasKey(content, Name(f))) && OnlyKeys(content, contract) then Cleaned(banned, contract, content)
    else Refused
  }

  function IdentityKey(sha: Bytes -> string, banned: string -> bool, contracts: map<string, seq<string>>,
                       subject: string, content: Entries): Result<string> {
    var cleaned :- Accepted(banned, contracts, subject, content);
    Ok(sha(Encode(Write(Norm(Payload(subject, cleaned))))))
  }

  // -------------------------------------------- what content means, independently

  /** The JSON value of a Python value, ignoring mapping order and list or tuple form. */
  function ValueMeaning(v: Value): Plain
    decreases v
  {
    match v
    case Truth(b) => PBool(b)
    case Whole(n) => PInt(n)
    case Text(s) => PStr(s)
    case Listing(_, items) => PArr(ValuesMeaning(items))
    case Mapping(entries) => PObj(EntriesMeaning(entries))
    case _ => PNull
  }

  function ValuesMeaning(items: Values): seq<Plain>
    decreases items
  {
    match items
    case NoValues => []
    case Cons(head, tail) => [ValueMeaning(head)] + ValuesMeaning(tail)
  }

  function EntriesMeaning(entries: Entries): map<string, Plain>
    decreases entries
  {
    match entries
    case NoEntries => map[]
    case Entry(key, value, rest) =>
      if key.Name? then EntriesMeaning(rest)[key.s := ValueMeaning(value)] else EntriesMeaning(rest)
  }

  lemma {:induction false} NamesOfEntries(entries: Entries, name: string)
    ensures name in EntriesMeaning(entries) <==> HasKey(entries, Name(name))
    decreases entries
  {
    if entries.Entry? { NamesOfEntries(entries.rest, name); }
  }

  lemma {:induction false} ScanMeans(banned: string -> bool, v: Value)
    requires Proper(v) && Scan(banned, v).Ok?
    ensures Distinct(Scan(banned, v).value) && Meaning(Scan(banned, v).value) == ValueMeaning(v)
    decreases v
  {
    match v
    case Listing(_, items) => ScanItemsMeans(banned, items);
    case Mapping(entries) => ScanEntriesMeans(banned, entries);
    case _ =>
  }

  lemma {:induction false} ScanItemsMeans(banned: string -> bool, items: Values)
    requires ProperItems(items) && ScanItems(banned, items).Ok?
    ensures DistinctItems(ScanItems(banned, items).value) && ItemsMeaning(ScanItems(banned, items).value) == ValuesMeaning(items)
    decreases items
  {
    if items.Cons? {
      ScanMeans(banned, items.head);
      ScanItemsMeans(banned, items.tail);
    }
  }

  lemma {:induction false} ScanEntriesMeans(banned: string -> bool, entries: Entries)
    requires ProperEntries(entries) && ScanEntries(banned, entries).Ok?
    ensures DistinctFields(ScanEntries(banned, entries).value) && FieldsMeaning(ScanEntries(banned, entries).value) == EntriesMeaning(entries)
    decreases entries
  {
    if entries.Entry? {
      ScanMeans(banned, entries.value);
      ScanEntriesMeans(banned, entries.rest);
      NamesOfEntries(entries.rest, entries.key.s);
    }
  }

  predicate NoRepeats(names: seq<string>) {
    forall i, j | 0 <= i < j < |names| :: names[i] != names[j]
  }

  /** No registered contract lists a field twice. */
  lemma ContractsDistinct()
    ensures forall k | k in SUBJECT_CONTRACTS :: NoRepeats(SUBJECT_CONTRACTS[k])
  {
    forall k | k in SUBJECT_CONTRACTS ensures NoRepeats(SUBJECT_CONTRACTS[k]) {
      var names := SUBJECT_CONTRACTS[k];
      assert "required_route"[2] != "resolved_route"[2] && "required_route"[0] != "package_sha256"[0];
      assert "activation_program_id"[11] != "activation_mandate_id"[11];
      assert "package_sha256"[0] != "dispatch_phase"[0] && "resolved_route"[0] != "dispatch_phase"[0];
    }
  }

  lemma {:induction false} MeaningAt(entries: Entries, name: string)
    requires ProperEntries(entries) && HasKey(entries, Name(name))
    ensures name in EntriesMeaning(entries) && EntriesMeaning(entries)[name] == ValueMeaning(ValueAt(entries, Name(name)))
    ensures Proper(ValueAt(entries, Name(name)))
    decreases entries
  {
    if entries.key != Name(name) { MeaningAt(entries.rest, name); }
  }

  /** The cleaned fields hold exactly the contracted names, with the values they have. */
  lemma {:induction false} CleanedMeans(banned: string -> bool, contract: seq<string>, content: Entries)
    requires (forall f | f in contract :: HasKey(content, Name(f))) && NoRepeats(contract) && ProperEntries(content)
    requires Cleaned(banned, contract, content).Ok?
    ensures var fields := Cleaned(banned, contract, content).value;
            && DistinctFields(fields)
            && (forall f :: f in FieldsMeaning(fields) <==> f in contract)
            && (forall f | f in contract :: f in EntriesMeaning(content) && FieldsMeaning(fields)[f] == EntriesMeaning(content)[f])
    decreases |contract|
  {
    if contract != [] {
      assert contract == [contract[0]] + contract[1..];
      MeaningAt(content, contract[0]);
      ScanMeans(banned, ValueAt(content, Name(contract[0])));
      CleanedMeans(banned, contract[1..], content);
    }
  }

  lemma {:induction false} OnlyContracted(entries: Entries, contract: seq<string>, name: string)
    requires OnlyKeys(entries, contract) && name in EntriesMeaning(entries)
    ensures name in contract
    decreases entries
  {
    if name != entries.key.s { OnlyContracted(entries.rest, contract, name); }
  }

  /** Accepted content means what its mapping means, however it was ordered. */
  lemma AcceptedMeans(banned: string -> bool, contracts: map<string, seq<string>>, subject: string, content: Entries)
    requires Accepted(banned, contracts, subject, content).Ok? && ProperEntries(content) && NoRepeats(contracts[subject])
    ensures var fields := Accepted(banned, contracts, subject, content).value;
            DistinctFields(fields) && FieldsMeaning(fields) == EntriesMeaning(content)
  {
    var contract := contracts[subject];
    CleanedMeans(banned, contract, content);
    var fields := Accepted(banned, contracts, subject, content).value;
    forall f ensures f in FieldsMeaning(fields) <==> f in EntriesMeaning(content) {
      if f in EntriesMeaning(content) { OnlyContracted(content, contract, f); }
    }
  }

  lemma PayloadMeans(subject: string, fields: Fields)
    requires DistinctFields(fields)
    ensures Distinct(Payload(subject, fields))
    ensures Meaning(Payload(subject, fields))
            == PObj(map["content" := PObj(FieldsMeaning(fields)), "schema_id" := PStr("mise.identity-key/" + subject)])
  {
    assert "schema_id"[0] != "content"[0];
    var last := Field("content", Obj(fields), NoFields);
    assert FieldsMeaning(last) == map["content" := PObj(FieldsMeaning(fields))];
    assert DistinctFields(last) && "schema_id" !in FieldsMeaning(last);
    var all := Field("schema_id", Str("mise.identity-key/" + subject), last);
    assert DistinctFields(all);
    assert FieldsMeaning(all) == FieldsMeaning(last)["schema_id" := PStr("mise.identity-key/" + subject)];
  }

  ghost predicate Injective(sha: Bytes -> string) {
    forall x: Bytes, y: Bytes :: sha(x) == sha(y) ==> x == y
  }

  /** Two accepted contents have the same key exactly when their subjects are the same and
      the contents are equal as JSON values. */
  lemma SameKeyIff(sha: Bytes -> string, banned: string -> bool, contracts: map<string, seq<string>>,
                   s: string, c: Entries, t: string, d: Entries)
    requires Injective(sha) && (forall k | k in contracts :: NoRepeats(contracts[k]))
    requires ProperEntries(c) && ProperEntries(d)
    requires IdentityKey(sha, banned, contracts, s, c).Ok? && IdentityKey(sha, banned, contracts, t, d).Ok?
    ensures IdentityKey(sha, banned, contracts, s, c) == IdentityKey(sha, banned, contracts, t, d) <==>
            s == t && EntriesMeaning(c) == EntriesMeaning(d)
  {
    AcceptedMeans(banned, contracts, s, c);
    AcceptedMeans(banned, contracts, t, d);
    var f := Accepted(banned, contracts, s, c).value;
    var g := Accepted(banned, contracts, t, d).value;
    PayloadMeans(s, f);
    PayloadMeans(t, g);
    SortedTextIff(Payload(s, f), Payload(t, g));
    PayloadsDiffer(s, FieldsMeaning(f), t, FieldsMeaning(g));
  }

  /** The same for the registered contracts, none of which repeats a field. */
  lemma RegisteredKeyIff(sha: Bytes -> string, banned: string -> bool, s: string, c: Entries, t: string, d: Entries)
    requires Injective(sha) && ProperEntries(c) && ProperEntries(d)
    requires IdentityKey(sha, banned, SUBJECT_CONTRACTS, s, c).Ok? && IdentityKey(sha, banned, SUBJECT_CONTRACTS, t, d).Ok?
    ensures IdentityKey(sha, banned, SUBJECT_CONTRACTS, s, c) == IdentityKey(sha, banned, SUBJECT_CONTRACTS, t, d) <==>
            s == t && EntriesMeaning(c) == EntriesMeaning(d)
  {
    ContractsDistinct();
    SameKeyIff(sha, banned, SUBJECT_CONTRACTS, s, c, t, d);
  }

  lemma PayloadsDiffer(s: string, f: map<string, Plain>, t: string, g: map<string, Plain>)
    ensures (map["content" := PObj(f), "schema_id" := PStr("mise.identity-key/" + s)]
             == map["content" := PObj(g), "schema_id" := PStr("mise.identity-key/" + t)]) <==> (s == t && f == g)
  {
    var p := map["content" := PObj(f), "schema_id" := PStr("mise.identity-key/" + s)];
    var q := map["content" := PObj(g), "schema_id" := PStr("mise.identity-key/" + t)];
    assert "schema_id"[0] != "content"[0];
    if p == q {
      assert p["schema_id"] == q["schema_id"] && p["content"] == q["content"];
      assert ("mise.identity-key/" + s)[|"mise.identity-key/"|..] == s;
      assert ("mise.identity-key/" + t)[|"mise.identity-key/"|..] == t;
    }
  }

  // ------------------------------------------------------------ nothing volatile

  /** Every value inside this one, itself included, and every mapping key inside it. */
  function Inside(v: Value): set<Value>
    decreases v
  {
    {v} + match v case Listing(_, items) => InsideItems(items) case Mapping(entries) => InsideEntries(entries) case _ => {}
  }

  function InsideItems(items: Values): set<Value>
    decreases items
  {
    if items.NoValues? then {} else Inside(items.head) + InsideItems(items.tail)
  }

  function InsideEntries(entries: Entries): set<Value>
    decreases entries
  {
    if entries.NoEntries? then {} else Inside(entries.value) + InsideEntries(entries.rest)
  }

  /** No float, date or odd type, and no mapping with a key that is banned or no string. */
  predicate Stable(banned: string -> bool, v: Value) {
    && !v.Real? && !v.Moment? && !v.Other?
    && (v.Mapping? ==> StableKeys(banned, v.entries))
  }

  predicate StableKeys(banned: string -> bool, entries: Entries) {
    entries.Entry? ==> entries.key.Name? && !banned(entries.key.s) && StableKeys(banned, entries.rest)
  }

  /** A value is accepted exactly when everything inside it, at any depth, is stable. */
  lemma {:induction false} ScanIff(banned: string -> bool, v: Value)
    ensures Scan(banned, v).Ok? <==> forall w | w in Inside(v) :: Stable(banned, w)
    decreases v
  {
    assert v in Inside(v);
    match v
    case Listing(_, items) =>
      ScanItemsIff(banned, items);
      assert Inside(v) == {v} + InsideItems(items);
    case Mapping(entries) =>
      ScanEntriesIff(banned, entries);
      assert Inside(v) == {v} + InsideEntries(entries);
      assert Stable(banned, v) <==> StableKeys(banned, entries);
    case _ => assert Inside(v) == {v}; assert Stable(banned, v) <==> Scan(banned, v).Ok?;
  }

  lemma {:induction false} ScanItemsIff(banned: string -> bool, items: Values)
    ensures ScanItems(banned, items).Ok? <==> forall w | w in InsideItems(items) :: Stable(banned, w)
    decreases items
  {
    if items.Cons? {
      ScanIff(banned, items.head);
      ScanItemsIff(banned, items.tail);
    }
  }

  lemma {:induction false} ScanEntriesIff(banned: string -> bool, entries: Entries)
    ensures ScanEntries(banned, entries).Ok? <==>
            StableKeys(banned, entries) && forall w | w in InsideEntries(entries) :: Stable(banned, w)
    decreases entries
  {
    if entries.Entry? {
      ScanIff(banned, entries.value);
      ScanEntriesIff(banned, entries.rest);
    }
  }

  lemma {:induction false} CleanedIff(banned: string -> bool, contract: seq<string>, content: Entries)
    requires forall f | f in contract :: HasKey(content, Name(f))
    ensures Cleaned(banned, contract, content).Ok? <==>
            forall f, w | f in contract && w in Inside(ValueAt(content, Name(f))) :: Stable(banned, w)
    decreases |contract|
  {
    if contract != [] {
      assert contract == [contract[0]] + contract[1..];
      ScanIff(banned, ValueAt(content, Name(contract[0])));
      CleanedIff(banned, contract[1..], content);
    }
  }

  /** A key is built exactly for a registered subject with exactly its fields, and content
      that is stable at every depth. */
  lemma KeyBuiltIff(sha: Bytes -> string, banned: string -> bool, contracts: map<string, seq<string>>, subject: string, content: Entries)
    ensures IdentityKey(sha, banned, contracts, subject, content).Ok? <==>
            && subject in contracts && OnlyKeys(content, contracts[subject])
            && (forall f | f in contracts[subject] :: HasKey(content, Name(f)))
            && (forall f, w | f in contracts[subject] && w in Inside(ValueAt(content, Name(f))) :: Stable(banned, w))
  {
    if subject in contracts && forall f | f in contracts[subject] :: HasKey(content, Name(f)) {
      CleanedIff(banned, contracts[subject], content);
    }
  }
}
