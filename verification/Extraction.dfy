/**
  Reading an image's embedded release contract: strict JSON, the exact contract, and the
  temporary container that is removed only when it is provably the extraction's own.
*/
module Extraction {
  import opened Common
  import opened Json
  import opened Names
  import opened Docker

  const SERVICE := "inventory-cloud-service"

  const REQUIRED := {"separate-migrations/v1", "restricted-runtime/v1", "reservation-idempotency/v1"}

  // ---------------------------------------------------------------- objects without repeated keys

  function Fields(pairs: seq<(string, Json)>): Option<map<string, Json>> {
    if pairs == [] then Some(map[])
    else
      var n := |pairs| - 1;
      var rest := Fields(pairs[..n]);
      if rest.None? || pairs[n].0 in rest.value then None else Some(rest.value[pairs[n].0 := pairs[n].1])
  }

  ghost predicate Distinct(pairs: seq<(string, Json)>) {
    forall i, j | 0 <= i < j < |pairs| :: pairs[i].0 != pairs[j].0
  }

  ghost predicate Holding(fields: map<string, Json>, pairs: seq<(string, Json)>) {
    && (forall i | 0 <= i < |pairs| :: pairs[i].0 in fields && fields[pairs[i].0] == pairs[i].1)
    && (forall key | key in fields :: exists i :: 0 <= i < |pairs| && pairs[i].0 == key)
  }

  lemma DistinctAppend(pairs: seq<(string, Json)>, last: (string, Json))
    ensures Distinct(pairs + [last]) <==> Distinct(pairs) && forall i | 0 <= i < |pairs| :: pairs[i].0 != last.0
  {
    var all := pairs + [last];
    assert forall i | 0 <= i < |pairs| :: all[i] == pairs[i];
    assert all[|pairs|] == last;
  }

  lemma HoldingAppend(fields: map<string, Json>, pairs: seq<(string, Json)>, last: (string, Json))
    requires Holding(fields, pairs) && last.0 !in fields
    ensures Holding(fields[last.0 := last.1], pairs + [last])
  {
    var all := pairs + [last];
    assert forall i | 0 <= i < |pairs| :: all[i] == pairs[i];
    assert all[|pairs|] == last;
    var grown := fields[last.0 := last.1];
    forall key | key in grown ensures exists i :: 0 <= i < |all| && all[i].0 == key {
      if key in fields {
        var i :| 0 <= i < |pairs| && pairs[i].0 == key;
        assert all[i].0 == key;
      }
    }
  }

  /** The members become an object exactly when no key repeats, and then the object holds each of them. */
  lemma {:induction false} FieldsMeans(pairs: seq<(string, Json)>)
    ensures Fields(pairs).Some? <==> Distinct(pairs)
    ensures Fields(pairs).Some? ==> Holding(Fields(pairs).value, pairs)
  {
    if pairs != [] {
      var n := |pairs| - 1;
      FieldsMeans(pairs[..n]);
      DistinctAppend(pairs[..n], pairs[n]);
      assert pairs == pairs[..n] + [pairs[n]];
      if Fields(pairs[..n]).Some? && pairs[n].0 !in Fields(pairs[..n]).value {
        HoldingAppend(Fields(pairs[..n]).value, pairs[..n], pairs[n]);
      }
    }
  }

  /** The loop of `strict_object`. */
  method StrictObject(pairs: seq<(string, Json)>) returns (result: Option<map<string, Json>>)
    ensures result == Fields(pairs)
  {
    var fields: map<string, Json> := map[];
    for i := 0 to |pairs|
      invariant Fields(pairs[..i]) == Some(fields)
    {
      assert pairs[..i + 1][..i] == pairs[..i];
      if pairs[i].0 in fields {
        PrefixHasFields(pairs, i + 1);
        return None;
      }
      fields := fields[pairs[i].0 := pairs[i].1];
    }
    assert pairs[..|pairs|] == pairs;
    result := Some(fields);
  }

  lemma PrefixHasFields(pairs: seq<(string, Json)>, n: nat)
    requires n <= |pairs|
    ensures Fields(pairs).Some? ==> Fields(pairs[..n]).Some?
  {
    FieldsMeans(pairs);
    FieldsMeans(pairs[..n]);
  }

  /** The strict parser: every object, at any depth, must have distinct keys. */
  function Load(doc: Doc): Option<Json> {
    match doc
    case Scalar(value) => if value.Arr? || value.Obj? then None else Some(value)
    case List(items) =>
      var loaded := LoadAll(items);
      if loaded.None? then None else Some(Arr(loaded.value))
    case Members(members) =>
      var loaded := LoadMembers(members);
      if loaded.None? then None
      else
        var fields := Fields(loaded.value);
        if fields.None? then None else Some(Obj(fields.value))
  }

  function LoadAll(items: seq<Doc>): Option<seq<Json>> {
    if items == [] then Some([])
    else
      var first := Load(items[0]);
      var rest := LoadAll(items[1..]);
      if first.None? || rest.None? then None else Some([first.value] + rest.value)
  }

  function LoadMembers(members: seq<Member>): Option<seq<(string, Json)>> {
    if members == [] then Some([])
    else
      var first := Load(members[0].doc);
      var rest := LoadMembers(members[1..]);
      if first.None? || rest.None? then None else Some([(members[0].key, first.value)] + rest.value)
  }

  // ---------------------------------------------------------------- the contract

  predicate ValidCapabilities(v: Json) {
    && v.Arr? && (forall k | 0 <= k < |v.items| :: v.items[k].Str?)
    && var names := set k | 0 <= k < |v.items| :: v.items[k].text;
       |v.items| == |names| && names == REQUIRED
  }

  /** `validate_contract` */
  predicate ValidContract(v: Json) {
    && v.Obj? && v.fields.Keys == {"schemaVersion", "service", "capabilities"}
    && v.fields["schemaVersion"] == Int(1)
    && v.fields["service"] == Str(SERVICE)
    && ValidCapabilities(v.fields["capabilities"])
  }

  predicate Accepted(doc: Doc) { Load(doc).Some? && ValidContract(Load(doc).value) }

  ghost predicate IsCapability(text: string) {
    text == "separate-migrations/v1" || text == "restricted-runtime/v1" || text == "reservation-idempotency/v1"
  }

  /** What the validation returns for every accepted contract, the capabilities in their order. */
  const VALIDATED := Obj(map["schemaVersion" := Int(1), "service" := Str(SERVICE), "capabilities" :=
    Arr([Str("reservation-idempotency/v1"), Str("restricted-runtime/v1"), Str("separate-migrations/v1")])])

  /** The members of the returned contract. */
  ghost predicate IsValidated(v: Json) {
    && v.Obj? && v.fields.Keys == {"schemaVersion", "service", "capabilities"}
    && v.fields["schemaVersion"] == Int(1) && v.fields["service"] == Str("inventory-cloud-service")
    && v.fields["capabilities"].Arr? && |v.fields["capabilities"].items| == 3
    && v.fields["capabilities"].items[0] == Str("reservation-idempotency/v1")
    && v.fields["capabilities"].items[1] == Str("restricted-runtime/v1")
    && v.fields["capabilities"].items[2] == Str("separate-migrations/v1")
  }

  lemma ValidatedHolds()
    ensures IsValidated(VALIDATED)
  {
  }

  /** The three required capabilities, each once, in any order. */
  ghost predicate ExactCapabilities(d: Doc) {
    && d.List? && |d.items| == 3
    && (forall i | 0 <= i < 3 :: d.items[i].Scalar? && d.items[i].value.Str? && IsCapability(d.items[i].value.text))
    && (forall i, j | 0 <= i < j < 3 :: d.items[i] != d.items[j])
  }

  ghost predicate ExactMember(m: Member) {
    || m == Member("schemaVersion", Scalar(Int(1)))
    || m == Member("service", Scalar(Str("inventory-cloud-service")))
    || (m.key == "capabilities" && ExactCapabilities(m.doc))
  }

  /** The whole text a contract may be: three members, once each, in any order, and nothing else. */
  ghost predicate ExactContract(doc: Doc) {
    && doc.Members? && |doc.members| == 3
    && (forall i, j | 0 <= i < j < 3 :: doc.members[i].key != doc.members[j].key)
    && (forall i | 0 <= i < 3 :: ExactMember(doc.members[i]))
  }

  lemma {:induction false} LoadAllMeans(items: seq<Doc>)
    ensures LoadAll(items).Some? <==> forall i | 0 <= i < |items| :: Load(items[i]).Some?
    ensures LoadAll(items).Some? ==>
      && |LoadAll(items).value| == |items|
      && forall i | 0 <= i < |items| :: Load(items[i]) == Some(LoadAll(items).value[i])
  {
    if items != [] {
      LoadAllMeans(items[1..]);
      assert forall i | 0 < i < |items| :: items[i] == items[1..][i - 1];
    }
  }

  ghost predicate LoadsTo(members: seq<Member>, pairs: seq<(string, Json)>) {
    |pairs| == |members|
    && forall i | 0 <= i < |members| :: pairs[i].0 == members[i].key && Load(members[i].doc) == Some(pairs[i].1)
  }

  lemma {:induction false} LoadMembersMeans(members: seq<Member>)
    ensures LoadMembers(members).Some? <==> forall i | 0 <= i < |members| :: Load(members[i].doc).Some?
    ensures LoadMembers(members).Some? ==> LoadsTo(members, LoadMembers(members).value)
  {
    if members != [] {
      LoadMembersMeans(members[1..]);
      assert forall i | 0 < i < |members| :: members[i] == members[1..][i - 1];
    }
  }

  lemma ThreeDistinct(a: string, b: string, c: string)
    ensures |{a, b, c}| == 3 <==> a != b && a != c && b != c
  {
    if a != b && a != c && b != c {
      assert |{a, b, c}| == |{a, b}| + 1;
    } else {
      assert {a, b, c} == {a, b} || {a, b, c} == {a, c};
    }
  }

  lemma RequiredCount()
    ensures |REQUIRED| == 3
  {
    ThreeDistinct("separate-migrations/v1", "restricted-runtime/v1", "reservation-idempotency/v1");
    assert "separate-migrations/v1"[0] != "restricted-runtime/v1"[0];
    assert "restricted-runtime/v1"[3] != "reservation-idempotency/v1"[3];
  }

  lemma ThreeOfThree(a: string, b: string, c: string, all: set<string>)
    requires |all| == 3 && {a, b, c} <= all && a != b && a != c && b != c
    ensures {a, b, c} == all
  {
    ThreeDistinct(a, b, c);
    var rest := all - {a, b, c};
    assert |rest| == |all| - |{a, b, c}|;
  }

  ghost predicate ThreeRequired(items: seq<Json>) {
    && |items| == 3
    && (forall i | 0 <= i < 3 :: items[i].Str? && IsCapability(items[i].text))
    && items[0] != items[1] && items[0] != items[2] && items[1] != items[2]
  }

  lemma ValidCapabilitiesMean(items: seq<Json>)
    ensures ValidCapabilities(Arr(items)) <==> ThreeRequired(items)
  {
    RequiredCount();
    if |items| == 3 && items[0].Str? && items[1].Str? && items[2].Str? {
      var names := set k | 0 <= k < |items| :: items[k].text;
      assert names == {items[0].text, items[1].text, items[2].text};
      ThreeDistinct(items[0].text, items[1].text, items[2].text);
      if ThreeRequired(items) {
        ThreeOfThree(items[0].text, items[1].text, items[2].text, REQUIRED);
      } else if names == REQUIRED {
        assert forall i | 0 <= i < 3 :: items[i].text in names;
      }
    }
  }

  lemma LoadsText(d: Doc, v: Json)
    requires Load(d) == Some(v) && v.Str?
    ensures d == Scalar(v)
  {
  }

  lemma CapabilityItems(docs: seq<Doc>, items: seq<Json>)
    requires |docs| == |items| && forall i | 0 <= i < |docs| :: Load(docs[i]) == Some(items[i])
    ensures ThreeRequired(items) <==> ExactCapabilities(List(docs))
  {
    forall i | 0 <= i < |items| && items[i].Str? ensures docs[i] == Scalar(items[i]) {
      LoadsText(docs[i], items[i]);
    }
  }

  lemma CapabilitiesMean(d: Doc)
    ensures Load(d).Some? && ValidCapabilities(Load(d).value) <==> ExactCapabilities(d)
  {
    if d.List? {
      LoadAllMeans(d.items);
      if LoadAll(d.items).Some? {
        var items := LoadAll(d.items).value;
        ValidCapabilitiesMean(items);
        CapabilityItems(d.items, items);
      }
    }
  }

  const NAMES := {"schemaVersion", "service", "capabilities"}

  lemma NamesCount()
    ensures |NAMES| == 3
  {
    ThreeDistinct("schemaVersion", "service", "capabilities");
    assert "schemaVersion"[1] != "service"[1];
  }

  ghost function KeysOf(pairs: seq<(string, Json)>): set<string> { set i | 0 <= i < |pairs| :: pairs[i].0 }

  lemma {:induction false} DistinctCount(pairs: seq<(string, Json)>)
    requires Distinct(pairs)
    ensures |KeysOf(pairs)| == |pairs|
  {
    if pairs != [] {
      var n := |pairs| - 1;
      assert forall i | 0 <= i < n :: pairs[..n][i] == pairs[i];
      DistinctCount(pairs[..n]);
      assert KeysOf(pairs) == KeysOf(pairs[..n]) + {pairs[n].0};
      assert pairs[n].0 !in KeysOf(pairs[..n]);
    }
  }

  lemma HoldingKeys(fields: map<string, Json>, pairs: seq<(string, Json)>)
    requires Holding(fields, pairs)
    ensures fields.Keys == KeysOf(pairs)
  {
    forall key | key in fields.Keys ensures key in KeysOf(pairs) {
      var i :| 0 <= i < |pairs| && pairs[i].0 == key;
    }
  }

  /** A loaded member is one of the three exactly when its value is. */
  lemma MemberMeans(m: Member, v: Json)
    requires Load(m.doc) == Some(v)
    ensures ExactMember(m) <==>
      || (m.key == "schemaVersion" && v == Int(1))
      || (m.key == "service" && v == Str(SERVICE))
      || (m.key == "capabilities" && ValidCapabilities(v))
  {
    CapabilitiesMean(m.doc);
  }

  lemma ExactMemberLoads(m: Member)
    requires ExactMember(m)
    ensures Load(m.doc).Some?
  {
    CapabilitiesMean(m.doc);
  }

  lemma ValidObject(members: seq<Member>, pairs: seq<(string, Json)>, fields: map<string, Json>)
    requires LoadsTo(members, pairs) && Holding(fields, pairs)
    requires forall i | 0 <= i < |members| :: ExactMember(members[i])
    requires fields.Keys == NAMES
    ensures ValidContract(Obj(fields))
  {
    forall key | key in fields ensures
      && (key == "schemaVersion" ==> fields[key] == Int(1))
      && (key == "service" ==> fields[key] == Str(SERVICE))
      && (key == "capabilities" ==> ValidCapabilities(fields[key]))
    {
      var i :| 0 <= i < |pairs| && pairs[i].0 == key;
      MemberMeans(members[i], pairs[i].1);
    }
  }

  lemma CountedThree(pairs: seq<(string, Json)>, fields: map<string, Json>)
    requires Fields(pairs) == Some(fields) && fields.Keys == NAMES
    ensures |pairs| == 3 && Distinct(pairs)
  {
    FieldsMeans(pairs);
    HoldingKeys(fields, pairs);
    DistinctCount(pairs);
    NamesCount();
  }

  lemma ValidMember(m: Member, fields: map<string, Json>)
    requires ValidContract(Obj(fields)) && m.key in fields && Load(m.doc) == Some(fields[m.key])
    ensures ExactMember(m)
  {
    MemberMeans(m, fields[m.key]);
  }

  lemma AcceptedIsExact(doc: Doc)
    requires Accepted(doc)
    ensures ExactContract(doc)
  {
    LoadMembersMeans(doc.members);
    var pairs := LoadMembers(doc.members).value;
    FieldsMeans(pairs);
    var fields := Fields(pairs).value;
    CountedThree(pairs, fields);
    forall i | 0 <= i < 3 ensures ExactMember(doc.members[i]) {
      ValidMember(doc.members[i], fields);
    }
  }

  lemma ThreeKeys(pairs: seq<(string, Json)>)
    requires |pairs| == 3 && Distinct(pairs) && forall i | 0 <= i < 3 :: pairs[i].0 in NAMES
    ensures KeysOf(pairs) == NAMES
  {
    assert KeysOf(pairs) == {pairs[0].0, pairs[1].0, pairs[2].0};
    NamesCount();
    ThreeOfThree(pairs[0].0, pairs[1].0, pairs[2].0, NAMES);
  }

  lemma ExactKey(m: Member)
    requires ExactMember(m)
    ensures m.key in NAMES
  {
  }

  lemma ExactLoads(members: seq<Member>)
    requires |members| == 3 && forall i | 0 <= i < 3 :: ExactMember(members[i])
    ensures LoadMembers(members).Some? && LoadsTo(members, LoadMembers(members).value)
    ensures forall i | 0 <= i < 3 :: members[i].key in NAMES
  {
    forall i | 0 <= i < 3 ensures Load(members[i].doc).Some? && members[i].key in NAMES {
      ExactMemberLoads(members[i]);
      ExactKey(members[i]);
    }
    LoadMembersMeans(members);
  }

  lemma ExactIsAccepted(doc: Doc)
    requires ExactContract(doc)
    ensures Accepted(doc)
  {
    ExactLoads(doc.members);
    var pairs := LoadMembers(doc.members).value;
    FieldsMeans(pairs);
    var fields := Fields(pairs).value;
    HoldingKeys(fields, pairs);
    ThreeKeys(pairs);
    ValidObject(doc.members, pairs, fields);
  }

  /** Strict parsing and validation together accept exactly the one contract, in any order. */
  lemma ContractMeans(doc: Doc)
    ensures Accepted(doc) <==> ExactContract(doc)
  {
    if Accepted(doc) { AcceptedIsExact(doc); }
    if ExactContract(doc) { ExactIsAccepted(doc); }
  }

  // ---------------------------------------------------------------- the temporary container

  /** The run owns at most the container of that name, made from that image. */
  ghost predicate OnlyOurs(mine: map<Resource, Own>, name: string, run: string, image: string) {
    forall r | r in mine :: r == Resource(Container, name) && mine[r].item == Item(Some(run), None, image)
  }

  /** A removal concerns that container only, right after it was inspected and its label and image matched. */
  ghost predicate OnlyProvenRemoved(before: seq<Act>, after: seq<Act>, what: Resource, run: string, image: string) {
    && before <= after
    && forall k | |before| <= k < |after| && after[k].Removed? ::
      && |before| < k && after[k - 1].Inspected? && after[k - 1].what == after[k].what == what
      && after[k - 1].item == after[k].item && after[k].item.owner == Some(run) && after[k].item.image == image
  }

  lemma SingleOrNone(found: set<Resource>, what: Resource)
    requires forall r | r in found :: r == what
    ensures found != {} ==> |found| == 1
  {
    if found != {} {
      assert found == {what};
    }
  }

  /** The container was inspected and then removed. */
  ghost predicate Disposed(before: seq<Act>, after: seq<Act>, what: Resource, item: Item) {
    exists state :: after == before + [Inspected(what, item, state), Removed(what, item, true)]
  }

  /** Removes the extraction's container only after its name, label and image have all matched. */
  method RemoveOwned(engine: Engine, name: string, image: string) returns (ok: bool)
    modifies engine`clock, engine`others, engine`mine, engine`log
    ensures Leaves(old(engine.mine), engine.mine)
    ensures ok ==> !engine.Exists(Resource(Container, name))
    ensures ok && old(engine.Ours(Resource(Container, name))) ==>
      && engine.mine.Keys == old(engine.mine).Keys - {Resource(Container, name)}
      && Disposed(old(engine.log), engine.log, Resource(Container, name), old(engine.mine)[Resource(Container, name)].item)
    ensures old(engine.Obliging(name)) && OnlyOurs(old(engine.mine), name, engine.run, image) ==> ok
    ensures OnlyProvenRemoved(old(engine.log), engine.log, Resource(Container, name), engine.run, image)
  {
    var what := Resource(Container, name);
    StartContains(name, name);
    ghost var easy := engine.Obliging(name) && OnlyOurs(engine.mine, name, engine.run, image);
    ghost var answer := engine.schedule(engine.clock);
    var found := engine.ListContaining(name);
    if found.None? { return false; }
    if easy {
      assert Obliges(answer, name);
      SingleOrNone(found.value, what);
    }
    if found.value == {} { return true; }
    if |found.value| != 1 { return false; }
    ghost var mine := engine.mine;
    ok := RemoveProven(engine, name, image);
    LeavesThen(old(engine.mine), mine, engine.mine);
  }

  /** Inspects the container by name, and removes it if its label and image match. */
  method RemoveProven(engine: Engine, name: string, image: string) returns (ok: bool)
    modifies engine`clock, engine`others, engine`mine, engine`log
    ensures Leaves(old(engine.mine), engine.mine)
    ensures ok ==>
      && !engine.Exists(Resource(Container, name)) && Resource(Container, name) in old(engine.mine)
      && engine.mine.Keys == old(engine.mine).Keys - {Resource(Container, name)}
      && Disposed(old(engine.log), engine.log, Resource(Container, name), old(engine.mine)[Resource(Container, name)].item)
    ensures
      old(engine.Obliging(name) && engine.Ours(Resource(Container, name)) && OnlyOurs(engine.mine, name, engine.run, image))
      ==> ok
    ensures OnlyProvenRemoved(old(engine.log), engine.log, Resource(Container, name), engine.run, image)
  {
    var what := Resource(Container, name);
    if engine.Obliging(name) { assert Obliges(engine.schedule(engine.clock), name); }
    var inspected := engine.Inspect(what);
    if inspected.None? || inspected.value.0.owner != Some(engine.run) || inspected.value.0.image != image {
      return false;
    }
    ghost var mine := engine.mine;
    if engine.Obliging(name) { assert Obliges(engine.schedule(engine.clock), name); }
    ok := engine.Remove(what);
    LeavesThen(old(engine.mine), mine, engine.mine);
  }

  function ContainerName(ownership: string): string { "inventory-contract-" + ownership }

  /** One container of the image was created, the file was copied out of it, and it was removed. */
  ghost predicate Extracted(before: seq<Act>, after: seq<Act>, what: Resource, item: Item) {
    Disposed(before + [Created(what, item), Copied(what, item)], after, what, item)
  }

  /**
    Creates the container, copies the file out, validates it, and always attempts the removal.
    The file is what the image holds under the contract's path: the text of a small regular
    JSON file, or nothing of that kind.
  */
  method Extract(engine: Engine, image: string) returns (contract: Option<Json>)
    requires engine.mine == map[]
    modifies engine`clock, engine`others, engine`mine, engine`log
    ensures var what := Resource(Container, "inventory-contract-" + engine.run);
      && (contract.Some? ==>
            && engine.files(image).Some? && ExactContract(engine.files(image).value)
            && IsValidated(contract.value)
            && Extracted(old(engine.log), engine.log, what, Item(Some(engine.run), None, image))
            && engine.mine == map[] && !engine.Exists(what))
      && (forall r | r in engine.mine :: r == what)
      && OnlyProvenRemoved(old(engine.log), engine.log, what, engine.run, image)
    ensures old(engine.Obliging(ContainerName(engine.run))) ==>
      (contract.Some? <==> engine.files(image).Some? && ExactContract(engine.files(image).value))
  {
    var name := ContainerName(engine.run);
    contract := CopyOut(engine, name, image);
    ValidatedHolds();
    var removed := RemoveOwned(engine, name, image);
    if !removed { contract := None; }
  }

  /** Strict parsing and validation of what was copied. */
  method Validate(file: Option<Doc>) returns (contract: Option<Json>)
    ensures contract.Some? <==> file.Some? && ExactContract(file.value)
    ensures contract.Some? ==> contract.value == VALIDATED
  {
    contract := None;
    if file.Some? {
      ContractMeans(file.value);
      if Accepted(file.value) { contract := Some(VALIDATED); }
    }
  }

  /** The creation, the copy and the validation. */
  method CopyOut(engine: Engine, name: string, image: string) returns (contract: Option<Json>)
    requires engine.mine == map[]
    modifies engine`clock, engine`others, engine`mine, engine`log
    ensures OnlyOurs(engine.mine, name, engine.run, image)
    ensures OnlyProvenRemoved(old(engine.log), engine.log, Resource(Container, name), engine.run, image)
    ensures var what := Resource(Container, name); var item := Item(Some(engine.run), None, image);
      contract.Some? ==>
        && engine.files(image).Some? && ExactContract(engine.files(image).value)
        && contract.value == VALIDATED
        && engine.log == old(engine.log) + [Created(what, item), Copied(what, item)]
        && engine.Ours(what) && engine.mine.Keys == {what}
    ensures engine.clock >= old(engine.clock)
    ensures old(engine.Obliging(name)) ==>
      (contract.Some? <==> engine.files(image).Some? && ExactContract(engine.files(image).value))
  {
    contract := None;
    StartContains(name, name);
    if engine.Obliging(name) { assert Obliges(engine.schedule(engine.clock), name); }
    var created := engine.Create(Resource(Container, name), Item(Some(engine.run), None, image));
    if created {
      if engine.Obliging(name) { assert Obliges(engine.schedule(engine.clock), name); }
      var copied := engine.Copy(name);
      if copied.Some? { contract := Validate(copied.value); }
    }
  }
}
