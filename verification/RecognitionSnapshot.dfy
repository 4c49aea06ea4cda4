/** Offline recognition snapshots: what validation checks, and what recognition may rely on
    (raspberry-scanner/config/models.py and recognition.py). */
module RecognitionSnapshot {
  import opened Options
  import opened Text

  datatype Json =
    | JNull
    | JBool(value: bool)
    | JInt(number: int)
    | JText(text: string)
    | JList(items: seq<Json>)
    | JObject(fields: map<string, Json>)

  datatype Supplier = Supplier(id: string, name: string, itemSource: string, positionSource: string)

  datatype Profile = Profile(
    supplierId: string,
    kind: string,
    source: string,
    profileId: string,
    version: int,
    schemaVersion: int,
    recognitionMode: Option<string>,
    semanticType: Option<string>,
    configuration: map<string, Json>)

  datatype Client = Client(
    id: string, name: string, revision: string, suppliers: seq<Supplier>, profiles: seq<Profile>)

  datatype Snapshot = Snapshot(generatedAt: string, revision: string, clients: seq<Client>)

  // ----- what a validated configuration satisfies -----

  predicate DistinctSuppliers(ss: seq<Supplier>) {
    forall i, j :: 0 <= i < j < |ss| ==> ss[i].id != ss[j].id
  }

  predicate DistinctClients(cs: seq<Client>) {
    forall i, j :: 0 <= i < j < |cs| ==> cs[i].id != cs[j].id
  }

  predicate DistinctProfiles(ps: seq<Profile>) {
    forall i, j :: 0 <= i < j < |ps| ==> ps[i].supplierId != ps[j].supplierId || ps[i].kind != ps[j].kind
  }

  predicate HasSupplier(ss: seq<Supplier>, id: string) {
    exists i :: 0 <= i < |ss| && ss[i].id == id
  }

  predicate HasProfile(ps: seq<Profile>, supplierId: string, kind: string) {
    exists i :: 0 <= i < |ps| && ps[i].supplierId == supplierId && ps[i].kind == kind
  }

  predicate SupplierServed(s: Supplier, ps: seq<Profile>) {
    && (s.itemSource == "SUPPLIER" ==> HasProfile(ps, s.id, "ITEM"))
    && (s.positionSource == "SUPPLIER" ==> HasProfile(ps, s.id, "POSITION"))
  }

  /** `_validate_supplier_configuration` does not raise. */
  predicate ConfigurationOk(ss: seq<Supplier>, ps: seq<Profile>) {
    && DistinctSuppliers(ss) && DistinctProfiles(ps)
    && (forall i :: 0 <= i < |ps| ==> HasSupplier(ss, ps[i].supplierId))
    && (forall i :: 0 <= i < |ss| ==> SupplierServed(ss[i], ps))
  }

  /** `len({ids}) == len(suppliers)`. */
  method SuppliersDiffer(ss: seq<Supplier>) returns (ids: set<string>, differ: bool)
    ensures forall x :: x in ids <==> HasSupplier(ss, x)
    ensures differ == DistinctSuppliers(ss)
  {
    ids := {};
    for i := 0 to |ss|
      invariant forall x :: x in ids <==> HasSupplier(ss[..i], x)
      invariant |ids| <= i && (|ids| == i <==> DistinctSuppliers(ss[..i]))
    {
      OneMoreSupplier(ss, i);
      ids := ids + {ss[i].id};
    }
    assert ss[..|ss|] == ss;
    differ := |ids| == |ss|;
  }

  lemma OneMoreSupplier(ss: seq<Supplier>, i: nat)
    requires i < |ss|
    ensures forall x :: HasSupplier(ss[..i + 1], x) <==> HasSupplier(ss[..i], x) || x == ss[i].id
    ensures DistinctSuppliers(ss[..i + 1]) <==> DistinctSuppliers(ss[..i]) && !HasSupplier(ss[..i], ss[i].id)
  {
    var a, b := ss[..i], ss[..i + 1];
    assert b == a + [ss[i]] && b[i] == ss[i];
    assert forall k :: 0 <= k < i ==> a[k] == b[k];
    forall x ensures HasSupplier(b, x) <==> HasSupplier(a, x) || x == ss[i].id {
      if k :| 0 <= k < |b| && b[k].id == x { assert k == i || a[k].id == x; }
      if k :| 0 <= k < |a| && a[k].id == x { assert b[k].id == x; }
    }
  }

  lemma OneMoreProfile(ps: seq<Profile>, i: nat)
    requires i < |ps|
    ensures forall s, k ::
      HasProfile(ps[..i + 1], s, k) <==> HasProfile(ps[..i], s, k) || (s == ps[i].supplierId && k == ps[i].kind)
    ensures DistinctProfiles(ps[..i + 1]) <==> DistinctProfiles(ps[..i]) && !HasProfile(ps[..i], ps[i].supplierId, ps[i].kind)
  {
    var a, b := ps[..i], ps[..i + 1];
    assert b == a + [ps[i]] && b[i] == ps[i];
    assert forall k :: 0 <= k < i ==> a[k] == b[k];
    forall s, k ensures HasProfile(b, s, k) <==> HasProfile(a, s, k) || (s == ps[i].supplierId && k == ps[i].kind) {
      if j :| 0 <= j < |b| && b[j].supplierId == s && b[j].kind == k { assert j == i || a[j] == b[j]; }
      if j :| 0 <= j < |a| && a[j].supplierId == s && a[j].kind == k { assert b[j] == a[j]; }
    }
  }

  lemma NotDistinctLater(ps: seq<Profile>, n: nat)
    requires n <= |ps| && !DistinctProfiles(ps[..n])
    ensures !DistinctProfiles(ps)
  {
    var i, j :| 0 <= i < j < n && !(ps[..n][i].supplierId != ps[..n][j].supplierId || ps[..n][i].kind != ps[..n][j].kind);
    assert ps[i] == ps[..n][i] && ps[j] == ps[..n][j];
  }

  method ValidateSupplierConfiguration(ss: seq<Supplier>, ps: seq<Profile>) returns (ok: bool)
    ensures ok == ConfigurationOk(ss, ps)
  {
    hide HasSupplier, HasProfile, DistinctProfiles, DistinctSuppliers;
    var ids, differ := SuppliersDiffer(ss);
    if !differ { return false; }
    var keys: set<(string, string)> := {};
    assert ps[..0] == [];
    NoProfiles();
    for i := 0 to |ps|
      invariant forall s, k :: (s, k) in keys <==> HasProfile(ps[..i], s, k)
      invariant DistinctProfiles(ps[..i])
      invariant forall j :: 0 <= j < i ==> HasSupplier(ss, ps[j].supplierId)
    {
      var key := (ps[i].supplierId, ps[i].kind);
      if ps[i].supplierId !in ids { return false; }
      OneMoreProfile(ps, i);
      if key in keys {
        NotDistinctLater(ps, i + 1);
        return false;
      }
      keys := keys + {key};
    }
    assert ps[..|ps|] == ps;
    for i := 0 to |ss|
      invariant forall j :: 0 <= j < i ==> SupplierServed(ss[j], ps)
    {
      var s := ss[i];
      if s.itemSource == "SUPPLIER" && (s.id, "ITEM") !in keys { return false; }
      if s.positionSource == "SUPPLIER" && (s.id, "POSITION") !in keys { return false; }
    }
    ok := true;
  }

  lemma NoProfiles()
    ensures DistinctProfiles([]) && forall s, k :: !HasProfile([], s, k)
  {
  }

  // ----- valid snapshots -----

  predicate IsSource(s: string) {
    s == "DINAMIC" || s == "SUPPLIER"
  }

  predicate IsKind(s: string) {
    s == "ITEM" || s == "POSITION"
  }

  /** `datetime.fromisoformat` after the Z is replaced. */
  type IsIso = string -> bool

  /** Non-empty, with no blank at an end. */
  predicate Meaningful(s: string) {
    s != "" && Trimmed(s)
  }

  predicate ValidSupplier(s: Supplier) {
    Meaningful(s.id) && Meaningful(s.name) && IsSource(s.itemSource) && IsSource(s.positionSource)
  }

  predicate ValidProfile(p: Profile) {
    && Meaningful(p.supplierId) && IsKind(p.kind) && p.source == "SUPPLIER" && Meaningful(p.profileId)
    && p.version >= 1 && p.schemaVersion >= 1
  }

  predicate ValidClient(c: Client) {
    && Meaningful(c.id) && Meaningful(c.name) && Meaningful(c.revision)
    && (forall i :: 0 <= i < |c.suppliers| ==> ValidSupplier(c.suppliers[i]))
    && (forall i :: 0 <= i < |c.profiles| ==> ValidProfile(c.profiles[i]))
    && ConfigurationOk(c.suppliers, c.profiles)
  }

  predicate ValidSnapshot(iso: IsIso, s: Snapshot) {
    && Meaningful(s.generatedAt) && iso(s.generatedAt) && Meaningful(s.revision)
    && (forall i :: 0 <= i < |s.clients| ==> ValidClient(s.clients[i]))
    && DistinctClients(s.clients)
  }

  // ----- what recognition relies on -----

  function FindClient(cs: seq<Client>, id: string): Option<Client> {
    if cs == [] then None else if cs[0].id == id then Some(cs[0]) else FindClient(cs[1..], id)
  }

  function FindSupplier(ss: seq<Supplier>, id: string): Option<Supplier> {
    if ss == [] then None else if ss[0].id == id then Some(ss[0]) else FindSupplier(ss[1..], id)
  }

  function FindProfile(ps: seq<Profile>, supplierId: string, kind: string): Option<Profile> {
    if ps == [] then None
    else if ps[0].supplierId == supplierId && ps[0].kind == kind then Some(ps[0])
    else FindProfile(ps[1..], supplierId, kind)
  }

  lemma {:induction false} FoundProfile(ps: seq<Profile>, supplierId: string, kind: string)
    ensures FindProfile(ps, supplierId, kind).Some? <==> HasProfile(ps, supplierId, kind)
    ensures FindProfile(ps, supplierId, kind).Some? ==>
      var p := FindProfile(ps, supplierId, kind).value;
      p in ps && p.supplierId == supplierId && p.kind == kind
  {
    if ps != [] {
      FoundProfile(ps[1..], supplierId, kind);
      if i :| 0 <= i < |ps| && ps[i].supplierId == supplierId && ps[i].kind == kind {
        assert i > 0 ==> ps[1..][i - 1] == ps[i];
      }
      if i :| 0 <= i < |ps[1..]| && ps[1..][i].supplierId == supplierId && ps[1..][i].kind == kind {
        assert ps[i + 1] == ps[1..][i];
      }
    }
  }

  lemma {:induction false} FoundSupplier(ss: seq<Supplier>, id: string)
    requires FindSupplier(ss, id).Some?
    ensures FindSupplier(ss, id).value in ss && FindSupplier(ss, id).value.id == id
  {
    if ss[0].id != id { FoundSupplier(ss[1..], id); }
  }

  lemma {:induction false} FoundClient(cs: seq<Client>, id: string)
    requires FindClient(cs, id).Some?
    ensures FindClient(cs, id).value in cs && FindClient(cs, id).value.id == id
  {
    if cs[0].id != id { FoundClient(cs[1..], id); }
  }

  /** A supplier source has exactly one profile, and it is the one found. */
  lemma ExactlyOneProfile(c: Client, s: Supplier, kind: string)
    requires ValidClient(c) && s in c.suppliers && IsKind(kind)
    requires (if kind == "ITEM" then s.itemSource else s.positionSource) == "SUPPLIER"
    ensures FindProfile(c.profiles, s.id, kind).Some?
    ensures forall p :: p in c.profiles && p.supplierId == s.id && p.kind == kind ==>
      p == FindProfile(c.profiles, s.id, kind).value
    ensures forall i, j :: 0 <= i < j < |c.profiles| && c.profiles[i].supplierId == s.id && c.profiles[i].kind == kind ==>
      c.profiles[j].supplierId != s.id || c.profiles[j].kind != kind
  {
    hide ValidSupplier, ValidProfile, Meaningful, HasSupplier, HasProfile;
    assert SupplierServed(s, c.profiles);
    FoundProfile(c.profiles, s.id, kind);
    var found := FindProfile(c.profiles, s.id, kind).value;
    forall p | p in c.profiles && p.supplierId == s.id && p.kind == kind ensures p == found {
      var i :| 0 <= i < |c.profiles| && c.profiles[i] == p;
      var j :| 0 <= j < |c.profiles| && c.profiles[j] == found;
      assert i == j;
    }
  }

  /** Which way one kind of a reading is recognised (recognition.py, `_recognize_kind`). */
  datatype Route = Dinamic | ProfileMissing | BySupplier(profile: Profile)

  function RouteOf(source: string, profile: Option<Profile>): Route {
    if source == "DINAMIC" then Dinamic else if profile.None? then ProfileMissing else BySupplier(profile.value)
  }

  /** What `process` does with a selection. */
  datatype Plan = Raw | SelectionLost | Recognise(item: Route, position: Route)

  function PlanFor(snapshot: Option<Snapshot>, clientId: Option<string>, supplierId: Option<string>): Plan {
    if clientId.None? || supplierId.None? then Raw
    else
      var client := if snapshot.Some? then FindClient(snapshot.value.clients, clientId.value) else None;
      var supplier := if client.Some? then FindSupplier(client.value.suppliers, supplierId.value) else None;
      if supplier.None? then SelectionLost
      else
        var s, c := supplier.value, client.value;
        Recognise(RouteOf(s.itemSource, FindProfile(c.profiles, s.id, "ITEM")),
                  RouteOf(s.positionSource, FindProfile(c.profiles, s.id, "POSITION")))
  }

  /** In a validated snapshot no reading meets a missing profile, and a supplier's profile is for that
      supplier and kind. */
  lemma MissingProfileIsUnreachable(iso: IsIso, s: Snapshot, clientId: Option<string>, supplierId: Option<string>)
    requires ValidSnapshot(iso, s) && PlanFor(Some(s), clientId, supplierId).Recognise?
    ensures var plan := PlanFor(Some(s), clientId, supplierId);
      && !plan.item.ProfileMissing? && !plan.position.ProfileMissing?
      && (plan.item.BySupplier? ==> plan.item.profile.supplierId == supplierId.value && plan.item.profile.kind == "ITEM")
      && (plan.position.BySupplier? ==>
            plan.position.profile.supplierId == supplierId.value && plan.position.profile.kind == "POSITION")
  {
    hide ValidProfile, Meaningful, ConfigurationOk, FindProfile, FindSupplier, FindClient;
    var c := FindClient(s.clients, clientId.value).value;
    FoundClient(s.clients, clientId.value);
    var supplier := FindSupplier(c.suppliers, supplierId.value).value;
    FoundSupplier(c.suppliers, supplierId.value);
    assert ValidClient(c) && ValidSupplier(supplier);
    FoundProfile(c.profiles, supplier.id, "ITEM");
    FoundProfile(c.profiles, supplier.id, "POSITION");
    if supplier.itemSource == "SUPPLIER" { ExactlyOneProfile(c, supplier, "ITEM"); }
    if supplier.positionSource == "SUPPLIER" { ExactlyOneProfile(c, supplier, "POSITION"); }
  }
}
