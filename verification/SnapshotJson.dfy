/** Snapshots from and to JSON (raspberry-scanner/config/models.py, `from_dict` and `as_dict`). An error
    is None; its message is not modelled. Integers are the only JSON numbers here, and whether a time is
    ISO-8601 is a parameter. */
module SnapshotJson {
  import opened Options
  import opened Text
  import opened RecognitionSnapshot

  const SCHEMA := 1

  // ----- pieces -----

  function Field(m: map<string, Json>, key: string): Option<Json> {
    if key in m then Some(m[key]) else None
  }

  function RequiredString(j: Option<Json>): (r: Option<string>)
    ensures r.Some? ==> r.value != "" && Trimmed(r.value)
  {
    if j.Some? && j.value.JText? && Strip(j.value.text) != "" then Some(Strip(j.value.text)) else None
  }

  /** A string or null; absent counts as null. None is an error. */
  function OptionalString(j: Option<Json>): Option<Option<string>> {
    if j.None? || j.value.JNull? then Some(None)
    else if j.value.JText? then Some(Some(j.value.text))
    else None
  }

  function PositiveInt(j: Option<Json>): Option<int> {
    if j.Some? && j.value.JInt? && j.value.number >= 1 then Some(j.value.number) else None
  }

  /** All items, or None if one of them is an error. */
  function MapAll<T>(f: Json -> Option<T>, items: seq<Json>): (r: Option<seq<T>>)
    ensures r.Some? ==> |r.value| == |items| && forall i :: 0 <= i < |items| ==> f(items[i]) == Some(r.value[i])
  {
    if items == [] then Some([])
    else
      var head, rest := f(items[0]), MapAll(f, items[1..]);
      if head.None? || rest.None? then None else Some([head.value] + rest.value)
  }

  // ----- from_dict -----

  function SupplierFrom(j: Json): Option<Supplier> {
    if !j.JObject? then None
    else
      var id, name := RequiredString(Field(j.fields, "client_supplier_id")), RequiredString(Field(j.fields, "name"));
      var item, position := RequiredString(Field(j.fields, "item_source")), RequiredString(Field(j.fields, "position_source"));
      if id.None? || name.None? || item.None? || position.None? || !IsSource(item.value) || !IsSource(position.value)
      then None
      else Some(Supplier(id.value, name.value, item.value, position.value))
  }

  function ProfileFrom(j: Json): Option<Profile> {
    if !j.JObject? then None
    else
      var kind, source := RequiredString(Field(j.fields, "label_kind")), RequiredString(Field(j.fields, "source"));
      var version := PositiveInt(Field(j.fields, "profile_version"));
      var schema := PositiveInt(Field(j.fields, "configuration_schema_version"));
      var configuration := Field(j.fields, "configuration");
      var mode := OptionalString(Field(j.fields, "recognition_mode"));
      var semantic := OptionalString(Field(j.fields, "semantic_type"));
      var supplier, id := RequiredString(Field(j.fields, "client_supplier_id")), RequiredString(Field(j.fields, "profile_id"));
      if kind.None? || !IsKind(kind.value) || source != Some("SUPPLIER") || version.None? || schema.None?
         || configuration.None? || !configuration.value.JObject? || mode.None? || semantic.None?
         || supplier.None? || id.None?
      then None
      else Some(Profile(supplier.value, kind.value, source.value, id.value, version.value, schema.value,
                        mode.value, semantic.value, configuration.value.fields))
  }

  function ClientFrom(j: Json): Option<Client> {
    if !j.JObject? then None
    else
      var id, name := RequiredString(Field(j.fields, "client_id")), RequiredString(Field(j.fields, "name"));
      var revision := RequiredString(Field(j.fields, "bundle_revision"));
      var rawSuppliers, rawProfiles := Field(j.fields, "suppliers"), Field(j.fields, "profiles");
      if id.None? || name.None? || revision.None? || rawSuppliers.None? || !rawSuppliers.value.JList?
         || rawProfiles.None? || !rawProfiles.value.JList?
      then None
      else
        var suppliers, profiles := MapAll(SupplierFrom, rawSuppliers.value.items), MapAll(ProfileFrom, rawProfiles.value.items);
        if suppliers.None? || profiles.None? || !ConfigurationOk(suppliers.value, profiles.value) then None
        else Some(Client(id.value, name.value, revision.value, suppliers.value, profiles.value))
  }

  function SnapshotFrom(iso: IsIso, j: Json): Option<Snapshot> {
    if !j.JObject? then None
    else
      var schema, generated := Field(j.fields, "bundle_schema_version"), RequiredString(Field(j.fields, "generated_at"));
      var revision, raw := RequiredString(Field(j.fields, "bundle_revision")), Field(j.fields, "clients");
      // Python's True equals 1
      if (schema != Some(JInt(SCHEMA)) && schema != Some(JBool(true)))
         || generated.None? || !iso(generated.value) || revision.None? || raw.None? || !raw.value.JList?
      then None
      else
        var clients := MapAll(ClientFrom, raw.value.items);
        if clients.None? || !DistinctClients(clients.value) then None
        else Some(Snapshot(generated.value, revision.value, clients.value))
  }

  // ----- as_dict -----

  function Optional(o: Option<string>): Json {
    if o.Some? then JText(o.value) else JNull
  }

  function SupplierDict(s: Supplier): Json {
    JObject(map["client_supplier_id" := JText(s.id), "name" := JText(s.name),
                "item_source" := JText(s.itemSource), "position_source" := JText(s.positionSource)])
  }

  function ProfileDict(p: Profile): Json {
    JObject(map["client_supplier_id" := JText(p.supplierId), "label_kind" := JText(p.kind),
                "source" := JText(p.source), "profile_id" := JText(p.profileId),
                "profile_version" := JInt(p.version), "configuration_schema_version" := JInt(p.schemaVersion),
                "recognition_mode" := Optional(p.recognitionMode), "semantic_type" := Optional(p.semanticType),
                "configuration" := JObject(p.configuration)])
  }

  function Dicts<T>(d: T -> Json, xs: seq<T>): (r: seq<Json>)
    ensures |r| == |xs| && forall i :: 0 <= i < |xs| ==> r[i] == d(xs[i])
  {
    seq(|xs|, i requires 0 <= i < |xs| => d(xs[i]))
  }

  function ClientDict(c: Client): Json {
    JObject(map["client_id" := JText(c.id), "name" := JText(c.name),
                "suppliers" := JList(Dicts(SupplierDict, c.suppliers)),
                "profiles" := JList(Dicts(ProfileDict, c.profiles)),
                "bundle_revision" := JText(c.revision)])
  }

  function SnapshotDict(s: Snapshot): Json {
    JObject(map["bundle_schema_version" := JInt(SCHEMA), "generated_at" := JText(s.generatedAt),
                "clients" := JList(Dicts(ClientDict, s.clients)), "bundle_revision" := JText(s.revision)])
  }

  lemma RequiredIsText(s: string)
    ensures RequiredString(Some(JText(s))) == Some(s) <==> Meaningful(s)
  {
    hide LStrip, RStrip;
  }

  lemma SourceIsText(s: string)
    requires IsSource(s)
    ensures Meaningful(s)
  {
  }

  lemma {:induction false} MapAllDicts<T>(f: Json -> Option<T>, d: T -> Json, xs: seq<T>)
    requires forall i :: 0 <= i < |xs| ==> f(d(xs[i])) == Some(xs[i])
    ensures MapAll(f, Dicts(d, xs)) == Some(xs)
  {
    if xs != [] {
      assert Dicts(d, xs)[1..] == Dicts(d, xs[1..]);
      MapAllDicts(f, d, xs[1..]);
      assert xs == [xs[0]] + xs[1..];
    }
  }

  lemma SupplierRoundTrip(s: Supplier)
    requires ValidSupplier(s)
    ensures SupplierFrom(SupplierDict(s)) == Some(s)
  {
    hide RequiredString, Meaningful, IsSource;
    SourceIsText(s.itemSource);
    SourceIsText(s.positionSource);
    RequiredIsText(s.id);
    RequiredIsText(s.name);
    RequiredIsText(s.itemSource);
    RequiredIsText(s.positionSource);
  }

  lemma SupplierFromIsValid(j: Json)
    requires SupplierFrom(j).Some?
    ensures ValidSupplier(SupplierFrom(j).value)
  {
    hide Strip;
  }

  lemma ProfileFromIsValid(j: Json)
    requires ProfileFrom(j).Some?
    ensures ValidProfile(ProfileFrom(j).value)
  {
    hide Strip;
  }

  lemma ProfileFields(p: Profile)
    ensures var f := ProfileDict(p).fields;
      && Field(f, "client_supplier_id") == Some(JText(p.supplierId)) && Field(f, "label_kind") == Some(JText(p.kind))
      && Field(f, "source") == Some(JText(p.source)) && Field(f, "profile_id") == Some(JText(p.profileId))
      && Field(f, "profile_version") == Some(JInt(p.version))
      && Field(f, "configuration_schema_version") == Some(JInt(p.schemaVersion))
      && Field(f, "recognition_mode") == Some(Optional(p.recognitionMode))
      && Field(f, "semantic_type") == Some(Optional(p.semanticType))
      && Field(f, "configuration") == Some(JObject(p.configuration))
  {
    hide Optional;
  }

  lemma OptionalRoundTrip(o: Option<string>)
    ensures OptionalString(Some(Optional(o))) == Some(o)
  {
  }

  lemma ProfileRoundTrip(p: Profile)
    requires ValidProfile(p)
    ensures ProfileFrom(ProfileDict(p)) == Some(p)
  {
    hide RequiredString, Meaningful, IsSource, IsKind, Field, OptionalString, Optional;
    ProfileFields(p);
    KindIsText(p.kind);
    RequiredIsText(p.supplierId);
    RequiredIsText(p.kind);
    RequiredIsText(p.source);
    RequiredIsText(p.profileId);
    OptionalRoundTrip(p.recognitionMode);
    OptionalRoundTrip(p.semanticType);
    SupplierIsText();
  }

  lemma KindIsText(kind: string)
    requires IsKind(kind)
    ensures Meaningful(kind)
  {
  }

  lemma SupplierIsText()
    ensures Meaningful("SUPPLIER")
  {
  }

  lemma ClientRoundTrip(c: Client)
    requires ValidClient(c)
    ensures ClientFrom(ClientDict(c)) == Some(c)
  {
    hide RequiredString, Meaningful, ValidSupplier, ValidProfile, ConfigurationOk, SupplierFrom, ProfileFrom, SupplierDict, ProfileDict, MapAll, Dicts;
    RequiredIsText(c.id);
    RequiredIsText(c.name);
    RequiredIsText(c.revision);
    forall i | 0 <= i < |c.suppliers| ensures SupplierFrom(SupplierDict(c.suppliers[i])) == Some(c.suppliers[i]) {
      SupplierRoundTrip(c.suppliers[i]);
    }
    forall i | 0 <= i < |c.profiles| ensures ProfileFrom(ProfileDict(c.profiles[i])) == Some(c.profiles[i]) {
      ProfileRoundTrip(c.profiles[i]);
    }
    MapAllDicts(SupplierFrom, SupplierDict, c.suppliers);
    MapAllDicts(ProfileFrom, ProfileDict, c.profiles);
  }

  lemma ClientFromIsValid(j: Json)
    requires ClientFrom(j).Some?
    ensures ValidClient(ClientFrom(j).value)
  {
    hide Strip, ValidSupplier, ValidProfile, ConfigurationOk, SupplierFrom, ProfileFrom, MapAll;
    var c := ClientFrom(j).value;
    var suppliers, profiles := j.fields["suppliers"].items, j.fields["profiles"].items;
    forall i | 0 <= i < |c.suppliers| ensures ValidSupplier(c.suppliers[i]) { SupplierFromIsValid(suppliers[i]); }
    forall i | 0 <= i < |c.profiles| ensures ValidProfile(c.profiles[i]) { ProfileFromIsValid(profiles[i]); }
  }

  /** Whatever passes validation is valid. */
  lemma SnapshotFromIsValid(iso: IsIso, j: Json)
    requires SnapshotFrom(iso, j).Some?
    ensures ValidSnapshot(iso, SnapshotFrom(iso, j).value)
  {
    hide Strip, ValidClient, ClientFrom, MapAll, DistinctClients;
    var s := SnapshotFrom(iso, j).value;
    var clients := j.fields["clients"].items;
    forall i | 0 <= i < |s.clients| ensures ValidClient(s.clients[i]) { ClientFromIsValid(clients[i]); }
  }

  lemma SnapshotRoundTrip(iso: IsIso, s: Snapshot)
    requires ValidSnapshot(iso, s)
    ensures SnapshotFrom(iso, SnapshotDict(s)) == Some(s)
  {
    hide RequiredString, Meaningful, ValidClient, ClientFrom, ClientDict, MapAll, Dicts, DistinctClients;
    RequiredIsText(s.generatedAt);
    RequiredIsText(s.revision);
    forall i | 0 <= i < |s.clients| ensures ClientFrom(ClientDict(s.clients[i])) == Some(s.clients[i]) {
      ClientRoundTrip(s.clients[i]);
    }
    MapAllDicts(ClientFrom, ClientDict, s.clients);
  }

  /** A snapshot survives being written and read exactly when it is valid. */
  lemma SurvivesIff(iso: IsIso, s: Snapshot)
    ensures SnapshotFrom(iso, SnapshotDict(s)) == Some(s) <==> ValidSnapshot(iso, s)
  {
    hide SnapshotFrom, SnapshotDict, ValidSnapshot;
    if ValidSnapshot(iso, s) { SnapshotRoundTrip(iso, s); }
    if SnapshotFrom(iso, SnapshotDict(s)) == Some(s) { SnapshotFromIsValid(iso, SnapshotDict(s)); }
  }
}
