/** Importing an offline package: both documents are merged and the two files are replaced one after
    the other, with a rollback (raspberry-scanner/config/offline_package.py). Catalog entries and
    contexts are opaque texts here. */
module PackageImport {
  import opened EffectLists
  import opened Options
  import opened RecognitionSnapshot
  import opened SnapshotJson
  import opened SnapshotMerge

  datatype Catalog = Catalog(inventories: map<string, string>, contexts: map<string, string>)

  const NO_CATALOG := Catalog(map[], map[])

  /** `merge_catalog_documents`. */
  function MergeCatalogs(base: Catalog, incoming: Catalog): Catalog {
    Catalog(base.inventories + incoming.inventories, base.contexts + incoming.contexts)
  }

  datatype CatalogStats = CatalogStats(
    inventoriesAdded: nat, inventoriesUpdated: nat, contextsAdded: nat, contextsUpdated: nat)

  /** One of the two loops: each incoming entry is put in place and counted. */
  method PutEntries<K(!new, ==), V>(base: map<K, V>, incoming: map<K, V>) returns (merged: map<K, V>, added: nat, updated: nat)
    ensures merged == base + incoming
    ensures added == |incoming.Keys - base.Keys| && updated == |incoming.Keys * base.Keys|
  {
    hide PutSoFar, Parts;
    merged, added, updated := base, 0, 0;
    var todo := incoming.Keys;
    ghost var done: set<K> := {};
    PutNone(base, incoming);
    while todo != {}
      invariant Parts(incoming.Keys, done, todo)
      invariant PutSoFar(merged, base, incoming, done)
      invariant added == |done - base.Keys| && updated == |done * base.Keys|
      decreases |todo|
    {
      var k :| k in todo;
      MovePart(incoming.Keys, done, todo, k);
      CountOne(done, base.Keys, k);
      PutOne(merged, base, incoming, done, k);
      if k in merged { updated := updated + 1; } else { added := added + 1; }
      merged := merged[k := incoming[k]];
      todo, done := todo - {k}, done + {k};
    }
    PutEvery(merged, base, incoming, done);
  }

  ghost predicate Parts<K>(all: set<K>, done: set<K>, todo: set<K>) {
    done !! todo && done + todo == all
  }

  lemma MovePart<K(!new)>(all: set<K>, done: set<K>, todo: set<K>, k: K)
    requires Parts(all, done, todo) && k in todo
    ensures Parts(all, done + {k}, todo - {k}) && k !in done && k in all && |todo - {k}| < |todo|
  {
    assert todo == (todo - {k}) + {k};
  }

  lemma PutNone<K, V>(base: map<K, V>, incoming: map<K, V>)
    ensures PutSoFar(base, base, incoming, {}) && Parts(incoming.Keys, {}, incoming.Keys)
    ensures |{} - base.Keys| == 0 && |{} * base.Keys| == 0
  {
    assert {} - base.Keys == {} && {} * base.Keys == {};
  }

  lemma PutEvery<K(!new), V>(merged: map<K, V>, base: map<K, V>, incoming: map<K, V>, done: set<K>)
    requires PutSoFar(merged, base, incoming, done) && Parts(incoming.Keys, done, {})
    ensures merged == base + incoming && done == incoming.Keys
  {
    assert done + {} == done;
    assert merged.Keys == (base + incoming).Keys;
  }

  ghost predicate PutSoFar<K, V>(merged: map<K, V>, base: map<K, V>, incoming: map<K, V>, done: set<K>) {
    && done <= incoming.Keys && merged.Keys == base.Keys + done
    && forall k :: k in merged ==> merged[k] == if k in done then incoming[k] else base[k]
  }

  lemma PutOne<K(!new), V>(merged: map<K, V>, base: map<K, V>, incoming: map<K, V>, done: set<K>, k: K)
    requires PutSoFar(merged, base, incoming, done) && k in incoming && k !in done
    ensures PutSoFar(merged[k := incoming[k]], base, incoming, done + {k})
    ensures k in merged <==> k in base
  {
  }

  lemma CountOne<K(!new)>(done: set<K>, base: set<K>, k: K)
    requires k !in done
    ensures |done + {k} - base| == |done - base| + (if k in base then 0 else 1)
    ensures |(done + {k}) * base| == |done * base| + (if k in base then 1 else 0)
  {
    assert done + {k} - base == (done - base) + (if k in base then {} else {k});
    assert (done + {k}) * base == done * base + (if k in base then {k} else {});
  }

  /** The merged catalog, and what the caller is told of it. */
  method MergeCatalogDocuments(base: Catalog, incoming: Catalog) returns (merged: Catalog, stats: CatalogStats)
    ensures merged == MergeCatalogs(base, incoming)
    ensures stats == CatalogStats(
      |incoming.inventories.Keys - base.inventories.Keys|, |incoming.inventories.Keys * base.inventories.Keys|,
      |incoming.contexts.Keys - base.contexts.Keys|, |incoming.contexts.Keys * base.contexts.Keys|)
  {
    var inventories, a, b := PutEntries(base.inventories, incoming.inventories);
    var contexts, c, d := PutEntries(base.contexts, incoming.contexts);
    return Catalog(inventories, contexts), CatalogStats(a, b, c, d);
  }

  datatype Package = Package(recognition: Snapshot, catalog: Catalog)

  /** The two files; None when one is missing. */
  datatype Disk = Disk(snapshot: Option<Snapshot>, catalog: Option<Catalog>)

  datatype Effect = PutSnapshot(snapshot: Option<Snapshot>) | PutCatalog(catalog: Option<Catalog>)

  function Apply(d: Disk, e: Effect): Disk {
    match e
    case PutSnapshot(s) => d.(snapshot := s)
    case PutCatalog(c) => d.(catalog := c)
  }

  /** Which steps succeed: staging with backups, each replacement, and the rollback of the first. */
  datatype Fate = Fate(staged: bool, first: bool, second: bool, rolledBack: bool)

  const SMOOTH := Fate(true, true, true, true)

  /** `_atomic_replace_pair`. */
  function ReplaceEffects(d: Disk, s: Snapshot, c: Catalog, f: Fate): seq<Effect> {
    if !f.staged || !f.first then []
    else if f.second then [PutSnapshot(Some(s)), PutCatalog(Some(c))]
    else [PutSnapshot(Some(s))] + (if f.rolledBack then [PutSnapshot(d.snapshot)] else [])
  }

  function Stored(d: Disk): Catalog {
    if d.catalog.Some? then d.catalog.value else NO_CATALOG
  }

  /** The pair an import sets out to store. */
  function Target(revise: Revise, d: Disk, p: Package): Disk {
    Disk(Some(Merge(revise, d.snapshot, p.recognition)), Some(MergeCatalogs(Stored(d), p.catalog)))
  }

  /** What happens of an import of which only the first `kept` effects take place. */
  datatype Attempt = Attempt(package: Package, fate: Fate, kept: nat)

  function Happened(revise: Revise, d: Disk, a: Attempt): seq<Effect> {
    var t := Target(revise, d, a.package);
    var es := ReplaceEffects(d, t.snapshot.value, t.catalog.value, a.fate);
    if a.kept < |es| then es[..a.kept] else es
  }

  function Import(revise: Revise, d: Disk, a: Attempt): Disk {
    ApplyAll(Apply, d, Happened(revise, d, a))
  }

  class PackageFiles {
    var snapshot: Option<Snapshot>
    var catalog: Option<Catalog>

    ghost function View(): Disk
      reads this
    {
      Disk(snapshot, catalog)
    }

    constructor (d: Disk)
      ensures View() == d
    {
      snapshot, catalog := d.snapshot, d.catalog;
    }

    /** True when both files were replaced. */
    method AtomicReplacePair(s: Snapshot, c: Catalog, f: Fate) returns (ok: bool)
      modifies this
      ensures View() == ApplyAll(Apply, old(View()), ReplaceEffects(old(View()), s, c, f))
      ensures ok <==> f.staged && f.first && f.second
    {
      ghost var d := View();
      EffectsUnfold(d, s, c, f);
      if !f.staged || !f.first {
        return false;
      }
      var backup := snapshot;
      snapshot := Some(s);
      if f.second {
        catalog := Some(c);
        return true;
      }
      if f.rolledBack { snapshot := backup; }
      ok := false;
    }
  }

  lemma EffectsUnfold(d: Disk, s: Snapshot, c: Catalog, f: Fate)
    ensures ApplyAll(Apply, d, ReplaceEffects(d, s, c, f))
      == if !f.staged || !f.first then d
         else if f.second then Disk(Some(s), Some(c))
         else if f.rolledBack then d
         else d.(snapshot := Some(s))
  {
    OneEffect(Apply, d, PutSnapshot(Some(s)));
    TwoEffects(Apply, d, PutSnapshot(Some(s)), PutCatalog(Some(c)));
    TwoEffects(Apply, d, PutSnapshot(Some(s)), PutSnapshot(d.snapshot));
  }

  /** The attempt ends with the snapshot replaced and the catalog not: it stops right after the first
      replacement, or the second one fails and the rollback does too. */
  predicate CutBetween(a: Attempt) {
    && a.fate.staged && a.fate.first && a.kept >= 1
    && (a.kept == 1 || (!a.fate.second && !a.fate.rolledBack))
  }

  /** What an attempt leaves, by its fate and the point where it stopped: the old pair, the new pair, or
      the new snapshot beside the old catalog. */
  lemma ThreeOutcomes(revise: Revise, d: Disk, a: Attempt)
    ensures var t := Target(revise, d, a.package);
      Import(revise, d, a)
      == if !a.fate.staged || !a.fate.first || a.kept == 0 then d
         else if a.kept == 1 || (!a.fate.second && !a.fate.rolledBack) then d.(snapshot := t.snapshot)
         else if a.fate.second then t
         else d
  {
    hide Merge, MergeCatalogs;
    var t := Target(revise, d, a.package);
    EffectsUnfold(d, t.snapshot.value, t.catalog.value, a.fate);
    OneEffect(Apply, d, PutSnapshot(t.snapshot));
    var es := ReplaceEffects(d, t.snapshot.value, t.catalog.value, a.fate);
    assert es != [] ==> es[..1] == [PutSnapshot(t.snapshot)];
    assert es[..0] == [];
  }

  /** The stored pair is torn - neither the one before nor the one wanted - exactly when the attempt is cut
      between the replacements and both documents would change. */
  lemma TornIff(revise: Revise, d: Disk, a: Attempt)
    ensures var t := Target(revise, d, a.package);
      (Import(revise, d, a) != d && Import(revise, d, a) != t)
      <==> CutBetween(a) && t.snapshot != d.snapshot && t.catalog != d.catalog
  {
    hide Merge, MergeCatalogs, Import;
    ThreeOutcomes(revise, d, a);
  }

  /** A device without either file, a package with one inventory, and power lost after the first
      replacement: the device starts again with a snapshot and no catalog. */
  lemma PowerLossTearsThePair(revise: Revise, recognition: Snapshot, inventory: string, entry: string)
    ensures var p := Package(recognition, Catalog(map[inventory := entry], map[]));
      var d := Disk(None, None);
      var after := Import(revise, d, Attempt(p, SMOOTH, 1));
      && after.snapshot.Some? && after.catalog == None
      && after != d && after != Target(revise, d, p)
  {
    hide Merge, MergeCatalogs, Import;
    var p := Package(recognition, Catalog(map[inventory := entry], map[]));
    ThreeOutcomes(revise, Disk(None, None), Attempt(p, SMOOTH, 1));
  }

  lemma MergeCatalogTwice(base: Catalog, incoming: Catalog)
    ensures MergeCatalogs(MergeCatalogs(base, incoming), incoming) == MergeCatalogs(base, incoming)
  {
    var once := MergeCatalogs(base, incoming);
    assert once.inventories + incoming.inventories == once.inventories;
    assert once.contexts + incoming.contexts == once.contexts;
  }

  ghost predicate Distinct(d: Disk, p: Package) {
    DistinctClients(BaseClients(d.snapshot)) && DistinctClients(p.recognition.clients)
  }

  /** Wherever an import was cut off, importing the same package again ends where one smooth import would
      have ended. */
  lemma ReimportHeals(revise: Revise, d: Disk, a: Attempt)
    requires Distinct(d, a.package)
    ensures Import(revise, Import(revise, d, a), Attempt(a.package, SMOOTH, 2)) == Target(revise, d, a.package)
  {
    hide Merge, MergeCatalogs, DistinctClients, Happened, Import;
    var p := a.package;
    var after := Import(revise, d, a);
    ThreeOutcomes(revise, d, a);
    SmoothReaches(revise, after, p);
    ImportTwice(revise, d.snapshot, p.recognition);
    MergeCatalogTwice(Stored(d), p.catalog);
  }

  lemma SmoothReaches(revise: Revise, d: Disk, p: Package)
    ensures Import(revise, d, Attempt(p, SMOOTH, 2)) == Target(revise, d, p)
  {
    hide Merge, MergeCatalogs;
    var t := Target(revise, d, p);
    EffectsUnfold(d, t.snapshot.value, t.catalog.value, SMOOTH);
  }

  /** What a catalog has under a key, of either kind. */
  datatype Key = Inventory(id: string) | Context(id: string)

  function Entry(c: Catalog, key: Key): Option<string> {
    match key
    case Inventory(id) => if id in c.inventories then Some(c.inventories[id]) else None
    case Context(id) => if id in c.contexts then Some(c.contexts[id]) else None
  }

  /** A smooth import stores every inventory and context of the package as the package has it, and leaves every
      other one as it was. */
  lemma ImportStoresThePackage(revise: Revise, d: Disk, p: Package, key: Key)
    ensures var d' := Import(revise, d, Attempt(p, SMOOTH, 2));
      && d'.catalog.Some?
      && Entry(Stored(d'), key) == if Entry(p.catalog, key).Some? then Entry(p.catalog, key) else Entry(Stored(d), key)
  {
    hide Merge, Import;
    SmoothReaches(revise, d, p);
  }

  function Run(revise: Revise, d: Disk, attempts: seq<Attempt>): Disk
    decreases |attempts|
  {
    if attempts == [] then d else Run(revise, Import(revise, d, attempts[0]), attempts[1..])
  }

  ghost predicate Sound(iso: IsIso, d: Disk) {
    d.snapshot.Some? ==> ValidSnapshot(iso, d.snapshot.value)
  }

  ghost predicate AllSound(iso: IsIso, attempts: seq<Attempt>) {
    forall i :: 0 <= i < |attempts| ==> ValidSnapshot(iso, attempts[i].package.recognition)
  }

  /** Over any imports, cut off or not, the stored snapshot stays valid and readable, and no client or
      inventory once stored is lost. */
  lemma {:induction false} RunKeepsSound(iso: IsIso, revise: Revise, d: Disk, attempts: seq<Attempt>)
    requires GoodRevision(revise) && Sound(iso, d) && AllSound(iso, attempts)
    ensures var d' := Run(revise, d, attempts);
      && Sound(iso, d')
      && (forall id :: FindClient(BaseClients(d.snapshot), id).Some? ==> FindClient(BaseClients(d'.snapshot), id).Some?)
      && Stored(d).inventories.Keys <= Stored(d').inventories.Keys
      && Stored(d).contexts.Keys <= Stored(d').contexts.Keys
    decreases |attempts|
  {
    hide Import, ValidSnapshot, FindClient, GoodRevision, Stored;
    if attempts != [] {
      AttemptKeepsSound(iso, revise, d, attempts[0]);
      RunKeepsSound(iso, revise, Import(revise, d, attempts[0]), attempts[1..]);
    }
  }

  lemma AttemptKeepsSound(iso: IsIso, revise: Revise, d: Disk, a: Attempt)
    requires GoodRevision(revise) && Sound(iso, d) && ValidSnapshot(iso, a.package.recognition)
    ensures var d' := Import(revise, d, a);
      && Sound(iso, d')
      && (forall id :: FindClient(BaseClients(d.snapshot), id).Some? ==> FindClient(BaseClients(d'.snapshot), id).Some?)
      && Stored(d).inventories.Keys <= Stored(d').inventories.Keys
      && Stored(d).contexts.Keys <= Stored(d').contexts.Keys
  {
    hide Import, Happened, ValidSnapshot, FindClient, GoodRevision, Merge, SnapshotFrom, SnapshotDict, Canonical;
    ThreeOutcomes(revise, d, a);
    MergeIsValid(iso, revise, d.snapshot, a.package.recognition);
  }

  // ----- the last word -----

  /** The attempt gets through its second replacement. */
  predicate Completed(a: Attempt) {
    a.fate.staged && a.fate.first && a.fate.second && a.kept >= 2
  }

  /** What the last completed import that holds a key says of it. */
  function LastWord(attempts: seq<Attempt>, key: Key): Option<string> {
    if attempts == [] then None
    else
      var last, rest := attempts[|attempts| - 1], attempts[..|attempts| - 1];
      if Completed(last) && Entry(last.package.catalog, key).Some? then Entry(last.package.catalog, key)
      else LastWord(rest, key)
  }

  lemma AttemptDecides(revise: Revise, d: Disk, a: Attempt, key: Key)
    ensures Entry(Stored(Import(revise, d, a)), key)
      == if Completed(a) && Entry(a.package.catalog, key).Some? then Entry(a.package.catalog, key)
         else Entry(Stored(d), key)
  {
    hide Merge, Import;
    ThreeOutcomes(revise, d, a);
  }

  lemma {:induction false} RunSnoc(revise: Revise, d: Disk, attempts: seq<Attempt>, a: Attempt)
    ensures Run(revise, d, attempts + [a]) == Import(revise, Run(revise, d, attempts), a)
    decreases |attempts|
  {
    hide Import;
    if attempts == [] {
      assert [] + [a] == [a] && [a][1..] == [];
    } else {
      assert (attempts + [a])[1..] == attempts[1..] + [a];
      RunSnoc(revise, Import(revise, d, attempts[0]), attempts[1..], a);
    }
  }

  /** Over any imports, whatever fails or is cut off, the last completed one that holds an inventory or context
      decides what is stored of it; what none holds stays as it was. */
  lemma {:induction false} LastWordIsStored(revise: Revise, d: Disk, attempts: seq<Attempt>, key: Key)
    ensures Entry(Stored(Run(revise, d, attempts)), key)
      == if LastWord(attempts, key).Some? then LastWord(attempts, key) else Entry(Stored(d), key)
    decreases |attempts|
  {
    hide Import, Entry, Stored, Completed;
    if attempts != [] {
      var rest, last := attempts[..|attempts| - 1], attempts[|attempts| - 1];
      assert rest + [last] == attempts;
      RunSnoc(revise, d, rest, last);
      AttemptDecides(revise, Run(revise, d, rest), last, key);
      LastWordIsStored(revise, d, rest, key);
    }
  }

  /** The attempt leaves the merged snapshot in place, with or without the catalog. */
  predicate KeepsSnapshot(a: Attempt) {
    a.fate.staged && a.fate.first && a.kept >= 1 && (a.kept == 1 || a.fate.second || !a.fate.rolledBack)
  }

  function LastClient(attempts: seq<Attempt>, id: string): Option<Client> {
    if attempts == [] then None
    else
      var last, rest := attempts[|attempts| - 1], attempts[..|attempts| - 1];
      if KeepsSnapshot(last) && FindClient(last.package.recognition.clients, id).Some?
      then FindClient(last.package.recognition.clients, id)
      else LastClient(rest, id)
  }

  lemma AttemptDecidesClient(iso: IsIso, revise: Revise, d: Disk, a: Attempt, id: string)
    requires GoodRevision(revise) && Sound(iso, d) && ValidSnapshot(iso, a.package.recognition)
    ensures FindClient(BaseClients(Import(revise, d, a).snapshot), id)
      == if KeepsSnapshot(a) && FindClient(a.package.recognition.clients, id).Some?
         then FindClient(a.package.recognition.clients, id)
         else FindClient(BaseClients(d.snapshot), id)
  {
    hide Import, ValidSnapshot, FindClient, GoodRevision, Merge, SnapshotFrom, SnapshotDict, Canonical;
    ThreeOutcomes(revise, d, a);
    MergeIsValid(iso, revise, d.snapshot, a.package.recognition);
  }

  /** Likewise for clients, decided by the last import that left its snapshot in place. */
  lemma {:induction false} LastClientIsStored(iso: IsIso, revise: Revise, d: Disk, attempts: seq<Attempt>, id: string)
    requires GoodRevision(revise) && Sound(iso, d) && AllSound(iso, attempts)
    ensures FindClient(BaseClients(Run(revise, d, attempts).snapshot), id)
      == if LastClient(attempts, id).Some? then LastClient(attempts, id) else FindClient(BaseClients(d.snapshot), id)
    decreases |attempts|
  {
    hide Import, FindClient, Sound, KeepsSnapshot, GoodRevision, ValidSnapshot;
    if attempts != [] {
      var rest, last := attempts[..|attempts| - 1], attempts[|attempts| - 1];
      assert rest + [last] == attempts;
      RunSnoc(revise, d, rest, last);
      RunKeepsSound(iso, revise, d, rest);
      AttemptDecidesClient(iso, revise, Run(revise, d, rest), last, id);
      LastClientIsStored(iso, revise, d, rest, id);
    }
  }
}
