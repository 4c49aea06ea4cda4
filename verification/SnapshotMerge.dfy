/** Merging an imported snapshot into the stored one (raspberry-scanner/config/offline_package.py,
    `merge_recognition_snapshots`). The hash of the merged clients is a parameter. */
module SnapshotMerge {
  import opened Options
  import opened Text
  import opened Sorting
  import opened RecognitionSnapshot
  import opened SnapshotJson

  /** `_merged_bundle_revision`. */
  type Revise = seq<Client> -> string

  predicate ById(a: Client, b: Client) {
    StrLe(a.id, b.id)
  }

  /** `existing[client.client_id] = client`: an existing id keeps its place. */
  function Put(cs: seq<Client>, c: Client): seq<Client> {
    if cs == [] then [c]
    else if cs[0].id == c.id then [c] + cs[1..]
    else [cs[0]] + Put(cs[1..], c)
  }

  function PutAll(cs: seq<Client>, news: seq<Client>): seq<Client> {
    if news == [] then cs else Put(PutAll(cs, news[..|news| - 1]), news[|news| - 1])
  }

  function BaseClients(base: Option<Snapshot>): seq<Client> {
    if base.Some? then base.value.clients else []
  }

  function MergedClients(base: seq<Client>, news: seq<Client>): seq<Client> {
    Sort(ById, PutAll(PutAll([], base), news))
  }

  function Merge(revise: Revise, base: Option<Snapshot>, incoming: Snapshot): Snapshot {
    var clients := MergedClients(BaseClients(base), incoming.clients);
    Snapshot(incoming.generatedAt, revise(clients), clients)
  }

  // ----- the dictionary -----

  lemma {:induction false} FindPut(cs: seq<Client>, c: Client, id: string)
    ensures FindClient(Put(cs, c), id) == if id == c.id then Some(c) else FindClient(cs, id)
  {
    if cs != [] && cs[0].id != c.id { FindPut(cs[1..], c, id); }
  }

  lemma {:induction false} PutLength(cs: seq<Client>, c: Client)
    ensures |Put(cs, c)| == |cs| + (if FindClient(cs, c.id).Some? then 0 else 1)
  {
    if cs != [] && cs[0].id != c.id { PutLength(cs[1..], c); }
  }

  lemma {:induction false} NotFoundIff(cs: seq<Client>, id: string)
    ensures FindClient(cs, id).None? <==> forall i :: 0 <= i < |cs| ==> cs[i].id != id
  {
    if cs != [] {
      NotFoundIff(cs[1..], id);
      if FindClient(cs, id).None? {
        forall i | 0 <= i < |cs| ensures cs[i].id != id {
          if i > 0 { assert cs[i] == cs[1..][i - 1]; }
        }
      } else if cs[0].id != id {
        var i :| 0 <= i < |cs[1..]| && cs[1..][i].id == id;
        assert cs[i + 1].id == id;
      }
    }
  }

  lemma {:induction false} PutDistinct(cs: seq<Client>, c: Client)
    requires DistinctClients(cs)
    ensures DistinctClients(Put(cs, c))
    ensures forall x :: x in Put(cs, c) ==> x == c || x in cs
  {
    if cs != [] && cs[0].id != c.id {
      PutDistinct(cs[1..], c);
      NotFoundIff(Put(cs[1..], c), cs[0].id);
      FindPut(cs[1..], c, cs[0].id);
      NotFoundIff(cs[1..], cs[0].id);
      assert cs == [cs[0]] + cs[1..];
    } else if cs != [] {
      assert forall i :: 0 < i < |cs| ==> cs[i].id != cs[0].id;
      assert forall x :: x in cs[1..] ==> x in cs;
    }
  }

  lemma {:induction false} PutAllFacts(cs: seq<Client>, news: seq<Client>)
    requires DistinctClients(cs)
    ensures DistinctClients(PutAll(cs, news))
    ensures forall x :: x in PutAll(cs, news) ==> x in cs || x in news
  {
    if news != [] {
      PutAllFacts(cs, news[..|news| - 1]);
      PutDistinct(PutAll(cs, news[..|news| - 1]), news[|news| - 1]);
    }
  }

  lemma {:induction false} FindPutAll(cs: seq<Client>, news: seq<Client>, id: string)
    requires DistinctClients(news)
    ensures FindClient(PutAll(cs, news), id)
      == if FindClient(news, id).Some? then FindClient(news, id) else FindClient(cs, id)
  {
    if news == [] {
    } else {
      var front, last := news[..|news| - 1], news[|news| - 1];
      FindPutAll(cs, front, id);
      FindPut(PutAll(cs, front), last, id);
      FindSnoc(front, last, id);
      assert news == front + [last];
      NotFoundIff(front, last.id);
    }
  }

  lemma {:induction false} FindSnoc(cs: seq<Client>, c: Client, id: string)
    ensures FindClient(cs + [c], id)
      == if FindClient(cs, id).Some? then FindClient(cs, id) else if c.id == id then Some(c) else None
  {
    if cs == [] {
      assert [] + [c] == [c] && [c][1..] == [];
    } else {
      assert (cs + [c])[1..] == cs[1..] + [c];
      FindSnoc(cs[1..], c, id);
    }
  }

  // ----- sorted, and only one way -----

  /** Sorted by id, each id once. */
  ghost predicate Canonical(cs: seq<Client>) {
    forall i, j :: 0 <= i < j < |cs| ==> StrLe(cs[i].id, cs[j].id) && cs[i].id != cs[j].id
  }

  lemma {:induction false} InsertCanonical(c: Client, cs: seq<Client>)
    requires Canonical(cs) && FindClient(cs, c.id).None?
    ensures Canonical(Insert(ById, c, cs))
    ensures forall x :: x in Insert(ById, c, cs) <==> x == c || x in cs
  {
    hide StrLe;
    NotFoundIff(cs, c.id);
    if cs == [] {
    } else if ById(c, cs[0]) {
      assert Insert(ById, c, cs) == [c] + cs;
      forall j | 0 <= j < |cs| ensures StrLe(c.id, cs[j].id) {
        if j > 0 { StrLeTransitive(c.id, cs[0].id, cs[j].id); }
      }
    } else {
      StrLeTotal(c.id, cs[0].id);
      NotFoundIff(cs[1..], c.id);
      InsertCanonical(c, cs[1..]);
      var rest := Insert(ById, c, cs[1..]);
      assert cs == [cs[0]] + cs[1..];
      forall j | 0 <= j < |rest| ensures StrLe(cs[0].id, rest[j].id) && cs[0].id != rest[j].id {
        assert rest[j] in rest;
        if rest[j] in cs[1..] {
          var k :| 0 <= k < |cs[1..]| && cs[1..][k] == rest[j];
          assert cs[k + 1] == rest[j];
        }
      }
    }
  }

  lemma {:induction false} SortCanonical(cs: seq<Client>)
    requires DistinctClients(cs)
    ensures Canonical(Sort(ById, cs))
    ensures forall x :: x in Sort(ById, cs) <==> x in cs
  {
    hide StrLe, Canonical;
    if cs == [] {
      EmptyCanonical();
    } else {
      SortCanonical(cs[1..]);
      var rest := Sort(ById, cs[1..]);
      assert cs == [cs[0]] + cs[1..];
      NotFoundIff(rest, cs[0].id);
      forall i | 0 <= i < |rest| ensures rest[i].id != cs[0].id {
        assert rest[i] in cs[1..];
      }
      InsertCanonical(cs[0], rest);
    }
  }

  lemma EmptyCanonical()
    ensures Canonical([])
  {
  }

  lemma CanonicalIsDistinct(cs: seq<Client>)
    requires Canonical(cs)
    ensures DistinctClients(cs)
  {
  }

  /** With distinct ids, looking up is membership. */
  lemma FindIsMember(cs: seq<Client>, c: Client)
    requires DistinctClients(cs)
    ensures FindClient(cs, c.id) == Some(c) <==> c in cs
  {
    NotFoundIff(cs, c.id);
    if FindClient(cs, c.id).Some? {
      FoundClient(cs, c.id);
      var f := FindClient(cs, c.id).value;
      if c in cs {
        var i :| 0 <= i < |cs| && cs[i] == c;
        var j :| 0 <= j < |cs| && cs[j] == f;
        assert i == j;
      }
    }
  }

  /** Sorted lists that answer every lookup alike are equal. */
  lemma {:induction false} CanonicalUnique(a: seq<Client>, b: seq<Client>)
    requires Canonical(a) && Canonical(b) && forall x :: x in a <==> x in b
    ensures a == b
  {
    hide StrLe;
    assert b != [] ==> b[0] in b;
    if a != [] {
      assert a[0] in b;
      var i :| 0 <= i < |b| && b[i] == a[0];
      assert b[0] in a;
      var j :| 0 <= j < |a| && a[j] == b[0];
      assert i == 0 || StrLe(b[0].id, b[i].id);
      assert j == 0 || StrLe(a[0].id, a[j].id);
      if i > 0 && j > 0 { StrLeAntisymmetric(a[0].id, b[0].id); }
      assert a[0] == b[0];
      TailMembers(a, b);
      CanonicalUnique(a[1..], b[1..]);
      assert a == [a[0]] + a[1..] && b == [b[0]] + b[1..];
    }
  }

  lemma TailMembers(a: seq<Client>, b: seq<Client>)
    requires a != [] && b != [] && a[0] == b[0] && Canonical(a) && Canonical(b) && forall x :: x in a <==> x in b
    ensures Canonical(a[1..]) && Canonical(b[1..]) && forall x :: x in a[1..] <==> x in b[1..]
  {
    hide StrLe;
    assert a == [a[0]] + a[1..] && b == [b[0]] + b[1..];
    assert forall i :: 0 < i < |a| ==> a[i].id != a[0].id;
    assert forall i :: 0 < i < |b| ==> b[i].id != b[0].id;
    assert a[0] !in a[1..] && b[0] !in b[1..];
    assert forall x :: x in a <==> x == a[0] || x in a[1..];
    assert forall x :: x in b <==> x == b[0] || x in b[1..];
  }

  lemma SameFindsSame(a: seq<Client>, b: seq<Client>)
    requires Canonical(a) && Canonical(b) && forall id :: FindClient(a, id) == FindClient(b, id)
    ensures a == b
  {
    hide Canonical, FindClient;
    CanonicalIsDistinct(a);
    CanonicalIsDistinct(b);
    forall x ensures x in a <==> x in b {
      FindIsMember(a, x);
      FindIsMember(b, x);
    }
    CanonicalUnique(a, b);
  }

  // ----- merging -----

  /** The merged list, by lookups: sorted, each id once, the incoming client winning. */
  lemma MergedIs(base: seq<Client>, news: seq<Client>, id: string)
    requires DistinctClients(base) && DistinctClients(news)
    ensures Canonical(MergedClients(base, news))
    ensures FindClient(MergedClients(base, news), id)
      == if FindClient(news, id).Some? then FindClient(news, id) else FindClient(base, id)
    ensures forall x :: x in MergedClients(base, news) ==> x in base || x in news
  {
    hide Canonical, FindClient, DistinctClients, Sort;
    var dict := PutAll(PutAll([], base), news);
    PutAllFacts([], base);
    PutAllFacts(PutAll([], base), news);
    SortCanonical(dict);
    SameFind(Sort(ById, dict), dict, id);
    FindPutAll(PutAll([], base), news, id);
    FindPutAll([], base, id);
    NoneFound(id);
  }

  lemma NoneFound(id: string)
    ensures FindClient([], id) == None
  {
  }

  lemma SameFind(a: seq<Client>, b: seq<Client>, id: string)
    requires Canonical(a) && DistinctClients(b) && forall x :: x in a <==> x in b
    ensures FindClient(a, id) == FindClient(b, id)
  {
    hide Canonical, FindClient, DistinctClients;
    CanonicalIsDistinct(a);
    if FindClient(a, id).Some? {
      FoundClient(a, id);
      FindIsMember(b, FindClient(a, id).value);
    }
    if FindClient(b, id).Some? {
      FoundClient(b, id);
      FindIsMember(a, FindClient(b, id).value);
    }
  }

  ghost predicate GoodRevision(revise: Revise) {
    forall cs :: Meaningful(revise(cs))
  }

  /** Merging valid snapshots gives a valid one, so it survives being written and read; it is as recent as the
      incoming one, under the revision computed from its clients; they are
      sorted with each id once; and every client is the incoming one if there is one, else the base's. */
  lemma MergeIsValid(iso: IsIso, revise: Revise, base: Option<Snapshot>, incoming: Snapshot)
    requires GoodRevision(revise) && ValidSnapshot(iso, incoming) && (base.Some? ==> ValidSnapshot(iso, base.value))
    ensures var merged := Merge(revise, base, incoming);
      && ValidSnapshot(iso, merged) && SnapshotFrom(iso, SnapshotDict(merged)) == Some(merged)
      && merged.generatedAt == incoming.generatedAt && merged.revision == revise(merged.clients)
      && Canonical(merged.clients)
      && forall id :: FindClient(merged.clients, id)
           == if FindClient(incoming.clients, id).Some? then FindClient(incoming.clients, id)
              else FindClient(BaseClients(base), id)
  {
    hide ValidClient, Canonical, FindClient, MergedClients, Meaningful, SnapshotFrom, SnapshotDict;
    var merged := Merge(revise, base, incoming);
    forall id ensures FindClient(merged.clients, id)
        == if FindClient(incoming.clients, id).Some? then FindClient(incoming.clients, id)
           else FindClient(BaseClients(base), id)
    {
      MergedIs(BaseClients(base), incoming.clients, id);
    }
    MergedIs(BaseClients(base), incoming.clients, "");
    forall i | 0 <= i < |merged.clients| ensures ValidClient(merged.clients[i]) {
      assert merged.clients[i] in merged.clients;
    }
    CanonicalIsDistinct(merged.clients);
    SnapshotRoundTrip(iso, merged);
  }

  lemma MergedDistinct(base: seq<Client>, news: seq<Client>)
    requires DistinctClients(base) && DistinctClients(news)
    ensures DistinctClients(MergedClients(base, news))
  {
    hide Canonical, DistinctClients, MergedClients;
    MergedIs(base, news, "");
    CanonicalIsDistinct(MergedClients(base, news));
  }

  /** Importing one package and then another is importing the second merged over the first. */
  lemma MergeIsAssociative(revise: Revise, a: Snapshot, b: Snapshot, c: Snapshot)
    requires DistinctClients(a.clients) && DistinctClients(b.clients) && DistinctClients(c.clients)
    ensures Merge(revise, Some(Merge(revise, Some(a), b)), c) == Merge(revise, Some(a), Merge(revise, Some(b), c))
  {
    hide Canonical, DistinctClients, MergedClients, FindClient;
    var ab, bc := MergedClients(a.clients, b.clients), MergedClients(b.clients, c.clients);
    MergedDistinct(a.clients, b.clients);
    MergedDistinct(b.clients, c.clients);
    var left, right := MergedClients(ab, c.clients), MergedClients(a.clients, bc);
    forall id ensures FindClient(left, id) == FindClient(right, id) {
      MergedIs(ab, c.clients, id);
      MergedIs(a.clients, bc, id);
      MergedIs(a.clients, b.clients, id);
      MergedIs(b.clients, c.clients, id);
    }
    MergedIs(ab, c.clients, "");
    MergedIs(a.clients, bc, "");
    SameFindsSame(left, right);
  }

  /** Importing the same package twice changes nothing more. */
  lemma ImportTwice(revise: Revise, base: Option<Snapshot>, incoming: Snapshot)
    requires DistinctClients(BaseClients(base)) && DistinctClients(incoming.clients)
    ensures var once := Merge(revise, base, incoming);
      Merge(revise, Some(once), incoming) == once
  {
    hide Canonical, DistinctClients, MergedClients, FindClient;
    var once := MergedClients(BaseClients(base), incoming.clients);
    MergedDistinct(BaseClients(base), incoming.clients);
    var twice := MergedClients(once, incoming.clients);
    forall id ensures FindClient(twice, id) == FindClient(once, id) {
      MergedIs(once, incoming.clients, id);
      MergedIs(BaseClients(base), incoming.clients, id);
    }
    MergedIs(once, incoming.clients, "");
    MergedIs(BaseClients(base), incoming.clients, "");
    SameFindsSame(twice, once);
  }

  /** Merging a snapshot with itself gives it back exactly when it is what a merge leaves: clients sorted
      by id under the revision computed from them. */
  lemma IdempotentIff(revise: Revise, s: Snapshot)
    requires DistinctClients(s.clients)
    ensures Merge(revise, Some(s), s) == s <==> Canonical(s.clients) && s.revision == revise(s.clients)
  {
    hide Canonical, DistinctClients, MergedClients, FindClient;
    var merged := MergedClients(s.clients, s.clients);
    MergedIs(s.clients, s.clients, "");
    if Canonical(s.clients) {
      forall id ensures FindClient(merged, id) == FindClient(s.clients, id) { MergedIs(s.clients, s.clients, id); }
      SameFindsSame(merged, s.clients);
    }
  }

  // ----- counting -----

  function Updated(base: seq<Client>, news: seq<Client>): nat {
    if news == [] then 0
    else Updated(base, news[..|news| - 1]) + (if FindClient(base, news[|news| - 1].id).Some? then 1 else 0)
  }

  lemma {:induction false} SortLength(base: seq<Client>, news: seq<Client>)
    requires DistinctClients(news)
    ensures |PutAll(base, news)| == |base| + |news| - Updated(base, news)
  {
    if news != [] {
      var front, last := news[..|news| - 1], news[|news| - 1];
      SortLength(base, front);
      PutLength(PutAll(base, front), last);
      FindPutAll(base, front, last.id);
      NotFoundIff(front, last.id);
    }
  }

  lemma {:induction false} FreshDictionary(base: seq<Client>)
    requires DistinctClients(base)
    ensures |PutAll([], base)| == |base|
  {
    hide FindClient, DistinctClients, PutAll;
    SortLength([], base);
    NoneUpdated(base);
  }

  lemma {:induction false} NoneUpdated(news: seq<Client>)
    ensures Updated([], news) == 0
  {
    if news != [] { NoneUpdated(news[..|news| - 1]); }
  }

  /** Every incoming client is counted once, as added or as updated, and the stored clients grow by the
      added ones. */
  lemma CountsAddUp(base: seq<Client>, news: seq<Client>, updated: nat, added: nat)
    requires DistinctClients(base) && DistinctClients(news)
    requires updated == Updated(base, news) && added + updated == |news|
    ensures |MergedClients(base, news)| == |base| + added
  {
    hide FindClient, DistinctClients, PutAll, Updated;
    FreshDictionary(base);
    SortLength(PutAll([], base), news);
    SameUpdated(base, news);
  }

  lemma {:induction false} SameUpdated(base: seq<Client>, news: seq<Client>)
    requires DistinctClients(base)
    ensures Updated(PutAll([], base), news) == Updated(base, news)
  {
    hide PutAll, DistinctClients;
    if news != [] {
      SameUpdated(base, news[..|news| - 1]);
      FindPutAll([], base, news[|news| - 1].id);
    }
  }

  method MergeRecognitionSnapshots(revise: Revise, base: Option<Snapshot>, incoming: Snapshot)
    returns (merged: Snapshot, added: nat, updated: nat)
    requires DistinctClients(BaseClients(base)) && DistinctClients(incoming.clients)
    ensures merged == Merge(revise, base, incoming)
    ensures updated == Updated(BaseClients(base), incoming.clients)
    ensures added + updated == |incoming.clients|
  {
    hide FindClient, DistinctClients, PutAll, Updated, Put;
    var stored, news := BaseClients(base), incoming.clients;
    var existing: seq<Client> := [];
    assert stored[..0] == [] && news[..0] == [];
    NothingPut(existing);
    for i := 0 to |stored|
      invariant existing == PutAll([], stored[..i])
    {
      PutNext([], stored, i);
      existing := Put(existing, stored[i]);
    }
    assert stored[..|stored|] == stored;
    ghost var dict := existing;
    NothingPut(dict);
    NothingPut(stored);
    added, updated := 0, 0;
    for i := 0 to |news|
      invariant existing == PutAll(dict, news[..i])
      invariant updated == Updated(stored, news[..i]) && added + updated == i
    {
      PutNext(dict, news, i);
      UpdatedNext(stored, news, i);
      KnownIff(stored, news, i);
      if FindClient(existing, news[i].id).Some? {
        updated := updated + 1;
      } else {
        added := added + 1;
      }
      existing := Put(existing, news[i]);
    }
    assert news[..|news|] == news;
    var clients := Sort(ById, existing);
    merged := Snapshot(incoming.generatedAt, revise(clients), clients);
  }

  lemma NothingPut(cs: seq<Client>)
    ensures PutAll(cs, []) == cs && Updated(cs, []) == 0
  {
  }

  lemma PutNext(cs: seq<Client>, news: seq<Client>, i: nat)
    requires i < |news|
    ensures PutAll(cs, news[..i + 1]) == Put(PutAll(cs, news[..i]), news[i])
  {
    assert news[..i + 1][..i] == news[..i];
  }

  lemma UpdatedNext(cs: seq<Client>, news: seq<Client>, i: nat)
    requires i < |news|
    ensures Updated(cs, news[..i + 1]) == Updated(cs, news[..i]) + (if FindClient(cs, news[i].id).Some? then 1 else 0)
  {
    assert news[..i + 1][..i] == news[..i];
  }

  /** An incoming id is already there exactly when the base had it. */
  lemma KnownIff(base: seq<Client>, news: seq<Client>, i: nat)
    requires DistinctClients(base) && DistinctClients(news) && i < |news|
    ensures FindClient(PutAll(PutAll([], base), news[..i]), news[i].id).Some? <==> FindClient(base, news[i].id).Some?
  {
    hide PutAll, Put;
    FindPutAll(PutAll([], base), news[..i], news[i].id);
    FindPutAll([], base, news[i].id);
    NotFoundIff(news[..i], news[i].id);
    assert forall j :: 0 <= j < i ==> news[..i][j] == news[j];
  }
}
