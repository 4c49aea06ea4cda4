/** Nesting flat dotted keys into dictionaries and flattening them back
    (frontend/scripts/generate_i18n.py). A dictionary is its entries in insertion order. */
module DottedKeys {
  import opened Options
  import opened Text

  datatype Tree = Leaf(value: string) | Node(entries: seq<Entry>)
  datatype Entry = Entry(key: string, tree: Tree)

  type Path = seq<string>

  function Segments(key: string): (path: Path)
    ensures path != []
  {
    SplitOn('.', key)
  }

  // ----- dictionaries -----

  function Lookup(es: seq<Entry>, key: string): Option<Tree> {
    if es == [] then None
    else if es[0].key == key then Some(es[0].tree)
    else Lookup(es[1..], key)
  }

  /** `d[key] = tree`: an existing key keeps its place. */
  function Put(es: seq<Entry>, key: string, tree: Tree): seq<Entry> {
    if es == [] then [Entry(key, tree)]
    else if es[0].key == key then [Entry(key, tree)] + es[1..]
    else [es[0]] + Put(es[1..], key, tree)
  }

  lemma {:induction false} LookupPut(es: seq<Entry>, key: string, tree: Tree, k: string)
    ensures Lookup(Put(es, key, tree), k) == if k == key then Some(tree) else Lookup(es, k)
  {
    if es != [] && es[0].key != key { LookupPut(es[1..], key, tree, k); }
  }

  /** The value at a path, if a leaf is there. */
  function Get(es: seq<Entry>, path: Path): Option<string>
    decreases |path|
  {
    if path == [] then None
    else
      match Lookup(es, path[0])
      case None => None
      case Some(Leaf(v)) => if |path| == 1 then Some(v) else None
      case Some(Node(sub)) => Get(sub, path[1..])
  }

  // ----- nest -----

  /** One key of `nest`; None where Python raises, on a leaf that is in the way. */
  function Insert(es: seq<Entry>, path: Path, v: string): Option<seq<Entry>>
    requires path != []
    decreases |path|
  {
    if |path| == 1 then Some(Put(es, path[0], Leaf(v)))
    else
      var sub :=
        match Lookup(es, path[0])
        case None => Some([])
        case Some(Leaf(_)) => None
        case Some(Node(sub)) => Some(sub);
      if sub.None? then None
      else
        var below := Insert(sub.value, path[1..], v);
        if below.None? then None else Some(Put(es, path[0], Node(below.value)))
  }

  datatype Item = Item(key: string, value: string)

  function Nest(items: seq<Item>): Option<seq<Entry>> {
    if items == [] then Some([])
    else
      var before := Nest(items[..|items| - 1]);
      var last := items[|items| - 1];
      if before.None? then None else Insert(before.value, Segments(last.key), last.value)
  }

  method NestItems(items: seq<Item>) returns (root: Option<seq<Entry>>)
    ensures root == Nest(items)
  {
    var es: seq<Entry> := [];
    assert items[..0] == [];
    for i := 0 to |items|
      invariant Nest(items[..i]) == Some(es)
    {
      assert items[..i + 1][..i] == items[..i];
      var next := Insert(es, Segments(items[i].key), items[i].value);
      if next.None? {
        FailureStays(items, i + 1);
        return None;
      }
      es := next.value;
    }
    assert items[..|items|] == items;
    root := Some(es);
  }

  lemma {:induction false} FailureStays(items: seq<Item>, n: nat)
    requires n <= |items| && Nest(items[..n]).None?
    ensures Nest(items).None?
    decreases |items| - n
  {
    if n < |items| {
      assert items[..n + 1][..n] == items[..n];
      FailureStays(items, n + 1);
    } else {
      assert items[..n] == items;
    }
  }

  /** What inserting does to every path: it sets its own, and overwrites whatever lay below it. */
  lemma {:induction false} GetInsert(es: seq<Entry>, path: Path, v: string, q: Path)
    requires path != [] && Insert(es, path, v).Some?
    ensures Get(Insert(es, path, v).value, q)
      == if q == path then Some(v) else if path < q then None else Get(es, q)
    decreases |path|
  {
    hide Put;
    if q == [] {
    } else if |path| == 1 {
      LookupPut(es, path[0], Leaf(v), q[0]);
      assert path == [path[0]];
    } else {
      var sub := match Lookup(es, path[0]) case Some(Node(sub)) => sub case _ => [];
      var below := Insert(sub, path[1..], v).value;
      LookupPut(es, path[0], Node(below), q[0]);
      if q[0] == path[0] {
        GetInsert(sub, path[1..], v, q[1..]);
        assert path == [path[0]] + path[1..] && q == [q[0]] + q[1..];
        GetNothing(q[1..]);
      }
    }
  }

  lemma GetNothing(q: Path)
    ensures Get([], q) == None
  {
  }

  /** Inserting raises exactly when a leaf lies on the way. */
  lemma {:induction false} InsertFailsIff(es: seq<Entry>, path: Path, v: string)
    requires path != []
    ensures Insert(es, path, v).None? <==> exists n :: 0 < n < |path| && Get(es, path[..n]).Some?
    decreases |path|
  {
    hide Put;
    if |path| > 1 {
      match Lookup(es, path[0]) {
        case None =>
          InsertFailsIff([], path[1..], v);
          forall n | 0 < n < |path| - 1 ensures Get([], path[1..][..n]).None? { GetNothing(path[1..][..n]); }
        case Some(Leaf(w)) =>
          assert Get(es, path[..1]) == Some(w);
        case Some(Node(sub)) =>
          InsertFailsIff(sub, path[1..], v);
          forall n | 0 < n < |path|
            ensures Get(es, path[..n]) == if n == 1 then None else Get(sub, path[1..][..n - 1])
          {
            assert path[..n][1..] == path[1..][..n - 1];
          }
          if m :| 0 < m < |path| - 1 && Get(sub, path[1..][..m]).Some? {
            assert Get(es, path[..m + 1]).Some?;
          }
      }
    }
  }

  /** No leaf lies below a leaf. */
  lemma {:induction false} LeavesArePrefixFree(es: seq<Entry>, p: Path, q: Path)
    requires p < q && Get(es, p).Some?
    ensures Get(es, q).None?
    decreases |p|
  {
    match Lookup(es, p[0]) {
      case Some(Node(sub)) =>
        assert p[1..] < q[1..];
        LeavesArePrefixFree(sub, p[1..], q[1..]);
      case _ =>
    }
  }

  // ----- flatten -----

  function Dotted(prefix: string, key: string): string {
    if prefix != "" then prefix + "." + key else key
  }

  /** `flatten_string_values`: later entries win. */
  function Flatten(es: seq<Entry>, prefix: string): map<string, string>
    decreases es
  {
    if es == [] then map[]
    else
      var dotted := Dotted(prefix, es[0].key);
      (match es[0].tree
       case Leaf(v) => map[dotted := v]
       case Node(sub) => Flatten(sub, dotted))
      + Flatten(es[1..], prefix)
  }

  /** Every key occurs once and has no dot. */
  ghost predicate WellFormed(es: seq<Entry>)
    decreases es
  {
    es == [] ||
      (&& Free('.', es[0].key) && Lookup(es[1..], es[0].key).None?
       && (es[0].tree.Node? ==> WellFormed(es[0].tree.entries))
       && WellFormed(es[1..]))
  }

  /** No dictionary under the empty key. */
  ghost predicate Clean(es: seq<Entry>) {
    forall i :: 0 <= i < |es| && es[i].key == "" ==> es[i].tree.Leaf?
  }

  predicate Under(prefix: string, k: string) {
    |k| > |prefix| && k[..|prefix|] == prefix && k[|prefix|] == '.'
  }

  /** What follows the prefix and its dot. */
  function Rest(prefix: string, k: string): string
    requires Under(prefix, k)
  {
    k[|prefix| + 1..]
  }

  /** A dotted key against a first segment. */
  lemma FirstSegment(key: string, s: string)
    requires Free('.', key)
    ensures s == key ==> Segments(s) == [key]
    ensures Under(key, s) ==> Segments(s) == [key] + Segments(Rest(key, s))
    ensures s != key && !Under(key, s) ==> Segments(s)[0] != key
  {
    hide SplitOn, Join;
    SplitFree('.', key);
    if Under(key, s) {
      assert s == key + ['.'] + Rest(key, s);
      SplitAppend('.', key, Rest(key, s));
    }
    var parts := Segments(s);
    JoinSplit('.', s);
    JoinHead(parts);
    assert |parts| == 1 ==> s == parts[0];
    assert |parts| > 1 ==> Under(parts[0], s);
  }

  lemma JoinHead(parts: Path)
    requires |parts| >= 1
    ensures |parts| == 1 ==> Join('.', parts) == parts[0]
    ensures |parts| > 1 ==> Under(parts[0], Join('.', parts))
  {
  }

  /** The entry a path starts with. */
  lemma GetCons(es: seq<Entry>, path: Path)
    requires es != [] && path != []
    ensures Get(es, path)
      == if path[0] != es[0].key then Get(es[1..], path)
         else match es[0].tree
           case Leaf(v) => if |path| == 1 then Some(v) else None
           case Node(sub) => Get(sub, path[1..])
  {
  }

  lemma GetMissing(es: seq<Entry>, path: Path)
    requires path != [] && Lookup(es, path[0]).None?
    ensures Get(es, path) == None
  {
  }

  lemma {:induction false} FlattenIsUnder(es: seq<Entry>, prefix: string)
    requires prefix != ""
    ensures forall k :: k in Flatten(es, prefix) ==> Under(prefix, k)
    decreases es
  {
    if es != [] {
      FlattenIsUnder(es[1..], prefix);
      var dotted := prefix + "." + es[0].key;
      assert Under(prefix, dotted);
      if es[0].tree.Node? {
        var sub := Flatten(es[0].tree.entries, dotted);
        FlattenIsUnder(es[0].tree.entries, dotted);
        assert forall k :: k in sub ==> Under(prefix, k);
      }
    }
  }

  /** `map[k]`, if there. */
  function Find(m: map<string, string>, k: string): Option<string> {
    if k in m then Some(m[k]) else None
  }

  /** What the first entry contributes at `prefix.s`. */
  lemma {:induction false} HeadAt(e: Entry, prefix: string, s: string)
    requires prefix != "" && Free('.', e.key) && (e.tree.Node? ==> WellFormed(e.tree.entries))
    ensures var dotted := prefix + "." + e.key;
      var m := match e.tree case Leaf(v) => map[dotted := v] case Node(sub) => Flatten(sub, dotted);
      Find(m, prefix + "." + s)
      == if Segments(s)[0] != e.key then None
         else match e.tree
           case Leaf(v) => if |Segments(s)| == 1 then Some(v) else None
           case Node(sub) => Get(sub, Segments(s)[1..])
    decreases e, 0
  {
    hide Segments, SplitOn, Flatten;
    var dotted, k := prefix + "." + e.key, prefix + "." + s;
    FirstSegment(e.key, s);
    SameTail(prefix, e.key, s);
    match e.tree {
      case Leaf(v) =>
        assert Under(e.key, s) ==> |Segments(Rest(e.key, s))| >= 1;
      case Node(sub) =>
        FlattenIsUnder(sub, dotted);
        if Under(e.key, s) {
          FlattenAt(sub, dotted, Rest(e.key, s));
          assert k == dotted + "." + Rest(e.key, s);
          assert Segments(s)[1..] == Segments(Rest(e.key, s));
        }
    }
  }

  lemma SameTail(prefix: string, key: string, s: string)
    ensures prefix + "." + key == prefix + "." + s <==> key == s
    ensures Under(prefix + "." + key, prefix + "." + s) <==> Under(key, s)
  {
    var dotted, k := prefix + "." + key, prefix + "." + s;
    assert k[|prefix| + 1..] == s && dotted[|prefix| + 1..] == key;
    if |s| > |key| {
      assert k[..|dotted|] == prefix + "." + s[..|key|];
      assert k[..|dotted|][|prefix| + 1..] == s[..|key|];
      assert k[|dotted|] == s[|key|];
    }
  }

  /** Under a prefix, the flat map holds exactly the leaves, at their joined paths. */
  lemma {:induction false} FlattenAt(es: seq<Entry>, prefix: string, s: string)
    requires prefix != "" && WellFormed(es)
    ensures Find(Flatten(es, prefix), prefix + "." + s) == Get(es, Segments(s))
    decreases es, 1
  {
    hide Segments, SplitOn, Get;
    if es == [] {
      GetNothing(Segments(s));
    } else {
      HeadAt(es[0], prefix, s);
      FlattenAt(es[1..], prefix, s);
      GetCons(es, Segments(s));
      if Segments(s)[0] == es[0].key { GetMissing(es[1..], Segments(s)); }
    }
  }

  /** At the top, provided no dictionary lies under the empty key. */
  lemma {:induction false} FlattenTop(es: seq<Entry>, s: string)
    requires WellFormed(es) && Clean(es)
    ensures Find(Flatten(es, ""), s) == Get(es, Segments(s))
    decreases es
  {
    hide Segments, SplitOn, Get;
    if es == [] {
      GetNothing(Segments(s));
    } else {
      FlattenTop(es[1..], s);
      TopHeadAt(es[0], s);
      GetCons(es, Segments(s));
      if Segments(s)[0] == es[0].key { GetMissing(es[1..], Segments(s)); }
    }
  }

  lemma TopHeadAt(e: Entry, s: string)
    requires Free('.', e.key) && (e.tree.Node? ==> WellFormed(e.tree.entries) && e.key != "")
    ensures var m := match e.tree case Leaf(v) => map[e.key := v] case Node(sub) => Flatten(sub, e.key);
      Find(m, s)
      == if Segments(s)[0] != e.key then None
         else match e.tree
           case Leaf(v) => if |Segments(s)| == 1 then Some(v) else None
           case Node(sub) => Get(sub, Segments(s)[1..])
  {
    hide Segments, SplitOn, Flatten;
    FirstSegment(e.key, s);
    match e.tree {
      case Leaf(v) =>
        assert Under(e.key, s) ==> |Segments(Rest(e.key, s))| >= 1;
      case Node(sub) =>
        FlattenIsUnder(sub, e.key);
        if Under(e.key, s) {
          FlattenAt(sub, e.key, Rest(e.key, s));
          assert s == e.key + "." + Rest(e.key, s);
          assert Segments(s)[1..] == Segments(Rest(e.key, s));
        }
    }
  }

  /** No flattened key starts with a dot: empty leading segments are lost. */
  lemma {:induction false} FlattenNeverLeads(es: seq<Entry>)
    requires WellFormed(es)
    ensures forall k :: k in Flatten(es, "") && k != "" ==> k[0] != '.'
    decreases es
  {
    if es != [] {
      FlattenNeverLeads(es[1..]);
      var e := es[0];
      if e.tree.Node? {
        if e.key == "" {
          FlattenNeverLeads(e.tree.entries);
        } else {
          FlattenIsUnder(e.tree.entries, e.key);
          assert forall k :: Under(e.key, k) ==> k[..|e.key|][0] == k[0];
        }
      }
    }
  }

  // ----- what nest builds -----

  ghost predicate DotFree(path: Path) {
    forall i :: 0 <= i < |path| ==> Free('.', path[i])
  }

  lemma {:induction false} PutWellFormed(es: seq<Entry>, key: string, tree: Tree)
    requires WellFormed(es) && Free('.', key) && (tree.Node? ==> WellFormed(tree.entries))
    ensures WellFormed(Put(es, key, tree))
  {
    if es != [] && es[0].key != key {
      PutWellFormed(es[1..], key, tree);
      LookupPut(es[1..], key, tree, es[0].key);
    }
  }

  lemma {:induction false} LookupWellFormed(es: seq<Entry>, key: string)
    requires WellFormed(es)
    ensures Lookup(es, key).Some? && Lookup(es, key).value.Node? ==> WellFormed(Lookup(es, key).value.entries)
  {
    if es != [] && es[0].key != key { LookupWellFormed(es[1..], key); }
  }

  lemma {:induction false} InsertWellFormed(es: seq<Entry>, path: Path, v: string)
    requires path != [] && DotFree(path) && WellFormed(es) && Insert(es, path, v).Some?
    ensures WellFormed(Insert(es, path, v).value)
    decreases |path|
  {
    hide Put, WellFormed;
    if |path| == 1 {
      PutWellFormed(es, path[0], Leaf(v));
    } else {
      var sub := match Lookup(es, path[0]) case Some(Node(sub)) => sub case _ => [];
      LookupWellFormed(es, path[0]);
      NothingIsWellFormed();
      InsertWellFormed(sub, path[1..], v);
      PutWellFormed(es, path[0], Node(Insert(sub, path[1..], v).value));
    }
  }

  lemma NothingIsWellFormed()
    ensures WellFormed([])
  {
  }

  lemma {:induction false} PutClean(es: seq<Entry>, key: string, tree: Tree)
    requires Clean(es) && (key == "" ==> tree.Leaf?)
    ensures Clean(Put(es, key, tree))
  {
    if es != [] && es[0].key != key {
      assert Clean(es[1..]);
      PutClean(es[1..], key, tree);
    }
  }

  lemma SegmentsDotFree(key: string)
    ensures DotFree(Segments(key)) && Segments(key) != []
  {
    hide SplitOn;
    JoinSplit('.', key);
    forall i | 0 <= i < |Segments(key)| ensures Free('.', Segments(key)[i]) {
      assert Segments(key)[i] in Segments(key);
    }
  }

  predicate LeadsWithDot(key: string) {
    key != "" && key[0] == '.'
  }

  /** A leading dot is an empty first segment with more behind it. */
  lemma LeadingDot(key: string)
    ensures LeadsWithDot(key) <==> Segments(key)[0] == "" && |Segments(key)| > 1
  {
    hide SplitOn;
    FirstSegment("", key);
    if LeadsWithDot(key) {
      assert Under("", key);
    }
  }

  predicate NoLeadingDots(items: seq<Item>) {
    forall i :: 0 <= i < |items| ==> !LeadsWithDot(items[i].key)
  }

  lemma {:induction false} NestWellFormed(items: seq<Item>)
    requires Nest(items).Some?
    ensures WellFormed(Nest(items).value)
    ensures NoLeadingDots(items) ==> Clean(Nest(items).value)
  {
    hide WellFormed, Insert, Segments, LeadsWithDot;
    if items == [] {
      NothingIsWellFormed();
    } else {
      var front, last := items[..|items| - 1], items[|items| - 1];
      NestWellFormed(front);
      SegmentsDotFree(last.key);
      InsertWellFormed(Nest(front).value, Segments(last.key), last.value);
      if NoLeadingDots(items) {
        LeadingDot(last.key);
        InsertClean(Nest(front).value, Segments(last.key), last.value);
      }
    }
  }

  lemma InsertClean(es: seq<Entry>, path: Path, v: string)
    requires path != [] && Clean(es) && Insert(es, path, v).Some?
    requires path[0] == "" ==> |path| == 1
    ensures Clean(Insert(es, path, v).value)
  {
    hide Put, Clean;
    if |path| == 1 {
      PutClean(es, path[0], Leaf(v));
    } else {
      var sub := match Lookup(es, path[0]) case Some(Node(sub)) => sub case _ => [];
      PutClean(es, path[0], Node(Insert(sub, path[1..], v).value));
    }
  }

  // ----- the flat map -----

  ghost predicate DistinctKeys(items: seq<Item>) {
    forall i, j :: 0 <= i < j < |items| ==> items[i].key != items[j].key
  }

  function ToMap(items: seq<Item>): map<string, string> {
    if items == [] then map[]
    else ToMap(items[..|items| - 1])[items[|items| - 1].key := items[|items| - 1].value]
  }

  /** `a` is a proper dotted prefix of `b`. */
  predicate DottedPrefix(a: string, b: string) {
    Segments(a) < Segments(b)
  }

  /** That is, `b` continues `a` after a dot. */
  lemma DottedPrefixIs(a: string, b: string)
    ensures DottedPrefix(a, b) <==> Under(a, b)
  {
    hide SplitOn, Join;
    JoinSplit('.', a);
    JoinSplit('.', b);
    if Under(a, b) {
      assert b == a + ['.'] + Rest(a, b);
      SplitConcat('.', a, Rest(a, b));
    }
    if DottedPrefix(a, b) {
      var more := Segments(b)[|Segments(a)|..];
      assert Segments(b) == Segments(a) + more;
      JoinConcat('.', Segments(a), more);
    }
  }

  /** No key is a proper dotted prefix of another. */
  ghost predicate PrefixFree(m: map<string, string>) {
    forall a, b :: a in m && b in m ==> !DottedPrefix(a, b)
  }

  ghost predicate NoneLeads(m: map<string, string>) {
    forall k :: k in m ==> !LeadsWithDot(k)
  }

  lemma SegmentsInjective(a: string, b: string)
    requires Segments(a) == Segments(b)
    ensures a == b
  {
    hide SplitOn;
    JoinSplit('.', a);
    JoinSplit('.', b);
  }

  lemma {:induction false} KeysOfMap(items: seq<Item>, k: string)
    ensures k in ToMap(items) <==> exists i :: 0 <= i < |items| && items[i].key == k
  {
    if items != [] {
      var front := items[..|items| - 1];
      KeysOfMap(front, k);
      if i :| 0 <= i < |items| && items[i].key == k { assert i == |items| - 1 || front[i] == items[i]; }
      if i :| 0 <= i < |front| && front[i].key == k { assert items[i] == front[i]; }
    }
  }

  lemma SmallerPrefixFree(m: map<string, string>, k: string, v: string)
    requires k !in m && PrefixFree(m[k := v])
    ensures PrefixFree(m)
    ensures forall a :: a in m ==> !DottedPrefix(a, k) && !DottedPrefix(k, a)
  {
    hide DottedPrefix;
    assert forall a :: a in m ==> a in m[k := v];
    assert k in m[k := v];
  }

  /** With prefix-free keys nest succeeds, and its leaves are exactly the given values, at the given
      keys' paths. */
  lemma {:induction false} NestHoldsItems(items: seq<Item>, s: string)
    requires DistinctKeys(items) && PrefixFree(ToMap(items))
    ensures Nest(items).Some?
    ensures Get(Nest(items).value, Segments(s)) == Find(ToMap(items), s)
    decreases |items|, 0
  {
    hide Insert, Get, Segments, PrefixFree, DistinctKeys;
    if items == [] {
      GetNothing(Segments(s));
    } else {
      var front, last := items[..|items| - 1], items[|items| - 1];
      LastIsNew(items);
      SmallerPrefixFree(ToMap(front), last.key, last.value);
      NestHoldsItems(front, s);
      var path := Segments(last.key);
      NothingInTheWay(front, last);
      GetInsert(Nest(front).value, path, last.value, Segments(s));
      if Segments(s) == path { SegmentsInjective(s, last.key); }
    }
  }

  lemma LastIsNew(items: seq<Item>)
    requires items != [] && DistinctKeys(items)
    ensures DistinctKeys(items[..|items| - 1]) && items[|items| - 1].key !in ToMap(items[..|items| - 1])
  {
    hide ToMap;
    KeysOfMap(items[..|items| - 1], items[|items| - 1].key);
  }

  /** A prefix of a key's segments is the segments of a key. */
  lemma PrefixIsKey(key: string, n: nat) returns (k: string)
    requires 0 < n < |Segments(key)|
    ensures Segments(k) == Segments(key)[..n] && DottedPrefix(k, key)
  {
    hide SplitOn, Join;
    k := Join('.', Segments(key)[..n]);
    JoinSplit('.', key);
    SplitJoin('.', Segments(key)[..n]);
  }

  lemma {:induction false} NothingInTheWay(front: seq<Item>, last: Item)
    requires DistinctKeys(front) && PrefixFree(ToMap(front))
    requires forall a :: a in ToMap(front) ==> !DottedPrefix(a, last.key)
    ensures Nest(front).Some? && Insert(Nest(front).value, Segments(last.key), last.value).Some?
    decreases |front|, 1
  {
    hide Insert, Get, Segments, PrefixFree, DistinctKeys, ToMap, Nest, DottedPrefix;
    var path := Segments(last.key);
    NestHoldsItems(front, last.key);
    InsertFailsIff(Nest(front).value, path, last.value);
    forall n | 0 < n < |path| ensures Get(Nest(front).value, path[..n]).None? {
      var k := PrefixIsKey(last.key, n);
      NestHoldsItems(front, k);
    }
  }

  // ----- the round trip -----

  /** The round trip restores the map whatever the order of the keys, if no key is a proper dotted prefix
      of another and none starts with a dot. */
  lemma RoundTrip(items: seq<Item>)
    requires DistinctKeys(items) && PrefixFree(ToMap(items)) && NoneLeads(ToMap(items))
    ensures Nest(items).Some? && Flatten(Nest(items).value, "") == ToMap(items)
  {
    hide Nest, Flatten, ToMap, PrefixFree, DistinctKeys, Segments, Get, LeadsWithDot, WellFormed, Clean;
    NestHoldsItems(items, "");
    var tree := Nest(items).value;
    AllKeysInMap(items);
    NestWellFormed(items);
    var flat, m := Flatten(tree, ""), ToMap(items);
    forall s ensures Find(flat, s) == Find(m, s) {
      FlattenTop(tree, s);
      NestHoldsItems(items, s);
    }
    SameFinds(flat, m);
  }

  lemma AllKeysInMap(items: seq<Item>)
    ensures forall i :: 0 <= i < |items| ==> items[i].key in ToMap(items)
  {
    hide ToMap;
    forall i | 0 <= i < |items| ensures items[i].key in ToMap(items) { KeysOfMap(items, items[i].key); }
  }

  lemma SameFinds(a: map<string, string>, b: map<string, string>)
    requires forall s :: Find(a, s) == Find(b, s)
    ensures a == b
  {
    forall s ensures s in a <==> s in b { assert Find(a, s) == Find(b, s); }
    forall s | s in a ensures a[s] == b[s] { assert Find(a, s) == Find(b, s); }
  }

  lemma OrderDoesNotMatter(items: seq<Item>, reordered: seq<Item>)
    requires DistinctKeys(items) && DistinctKeys(reordered) && ToMap(items) == ToMap(reordered)
    requires PrefixFree(ToMap(items)) && NoneLeads(ToMap(items))
    ensures Nest(items).Some? && Nest(reordered).Some?
    ensures Flatten(Nest(items).value, "") == Flatten(Nest(reordered).value, "")
  {
    hide Nest, Flatten, ToMap, PrefixFree, DistinctKeys, NoneLeads;
    RoundTrip(items);
    RoundTrip(reordered);
  }

  /** Nesting and flattening gives the map back exactly when no key is a proper dotted prefix of another
      and no key starts with a dot. (An inner or a final empty segment does no harm.) */
  lemma RoundTripIff(items: seq<Item>)
    requires DistinctKeys(items)
    ensures (Nest(items).Some? && Flatten(Nest(items).value, "") == ToMap(items))
      <==> PrefixFree(ToMap(items)) && NoneLeads(ToMap(items))
  {
    hide Nest, Flatten, ToMap, PrefixFree, DistinctKeys, LeadsWithDot, WellFormed;
    if PrefixFree(ToMap(items)) && NoneLeads(ToMap(items)) { RoundTrip(items); }
    if Nest(items).Some? && Flatten(Nest(items).value, "") == ToMap(items) { OnlyThen(items); }
  }

  lemma OnlyThen(items: seq<Item>)
    requires Nest(items).Some? && Flatten(Nest(items).value, "") == ToMap(items)
    ensures PrefixFree(ToMap(items)) && NoneLeads(ToMap(items))
  {
    hide Nest, Flatten, ToMap, Segments, Get, WellFormed, Clean;
    var tree, m := Nest(items).value, ToMap(items);
    NestWellFormed(items);
    FlattenNeverLeads(tree);
    assert NoneLeads(m);
    AllKeysInMap(items);
    forall a, b | a in m && b in m ensures !DottedPrefix(a, b) {
      FlattenTop(tree, a);
      FlattenTop(tree, b);
      if Segments(a) < Segments(b) { LeavesArePrefixFree(tree, Segments(a), Segments(b)); }
    }
  }

  lemma SmallSegments()
    ensures Segments("a") == ["a"] && Segments("a.b") == ["a", "b"]
  {
    hide SplitOn;
    SplitFree('.', "a");
    SplitFree('.', "b");
    SplitAppend('.', "a", "b");
    assert "a" + ['.'] + "b" == "a.b";
  }

  lemma NestTwo(x: Item, y: Item)
    ensures Nest([x, y]) == var first := Insert([], Segments(x.key), x.value);
      if first.None? then None else Insert(first.value, Segments(y.key), y.value)
  {
    hide Insert, Segments;
    assert [x, y][..1] == [x] && [x][..0] == [];
    assert Nest([x]) == Insert([], Segments(x.key), x.value);
  }

  /** A key that is a proper dotted prefix: nest raises when it comes first, and loses the longer key
      when it comes last. */
  lemma PrefixDependsOnOrder()
    ensures Nest([Item("a", "1"), Item("a.b", "2")]).None?
    ensures Nest([Item("a.b", "2"), Item("a", "1")]).Some?
    ensures Flatten(Nest([Item("a.b", "2"), Item("a", "1")]).value, "") == map["a" := "1"]
  {
    hide Segments;
    SmallSegments();
    NestTwo(Item("a", "1"), Item("a.b", "2"));
    NestTwo(Item("a.b", "2"), Item("a", "1"));
    assert ["a", "b"][1..] == ["b"];
    assert Insert([], ["b"], "2") == Some([Entry("b", Leaf("2"))]);
    var nested, leaf := [Entry("a", Node([Entry("b", Leaf("2"))]))], [Entry("a", Leaf("1"))];
    assert Insert([], ["a", "b"], "2") == Some(nested);
    assert nested[1..] == [] && leaf[1..] == [];
    assert leaf + [] == leaf;
    assert Put(nested, "a", Leaf("1")) == leaf + nested[1..];
    assert Insert(nested, ["a"], "1") == Some(leaf);
  }
}
