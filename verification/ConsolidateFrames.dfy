/** Grouping the observations of all frames by pallet and product, and one product per group
    (backend/src/consolidate/consolidate.py, `consolidate`). */
module ConsolidateFrames {
  import opened Options
  import opened Sequences
  import opened Consolidation
  import opened RobustStatistics

  datatype ProductObs = ProductObs(brand: string, product: string, boxes: int, confidence: real)
  datatype PalletObs = PalletObs(palletId: string, products: seq<ProductObs>)
  datatype Frame = Frame(pallets: seq<PalletObs>)

  /** `normalize_product_key`. */
  type KeyOf = (string, string) -> string

  datatype Entry = Entry(pallet: string, key: string, obs: Obs)

  function EntryOf(keyOf: KeyOf, pallet: string, p: ProductObs): Entry {
    Entry(pallet, keyOf(p.brand, p.product), Obs(p.boxes, p.confidence))
  }

  // ----- all entries, in the order the loops meet them -----

  function OfProducts(keyOf: KeyOf, pallet: string, ps: seq<ProductObs>): seq<Entry> {
    if ps == [] then [] else OfProducts(keyOf, pallet, ps[..|ps| - 1]) + [EntryOf(keyOf, pallet, ps[|ps| - 1])]
  }

  function OfPallets(keyOf: KeyOf, ps: seq<PalletObs>): seq<Entry> {
    if ps == [] then []
    else OfPallets(keyOf, ps[..|ps| - 1]) + OfProducts(keyOf, ps[|ps| - 1].palletId, ps[|ps| - 1].products)
  }

  function OfFrames(keyOf: KeyOf, frames: seq<Frame>): seq<Entry> {
    if frames == [] then [] else OfFrames(keyOf, frames[..|frames| - 1]) + OfPallets(keyOf, frames[|frames| - 1].pallets)
  }

  function PalletsOf(es: seq<Entry>): seq<string> {
    if es == [] then [] else PalletsOf(es[..|es| - 1]) + [es[|es| - 1].pallet]
  }

  function KeysOf(es: seq<Entry>, pallet: string): seq<string> {
    if es == [] then []
    else
      var e := es[|es| - 1];
      KeysOf(es[..|es| - 1], pallet) + (if e.pallet == pallet then [e.key] else [])
  }

  function ObsOf(es: seq<Entry>, pallet: string, key: string): seq<Obs> {
    if es == [] then []
    else
      var e := es[|es| - 1];
      ObsOf(es[..|es| - 1], pallet, key) + (if e.pallet == pallet && e.key == key then [e.obs] else [])
  }

  lemma {:induction false} ProductsIn(keyOf: KeyOf, pallet: string, ps: seq<ProductObs>, e: Entry)
    ensures e in OfProducts(keyOf, pallet, ps) <==> exists q :: q in ps && e == EntryOf(keyOf, pallet, q)
  {
    if ps != [] {
      ProductsIn(keyOf, pallet, ps[..|ps| - 1], e);
      assert ps == ps[..|ps| - 1] + [ps[|ps| - 1]];
    }
  }

  /** The product was seen on this pallet. */
  ghost predicate SeenOn(keyOf: KeyOf, p: PalletObs, e: Entry) {
    exists q :: q in p.products && e == EntryOf(keyOf, p.palletId, q)
  }

  lemma {:induction false} PalletsIn(keyOf: KeyOf, ps: seq<PalletObs>, e: Entry)
    ensures e in OfPallets(keyOf, ps) <==> exists p :: p in ps && SeenOn(keyOf, p, e)
  {
    hide OfProducts, EntryOf;
    if ps != [] {
      var last := ps[|ps| - 1];
      PalletsIn(keyOf, ps[..|ps| - 1], e);
      ProductsIn(keyOf, last.palletId, last.products, e);
      assert SeenOn(keyOf, last, e) <==> e in OfProducts(keyOf, last.palletId, last.products);
      assert ps == ps[..|ps| - 1] + [last] && last in ps;
      assert forall p :: p in ps <==> p == last || p in ps[..|ps| - 1];
    }
  }

  ghost predicate SeenIn(keyOf: KeyOf, f: Frame, e: Entry) {
    exists p :: p in f.pallets && SeenOn(keyOf, p, e)
  }

  lemma {:induction false} FramesIn(keyOf: KeyOf, frames: seq<Frame>, e: Entry)
    ensures e in OfFrames(keyOf, frames) <==> exists f :: f in frames && SeenIn(keyOf, f, e)
  {
    hide OfPallets, SeenOn;
    if frames != [] {
      var last := frames[|frames| - 1];
      FramesIn(keyOf, frames[..|frames| - 1], e);
      PalletsIn(keyOf, last.pallets, e);
      assert SeenIn(keyOf, last, e) <==> e in OfPallets(keyOf, last.pallets);
      assert frames == frames[..|frames| - 1] + [last] && last in frames;
      assert forall f :: f in frames <==> f == last || f in frames[..|frames| - 1];
    }
  }

  lemma {:induction false} ObsIn(es: seq<Entry>, pallet: string, key: string, o: Obs)
    ensures o in ObsOf(es, pallet, key) <==> Entry(pallet, key, o) in es
  {
    if es != [] {
      ObsIn(es[..|es| - 1], pallet, key, o);
      assert es == es[..|es| - 1] + [es[|es| - 1]];
    }
  }

  /** A group holds exactly the counts, each with its confidence, that some frame reports on that pallet for a
      product of that key. */
  lemma GroupHolds(keyOf: KeyOf, frames: seq<Frame>, pallet: string, key: string, o: Obs)
    ensures o in ObsOf(OfFrames(keyOf, frames), pallet, key)
      <==> exists f, p, q ::
             && f in frames && p in f.pallets && q in p.products
             && p.palletId == pallet && keyOf(q.brand, q.product) == key && q.boxes == o.boxes && q.confidence == o.confidence
  {
    hide OfFrames, ObsOf;
    var e := Entry(pallet, key, o);
    FramesIn(keyOf, frames, e);
    ObsIn(OfFrames(keyOf, frames), pallet, key, o);
    if f :| f in frames && SeenIn(keyOf, f, e) {
      var p :| p in f.pallets && SeenOn(keyOf, p, e);
      var q :| q in p.products && e == EntryOf(keyOf, p.palletId, q);
    }
    if f, p, q :| && f in frames && p in f.pallets && q in p.products && p.palletId == pallet
                  && keyOf(q.brand, q.product) == key && q.boxes == o.boxes && q.confidence == o.confidence {
      assert e == EntryOf(keyOf, p.palletId, q);
      assert SeenOn(keyOf, p, e);
      assert SeenIn(keyOf, f, e);
    }
  }

  lemma OneMore(es: seq<Entry>, e: Entry, pallet: string, key: string)
    ensures PalletsOf(es + [e]) == PalletsOf(es) + [e.pallet]
    ensures KeysOf(es + [e], pallet) == KeysOf(es, pallet) + (if e.pallet == pallet then [e.key] else [])
    ensures ObsOf(es + [e], pallet, key)
         == ObsOf(es, pallet, key) + (if e.pallet == pallet && e.key == key then [e.obs] else [])
  {
    assert (es + [e])[..|es|] == es;
  }

  /** A group is empty exactly when its key, or its pallet, has not been seen. */
  lemma {:induction false} GroupsAreSeen(es: seq<Entry>, pallet: string, key: string)
    ensures key in KeysOf(es, pallet) <==> ObsOf(es, pallet, key) != []
    ensures pallet in PalletsOf(es) <==> KeysOf(es, pallet) != []
  {
    if es != [] { GroupsAreSeen(es[..|es| - 1], pallet, key); }
  }

  // ----- grouping -----

  datatype Groups = Groups(
    pallets: seq<string>,
    keys: map<string, seq<string>>,
    buckets: map<(string, string), seq<Obs>>)

  ghost predicate PalletGroupOk(g: Groups, es: seq<Entry>, p: string) {
    && (p in g.keys <==> p in PalletsOf(es))
    && (p in g.keys ==> g.keys[p] == Firsts(KeysOf(es, p)))
  }

  ghost predicate BucketOk(g: Groups, es: seq<Entry>, p: string, k: string) {
    && ((p, k) in g.buckets <==> k in KeysOf(es, p))
    && ((p, k) in g.buckets ==> g.buckets[(p, k)] == ObsOf(es, p, k))
  }

  ghost predicate IsGrouping(g: Groups, es: seq<Entry>) {
    && g.pallets == Firsts(PalletsOf(es))
    && (forall p :: PalletGroupOk(g, es, p))
    && (forall p, k :: BucketOk(g, es, p, k))
  }

  /** `buckets[pallet_id][product_key].append(...)` on nested default dictionaries. */
  function Added(g: Groups, e: Entry): Groups {
    var keys := if e.pallet in g.keys then g.keys[e.pallet] else [];
    var bucket := if (e.pallet, e.key) in g.buckets then g.buckets[(e.pallet, e.key)] else [];
    Groups(
      if e.pallet in g.keys then g.pallets else g.pallets + [e.pallet],
      g.keys[e.pallet := if (e.pallet, e.key) in g.buckets then keys else keys + [e.key]],
      g.buckets[(e.pallet, e.key) := bucket + [e.obs]])
  }

  lemma AddedPallet(g: Groups, es: seq<Entry>, e: Entry, p: string)
    requires IsGrouping(g, es)
    ensures PalletGroupOk(Added(g, e), es + [e], p)
  {
    hide Firsts, PalletsOf, KeysOf, ObsOf;
    OneMore(es, e, p, e.key);
    GroupsAreSeen(es, p, e.key);
    assert PalletGroupOk(g, es, p) && BucketOk(g, es, p, e.key);
    FirstsSnoc(KeysOf(es, p), e.key);
    NoFirsts();
    if p == e.pallet {
      var keys := if p in g.keys then g.keys[p] else [];
      assert keys == Firsts(KeysOf(es, p));
      assert e.pallet in PalletsOf(es + [e]) by { assert (PalletsOf(es) + [e.pallet])[|PalletsOf(es)|] == e.pallet; }
    } else {
      assert KeysOf(es, p) + [] == KeysOf(es, p);
    }
  }

  lemma NoFirsts()
    ensures Firsts<string>([]) == []
  {
  }

  lemma AddedBucket(g: Groups, es: seq<Entry>, e: Entry, p: string, k: string)
    requires IsGrouping(g, es)
    ensures BucketOk(Added(g, e), es + [e], p, k)
  {
    hide Firsts, PalletsOf, KeysOf, ObsOf;
    OneMore(es, e, p, k);
    GroupsAreSeen(es, p, k);
    assert BucketOk(g, es, p, k);
  }

  lemma AddedIsGrouping(g: Groups, es: seq<Entry>, e: Entry)
    requires IsGrouping(g, es)
    ensures IsGrouping(Added(g, e), es + [e])
  {
    hide Firsts, PalletsOf, KeysOf, ObsOf, PalletGroupOk, BucketOk;
    forall p ensures PalletGroupOk(Added(g, e), es + [e], p) { AddedPallet(g, es, e, p); }
    forall p, k ensures BucketOk(Added(g, e), es + [e], p, k) { AddedBucket(g, es, e, p, k); }
    AddedOrder(g, es, e);
  }

  lemma AddedOrder(g: Groups, es: seq<Entry>, e: Entry)
    requires IsGrouping(g, es)
    ensures Added(g, e).pallets == Firsts(PalletsOf(es + [e]))
  {
    hide Firsts, PalletsOf, KeysOf, ObsOf;
    OneMore(es, e, e.pallet, e.key);
    FirstsSnoc(PalletsOf(es), e.pallet);
    assert PalletGroupOk(g, es, e.pallet);
  }

  lemma NothingGrouped()
    ensures IsGrouping(Groups([], map[], map[]), [])
  {
  }

  lemma StepProducts(keyOf: KeyOf, pallet: string, ps: seq<ProductObs>, i: nat)
    requires i < |ps|
    ensures OfProducts(keyOf, pallet, ps[..i + 1]) == OfProducts(keyOf, pallet, ps[..i]) + [EntryOf(keyOf, pallet, ps[i])]
    ensures OfProducts(keyOf, pallet, []) == []
  {
    assert ps[..i + 1][..i] == ps[..i];
  }

  lemma StepPallets(keyOf: KeyOf, ps: seq<PalletObs>, i: nat)
    requires i < |ps|
    ensures OfPallets(keyOf, ps[..i + 1]) == OfPallets(keyOf, ps[..i]) + OfProducts(keyOf, ps[i].palletId, ps[i].products)
  {
    assert ps[..i + 1][..i] == ps[..i];
  }

  lemma StepFrames(keyOf: KeyOf, fs: seq<Frame>, i: nat)
    requires i < |fs|
    ensures OfFrames(keyOf, fs[..i + 1]) == OfFrames(keyOf, fs[..i]) + OfPallets(keyOf, fs[i].pallets)
  {
    assert fs[..i + 1][..i] == fs[..i];
  }

  method AddPallet(keyOf: KeyOf, pallet: PalletObs, g0: Groups, ghost es: seq<Entry>) returns (g: Groups)
    requires IsGrouping(g0, es)
    ensures IsGrouping(g, es + OfProducts(keyOf, pallet.palletId, pallet.products))
  {
    hide IsGrouping, OfProducts, Added;
    g := g0;
    var ps := pallet.products;
    assert ps[..0] == [];
    NoEntries(keyOf, pallet.palletId);
    assert es + [] == es;
    for i := 0 to |ps|
      invariant IsGrouping(g, es + OfProducts(keyOf, pallet.palletId, ps[..i]))
    {
      var e := EntryOf(keyOf, pallet.palletId, ps[i]);
      ghost var done := OfProducts(keyOf, pallet.palletId, ps[..i]);
      AddedIsGrouping(g, es + done, e);
      StepProducts(keyOf, pallet.palletId, ps, i);
      assert es + done + [e] == es + (done + [e]);
      g := Added(g, e);
    }
    assert ps[..|ps|] == ps;
  }

  lemma NoEntries(keyOf: KeyOf, pallet: string)
    ensures OfProducts(keyOf, pallet, []) == [] && OfPallets(keyOf, []) == [] && OfFrames(keyOf, []) == []
  {
  }

  method GroupObservations(keyOf: KeyOf, frames: seq<Frame>) returns (g: Groups)
    ensures IsGrouping(g, OfFrames(keyOf, frames))
  {
    hide IsGrouping, OfProducts, OfPallets, OfFrames;
    g := Groups([], map[], map[]);
    NothingGrouped();
    NoEntries(keyOf, "");
    assert frames[..0] == [];
    for i := 0 to |frames|
      invariant IsGrouping(g, OfFrames(keyOf, frames[..i]))
    {
      ghost var before := OfFrames(keyOf, frames[..i]);
      var ps := frames[i].pallets;
      assert ps[..0] == [] && before + [] == before;
      for j := 0 to |ps|
        invariant IsGrouping(g, before + OfPallets(keyOf, ps[..j]))
      {
        ghost var done := OfPallets(keyOf, ps[..j]);
        g := AddPallet(keyOf, ps[j], g, before + done);
        StepPallets(keyOf, ps, j);
        ghost var more := OfProducts(keyOf, ps[j].palletId, ps[j].products);
        assert before + done + more == before + (done + more);
      }
      assert ps[..|ps|] == ps;
      StepFrames(keyOf, frames, i);
    }
    assert frames[..|frames|] == frames;
  }

  // ----- one product per group -----

  datatype Settings = Settings(threshold: real, minEvidence: int, minConfidence: real)

  /** The product of mean confidence, stability and coverage of some inliers. */
  type Score = seq<Obs> -> real

  datatype Product = Product(
    key: string, boxes: int, confidence: real, evidence: nat, observations: nat,
    minBoxes: int, maxBoxes: int, median: real, mad: real, madInliers: real)

  datatype Pallet = Pallet(id: string, products: seq<Product>)

  function Clamp(x: real): (r: real)
    ensures 0.0 <= r <= 1.0
    ensures 0.0 <= x <= 1.0 ==> r == x
  {
    if x < 0.0 then 0.0 else if x > 1.0 then 1.0 else x
  }

  predicate Dropped(obs: seq<Obs>, st: Settings, score: Score)
    requires obs != []
  {
    Phantom(obs, st.threshold, st.minEvidence, st.minConfidence, Clamp(score(Inliers(obs, st.threshold))))
  }

  ghost predicate Spans(obs: seq<Obs>, lo: int, hi: int) {
    && (exists i :: 0 <= i < |obs| && obs[i].boxes == lo)
    && (exists i :: 0 <= i < |obs| && obs[i].boxes == hi)
    && (forall i :: 0 <= i < |obs| ==> lo <= obs[i].boxes <= hi)
  }

  ghost predicate Describes(p: Product, key: string, obs: seq<Obs>, st: Settings, score: Score) {
    && obs != []
    && var inliers := Inliers(obs, st.threshold);
    && inliers != []
    && p.key == key
    && IsMode(inliers, p.boxes)
    && p.confidence == Clamp(score(inliers))
    && p.evidence == |inliers| && p.observations == |obs|
    && Spans(obs, p.minBoxes, p.maxBoxes)
    && p.median == Median(Values(inliers))
    && p.mad == Mad(Values(obs), Median(Values(obs)))
    && p.madInliers == Mad(Values(inliers), p.median)
  }

  method Extremes(obs: seq<Obs>) returns (lo: int, hi: int)
    requires obs != []
    ensures Spans(obs, lo, hi)
  {
    lo, hi := obs[0].boxes, obs[0].boxes;
    for i := 1 to |obs|
      invariant exists j :: 0 <= j < i && obs[j].boxes == lo
      invariant exists j :: 0 <= j < i && obs[j].boxes == hi
      invariant forall j :: 0 <= j < i ==> lo <= obs[j].boxes <= hi
    {
      var x := obs[i].boxes;
      if x < lo { lo := x; }
      if x > hi { hi := x; }
    }
  }

  method ConsolidateProduct(key: string, obs: seq<Obs>, st: Settings, score: Score) returns (p: Option<Product>)
    requires obs != []
    ensures p.None? <==> Dropped(obs, st, score)
    ensures p.Some? ==> Describes(p.value, key, obs, st, score)
  {
    hide IsMode, Median, Mad, Spans, Kept;
    var med := Median(Values(obs));
    var mad := Mad(Values(obs), med);
    var inliers := Inliers(obs, st.threshold);
    var medIn := Median(Values(inliers));
    var madIn := Mad(Values(inliers), medIn);
    var estimate := WeightedMode(inliers);
    var confidence := Clamp(score(inliers));
    if |obs| >= 3 && |inliers| < st.minEvidence && confidence < st.minConfidence {
      return None;
    }
    var lo, hi := Extremes(obs);
    p := Some(Product(key, estimate, confidence, |inliers|, |obs|, lo, hi, medIn, mad, madIn));
  }

  /** When a strict majority of a product's counts lies between `a` and `b`, what is reported of it stays
      within `threshold` times their distance, however far off the other counts are. */
  lemma ReportIsNearTheMajority(p: Product, key: string, obs: seq<Obs>, st: Settings, score: Score, a: real, b: real)
    requires Describes(p, key, obs, st, score) && st.threshold >= 1.0 && 2 * CountIn(Values(obs), a, b) > |obs|
    ensures var reach := st.threshold * (b - a);
      && a - reach <= p.boxes as real <= b + reach
      && a - reach <= p.median <= b + reach
      && 0.0 <= p.mad <= b - a
  {
    hide Median, Mad, IsMode, Spans, CountIn, Kept;
    var inliers := Inliers(obs, st.threshold);
    var reach := st.threshold * (b - a);
    EstimateIsNear(obs, st.threshold, a, b, p.boxes);
    InliersAreNear(obs, st.threshold, a, b);
    MajorityHoldsCentre(obs, a, b);
    AllIn(inliers, a - reach, b + reach);
    MajorityHoldsMedian(Values(inliers), a - reach, b + reach);
  }

  lemma {:induction false} AllIn(obs: seq<Obs>, a: real, b: real)
    requires forall o :: o in obs ==> a <= o.boxes as real <= b
    ensures CountIn(Values(obs), a, b) == |obs|
  {
    if obs != [] {
      AllIn(obs[1..], a, b);
      assert Values(obs)[1..] == Values(obs[1..]);
      assert obs[0] in obs;
    }
  }

  /** The products of one pallet: each key in turn, unless its group is dropped. */
  ghost predicate ProductsFor(ps: seq<Product>, keys: seq<string>, es: seq<Entry>, pallet: string,
                              st: Settings, score: Score)
    decreases |keys|
  {
    if keys == [] then ps == []
    else
      var front, key := keys[..|keys| - 1], keys[|keys| - 1];
      var obs := ObsOf(es, pallet, key);
      && obs != []
      && if Dropped(obs, st, score) then ProductsFor(ps, front, es, pallet, st, score)
         else
           && ps != []
           && Describes(ps[|ps| - 1], key, obs, st, score)
           && ProductsFor(ps[..|ps| - 1], front, es, pallet, st, score)
  }

  ghost predicate PalletFor(p: Pallet, id: string, es: seq<Entry>, st: Settings, score: Score) {
    p.id == id && ProductsFor(p.products, Firsts(KeysOf(es, id)), es, id, st, score)
  }

  ghost predicate IsConsolidation(result: seq<Pallet>, es: seq<Entry>, st: Settings, score: Score) {
    var ids := Firsts(PalletsOf(es));
    |result| == |ids| && forall i :: 0 <= i < |ids| ==> PalletFor(result[i], ids[i], es, st, score)
  }

  lemma NoProducts(es: seq<Entry>, pallet: string, st: Settings, score: Score)
    ensures ProductsFor([], [], es, pallet, st, score)
  {
  }

  lemma NextProduct(ps: seq<Product>, p: Option<Product>, keys: seq<string>, i: nat, es: seq<Entry>, pallet: string,
                    st: Settings, score: Score)
    requires i < |keys| && ProductsFor(ps, keys[..i], es, pallet, st, score)
    requires var obs := ObsOf(es, pallet, keys[i]);
      obs != [] && (p.None? <==> Dropped(obs, st, score)) && (p.Some? ==> Describes(p.value, keys[i], obs, st, score))
    ensures ProductsFor(if p.Some? then ps + [p.value] else ps, keys[..i + 1], es, pallet, st, score)
  {
    hide Dropped, Describes, ObsOf;
    assert keys[..i + 1][..i] == keys[..i];
    if p.Some? { assert (ps + [p.value])[..|ps|] == ps; }
  }

  method ConsolidatePallet(id: string, g: Groups, ghost es: seq<Entry>, st: Settings, score: Score)
    returns (pallet: Pallet)
    requires IsGrouping(g, es) && id in g.pallets
    ensures PalletFor(pallet, id, es, st, score)
  {
    hide ProductsFor, IsGrouping, Dropped, Describes, ObsOf, KeysOf, Firsts;
    KeysKnown(g, es, id);
    var keys := g.keys[id];
    var products: seq<Product> := [];
    assert keys[..0] == [];
    NoProducts(es, id, st, score);
    for i := 0 to |keys|
      invariant ProductsFor(products, keys[..i], es, id, st, score)
    {
      BucketKnown(g, es, id, keys[i]);
      var p := ConsolidateProduct(keys[i], g.buckets[(id, keys[i])], st, score);
      NextProduct(products, p, keys, i, es, id, st, score);
      products := if p.Some? then products + [p.value] else products;
    }
    assert keys[..|keys|] == keys;
    pallet := Pallet(id, products);
  }

  lemma KeysKnown(g: Groups, es: seq<Entry>, id: string)
    requires IsGrouping(g, es) && id in g.pallets
    ensures id in g.keys && g.keys[id] == Firsts(KeysOf(es, id))
  {
    hide Firsts, PalletsOf, KeysOf;
    assert PalletGroupOk(g, es, id);
  }

  lemma BucketKnown(g: Groups, es: seq<Entry>, id: string, key: string)
    requires IsGrouping(g, es) && key in Firsts(KeysOf(es, id))
    ensures (id, key) in g.buckets && g.buckets[(id, key)] == ObsOf(es, id, key) != []
  {
    hide Firsts, PalletsOf, KeysOf, ObsOf;
    GroupsAreSeen(es, id, key);
    assert BucketOk(g, es, id, key);
  }

  method Consolidate(keyOf: KeyOf, frames: seq<Frame>, st: Settings, score: Score) returns (result: seq<Pallet>)
    ensures IsConsolidation(result, OfFrames(keyOf, frames), st, score)
  {
    hide PalletFor, OfFrames, PalletsOf, Firsts;
    ghost var es := OfFrames(keyOf, frames);
    var g := GroupObservations(keyOf, frames);
    result := [];
    for i := 0 to |g.pallets|
      invariant |result| == i
      invariant forall j :: 0 <= j < i ==> PalletFor(result[j], g.pallets[j], es, st, score)
    {
      var pallet := ConsolidatePallet(g.pallets[i], g, es, st, score);
      result := result + [pallet];
    }
  }

  // ----- nothing is lost -----

  /** Settings for which the phantom filter cannot fire; the defaults are among them. */
  predicate NeverDrops(st: Settings) {
    st.minEvidence <= FewestInliers(st.threshold) || st.minConfidence <= 0.0
  }

  const DEFAULTS := Settings(3.0, 2, 0.45)

  lemma NoneDropped(obs: seq<Obs>, st: Settings, score: Score)
    requires obs != [] && NeverDrops(st)
    ensures !Dropped(obs, st, score)
  {
    hide Inliers;
    PhantomUnreachableIff(st.threshold, st.minEvidence, st.minConfidence);
  }

  lemma {:induction false} EveryKeyHasItsProduct(ps: seq<Product>, keys: seq<string>, es: seq<Entry>, pallet: string,
                                                 st: Settings, score: Score)
    requires NeverDrops(st) && ProductsFor(ps, keys, es, pallet, st, score)
    ensures |ps| == |keys|
    ensures forall i :: 0 <= i < |keys| ==> Describes(ps[i], keys[i], ObsOf(es, pallet, keys[i]), st, score)
    decreases |keys|
  {
    hide Describes, ObsOf, Dropped, NeverDrops;
    if keys != [] {
      NoneDropped(ObsOf(es, pallet, keys[|keys| - 1]), st, score);
      EveryKeyHasItsProduct(ps[..|ps| - 1], keys[..|keys| - 1], es, pallet, st, score);
    }
  }

  /** With the default settings, a pallet is returned exactly once for each pallet seen, and within it a
      product exactly once for each key seen there, estimated from that group's observations alone. */
  lemma OneProductPerGroup(result: seq<Pallet>, es: seq<Entry>, st: Settings, score: Score, i: nat)
    requires NeverDrops(st) && IsConsolidation(result, es, st, score) && i < |result|
    ensures Distinct(Firsts(PalletsOf(es))) && forall p :: p in Firsts(PalletsOf(es)) <==> p in PalletsOf(es)
    ensures result[i].id == Firsts(PalletsOf(es))[i]
    ensures var keys := Firsts(KeysOf(es, result[i].id));
      && Distinct(keys) && (forall k :: k in keys <==> k in KeysOf(es, result[i].id))
      && |result[i].products| == |keys|
      && forall j :: 0 <= j < |keys| ==>
           Describes(result[i].products[j], keys[j], ObsOf(es, result[i].id, keys[j]), st, score)
  {
    hide Describes, ProductsFor, ObsOf, KeysOf, PalletsOf, Firsts;
    var ids := Firsts(PalletsOf(es));
    assert PalletFor(result[i], ids[i], es, st, score);
    FirstsDistinct(PalletsOf(es));
    FirstsDistinct(KeysOf(es, ids[i]));
    EveryKeyHasItsProduct(result[i].products, Firsts(KeysOf(es, ids[i])), es, ids[i], st, score);
  }

  lemma DefaultsNeverDrop()
    ensures NeverDrops(DEFAULTS)
  {
  }

  // ----- every observation is counted once -----

  function InProducts(ps: seq<Product>): nat {
    if ps == [] then 0 else InProducts(ps[..|ps| - 1]) + ps[|ps| - 1].observations
  }

  function InResult(result: seq<Pallet>): nat {
    if result == [] then 0 else InResult(result[..|result| - 1]) + InProducts(result[|result| - 1].products)
  }

  function CountKeys(es: seq<Entry>, pallet: string, keys: seq<string>): nat {
    if keys == [] then 0 else CountKeys(es, pallet, keys[..|keys| - 1]) + |ObsOf(es, pallet, keys[|keys| - 1])|
  }

  function CountPallets(es: seq<Entry>, ids: seq<string>): nat {
    if ids == [] then 0 else CountPallets(es, ids[..|ids| - 1]) + |KeysOf(es, ids[|ids| - 1])|
  }

  lemma FrontOfDistinct<T>(xs: seq<T>)
    requires xs != [] && Distinct(xs)
    ensures Distinct(xs[..|xs| - 1]) && xs[|xs| - 1] !in xs[..|xs| - 1]
    ensures xs == xs[..|xs| - 1] + [xs[|xs| - 1]]
  {
  }

  lemma {:induction false} CountKeysAdd(es: seq<Entry>, e: Entry, pallet: string, keys: seq<string>)
    requires Distinct(keys)
    ensures CountKeys(es + [e], pallet, keys)
      == CountKeys(es, pallet, keys) + (if e.pallet == pallet && e.key in keys then 1 else 0)
  {
    hide ObsOf, Distinct;
    if keys != [] {
      FrontOfDistinct(keys);
      CountKeysAdd(es, e, pallet, keys[..|keys| - 1]);
      OneMore(es, e, pallet, keys[|keys| - 1]);
    }
  }

  lemma {:induction false} CountPalletsAdd(es: seq<Entry>, e: Entry, ids: seq<string>)
    requires Distinct(ids)
    ensures CountPallets(es + [e], ids) == CountPallets(es, ids) + (if e.pallet in ids then 1 else 0)
  {
    hide KeysOf, Distinct;
    if ids != [] {
      FrontOfDistinct(ids);
      CountPalletsAdd(es, e, ids[..|ids| - 1]);
      OneMore(es, e, ids[|ids| - 1], e.key);
    }
  }

  lemma CountKeysSnoc(es: seq<Entry>, pallet: string, keys: seq<string>, key: string)
    ensures CountKeys(es, pallet, keys + [key]) == CountKeys(es, pallet, keys) + |ObsOf(es, pallet, key)|
  {
    assert (keys + [key])[..|keys|] == keys;
  }

  lemma CountPalletsSnoc(es: seq<Entry>, ids: seq<string>, id: string)
    ensures CountPallets(es, ids + [id]) == CountPallets(es, ids) + |KeysOf(es, id)|
  {
    assert (ids + [id])[..|ids|] == ids;
  }

  /** A pallet's groups hold its observations, each once. */
  lemma {:induction false} GroupsPartitionPallet(es: seq<Entry>, pallet: string)
    ensures CountKeys(es, pallet, Firsts(KeysOf(es, pallet))) == |KeysOf(es, pallet)|
  {
    hide Firsts, Distinct, CountKeys;
    if es == [] {
      NoCounts(pallet);
    } else {
      var front, e := es[..|es| - 1], es[|es| - 1];
      assert es == front + [e];
      GroupsPartitionPallet(front, pallet);
      OneMore(front, e, pallet, e.key);
      var keys := Firsts(KeysOf(front, pallet));
      FirstsDistinct(KeysOf(front, pallet));
      CountKeysAdd(front, e, pallet, keys);
      if e.pallet == pallet {
        FirstsSnoc(KeysOf(front, pallet), e.key);
        GroupsAreSeen(front, pallet, e.key);
        CountKeysSnoc(es, pallet, keys, e.key);
      } else {
        assert KeysOf(front, pallet) + [] == KeysOf(front, pallet);
      }
    }
  }

  lemma NoCounts(pallet: string)
    ensures CountKeys([], pallet, Firsts(KeysOf([], pallet))) == |KeysOf([], pallet)|
    ensures CountPallets([], Firsts(PalletsOf([]))) == 0
  {
  }

  lemma {:induction false} PalletsPartitionEntries(es: seq<Entry>)
    ensures CountPallets(es, Firsts(PalletsOf(es))) == |es|
  {
    hide Firsts, Distinct, CountPallets;
    if es == [] {
      NoCounts("");
    } else {
      var front, e := es[..|es| - 1], es[|es| - 1];
      assert es == front + [e];
      PalletsPartitionEntries(front);
      OneMore(front, e, e.pallet, e.key);
      var ids := Firsts(PalletsOf(front));
      FirstsDistinct(PalletsOf(front));
      CountPalletsAdd(front, e, ids);
      FirstsSnoc(PalletsOf(front), e.pallet);
      GroupsAreSeen(front, e.pallet, e.key);
      CountPalletsSnoc(es, ids, e.pallet);
    }
  }

  lemma {:induction false} ProductsCountKeys(ps: seq<Product>, keys: seq<string>, es: seq<Entry>, pallet: string,
                                             st: Settings, score: Score)
    requires NeverDrops(st) && ProductsFor(ps, keys, es, pallet, st, score)
    ensures InProducts(ps) == CountKeys(es, pallet, keys)
    decreases |keys|
  {
    hide ObsOf, Dropped, NeverDrops;
    if keys != [] {
      NoneDropped(ObsOf(es, pallet, keys[|keys| - 1]), st, score);
      ProductsCountKeys(ps[..|ps| - 1], keys[..|keys| - 1], es, pallet, st, score);
    }
  }

  lemma {:induction false} ResultCountsPallets(result: seq<Pallet>, ids: seq<string>, es: seq<Entry>,
                                               st: Settings, score: Score)
    requires NeverDrops(st) && |result| == |ids|
    requires forall i :: 0 <= i < |ids| ==> PalletFor(result[i], ids[i], es, st, score)
    ensures InResult(result) == CountPallets(es, ids)
    decreases |ids|
  {
    hide ProductsFor, NeverDrops, KeysOf, Firsts, CountKeys, InProducts;
    if ids != [] {
      var last := |ids| - 1;
      ResultCountsPallets(result[..last], ids[..last], es, st, score);
      assert PalletFor(result[last], ids[last], es, st, score);
      ProductsCountKeys(result[last].products, Firsts(KeysOf(es, ids[last])), es, ids[last], st, score);
      GroupsPartitionPallet(es, ids[last]);
    }
  }

  /** The `n_observations` of all products add up to the number of observations in the frames. */
  lemma ObservationsAreConserved(result: seq<Pallet>, es: seq<Entry>, st: Settings, score: Score)
    requires NeverDrops(st) && IsConsolidation(result, es, st, score)
    ensures InResult(result) == |es|
  {
    hide InResult, CountPallets, PalletFor, Firsts, NeverDrops;
    ResultCountsPallets(result, Firsts(PalletsOf(es)), es, st, score);
    PalletsPartitionEntries(es);
  }
}
