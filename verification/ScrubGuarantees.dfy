/** What scrubbed output can and cannot reveal. */
module ScrubGuarantees {
  import opened ScrubModel

  /** Two values that scrubbing under a denied key cannot tell apart. */
  predicate SameClass(lowerKey: string, a: Value, b: Value) {
    match (a, b)
    case (Undefined, Undefined) => true
    case (Text(s), Text(t)) =>
      && (LooksLikeJwt(s) <==> LooksLikeJwt(t))
      && (LooksLikeJwt(s) || lowerKey != "authorization" || (StartsWithBearer(s) <==> StartsWithBearer(t)))
    case _ => !a.Undefined? && !b.Undefined? && !a.Text? && !b.Text?
  }

  /** A redacted value reveals its class and nothing else; null and every non-string value look alike. */
  lemma RedactionRevealsClass(lowerKey: string, a: Value, b: Value)
    ensures ScrubValue(lowerKey, a) == ScrubValue(lowerKey, b) <==> SameClass(lowerKey, a, b)
  {
  }

  predicate EntriesAgree(deny: set<string>, a: seq<Entry>, b: seq<Entry>) {
    |a| == |b| && forall k | 0 <= k < |a| ::
      && a[k].key == b[k].key
      && if Denied(deny, a[k].key) then SameClass(Lower(a[k].key), a[k].value, b[k].value) else a[k].value == b[k].value
  }

  predicate ShapesAgree(deny: set<string>, a: Shape, b: Shape) {
    match (a, b)
    case (Record(x), Record(y)) => EntriesAgree(deny, x, y)
    case _ => a == b
  }

  /** The walk would enter this value: an array or a record. */
  predicate IsContainer(g: Graph, v: Value) {
    v.Object? && v.r in g && !g[v.r].Opaque?
  }

  predicate SameContainers(g: Graph, h: Graph, values: seq<Value>) {
    forall k | 0 <= k < |values| :: IsContainer(g, values[k]) <==> IsContainer(h, values[k])
  }

  predicate SameOpenContainers(deny: set<string>, g: Graph, h: Graph, entries: seq<Entry>) {
    forall k | 0 <= k < |entries| && !Denied(deny, entries[k].key) ::
      IsContainer(g, entries[k].value) <==> IsContainer(h, entries[k].value)
  }

  /** One entered object: same shape in both graphs but for values under denied keys, and the same ways on. */
  predicate LookAlike(deny: set<string>, g: Graph, h: Graph, r: Ref)
    requires r in g
  {
    && r in h && ShapesAgree(deny, g[r], h[r])
    && match g[r]
       case Items(values) => SameContainers(g, h, values)
       case Record(entries) => SameOpenContainers(deny, g, h, entries)
       case Opaque => true
  }

  /** The graphs agree on these objects, except on values under denied keys, which agree in class. */
  predicate AgreeOn(deny: set<string>, g: Graph, h: Graph, entered: set<Ref>) {
    forall r | r in entered && r in g :: LookAlike(deny, g, h, r)
  }

  lemma {:induction false} SameOutput(g: Graph, h: Graph, v: Value, deny: set<string>, seen: set<Ref>, entered: set<Ref>)
    requires AgreeOn(deny, g, h, entered) && Scrub(g, v, deny, seen).1 <= entered
    requires IsContainer(g, v) <==> IsContainer(h, v)
    ensures Scrub(g, v, deny, seen) == Scrub(h, v, deny, seen)
    decreases g.Keys - seen, 0
  {
    if IsContainer(g, v) && v.r !in seen {
      assert v.r in g.Keys - seen && v.r !in g.Keys - (seen + {v.r});
      assert v.r in Scrub(g, v, deny, seen).1;
      assert LookAlike(deny, g, h, v.r);
      match g[v.r]
      case Items(values) => SameItems(g, h, values, deny, seen + {v.r}, entered);
      case Record(entries) => SameEntries(g, h, entries, h[v.r].entries, deny, seen + {v.r}, entered);
    }
  }

  lemma {:induction false} SameItems(g: Graph, h: Graph, values: seq<Value>, deny: set<string>, seen: set<Ref>, entered: set<Ref>)
    requires AgreeOn(deny, g, h, entered) && ScrubItems(g, values, deny, seen).1 <= entered
    requires SameContainers(g, h, values)
    ensures ScrubItems(g, values, deny, seen) == ScrubItems(h, values, deny, seen)
    decreases g.Keys - seen, 1 + |values|
  {
    if values != [] {
      SameOutput(g, h, values[0], deny, seen, entered);
      var between := Scrub(g, values[0], deny, seen).1;
      assert g.Keys - between <= g.Keys - seen;
      SameItems(g, h, values[1..], deny, between, entered);
    }
  }

  lemma {:induction false} SameEntries(
      g: Graph, h: Graph, a: seq<Entry>, b: seq<Entry>, deny: set<string>, seen: set<Ref>, entered: set<Ref>)
    requires AgreeOn(deny, g, h, entered) && ScrubEntries(g, a, deny, seen).1 <= entered
    requires EntriesAgree(deny, a, b) && SameOpenContainers(deny, g, h, a)
    ensures ScrubEntries(g, a, deny, seen) == ScrubEntries(h, b, deny, seen)
    decreases g.Keys - seen, 1 + |a|
  {
    if a != [] {
      assert a[0].key == b[0].key;
      var between := seen;
      if Denied(deny, a[0].key) {
        RedactionRevealsClass(Lower(a[0].key), a[0].value, b[0].value);
      } else {
        SameOutput(g, h, a[0].value, deny, seen, entered);
        between := Scrub(g, a[0].value, deny, seen).1;
      }
      assert g.Keys - between <= g.Keys - seen;
      SameEntries(g, h, a[1..], b[1..], deny, between, entered);
    }
  }

  /**
   * Noninterference: for every choice of extra keys, the output depends on nothing but the objects the walk enters, and
   * there on nothing under a denied key but its class. What is reached through denied keys only may differ at will.
   */
  lemma {:induction false} Noninterference(g: Graph, h: Graph, root: Value, extraKeys: seq<string>)
    requires IsContainer(g, root) <==> IsContainer(h, root)
    requires AgreeOn(DenySet(extraKeys), g, h, Scrub(g, root, DenySet(extraKeys), {}).1)
    ensures Scrub(g, root, DenySet(extraKeys), {}) == Scrub(h, root, DenySet(extraKeys), {})
  {
    SameOutput(g, h, root, DenySet(extraKeys), {}, Scrub(g, root, DenySet(extraKeys), {}).1);
  }

  /** A secret nested in an object of its own: two graphs that differ inside it scrub alike. */
  lemma {:induction false} NestedSecret(key: string, a: Shape, b: Shape, extraKeys: seq<string>)
    requires Denied(DenySet(extraKeys), key)
    ensures var top := Record([Entry(key, Object(1))]);
      Scrub(map[0 := top, 1 := a], Object(0), DenySet(extraKeys), {}).0 ==
      Scrub(map[0 := top, 1 := b], Object(0), DenySet(extraKeys), {}).0
  {
    var deny, entries := DenySet(extraKeys), [Entry(key, Object(1))];
    var g, h := map[0 := Record(entries), 1 := a], map[0 := Record(entries), 1 := b];
    assert entries[1..] == [];
    var seen: set<Ref> := {};
    assert seen + {0} == {0};
    assert ScrubEntries(g, entries, deny, {0}).1 == {0};
    assert Scrub(g, Object(0), deny, seen).1 == {0};
    Noninterference(g, h, Object(0), extraKeys);
  }

  // ---------- Every object is entered at most once ----------

  /** The number of arrays and records in an output. */
  ghost function Containers(o: Out): nat
    decreases o, 0
  {
    match o
    case OutItems(values) => 1 + ContainersOf(values)
    case OutRecord(entries) => 1 + ContainersIn(entries)
    case _ => 0
  }

  ghost function ContainersOf(values: seq<Out>): nat
    decreases values, 1
  {
    if values == [] then 0 else Containers(values[0]) + ContainersOf(values[1..])
  }

  ghost function ContainersIn(entries: seq<OutEntry>): nat
    decreases entries, 1
  {
    if entries == [] then 0 else Containers(entries[0].value) + ContainersIn(entries[1..])
  }

  /** The output has one container for each object entered, so sharing and cycles cannot blow it up. */
  lemma {:induction false} EnteredOnce(g: Graph, v: Value, deny: set<string>, seen: set<Ref>)
    requires seen <= g.Keys
    ensures Scrub(g, v, deny, seen).1 <= g.Keys
    ensures Containers(Scrub(g, v, deny, seen).0) == |Scrub(g, v, deny, seen).1| - |seen|
    decreases g.Keys - seen, 0
  {
    if v.Object? && v.r in g && !g[v.r].Opaque? && v.r !in seen {
      assert v.r in g.Keys - seen && v.r !in g.Keys - (seen + {v.r});
      match g[v.r]
      case Items(values) => ItemsOnce(g, values, deny, seen + {v.r});
      case Record(entries) => EntriesOnce(g, entries, deny, seen + {v.r});
    }
  }

  lemma {:induction false} ItemsOnce(g: Graph, values: seq<Value>, deny: set<string>, seen: set<Ref>)
    requires seen <= g.Keys
    ensures ScrubItems(g, values, deny, seen).1 <= g.Keys
    ensures ContainersOf(ScrubItems(g, values, deny, seen).0) == |ScrubItems(g, values, deny, seen).1| - |seen|
    decreases g.Keys - seen, 1 + |values|
  {
    if values != [] {
      EnteredOnce(g, values[0], deny, seen);
      var (out, between) := Scrub(g, values[0], deny, seen);
      assert g.Keys - between <= g.Keys - seen;
      ItemsOnce(g, values[1..], deny, between);
      var outs := ScrubItems(g, values[1..], deny, between).0;
      assert ([out] + outs)[1..] == outs;
    }
  }

  lemma {:induction false} EntriesOnce(g: Graph, entries: seq<Entry>, deny: set<string>, seen: set<Ref>)
    requires seen <= g.Keys
    ensures ScrubEntries(g, entries, deny, seen).1 <= g.Keys
    ensures ContainersIn(ScrubEntries(g, entries, deny, seen).0) == |ScrubEntries(g, entries, deny, seen).1| - |seen|
    decreases g.Keys - seen, 1 + |entries|
  {
    if entries != [] {
      var e := entries[0];
      var (out, between) :=
        if Denied(deny, e.key) then (ScrubValue(Lower(e.key), e.value), seen) else Scrub(g, e.value, deny, seen);
      if !Denied(deny, e.key) { EnteredOnce(g, e.value, deny, seen); }
      assert g.Keys - between <= g.Keys - seen;
      EntriesOnce(g, entries[1..], deny, between);
      var outs := ScrubEntries(g, entries[1..], deny, between).0;
      assert ([OutEntry(e.key, out)] + outs)[1..] == outs;
    }
  }

  /** Scrubbing a whole graph yields no more containers than the graph has objects. */
  lemma OutputBounded(g: Graph, root: Value, extraKeys: seq<string>)
    ensures Containers(Scrub(g, root, DenySet(extraKeys), {}).0) <= |g.Keys|
  {
    EnteredOnce(g, root, DenySet(extraKeys), {});
    SubsetSize(Scrub(g, root, DenySet(extraKeys), {}).1, g.Keys);
  }

  lemma SubsetSize(a: set<Ref>, b: set<Ref>)
    requires a <= b
    ensures |a| <= |b|
  {
    assert b == a + (b - a);
  }
}
