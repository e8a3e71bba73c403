/** The base values of the AppRollout controller are shared by all assignments, and the values of a rollout's entry by
    all robots that it selects. Building the values of an assignment merges into the tables of the base values in
    place. */
module SharedValues {
  import opened AppRollout
  import opened ValueMerges
  import opened SharedTables

  // ----- One assignment -----

  /** Given values hold no tables. */
  predicate NoTables(extra: Values) { forall k :: k in extra ==> !extra[k].Table? }

  function Plains(extra: Values): Row { map k | k in extra :: Plain(extra[k]) }

  /** The row of an assignment's values: every entry is that of the base values, its own, or given. */
  function LayeredRow(s: Store, b: nat, o: nat, v: Values, l: Layer): Row
    requires b in s && o in s && v.Keys <= s[b].Keys && l.own.Keys <= s[o].Keys
  {
    map k | k in v.Keys + l.own.Keys + l.extra.Keys ::
      if k in l.extra then Plain(l.extra[k]) else if k in l.own && !Both(v, l.own, k) then s[o][k] else s[b][k]
  }

  // A new row changes nothing.
  lemma NewRow(s: Store, t: Store, a: nat, e: Entry, v: Value)
    requires Tree(s, e, v) && a !in s && a in t && t == s[a := t[a]]
    ensures Same(s, t, e, v) && Tree(t, e, v) && !Reaches(t, e, v, a)
    ensures forall c :: Reaches(t, e, v, c) <==> Reaches(s, e, v, c)
  {
    hide Tree, Reaches;
    forall c | Reaches(s, e, v, c) ensures c in s { ReachesStored(s, e, v, c); }
    Framed(s, t, e, v);
  }

  lemma PlainRow(s: Store, a: nat, extra: Values)
    requires a in s && s[a] == Plains(extra) && NoTables(extra)
    ensures Tree(s, Sub(a), Table(extra))
    ensures forall c :: Reaches(s, Sub(a), Table(extra), c) ==> c == a
  {
  }

  // The new row can take the entries of the base values, and then has just these.
  lemma CopyReady(s: Store, t: Store, a: nat, b: nat, v: Values)
    requires Tree(s, Sub(b), Table(v)) && a !in s && t == s[a := map[]]
    ensures Tree(t, Sub(a), Table(map[])) && Tree(t, Sub(b), Table(v)) && Fits(t, a, b, map[], v)
  {
    hide Tree, Reaches, Fits;
    PlainRow(t, a, map[]);
    NewRow(s, t, a, Sub(b), Table(v));
    ApartFits(t, a, b, map[], v);
  }

  lemma Copied(s: Store, t: Store, u: Store, a: nat, b: nat, v: Values)
    requires Tree(s, Sub(b), Table(v)) && a !in s && t == s[a := map[]]
    requires Tree(t, Sub(a), Table(map[])) && Tree(t, Sub(b), Table(v))
    requires Merging(t, u, a, b, map[], v, {}) && RowMerged(t, u, a, b, map[], v, {})
    ensures u == s[a := s[b]]
  {
    hide Tree, Reaches;
    RowOf(s, b, v);
    assert u[a] == s[b];
    forall c | c in t && c != a ensures u[c] == t[c] { assert !Changed(t, a, b, map[], v, {}, c); }
  }

  // The copy of the row fits what fits the base values, and the same tables are merged.
  lemma CopyFits(s: Store, t: Store, a: nat, b: nat, o: nat, v: Values, w: Values)
    requires Tree(s, Sub(b), Table(v)) && Tree(s, Sub(o), Table(w)) && Fits(s, b, o, v, w) && a !in s
    requires b in s && t == s[a := s[b]]
    ensures Tree(t, Sub(a), Table(v)) && Tree(t, Sub(o), Table(w)) && Fits(t, a, o, v, w)
    ensures forall k :: k in v ==> Tree(s, s[b][k], v[k]) && k in t[a] && Same(s, t, s[b][k], v[k])
    ensures forall k :: k in w ==> Tree(s, s[o][k], w[k]) && k in t[o] && Same(s, t, s[o][k], w[k])
  {
    hide Tree, Reaches, Within;
    RowOf(s, b, v);
    RowOf(s, o, w);
    NewRow(s, t, a, Sub(o), Table(w));
    forall k | k in v ensures Tree(t, t[a][k], v[k]) && Same(s, t, s[b][k], v[k]) && !Reaches(t, t[a][k], v[k], a) {
      NewRow(s, t, a, s[b][k], v[k]);
    }
    forall k | k in w ensures Same(s, t, s[o][k], w[k]) { NewRow(s, t, a, s[o][k], w[k]); }
    forall j, k, c | j in v && k in v && Reaches(t, t[a][j], v[j], c) && Reaches(t, t[a][k], v[k], c) ensures j == k {
      NewRow(s, t, a, s[b][j], v[j]);
      NewRow(s, t, a, s[b][k], v[k]);
      TwoKeys(s, b, v, j, k, c);
    }
    RowIsTree(t, a, v);
    assert !Reaches(t, Sub(a), Table(v), o) by {
      if Reaches(t, Sub(a), Table(v), o) {
        var k := FoundUnder(t, a, v, o);
        NewRow(s, t, a, s[b][k], v[k]);
        ChildFound(s, b, v, k, o);
      }
    }
    forall j, k, c | j in v && k in w && Reaches(t, t[a][j], v[j], c) && Reaches(t, t[o][k], w[k], c)
      ensures j == k && Within(t, t[a][k], t[o][k], w[k])
    {
      NewRow(s, t, a, s[b][j], v[j]);
      NewRow(s, t, a, s[o][k], w[k]);
      WithinFramed(s, t, s[b][k], s[o][k], v[k], w[k]);
    }
  }

  lemma TwoKeys(s: Store, b: nat, v: Values, j: string, k: string, a: nat)
    requires Tree(s, Sub(b), Table(v)) && j in v && k in v && Reaches(s, s[b][j], v[j], a)
    requires Reaches(s, s[b][k], v[k], a)
    ensures j == k
  {
  }

  /** What is merged into the copy goes into the tables of the base values. */
  lemma CopyIsBase(s: Store, t: Store, u: Store, a: nat, b: nat, o: nat, v: Values, w: Values)
    requires Tree(s, Sub(b), Table(v)) && Tree(s, Sub(o), Table(w)) && Fits(s, b, o, v, w) && a !in s
    requires b in s && t == s[a := s[b]]
    requires Tree(t, Sub(a), Table(v)) && Tree(t, Sub(o), Table(w)) && Merging(t, u, a, o, v, w, {})
    ensures Merging(s, u, b, o, v, w, {}) && u[b] == s[b]
  {
    hide Tree, Reaches, Within, Fits;
    CopyFits(s, t, a, b, o, v, w);
    RowOf(s, b, v);
    RowOf(s, o, w);
    forall k | Both(v, w, k) ensures Joined(s, u, s[b][k], s[o][k], v[k], w[k]) {
      assert Joined(t, u, t[a][k], t[o][k], v[k], w[k]);
      Framed(s, t, s[b][k], v[k]);
      Framed(s, t, s[o][k], w[k]);
    }
    forall c | c in s && u[c] != s[c] ensures c != b && Changed(s, b, o, v, w, {}, c) {
      assert Changed(t, a, o, v, w, {}, c);
      var k :| Goes(t, a, o, v, w, k) && Reaches(t, t[a][k], v[k], c);
      Framed(s, t, s[b][k], v[k]);
      ChildFound(s, b, v, k, c);
      if Within(s, s[b][k], s[o][k], w[k]) { WithinFramed(s, t, s[b][k], s[o][k], v[k], w[k]); }
      assert Goes(s, b, o, v, w, k);
    }
  }

  // Given values only change the assignment's own row.
  lemma GivenReady(s: Store, t: Store, a: nat, c: nat, m: Values, extra: Values)
    requires Tree(s, Sub(a), Table(m)) && NoTables(extra) && c !in s && t == s[c := Plains(extra)]
    ensures Tree(t, Sub(a), Table(m)) && Tree(t, Sub(c), Table(extra)) && Fits(t, a, c, m, extra)
  {
    hide Tree, Reaches, Fits;
    PlainRow(t, c, extra);
    NewRow(s, t, c, Sub(a), Table(m));
    ApartFits(t, a, c, m, extra);
  }

  lemma GivenMerged(s: Store, t: Store, u: Store, a: nat, c: nat, m: Values, extra: Values)
    requires NoTables(extra) && c in t && t[c] == Plains(extra)
    requires Tree(t, Sub(a), Table(m)) && Tree(t, Sub(c), Table(extra))
    requires Merging(t, u, a, c, m, extra, {}) && RowMerged(t, u, a, c, m, extra, {})
    ensures a in t && u == t[a := t[a] + Plains(extra)]
  {
    hide Tree, Reaches;
    RowOf(t, a, m);
    assert u[a] == t[a] + Plains(extra);
    forall d | d in t && d != a ensures u[d] == t[d] { assert !Changed(t, a, c, m, extra, {}, d); }
  }

  // New rows change nothing about what was merged.
  lemma LaterRows(s: Store, t: Store, u: Store, b: nat, o: nat, v: Values, w: Values)
    requires Tree(s, Sub(b), Table(v)) && Tree(s, Sub(o), Table(w)) && Fits(s, b, o, v, w)
    requires Merging(s, t, b, o, v, w, {}) && forall a :: a in s ==> a in u && u[a] == t[a]
    ensures Merging(s, u, b, o, v, w, {})
  {
    hide Tree, Reaches, Within, Fits;
    RowOf(s, b, v);
    RowOf(s, o, w);
    SourceStays(s, t, b, o, v, w, {});
    forall k | Both(v, w, k) ensures Joined(s, u, s[b][k], s[o][k], v[k], w[k]) {
      SameChild(s, t, o, w, k);
      forall a | a in t && (Reaches(s, s[b][k], v[k], a) || Reaches(s, s[o][k], w[k], a))
        ensures a in u && u[a] == t[a]
      {
        if Reaches(s, s[b][k], v[k], a) {
          ReachesStored(s, s[b][k], v[k], a);
        } else {
          ReachesStored(s, s[o][k], w[k], a);
        }
      }
      JoinedStays(s, t, u, s[b][k], s[o][k], v[k], w[k]);
    }
  }

  /** The values of one assignment: a new row, the base values, its own values, and those that it is given. */
  method Build(m: Tables, b: nat, o: nat, extra: Values, ghost v: Values, ghost w: Values) returns (vals: nat)
    requires Tree(m.store, Sub(b), Table(v)) && Tree(m.store, Sub(o), Table(w)) && Fits(m.store, b, o, v, w)
    requires NoTables(extra)
    modifies m
    ensures vals !in old(m.store) && vals in m.store && b in m.store && b in old(m.store) && o in old(m.store)
    ensures Merging(old(m.store), m.store, b, o, v, w, {}) && m.store[b] == old(m.store[b])
    ensures old(m.store)[b].Keys == v.Keys && old(m.store)[o].Keys == w.Keys
    ensures m.store[vals] == LayeredRow(old(m.store), b, o, v, Layer(w, extra))
  {
    hide Tree, Reaches, Within, Fits, Merging, Merge, Joined, RowMerged, LayeredRow, NoTables;
    ghost var s := m.store;
    RowOf(s, b, v);
    RowOf(s, o, w);
    vals := m.New(map[]);
    ghost var t := m.store;
    CopyReady(s, t, vals, b, v);
    m.MergeInto(vals, b, map[], v);
    Copied(s, t, m.store, vals, b, v);
    t := m.store;
    CopyFits(s, t, vals, b, o, v, w);
    m.MergeInto(vals, o, v, w);
    ghost var u := m.store;
    assert u.Keys == t.Keys by { SameKeys(t, u, vals, o, v, w); }
    CopyIsBase(s, t, u, vals, b, o, v, w);
    var given := m.New(Plains(extra));
    ghost var x := m.store;
    GivenReady(u, x, vals, given, Merge(v, w), extra);
    m.MergeInto(vals, given, Merge(v, w), extra);
    GivenMerged(u, x, m.store, vals, given, Merge(v, w), extra);
    LaterRows(s, u, m.store, b, o, v, w);
    RowIsLayered(s, t, u, vals, b, o, v, Layer(w, extra));
  }

  lemma SameKeys(s: Store, t: Store, d: nat, o: nat, v: Values, w: Values)
    requires Tree(s, Sub(d), Table(v)) && Tree(s, Sub(o), Table(w)) && RowMerged(s, t, d, o, v, w, {})
    ensures t.Keys == s.Keys
  {
  }

  lemma RowIsLayered(s: Store, t: Store, u: Store, a: nat, b: nat, o: nat, v: Values, l: Layer)
    requires b in s && o in s && s[b].Keys == v.Keys && s[o].Keys == l.own.Keys && a !in s && t == s[a := s[b]]
    requires Tree(t, Sub(a), Table(v)) && Tree(t, Sub(o), Table(l.own)) && RowMerged(t, u, a, o, v, l.own, {})
    ensures a in u && u[a] + Plains(l.extra) == LayeredRow(s, b, o, v, l)
  {
    hide Tree;
  }
}
