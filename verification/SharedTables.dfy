/** Values as Go keeps them: maps that are shared and changed in place. MergeInto goes into nested tables of any
    depth. */
module SharedTables {
  import opened AppRollout
  import opened ValueMerges

  /** A table is known by its address. */
  datatype Entry = Plain(value: Value) | Sub(table: nat)

  type Row = map<string, Entry>
  type Store = map<nat, Row>

  /** The tables that are found under an entry, with the value that it stands for. */
  ghost predicate Reaches(s: Store, e: Entry, v: Value, a: nat)
    decreases v
  {
    && v.Table? && e.Sub?
    && (a == e.table
        || (e.table in s && exists k :: k in v.entries && k in s[e.table]
                                        && Reaches(s, s[e.table][k], v.entries[k], a)))
  }

  /** An entry stands for a value, and no table is found twice under it. */
  ghost predicate Tree(s: Store, e: Entry, v: Value)
    decreases v
  {
    match v
    case Table(vs) =>
      && e.Sub? && e.table in s && s[e.table].Keys == vs.Keys
      && (forall k :: k in vs ==> Tree(s, s[e.table][k], vs[k]) && !Reaches(s, s[e.table][k], vs[k], e.table))
      && (forall j, k, a ::
            j in vs && k in vs && Reaches(s, s[e.table][j], vs[j], a) && Reaches(s, s[e.table][k], vs[k], a) ==> j == k)
    case _ => e == Plain(v)
  }

  /** The tables under an entry are the same in two stores. */
  ghost predicate Same(s: Store, t: Store, e: Entry, v: Value) {
    forall a :: Reaches(s, e, v, a) ==> a in t && a in s && t[a] == s[a]
  }

  lemma {:induction false} ReachesStored(s: Store, e: Entry, v: Value, a: nat)
    requires Tree(s, e, v) && Reaches(s, e, v, a)
    ensures a in s
    decreases v
  {
    if a != e.table {
      var k :| k in v.entries && Reaches(s, s[e.table][k], v.entries[k], a);
      ReachesStored(s, s[e.table][k], v.entries[k], a);
    }
  }

  lemma {:induction false} Framed(s: Store, t: Store, e: Entry, v: Value)
    requires Tree(s, e, v) && Same(s, t, e, v)
    ensures Tree(t, e, v) && forall a :: Reaches(t, e, v, a) <==> Reaches(s, e, v, a)
    decreases v
  {
    if v.Table? {
      assert Reaches(s, e, v, e.table);
      forall k | k in v.entries
        ensures Tree(t, s[e.table][k], v.entries[k])
        ensures forall a :: Reaches(t, s[e.table][k], v.entries[k], a) <==> Reaches(s, s[e.table][k], v.entries[k], a)
      {
        Framed(s, t, s[e.table][k], v.entries[k]);
      }
    }
  }

  lemma {:induction false} OneValue(s: Store, e: Entry, v: Value, w: Value)
    requires Tree(s, e, v) && Tree(s, e, w)
    ensures v == w
    decreases v
  {
    if v.Table? {
      forall k | k in v.entries ensures k in w.entries && v.entries[k] == w.entries[k] {
        OneValue(s, s[e.table][k], v.entries[k], w.entries[k]);
      }
      assert v.entries == w.entries;
    }
  }

  /** What merging leaves: under every key of the second one, both have the same entry, or two such tables. */
  ghost predicate Within(s: Store, e: Entry, f: Entry, w: Value)
    decreases w
  {
    e == f
    || (w.Table? && e.Sub? && f.Sub? && e.table in s && f.table in s
        && forall k :: k in w.entries ==>
          k in s[e.table] && k in s[f.table] && Within(s, s[e.table][k], s[f.table][k], w.entries[k]))
  }

  lemma {:induction false} WithinSays(s: Store, e: Entry, f: Entry, v: Value, w: Value)
    requires Tree(s, e, v) && Tree(s, f, w) && Within(s, e, f, w)
    ensures Merged(v, w) == v
    decreases w
  {
    BelowIff(w, v);
    if e == f {
      OneValue(s, e, v, w);
      BelowItself(v);
    } else {
      forall k | k in w.entries ensures k in v.entries && Below(w.entries[k], v.entries[k]) {
        WithinSays(s, s[e.table][k], s[f.table][k], v.entries[k], w.entries[k]);
        BelowIff(w.entries[k], v.entries[k]);
      }
    }
  }

  lemma {:induction false} WithinFramed(s: Store, t: Store, e: Entry, f: Entry, v: Value, w: Value)
    requires Tree(s, e, v) && Tree(s, f, w) && Within(s, e, f, w)
    requires Same(s, t, e, v) && Same(s, t, f, w)
    ensures Within(t, e, f, w)
    decreases w
  {
    if e != f {
      assert Reaches(s, e, v, e.table) && Reaches(s, f, w, f.table);
      forall k | k in w.entries ensures Within(t, s[e.table][k], s[f.table][k], w.entries[k]) {
        WithinFramed(s, t, s[e.table][k], s[f.table][k], v.entries[k], w.entries[k]);
      }
    }
  }

  // ----- Merging one table into another one -----

  /** Two tables can be merged: neither is found under the other one, and where their entries have a table in common,
      the two of that key are merged already. */
  ghost predicate Fits(s: Store, d: nat, o: nat, v: Values, w: Values)
    requires Tree(s, Sub(d), Table(v)) && Tree(s, Sub(o), Table(w))
  {
    && !Reaches(s, Sub(o), Table(w), d) && !Reaches(s, Sub(d), Table(v), o)
    && forall j, k, a :: j in v && k in w && Reaches(s, s[d][j], v[j], a) && Reaches(s, s[o][k], w[k], a) ==>
         j == k && Within(s, s[d][k], s[o][k], w[k])
  }

  /** A table that is merged with another one of that key. */
  ghost predicate Goes(s: Store, d: nat, o: nat, v: Values, w: Values, k: string) {
    Both(v, w, k) && d in s && o in s && k in s[d] && k in s[o] && !Within(s, s[d][k], s[o][k], w[k])
  }

  /** The tables that merging changes, besides the first one itself. */
  ghost predicate Changed(s: Store, d: nat, o: nat, v: Values, w: Values, todo: set<string>, a: nat) {
    exists k :: k !in todo && Goes(s, d, o, v, w, k) && Reaches(s, s[d][k], v[k], a)
  }

  /** An entry has been merged with another one: it stands for the merged value, and what is under it was under one of
      the two before. */
  ghost predicate Joined(s: Store, t: Store, e: Entry, f: Entry, v: Value, w: Value) {
    && Tree(t, e, Merged(v, w)) && Within(t, e, f, w)
    && forall a :: Reaches(t, e, Merged(v, w), a) ==> Reaches(s, e, v, a) || Reaches(s, f, w, a)
  }

  /** Apart from the row of d itself, all keys but those to do are merged. */
  ghost predicate Merging(s: Store, t: Store, d: nat, o: nat, v: Values, w: Values, todo: set<string>)
    requires Tree(s, Sub(d), Table(v)) && Tree(s, Sub(o), Table(w))
  {
    && s.Keys <= t.Keys
    && (forall a :: a in s && a != d && t[a] != s[a] ==> Changed(s, d, o, v, w, todo, a))
    && (forall k :: Both(v, w, k) && k !in todo ==> Joined(s, t, s[d][k], s[o][k], v[k], w[k]))
  }

  /** The row of d itself. */
  ghost predicate RowMerged(s: Store, t: Store, d: nat, o: nat, v: Values, w: Values, todo: set<string>)
    requires Tree(s, Sub(d), Table(v)) && Tree(s, Sub(o), Table(w))
  {
    && t.Keys == s.Keys && t[d].Keys == v.Keys + (w.Keys - todo)
    && forall k :: k in t[d] ==> t[d][k] == if k in w && k !in todo && !Both(v, w, k) then s[o][k] else s[d][k]
  }

  lemma RowOf(s: Store, d: nat, v: Values)
    requires Tree(s, Sub(d), Table(v))
    ensures d in s && s[d].Keys == v.Keys && forall k :: k in v ==> Tree(s, s[d][k], v[k])
  {
  }

  lemma ChildFound(s: Store, d: nat, v: Values, k: string, a: nat)
    requires Tree(s, Sub(d), Table(v)) && k in v && Reaches(s, s[d][k], v[k], a)
    ensures Reaches(s, Sub(d), Table(v), a) && a != d && a in s
  {
    ReachesStored(s, s[d][k], v[k], a);
  }

  lemma FoundUnder(s: Store, d: nat, v: Values, a: nat) returns (k: string)
    requires Tree(s, Sub(d), Table(v)) && Reaches(s, Sub(d), Table(v), a) && a != d
    ensures k in v && Reaches(s, s[d][k], v[k], a)
  {
    k :| k in v && Reaches(s, s[d][k], v[k], a);
  }

  lemma SourceStays(s: Store, t: Store, d: nat, o: nat, v: Values, w: Values, todo: set<string>)
    requires Tree(s, Sub(d), Table(v)) && Tree(s, Sub(o), Table(w)) && Fits(s, d, o, v, w)
    requires Merging(s, t, d, o, v, w, todo)
    ensures Same(s, t, Sub(o), Table(w))
  {
    forall a | Reaches(s, Sub(o), Table(w), a) ensures a in t && a in s && t[a] == s[a] {
      ReachesStored(s, Sub(o), Table(w), a);
      if t[a] != s[a] {
        assert Changed(s, d, o, v, w, todo, a);
        var k :| k !in todo && Goes(s, d, o, v, w, k) && Reaches(s, s[d][k], v[k], a);
        hide Tree;
        SourceUntouched(s, d, o, v, w, k, a);
      }
    }
  }

  lemma SourceUntouched(s: Store, d: nat, o: nat, v: Values, w: Values, k: string, a: nat)
    requires Tree(s, Sub(d), Table(v)) && Tree(s, Sub(o), Table(w)) && Fits(s, d, o, v, w)
    requires Goes(s, d, o, v, w, k) && Reaches(s, s[d][k], v[k], a)
    ensures !Reaches(s, Sub(o), Table(w), a)
  {
    hide Within, Tree, Reaches;
    RowOf(s, d, v);
    RowOf(s, o, w);
    ChildFound(s, d, v, k, a);
    if Reaches(s, Sub(o), Table(w), a) {
      if a == o {
        assert false;
      } else {
        var j := FoundUnder(s, o, w, a);
      }
    }
  }

  lemma ChildStays(s: Store, t: Store, d: nat, o: nat, v: Values, w: Values, todo: set<string>, k: string)
    requires Tree(s, Sub(d), Table(v)) && Tree(s, Sub(o), Table(w)) && Merging(s, t, d, o, v, w, todo)
    requires k in v && (k in todo || !Goes(s, d, o, v, w, k))
    ensures Same(s, t, s[d][k], v[k])
  {
    forall a | Reaches(s, s[d][k], v[k], a) ensures a in t && a in s && t[a] == s[a] {
      ReachesStored(s, s[d][k], v[k], a);
    }
  }

  /** What is found under a key before the two tables are merged. */
  ghost predicate Under(s: Store, d: nat, o: nat, v: Values, w: Values, k: string, a: nat)
    requires Tree(s, Sub(d), Table(v)) && Tree(s, Sub(o), Table(w))
  {
    (k in v && Reaches(s, s[d][k], v[k], a)) || (k in w && Reaches(s, s[o][k], w[k], a))
  }

  // Joined entries stay so while other tables change.
  lemma JoinedStays(s: Store, t: Store, u: Store, e: Entry, f: Entry, v: Value, w: Value)
    requires Tree(s, f, w) && Joined(s, t, e, f, v, w) && Same(s, t, f, w)
    requires forall a :: a in t && (Reaches(s, e, v, a) || Reaches(s, f, w, a)) ==> a in u && u[a] == t[a]
    ensures Joined(s, u, e, f, v, w)
  {
    Framed(s, t, f, w);
    forall a | Reaches(t, e, Merged(v, w), a) ensures a in u && a in t && u[a] == t[a] {
      ReachesStored(t, e, Merged(v, w), a);
    }
    Framed(t, u, e, Merged(v, w));
    WithinFramed(t, u, e, f, Merged(v, w), w);
  }

  lemma JoinedAtKey(s: Store, t: Store, d: nat, o: nat, v: Values, w: Values, k: string)
    requires Tree(s, Sub(d), Table(v)) && Tree(s, Sub(o), Table(w)) && Fits(s, d, o, v, w)
    requires Merging(s, t, d, o, v, w, {}) && (k in v || k in w)
    ensures
      var e := if k in w && !Both(v, w, k) then s[o][k] else s[d][k];
      && Tree(t, e, Merge(v, w)[k])
      && (forall a :: Reaches(t, e, Merge(v, w)[k], a) ==> Under(s, d, o, v, w, k, a))
  {
    hide Fits, Merge;
    MergeAt(v, w, k);
    if k in w && !Both(v, w, k) {
      SourceStays(s, t, d, o, v, w, {});
      Framed(s, t, s[o][k], w[k]);
    } else if k !in w {
      ChildStays(s, t, d, o, v, w, {}, k);
      Framed(s, t, s[d][k], v[k]);
    }
  }

  lemma UnderOneKey(s: Store, d: nat, o: nat, v: Values, w: Values, j: string, k: string, a: nat)
    requires Tree(s, Sub(d), Table(v)) && Tree(s, Sub(o), Table(w)) && Fits(s, d, o, v, w)
    requires Under(s, d, o, v, w, j, a) && Under(s, d, o, v, w, k, a)
    ensures j == k && a != d
  {
    hide Within;
  }

  lemma UnderEither(s: Store, d: nat, o: nat, v: Values, w: Values, k: string, a: nat)
    requires Tree(s, Sub(d), Table(v)) && Tree(s, Sub(o), Table(w)) && Under(s, d, o, v, w, k, a)
    ensures Reaches(s, Sub(d), Table(v), a) || Reaches(s, Sub(o), Table(w), a)
  {
  }

  // A row of trees is a tree if they have nothing in common.
  lemma RowIsTree(t: Store, d: nat, m: Values)
    requires d in t && t[d].Keys == m.Keys
    requires forall k :: k in m ==> Tree(t, t[d][k], m[k]) && !Reaches(t, t[d][k], m[k], d)
    requires forall j, k, a :: j in m && k in m && Reaches(t, t[d][j], m[j], a) && Reaches(t, t[d][k], m[k], a) ==>
      j == k
    ensures Tree(t, Sub(d), Table(m))
  {
  }

  lemma RowIsWithin(s: Store, t: Store, d: nat, o: nat, v: Values, w: Values)
    requires Tree(s, Sub(d), Table(v)) && Tree(s, Sub(o), Table(w))
    requires Merging(s, t, d, o, v, w, {}) && RowMerged(s, t, d, o, v, w, {}) && o in t && t[o] == s[o]
    ensures Within(t, Sub(d), Sub(o), Table(w))
  {
    hide Reaches;
    forall k | k in w ensures k in t[d] && Within(t, t[d][k], t[o][k], w[k]) {
      if Both(v, w, k) { assert Joined(s, t, s[d][k], s[o][k], v[k], w[k]); }
    }
  }

  /** When all keys are done, the first table stands for the merged value, and the second one is as before. */
  lemma AllJoined(s: Store, t: Store, d: nat, o: nat, v: Values, w: Values)
    requires Tree(s, Sub(d), Table(v)) && Tree(s, Sub(o), Table(w)) && Fits(s, d, o, v, w)
    requires Merging(s, t, d, o, v, w, {}) && RowMerged(s, t, d, o, v, w, {})
    ensures Joined(s, t, Sub(d), Sub(o), Table(v), Table(w)) && Same(s, t, Sub(o), Table(w))
  {
    hide Fits, Merging, Tree, Reaches, Within, Under, Both;
    RowOf(s, d, v);
    var m := Merge(v, w);
    assert Merged(Table(v), Table(w)) == Table(m) && m.Keys == v.Keys + w.Keys;
    hide Merge, Merged;
    SourceStays(s, t, d, o, v, w, {});
    assert o in t && t[o] == s[o] by { ItselfFound(s, o, w); }
    RowIsWithin(s, t, d, o, v, w);
    ItselfFound(s, d, v);
    forall k, a | k in m && Reaches(t, t[d][k], m[k], a) ensures Under(s, d, o, v, w, k, a) && a != d {
      JoinedAtKey(s, t, d, o, v, w, k);
      UnderOneKey(s, d, o, v, w, k, k, a);
    }
    forall k | k in m ensures Tree(t, t[d][k], m[k]) {
      JoinedAtKey(s, t, d, o, v, w, k);
    }
    forall j, k, a | j in m && k in m && Reaches(t, t[d][j], m[j], a) && Reaches(t, t[d][k], m[k], a) ensures j == k {
      UnderOneKey(s, d, o, v, w, j, k, a);
    }
    RowIsTree(t, d, m);
    forall a | Reaches(t, Sub(d), Table(m), a)
      ensures Reaches(s, Sub(d), Table(v), a) || Reaches(s, Sub(o), Table(w), a)
    {
      if a != d {
        var k := FoundUnder(t, d, m, a);
        UnderEither(s, d, o, v, w, k, a);
      }
    }
  }

  lemma ItselfFound(s: Store, d: nat, v: Values)
    ensures Reaches(s, Sub(d), Table(v), d)
  {
  }

  lemma StandsForMerged(s: Store, t: Store, d: nat, o: nat, v: Values, w: Values)
    requires Tree(s, Sub(d), Table(v)) && Tree(s, Sub(o), Table(w)) && Fits(s, d, o, v, w)
    requires Merging(s, t, d, o, v, w, {}) && RowMerged(s, t, d, o, v, w, {})
    ensures Tree(t, Sub(d), Table(Merge(v, w))) && Same(s, t, Sub(o), Table(w)) && t.Keys == s.Keys
  {
    AllJoined(s, t, d, o, v, w);
    assert Merged(Table(v), Table(w)) == Table(Merge(v, w));
  }

  // ----- One key -----

  /** Merged already: nothing changes. */
  lemma KeyWithin(s: Store, t: Store, d: nat, o: nat, v: Values, w: Values, todo: set<string>, k: string)
    requires Tree(s, Sub(d), Table(v)) && Tree(s, Sub(o), Table(w)) && Fits(s, d, o, v, w)
    requires Merging(s, t, d, o, v, w, todo) && k in todo && Both(v, w, k) && !Goes(s, d, o, v, w, k)
    ensures Merging(s, t, d, o, v, w, todo - {k})
  {
    hide Tree, Reaches, Within, Fits;
    RowOf(s, d, v);
    RowOf(s, o, w);
    assert Joined(s, t, s[d][k], s[o][k], v[k], w[k]) by {
      ChildStays(s, t, d, o, v, w, todo, k);
      SourceStays(s, t, d, o, v, w, todo);
      SameChild(s, t, o, w, k);
      Framed(s, t, s[d][k], v[k]);
      WithinFramed(s, t, s[d][k], s[o][k], v[k], w[k]);
      WithinSays(s, s[d][k], s[o][k], v[k], w[k]);
    }
  }

  lemma SameChild(s: Store, t: Store, o: nat, w: Values, k: string)
    requires Tree(s, Sub(o), Table(w)) && Same(s, t, Sub(o), Table(w)) && k in w
    ensures Same(s, t, s[o][k], w[k])
  {
    hide Tree, Reaches;
    RowOf(s, o, w);
    forall a | Reaches(s, s[o][k], w[k], a) ensures a in t && a in s && t[a] == s[a] { ChildFound(s, o, w, k, a); }
  }

  /** No two tables: the row of d changes and nothing else. */
  lemma KeyReplaced(s: Store, t: Store, u: Store, d: nat, o: nat, v: Values, w: Values, todo: set<string>, k: string)
    requires Tree(s, Sub(d), Table(v)) && Tree(s, Sub(o), Table(w)) && Fits(s, d, o, v, w)
    requires Merging(s, t, d, o, v, w, todo) && k in todo && !Both(v, w, k)
    requires d in t && u.Keys == t.Keys && forall a :: a in t && a != d ==> u[a] == t[a]
    ensures Merging(s, u, d, o, v, w, todo - {k})
  {
    hide Tree, Reaches, Within, Fits;
    RowOf(s, d, v);
    RowOf(s, o, w);
    SourceStays(s, t, d, o, v, w, todo);
    forall a | a in s && a != d && u[a] != s[a] ensures Changed(s, d, o, v, w, todo - {k}, a) {
      assert Changed(s, d, o, v, w, todo, a);
      var j :| j !in todo && Goes(s, d, o, v, w, j) && Reaches(s, s[d][j], v[j], a);
    }
    forall j | Both(v, w, j) && j !in todo - {k} ensures Joined(s, u, s[d][j], s[o][j], v[j], w[j]) {
      SameChild(s, t, o, w, j);
      forall a | a in t && (Reaches(s, s[d][j], v[j], a) || Reaches(s, s[o][j], w[j], a)) ensures a != d {
        UnderOneKey(s, d, o, v, w, j, j, a);
      }
      JoinedStays(s, t, u, s[d][j], s[o][j], v[j], w[j]);
    }
  }

  /** Two tables that have nothing in common fit. */
  lemma ApartFits(s: Store, d: nat, o: nat, v: Values, w: Values)
    requires Tree(s, Sub(d), Table(v)) && Tree(s, Sub(o), Table(w))
    requires forall a :: Reaches(s, Sub(d), Table(v), a) ==> !Reaches(s, Sub(o), Table(w), a)
    ensures Fits(s, d, o, v, w)
  {
    hide Within, Tree, Reaches;
    RowOf(s, d, v);
    RowOf(s, o, w);
    ItselfFound(s, d, v);
    ItselfFound(s, o, w);
    forall j, k, a | j in v && k in w && Reaches(s, s[d][j], v[j], a) ensures !Reaches(s, s[o][k], w[k], a) {
      ChildFound(s, d, v, j, a);
      if Reaches(s, s[o][k], w[k], a) { ChildFound(s, o, w, k, a); }
    }
  }

  /** Before two tables of a key are merged, they are as in the beginning. */
  lemma KeyReady(s: Store, t: Store, d: nat, o: nat, v: Values, w: Values, todo: set<string>, k: string)
    requires Tree(s, Sub(d), Table(v)) && Tree(s, Sub(o), Table(w)) && Fits(s, d, o, v, w)
    requires Merging(s, t, d, o, v, w, todo) && k in todo && Both(v, w, k)
    ensures Same(s, t, s[d][k], v[k]) && Same(s, t, s[o][k], w[k])
    ensures Tree(t, s[d][k], v[k]) && Tree(t, s[o][k], w[k])
    ensures Goes(s, d, o, v, w, k) ==> Fits(t, s[d][k].table, s[o][k].table, v[k].entries, w[k].entries)
    ensures !Goes(s, d, o, v, w, k) ==> Within(t, s[d][k], s[o][k], w[k])
  {
    hide Tree, Reaches, Within, Fits;
    RowOf(s, d, v);
    RowOf(s, o, w);
    ChildStays(s, t, d, o, v, w, todo, k);
    SourceStays(s, t, d, o, v, w, todo);
    SameChild(s, t, o, w, k);
    Framed(s, t, s[d][k], v[k]);
    Framed(s, t, s[o][k], w[k]);
    SubOf(s, s[d][k], v[k]);
    SubOf(s, s[o][k], w[k]);
    if Goes(s, d, o, v, w, k) {
      forall a | Reaches(t, s[d][k], v[k], a) ensures !Reaches(t, s[o][k], w[k], a) {
        if Reaches(s, s[o][k], w[k], a) { CommonIsWithin(s, d, o, v, w, k, a); }
      }
      ApartFits(t, s[d][k].table, s[o][k].table, v[k].entries, w[k].entries);
    } else {
      WithinFramed(s, t, s[d][k], s[o][k], v[k], w[k]);
    }
  }

  lemma SubOf(s: Store, e: Entry, v: Value)
    requires Tree(s, e, v) && v.Table?
    ensures e.Sub?
  {
  }

  lemma CommonIsWithin(s: Store, d: nat, o: nat, v: Values, w: Values, k: string, a: nat)
    requires Tree(s, Sub(d), Table(v)) && Tree(s, Sub(o), Table(w)) && Fits(s, d, o, v, w)
    requires k in v && k in w && Reaches(s, s[d][k], v[k], a) && Reaches(s, s[o][k], w[k], a)
    ensures Within(s, s[d][k], s[o][k], w[k])
  {
    hide Within, Reaches, Tree;
  }

  lemma ChangedIsFound(s: Store, t: Store, d: nat, o: nat, v: Values, w: Values, a: nat)
    requires Tree(s, Sub(d), Table(v)) && Tree(s, Sub(o), Table(w)) && Merging(s, t, d, o, v, w, {})
    requires a in s && t[a] != s[a]
    ensures Reaches(s, Sub(d), Table(v), a)
  {
    hide Tree, Reaches, Within;
    RowOf(s, d, v);
    ItselfFound(s, d, v);
    if a != d {
      assert Changed(s, d, o, v, w, {}, a);
      var k :| Goes(s, d, o, v, w, k) && Reaches(s, s[d][k], v[k], a);
      ChildFound(s, d, v, k, a);
    }
  }

  /** Two tables are merged: everything outside of them stays. */
  lemma KeyMerged(s: Store, t: Store, u: Store, d: nat, o: nat, v: Values, w: Values, todo: set<string>, k: string)
    requires Tree(s, Sub(d), Table(v)) && Tree(s, Sub(o), Table(w)) && Fits(s, d, o, v, w)
    requires Merging(s, t, d, o, v, w, todo) && k in todo && Goes(s, d, o, v, w, k)
    requires s[d][k].Sub? && s[o][k].Sub?
    requires Tree(t, s[d][k], v[k]) && Tree(t, s[o][k], w[k])
    requires Merging(t, u, s[d][k].table, s[o][k].table, v[k].entries, w[k].entries, {})
    requires RowMerged(t, u, s[d][k].table, s[o][k].table, v[k].entries, w[k].entries, {})
    ensures d in t && d in u && u[d] == t[d]
    ensures Merging(s, u, d, o, v, w, todo - {k})
  {
    hide Tree, Reaches, Within, Fits, RowMerged;
    RowOf(s, d, v);
    RowOf(s, o, w);
    KeyReady(s, t, d, o, v, w, todo, k);
    AllJoined(t, u, s[d][k].table, s[o][k].table, v[k].entries, w[k].entries);
    Framed(s, t, s[d][k], v[k]);
    Framed(s, t, s[o][k], w[k]);
    forall a | a in s && u[a] != t[a] ensures Reaches(s, s[d][k], v[k], a) && a != d {
      ChangedIsFound(t, u, s[d][k].table, s[o][k].table, v[k].entries, w[k].entries, a);
      ChildFound(s, d, v, k, a);
    }
    forall a | a in s && a != d && u[a] != s[a] ensures Changed(s, d, o, v, w, todo - {k}, a) {
      if t[a] != s[a] {
        assert Changed(s, d, o, v, w, todo, a);
        var j :| j !in todo && Goes(s, d, o, v, w, j) && Reaches(s, s[d][j], v[j], a);
      }
    }
    SourceStays(s, t, d, o, v, w, todo);
    forall j | Both(v, w, j) && j !in todo ensures Joined(s, u, s[d][j], s[o][j], v[j], w[j]) {
      SameChild(s, t, o, w, j);
      forall a | a in t && (Reaches(s, s[d][j], v[j], a) || Reaches(s, s[o][j], w[j], a)) ensures u[a] == t[a] {
        if Reaches(s, s[d][j], v[j], a) {
          ReachesStored(s, s[d][j], v[j], a);
        } else {
          ReachesStored(s, s[o][j], w[j], a);
        }
        if u[a] != t[a] { UnderOneKey(s, d, o, v, w, j, k, a); }
      }
      JoinedStays(s, t, u, s[d][j], s[o][j], v[j], w[j]);
    }
  }

  // ----- The loop -----

  /** While the keys of the second table are gone through: without effect if it was merged before, else all but those to
      do are merged. */
  ghost predicate Progress(s: Store, t: Store, d: nat, o: nat, v: Values, w: Values, todo: set<string>)
    requires Tree(s, Sub(d), Table(v)) && Tree(s, Sub(o), Table(w))
  {
    && (Within(s, Sub(d), Sub(o), Table(w)) ==> t == s)
    && (Fits(s, d, o, v, w) ==> Merging(s, t, d, o, v, w, todo) && RowMerged(s, t, d, o, v, w, todo))
    && (Within(s, Sub(d), Sub(o), Table(w)) || Fits(s, d, o, v, w))
    && todo <= w.Keys
  }

  lemma Starts(s: Store, d: nat, o: nat, v: Values, w: Values)
    requires Tree(s, Sub(d), Table(v)) && Tree(s, Sub(o), Table(w))
    requires Fits(s, d, o, v, w) || Within(s, Sub(d), Sub(o), Table(w))
    ensures Progress(s, s, d, o, v, w, w.Keys)
  {
    hide Tree, Reaches, Within, Fits;
    RowOf(s, d, v);
  }

  lemma WithinAtKey(s: Store, d: nat, o: nat, w: Values, k: string)
    requires Within(s, Sub(d), Sub(o), Table(w)) && k in w && o in s && k in s[o]
    ensures d in s && k in s[d] && Within(s, s[d][k], s[o][k], w[k])
  {
  }

  lemma PlainOf(s: Store, e: Entry, v: Value)
    requires Tree(s, e, v)
    ensures e.Sub? <==> v.Table?
  {
  }

  lemma WithinPlain(s: Store, e: Entry, f: Entry, v: Value, w: Value)
    requires Within(s, e, f, w) && Tree(s, e, v) && Tree(s, f, w) && !(v.Table? && w.Table?)
    ensures e == f
  {
  }

  /** What is found under a key that is still to do. */
  lemma AtKey(s: Store, t: Store, d: nat, o: nat, v: Values, w: Values, todo: set<string>, k: string)
    requires Tree(s, Sub(d), Table(v)) && Tree(s, Sub(o), Table(w)) && Progress(s, t, d, o, v, w, todo) && k in todo
    ensures d in s && o in s && d in t && o in t && t[o] == s[o] && k in t[o]
    ensures k in t[d] <==> k in v
    ensures k in v ==> k in s[d] && t[d][k] == s[d][k] && (s[d][k].Sub? <==> v[k].Table?)
    ensures s[o][k].Sub? <==> w[k].Table?
    ensures Both(v, w, k) ==> Tree(t, s[d][k], v[k]) && Tree(t, s[o][k], w[k])
    ensures Both(v, w, k) ==>
      || Fits(t, s[d][k].table, s[o][k].table, v[k].entries, w[k].entries)
      || Within(t, s[d][k], s[o][k], w[k])
  {
    hide Tree, Reaches, Within, Fits, Merging;
    RowOf(s, d, v);
    RowOf(s, o, w);
    PlainOf(s, s[o][k], w[k]);
    if k in v { PlainOf(s, s[d][k], v[k]); }
    if Fits(s, d, o, v, w) {
      SourceStays(s, t, d, o, v, w, todo);
      ItselfFound(s, o, w);
      if Both(v, w, k) { KeyReady(s, t, d, o, v, w, todo, k); }
    } else {
      WithinAtKey(s, d, o, w, k);
    }
  }

  lemma KeyDone(s: Store, t: Store, u: Store, d: nat, o: nat, v: Values, w: Values, todo: set<string>, k: string)
    requires Tree(s, Sub(d), Table(v)) && Tree(s, Sub(o), Table(w)) && Progress(s, t, d, o, v, w, todo)
    requires k in todo && Both(v, w, k) && s[d][k].Sub? && s[o][k].Sub? && Tree(t, s[d][k], v[k])
    requires Tree(t, s[o][k], w[k])
    requires Within(t, s[d][k], s[o][k], w[k]) ==> u == t
    requires Fits(t, s[d][k].table, s[o][k].table, v[k].entries, w[k].entries) ==>
      && Merging(t, u, s[d][k].table, s[o][k].table, v[k].entries, w[k].entries, {})
      && RowMerged(t, u, s[d][k].table, s[o][k].table, v[k].entries, w[k].entries, {})
    ensures Progress(s, u, d, o, v, w, todo - {k})
  {
    hide Tree, Reaches, Within, Fits, Merging;
    RowOf(s, d, v);
    RowOf(s, o, w);
    if Within(s, Sub(d), Sub(o), Table(w)) {
      WithinAtKey(s, d, o, w, k);
    }
    if Fits(s, d, o, v, w) {
      KeyReady(s, t, d, o, v, w, todo, k);
      if Goes(s, d, o, v, w, k) {
        KeyMerged(s, t, u, d, o, v, w, todo, k);
      } else {
        KeyWithin(s, t, d, o, v, w, todo, k);
      }
    }
  }

  lemma KeySet(s: Store, t: Store, d: nat, o: nat, v: Values, w: Values, todo: set<string>, k: string)
    requires Tree(s, Sub(d), Table(v)) && Tree(s, Sub(o), Table(w)) && Progress(s, t, d, o, v, w, todo)
    requires k in todo && !Both(v, w, k) && d in t && o in t && k in t[o]
    ensures Progress(s, t[d := t[d][k := t[o][k]]], d, o, v, w, todo - {k})
  {
    hide Tree, Reaches, Within, Fits, Merging;
    RowOf(s, d, v);
    RowOf(s, o, w);
    AtKey(s, t, d, o, v, w, todo, k);
    var u := t[d := t[d][k := t[o][k]]];
    if Within(s, Sub(d), Sub(o), Table(w)) {
      WithinAtKey(s, d, o, w, k);
      WithinPlain(s, s[d][k], s[o][k], v[k], w[k]);
      assert t[d][k := t[o][k]] == t[d];
    }
    if Fits(s, d, o, v, w) {
      KeyReplaced(s, t, u, d, o, v, w, todo, k);
    }
  }

  // ----- An assignment's values -----

  // The base values b are copied to a new row; what is merged into that goes into the tables of the base values.

  /** The base values when another table has been merged into a copy of their row. */
  ghost predicate UnderBase(s: Store, b: nat, o: nat, v: Values, w: Values, k: string, a: nat)
    requires Tree(s, Sub(b), Table(v)) && Tree(s, Sub(o), Table(w)) && k in v
  {
    Reaches(s, s[b][k], v[k], a) || (Both(v, w, k) && Reaches(s, s[o][k], w[k], a))
  }

  lemma BaseAtKey(s: Store, t: Store, b: nat, o: nat, v: Values, w: Values, k: string)
    requires Tree(s, Sub(b), Table(v)) && Tree(s, Sub(o), Table(w)) && Fits(s, b, o, v, w)
    requires Merging(s, t, b, o, v, w, {}) && k in v
    ensures Tree(t, s[b][k], Absorbed(v, w)[k])
    ensures forall a :: Reaches(t, s[b][k], Absorbed(v, w)[k], a) ==> UnderBase(s, b, o, v, w, k, a)
  {
    hide Fits, Tree, Reaches, Within;
    RowOf(s, b, v);
    RowOf(s, o, w);
    if !Both(v, w, k) {
      ChildStays(s, t, b, o, v, w, {}, k);
      Framed(s, t, s[b][k], v[k]);
    }
  }

  /** The base values take in what is merged, and the two still fit. */
  lemma BaseAbsorbs(s: Store, t: Store, b: nat, o: nat, v: Values, w: Values)
    requires Tree(s, Sub(b), Table(v)) && Tree(s, Sub(o), Table(w)) && Fits(s, b, o, v, w)
    requires Merging(s, t, b, o, v, w, {}) && b in t && t[b] == s[b]
    ensures Tree(t, Sub(b), Table(Absorbed(v, w))) && Tree(t, Sub(o), Table(w)) && Fits(t, b, o, Absorbed(v, w), w)
    ensures forall a :: Reaches(t, Sub(b), Table(Absorbed(v, w)), a) ==>
      a == b || exists k :: k in v && UnderBase(s, b, o, v, w, k, a)
  {
    hide Fits, Tree, Reaches, Within, Merging, Absorbed, Under, UnderBase;
    var m := Absorbed(v, w);
    AbsorbedKeys(v, w);
    RowOf(s, b, v);
    RowOf(s, o, w);
    forall k, a | k in v && Reaches(t, t[b][k], m[k], a)
      ensures UnderBase(s, b, o, v, w, k, a) && Under(s, b, o, v, w, k, a) && a != b
    {
      BaseAtKey(s, t, b, o, v, w, k);
      BaseIsUnder(s, b, o, v, w, k, a);
      UnderOneKey(s, b, o, v, w, k, k, a);
    }
    forall k | k in v ensures Tree(t, t[b][k], m[k]) { BaseAtKey(s, t, b, o, v, w, k); }
    forall j, k, a | j in m && k in m && Reaches(t, t[b][j], m[j], a) && Reaches(t, t[b][k], m[k], a) ensures j == k {
      UnderOneKey(s, b, o, v, w, j, k, a);
    }
    RowIsTree(t, b, m);
    forall a | Reaches(t, Sub(b), Table(m), a) ensures a == b || exists k :: k in v && UnderBase(s, b, o, v, w, k, a) {
      if a != b { var k := FoundUnder(t, b, m, a); }
    }
    SourceStays(s, t, b, o, v, w, {});
    Framed(s, t, Sub(o), Table(w));
    StillFits(s, t, b, o, v, w);
  }

  lemma AbsorbedKeys(v: Values, w: Values)
    ensures Absorbed(v, w).Keys == v.Keys
  {
  }

  lemma BaseIsUnder(s: Store, b: nat, o: nat, v: Values, w: Values, k: string, a: nat)
    requires Tree(s, Sub(b), Table(v)) && Tree(s, Sub(o), Table(w)) && k in v && UnderBase(s, b, o, v, w, k, a)
    ensures Under(s, b, o, v, w, k, a)
  {
  }

  lemma StillFits(s: Store, t: Store, b: nat, o: nat, v: Values, w: Values)
    requires Tree(s, Sub(b), Table(v)) && Tree(s, Sub(o), Table(w)) && Fits(s, b, o, v, w)
    requires Merging(s, t, b, o, v, w, {}) && b in t && t[b] == s[b]
    requires Tree(t, Sub(b), Table(Absorbed(v, w))) && Tree(t, Sub(o), Table(w)) && Same(s, t, Sub(o), Table(w))
    ensures Fits(t, b, o, Absorbed(v, w), w)
  {
    hide Tree, Reaches, Within, Merging;
    var m := Absorbed(v, w);
    AbsorbedKeys(v, w);
    RowOf(s, b, v);
    RowOf(s, o, w);
    Framed(s, t, Sub(o), Table(w));
    ItselfFound(s, o, w);
    assert !Reaches(t, Sub(b), Table(m), o) by {
      if Reaches(t, Sub(b), Table(m), o) {
        ItselfFound(t, b, m);
        var k := FoundUnder(t, b, m, o);
        BaseAtKey(s, t, b, o, v, w, k);
        if Reaches(s, s[b][k], v[k], o) { ChildFound(s, b, v, k, o); } else { ChildFound(s, o, w, k, o); }
      }
    }
    forall j, k, a | j in m && k in w && Reaches(t, t[b][j], m[j], a) && Reaches(t, t[o][k], w[k], a)
      ensures j == k && Within(t, t[b][k], t[o][k], w[k])
    {
      BaseAtKey(s, t, b, o, v, w, j);
      SameChild(s, t, o, w, k);
      Framed(s, t, s[o][k], w[k]);
      BaseIsUnder(s, b, o, v, w, j, a);
      UnderOneKey(s, b, o, v, w, j, k, a);
      CommonIsBoth(t, t[b][k], t[o][k], m[k], w[k], a);
      JoinedWithin(s, t, b, o, v, w, k);
    }
  }

  lemma CommonIsBoth(s: Store, e: Entry, f: Entry, v: Value, w: Value, a: nat)
    requires Reaches(s, e, v, a) && Reaches(s, f, w, a)
    ensures v.Table? && w.Table?
  {
  }

  lemma JoinedWithin(s: Store, t: Store, b: nat, o: nat, v: Values, w: Values, k: string)
    requires Tree(s, Sub(b), Table(v)) && Tree(s, Sub(o), Table(w)) && Merging(s, t, b, o, v, w, {})
    requires k in v && k in w && Absorbed(v, w)[k].Table? && w[k].Table?
    ensures Within(t, s[b][k], s[o][k], w[k])
  {
    hide Tree, Reaches, Within;
    RowOf(s, b, v);
    RowOf(s, o, w);
    assert Both(v, w, k);
  }

  // ----- The operations -----

  class Tables {
    var store: Store

    constructor ()
      ensures store == map[]
    {
      store := map[];
    }

    /** A new table at an address that is not in use. */
    method New(row: Row) returns (a: nat)
      modifies this
      ensures a !in old(store) && store == old(store)[a := row]
    {
      a := 0;
      var left := store.Keys;
      while a in store
        invariant forall b :: b in store && b >= a ==> b in left
        decreases left
      {
        left := left - {a};
        a := a + 1;
      }
      store := store[a := row];
    }

    /** MergeInto: the table o into the table d. */
    method MergeInto(d: nat, o: nat, ghost v: Values, ghost w: Values)
      requires Tree(store, Sub(d), Table(v)) && Tree(store, Sub(o), Table(w))
      requires Fits(store, d, o, v, w) || Within(store, Sub(d), Sub(o), Table(w))
      modifies this
      ensures old(Within(store, Sub(d), Sub(o), Table(w))) ==> store == old(store)
      ensures old(Fits(store, d, o, v, w)) ==>
        && Tree(store, Sub(d), Table(Merge(v, w))) && Same(old(store), store, Sub(o), Table(w))
        && Merging(old(store), store, d, o, v, w, {}) && RowMerged(old(store), store, d, o, v, w, {})
      decreases Table(w)
    {
      hide Tree, Reaches, Within, Fits, Merging, RowMerged;
      ghost var s := store;
      RowOf(s, o, w);
      Starts(s, d, o, v, w);
      var todo := store[o].Keys;
      while todo != {}
        invariant Progress(s, store, d, o, v, w, todo)
        decreases todo
      {
        var k :| k in todo;
        ghost var t := store;
        AtKey(s, t, d, o, v, w, todo, k);
        if k in store[d] && store[d][k].Sub? && store[o][k].Sub? {
          MergeInto(store[d][k].table, store[o][k].table, v[k].entries, w[k].entries);
          KeyDone(s, t, store, d, o, v, w, todo, k);
        } else {
          KeySet(s, t, d, o, v, w, todo, k);
          store := store[d := store[d][k := store[o][k]]];
        }
        todo := todo - {k};
      }
      if Fits(s, d, o, v, w) { StandsForMerged(s, store, d, o, v, w); }
    }
  }
}
