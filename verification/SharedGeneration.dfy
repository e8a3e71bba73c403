/** Assignments that are built one after the other on shared tables: what each of them says when all are built. */
module SharedGeneration {
  import opened AppRollout
  import opened ValueMerges
  import opened SharedTables
  import opened SharedValues

  ghost predicate Apart(s: Store, d: nat, o: nat, v: Values, w: Values) {
    forall a :: Reaches(s, Sub(d), Table(v), a) ==> !Reaches(s, Sub(o), Table(w), a)
  }

  /** The base values and the values of the entries, each decoded by itself. One entry can be there several times, one
      after the other. */
  ghost predicate Decoded(s: Store, b: nat, owns: seq<nat>, v: Values, layers: seq<Layer>) {
    && |owns| == |layers| && Tree(s, Sub(b), Table(v))
    && (forall i :: 0 <= i < |layers| ==>
          Tree(s, Sub(owns[i]), Table(layers[i].own)) && Apart(s, b, owns[i], v, layers[i].own))
    && (forall i, j :: 0 <= i < |layers| && 0 <= j < |layers| && owns[i] != owns[j] ==>
          Apart(s, owns[i], owns[j], layers[i].own, layers[j].own))
    && (forall i :: 0 <= i < |layers| ==> NoTables(layers[i].extra))
    && InTurn(owns)
  }

  /** Equal ones stand next to each other. */
  ghost predicate InTurn(owns: seq<nat>) {
    forall i, j, k :: 0 <= i < j < k < |owns| && owns[i] == owns[k] ==> owns[j] == owns[i]
  }

  /** A table that can have come to be in the base values: one that was there, or one of the first assignments' own. */
  ghost predicate InBase(s: Store, b: nat, owns: seq<nat>, v: Values, layers: seq<Layer>, n: nat, a: nat)
    requires Decoded(s, b, owns, v, layers)
  {
    || Reaches(s, Sub(b), Table(v), a)
    || exists i, k :: 0 <= i < n <= |layers| && Both(v, layers[i].own, k)
                      && Reaches(s, s[owns[i]][k], layers[i].own[k], a)
  }

  /** The state after building the first assignments. */
  ghost predicate Built(s: Store, t: Store, b: nat, owns: seq<nat>, v: Values, layers: seq<Layer>, vals: seq<nat>)
    requires Decoded(s, b, owns, v, layers)
  {
    var n := |vals|;
    && n <= |layers| && b in s && b in t && t[b] == s[b]
    && Tree(t, Sub(b), Table(AfterAll(v, layers[..n])))
    && (forall a :: Reaches(t, Sub(b), Table(AfterAll(v, layers[..n])), a) ==> InBase(s, b, owns, v, layers, n, a))
    && (forall a :: a in s ==> a in t && (t[a] != s[a] ==> InBase(s, b, owns, v, layers, n, a)))
    && (forall i :: 0 <= i < n ==>
          && vals[i] !in s && vals[i] in t && owns[i] in s && s[b].Keys == v.Keys
             && s[owns[i]].Keys == layers[i].own.Keys
          && t[vals[i]] == LayeredRow(s, b, owns[i], v, layers[i]))
    && (n > 0 ==> LastFits(s, t, b, owns, v, layers, n))
  }

  /** The last values merged are as they were, and can be merged once more. */
  ghost predicate LastFits(s: Store, t: Store, b: nat, owns: seq<nat>, v: Values, layers: seq<Layer>, n: nat)
    requires 0 < n <= |layers| && |owns| == |layers|
  {
    && Same(s, t, Sub(owns[n - 1]), Table(layers[n - 1].own))
    && Tree(t, Sub(b), Table(AfterAll(v, layers[..n]))) && Tree(t, Sub(owns[n - 1]), Table(layers[n - 1].own))
    && Fits(t, b, owns[n - 1], AfterAll(v, layers[..n]), layers[n - 1].own)
  }

  lemma Entries(s: Store, b: nat, owns: seq<nat>, v: Values, layers: seq<Layer>, i: nat)
    requires Decoded(s, b, owns, v, layers) && i < |layers|
    ensures Tree(s, Sub(b), Table(v)) && b in s && s[b].Keys == v.Keys
    ensures Tree(s, Sub(owns[i]), Table(layers[i].own)) && owns[i] in s && s[owns[i]].Keys == layers[i].own.Keys
    ensures NoTables(layers[i].extra)
  {
    hide Tree, NoTables, Apart, InTurn;
    RowOf(s, b, v);
    RowOf(s, owns[i], layers[i].own);
  }

  lemma WhereInBase(s: Store, b: nat, owns: seq<nat>, v: Values, layers: seq<Layer>, n: nat, a: nat)
    returns (i: nat, k: string)
    requires Decoded(s, b, owns, v, layers) && InBase(s, b, owns, v, layers, n, a) && !Reaches(s, Sub(b), Table(v), a)
    ensures i < n <= |layers| && Both(v, layers[i].own, k) && owns[i] in s && k in s[owns[i]]
    ensures Reaches(s, s[owns[i]][k], layers[i].own[k], a)
  {
    hide Reaches, Apart, InTurn, NoTables;
    i, k :| 0 <= i < n <= |layers| && Both(v, layers[i].own, k) && Reaches(s, s[owns[i]][k], layers[i].own[k], a);
  }

  lemma NotUsed(owns: seq<nat>, n: nat)
    requires InTurn(owns) && n < |owns| && (n > 0 ==> owns[n - 1] != owns[n])
    ensures owns[n] !in owns[..n]
  {
  }

  lemma InBaseStored(s: Store, b: nat, owns: seq<nat>, v: Values, layers: seq<Layer>, n: nat, a: nat)
    requires Decoded(s, b, owns, v, layers) && InBase(s, b, owns, v, layers, n, a)
    ensures a in s
  {
    hide Tree, Reaches, Apart, InTurn, NoTables;
    if Reaches(s, Sub(b), Table(v), a) {
      ReachesStored(s, Sub(b), Table(v), a);
    } else {
      var i, k := WhereInBase(s, b, owns, v, layers, n, a);
      Entries(s, b, owns, v, layers, i);
      ChildFound(s, owns[i], layers[i].own, k, a);
    }
  }

  // Values that were not merged yet have nothing in common with the base values.
  lemma UnusedIsApart(s: Store, b: nat, owns: seq<nat>, v: Values, layers: seq<Layer>, n: nat, a: nat)
    requires Decoded(s, b, owns, v, layers) && n < |layers| && owns[n] !in owns[..n]
    requires Reaches(s, Sub(owns[n]), Table(layers[n].own), a)
    ensures !InBase(s, b, owns, v, layers, n, a)
  {
    hide Tree, Reaches, InTurn, NoTables;
    forall i | 0 <= i < n ensures owns[i] != owns[n] { assert owns[..n][i] == owns[i]; }
    if InBase(s, b, owns, v, layers, n, a) && !Reaches(s, Sub(b), Table(v), a) {
      var i, k := WhereInBase(s, b, owns, v, layers, n, a);
      Entries(s, b, owns, v, layers, i);
      ChildFound(s, owns[i], layers[i].own, k, a);
    }
  }

  // What is not merged into the base values never gets there.
  lemma NeverInBase(s: Store, b: nat, owns: seq<nat>, v: Values, layers: seq<Layer>, n: nat, i: nat, k: string, a: nat)
    requires Decoded(s, b, owns, v, layers) && i < |layers|
    requires k in layers[i].own && !Both(v, layers[i].own, k) && owns[i] in s && k in s[owns[i]]
    requires Reaches(s, s[owns[i]][k], layers[i].own[k], a)
    ensures !InBase(s, b, owns, v, layers, n, a)
  {
    hide Tree, Reaches, InTurn, NoTables;
    Entries(s, b, owns, v, layers, i);
    ChildFound(s, owns[i], layers[i].own, k, a);
    if InBase(s, b, owns, v, layers, n, a) {
      assert !Reaches(s, Sub(b), Table(v), a) by { assert Apart(s, b, owns[i], v, layers[i].own); }
      var j, h := WhereInBase(s, b, owns, v, layers, n, a);
      Entries(s, b, owns, v, layers, j);
      ChildFound(s, owns[j], layers[j].own, h, a);
      if owns[i] == owns[j] {
        OneValue(s, Sub(owns[i]), Table(layers[i].own), Table(layers[j].own));
        TwoKeys(s, owns[i], layers[i].own, k, h, a);
      }
    }
  }

  // The next values are as they were, and fit.
  lemma NextFits(s: Store, t: Store, b: nat, owns: seq<nat>, v: Values, layers: seq<Layer>, vals: seq<nat>)
    requires Decoded(s, b, owns, v, layers) && Built(s, t, b, owns, v, layers, vals) && |vals| < |layers|
    ensures
      var n, w := |vals|, layers[|vals|].own;
      && Tree(t, Sub(b), Table(AfterAll(v, layers[..n]))) && Tree(t, Sub(owns[n]), Table(w))
      && Same(s, t, Sub(owns[n]), Table(w)) && Fits(t, b, owns[n], AfterAll(v, layers[..n]), w)
  {
    hide Tree, Reaches, Fits, NoTables, AfterAll, Apart, InBase;
    var n, w := |vals|, layers[|vals|].own;
    Entries(s, b, owns, v, layers, n);
    if n > 0 && owns[n - 1] == owns[n] {
      Entries(s, b, owns, v, layers, n - 1);
      OneValue(s, Sub(owns[n]), Table(w), Table(layers[n - 1].own));
    } else {
      NotUsed(owns, n);
      forall a | Reaches(s, Sub(owns[n]), Table(w), a) ensures a in s && a in t && t[a] == s[a] {
        ReachesStored(s, Sub(owns[n]), Table(w), a);
        UnusedIsApart(s, b, owns, v, layers, n, a);
      }
      Framed(s, t, Sub(owns[n]), Table(w));
      forall a | Reaches(t, Sub(b), Table(AfterAll(v, layers[..n])), a) ensures !Reaches(t, Sub(owns[n]), Table(w), a) {
        if Reaches(s, Sub(owns[n]), Table(w), a) { UnusedIsApart(s, b, owns, v, layers, n, a); }
      }
      ApartFits(t, b, owns[n], AfterAll(v, layers[..n]), w);
    }
  }

  lemma AfterOneMore(v: Values, layers: seq<Layer>, n: nat)
    requires n < |layers|
    ensures AfterAll(v, layers[..n + 1]) == Absorbed(AfterAll(v, layers[..n]), layers[n].own)
    ensures AfterAll(v, layers[..n]).Keys == v.Keys
    ensures forall k :: Both(AfterAll(v, layers[..n]), layers[n].own, k) <==> Both(v, layers[n].own, k)
  {
    AfterAllKeys(v, layers[..n]);
    assert layers[..n + 1][..n] == layers[..n];
  }

  lemma InBaseGrows(s: Store, b: nat, owns: seq<nat>, v: Values, layers: seq<Layer>, n: nat, a: nat)
    requires Decoded(s, b, owns, v, layers) && n < |layers| && InBase(s, b, owns, v, layers, n, a)
    ensures InBase(s, b, owns, v, layers, n + 1, a)
  {
    hide Tree, Reaches, Apart, InTurn, NoTables;
    if !Reaches(s, Sub(b), Table(v), a) {
      var i, k := WhereInBase(s, b, owns, v, layers, n, a);
      assert 0 <= i < n + 1;
    }
  }

  lemma BaseInBase(s: Store, b: nat, owns: seq<nat>, v: Values, layers: seq<Layer>, n: nat, a: nat)
    requires Decoded(s, b, owns, v, layers) && Reaches(s, Sub(b), Table(v), a)
    ensures InBase(s, b, owns, v, layers, n, a)
  {
    hide Tree, Reaches, Apart, InTurn, NoTables;
  }

  // What is under the base values now was there before, or is under the values just merged.
  lemma NowInBase(s: Store, t: Store, b: nat, owns: seq<nat>, v: Values, layers: seq<Layer>, n: nat, base: Values,
                  k: string, a: nat)
    requires Decoded(s, b, owns, v, layers) && n < |layers| && k in base
    requires Tree(t, Sub(b), Table(base)) && Tree(t, Sub(owns[n]), Table(layers[n].own))
    requires forall c :: Reaches(t, Sub(b), Table(base), c) ==> InBase(s, b, owns, v, layers, n, c)
    requires Same(s, t, Sub(owns[n]), Table(layers[n].own))
    requires Both(base, layers[n].own, k) <==> Both(v, layers[n].own, k)
    requires UnderBase(t, b, owns[n], base, layers[n].own, k, a)
    ensures InBase(s, b, owns, v, layers, n + 1, a)
  {
    hide Tree, Reaches, Apart, InTurn, NoTables;
    RowOf(t, b, base);
    if Reaches(t, t[b][k], base[k], a) {
      ChildFound(t, b, base, k, a);
      InBaseGrows(s, b, owns, v, layers, n, a);
    } else {
      Entries(s, b, owns, v, layers, n);
      ItselfFound(s, owns[n], layers[n].own);
      SameChild(s, t, owns[n], layers[n].own, k);
      RowOf(s, owns[n], layers[n].own);
      Framed(s, t, s[owns[n]][k], layers[n].own[k]);
      assert Reaches(s, s[owns[n]][k], layers[n].own[k], a) && n < n + 1;
    }
  }

  lemma NextInBase(s: Store, t: Store, b: nat, owns: seq<nat>, v: Values, layers: seq<Layer>, n: nat, base: Values,
                   a: nat)
    requires Decoded(s, b, owns, v, layers) && n < |layers|
    requires Tree(t, Sub(b), Table(base)) && Tree(t, Sub(owns[n]), Table(layers[n].own))
    requires forall c :: Reaches(t, Sub(b), Table(base), c) ==> InBase(s, b, owns, v, layers, n, c)
    requires Same(s, t, Sub(owns[n]), Table(layers[n].own))
    requires forall k :: Both(base, layers[n].own, k) <==> Both(v, layers[n].own, k)
    requires a == b || exists k :: k in base && UnderBase(t, b, owns[n], base, layers[n].own, k, a)
    ensures InBase(s, b, owns, v, layers, n + 1, a)
  {
    hide Tree, Reaches, Apart, InTurn, NoTables, InBase, UnderBase;
    if a == b {
      ItselfFound(s, b, v);
      BaseInBase(s, b, owns, v, layers, n + 1, a);
    } else {
      var k :| k in base && UnderBase(t, b, owns[n], base, layers[n].own, k, a);
      NowInBase(s, t, b, owns, v, layers, n, base, k, a);
    }
  }

  lemma SameRow(s: Store, t: Store, b: nat, o: nat, v: Values, base: Values, l: Layer)
    requires b in s && o in s && v.Keys <= s[b].Keys && l.own.Keys <= s[o].Keys && base.Keys == v.Keys
    requires b in t && o in t && t[b] == s[b] && t[o] == s[o]
    requires forall k :: Both(base, l.own, k) <==> Both(v, l.own, k)
    ensures LayeredRow(t, b, o, base, l) == LayeredRow(s, b, o, v, l)
  {
  }

  // The base values, the last values and the rows when one more is built.
  lemma NextBase(s: Store, t: Store, u: Store, b: nat, owns: seq<nat>, v: Values, layers: seq<Layer>, vals: seq<nat>)
    requires Decoded(s, b, owns, v, layers) && Built(s, t, b, owns, v, layers, vals) && |vals| < |layers|
    requires
      var n, w := |vals|, layers[|vals|].own;
      && var base := AfterAll(v, layers[..n]);
      && Tree(t, Sub(b), Table(base)) && Tree(t, Sub(owns[n]), Table(w)) && Fits(t, b, owns[n], base, w)
      && b in t && b in u && Merging(t, u, b, owns[n], base, w, {}) && u[b] == t[b]
    ensures
      var n := |vals| + 1;
      && Tree(u, Sub(b), Table(AfterAll(v, layers[..n])))
      && (forall a :: Reaches(u, Sub(b), Table(AfterAll(v, layers[..n])), a) ==> InBase(s, b, owns, v, layers, n, a))
      && LastFits(s, u, b, owns, v, layers, n)
  {
    hide Tree, Reaches, Fits, NoTables, AfterAll, Apart, InBase, InTurn, Within, Joined, LayeredRow, UnderBase;
    var n, w := |vals|, layers[|vals|].own;
    var base := AfterAll(v, layers[..n]);
    NextFits(s, t, b, owns, v, layers, vals);
    Entries(s, b, owns, v, layers, n);
    BaseAbsorbs(t, u, b, owns[n], base, w);
    AfterOneMore(v, layers, n);
    forall a | Reaches(u, Sub(b), Table(Absorbed(base, w)), a) ensures InBase(s, b, owns, v, layers, n + 1, a) {
      NextInBase(s, t, b, owns, v, layers, n, base, a);
    }
    SourceStays(t, u, b, owns[n], base, w, {});
    Framed(s, t, Sub(owns[n]), Table(w));
  }

  lemma NextRows(s: Store, t: Store, u: Store, b: nat, owns: seq<nat>, v: Values, layers: seq<Layer>, vals: seq<nat>)
    requires Decoded(s, b, owns, v, layers) && Built(s, t, b, owns, v, layers, vals) && |vals| < |layers|
    requires
      var n, w := |vals|, layers[|vals|].own;
      && var base := AfterAll(v, layers[..n]);
      && Tree(t, Sub(b), Table(base)) && Tree(t, Sub(owns[n]), Table(w)) && Fits(t, b, owns[n], base, w)
      && b in t && b in u && Merging(t, u, b, owns[n], base, w, {}) && u[b] == t[b]
    ensures forall a :: a in s ==> a in u && (u[a] != s[a] ==> InBase(s, b, owns, v, layers, |vals| + 1, a))
    ensures forall i :: 0 <= i < |vals| ==> vals[i] in t && vals[i] in u && u[vals[i]] == t[vals[i]]
  {
    hide Tree, Reaches, Fits, NoTables, AfterAll, Apart, InBase, InTurn, Within, Joined, LayeredRow, UnderBase,
         LastFits;
    var n, w := |vals|, layers[|vals|].own;
    var base := AfterAll(v, layers[..n]);
    forall a | a in s && u[a] != s[a] ensures InBase(s, b, owns, v, layers, n + 1, a) {
      if u[a] != t[a] { ChangedIsFound(t, u, b, owns[n], base, w, a); }
      InBaseGrows(s, b, owns, v, layers, n, a);
    }
    forall i | 0 <= i < n ensures u[vals[i]] == t[vals[i]] {
      if u[vals[i]] != t[vals[i]] {
        ChangedIsFound(t, u, b, owns[n], base, w, vals[i]);
        InBaseStored(s, b, owns, v, layers, n, vals[i]);
      }
    }
  }

  // One more is built.
  lemma NextBuilt(s: Store, t: Store, u: Store, b: nat, owns: seq<nat>, v: Values, layers: seq<Layer>, vals: seq<nat>,
                  next: nat)
    requires Decoded(s, b, owns, v, layers) && Built(s, t, b, owns, v, layers, vals) && |vals| < |layers|
    requires
      var n, w := |vals|, layers[|vals|].own;
      && var base := AfterAll(v, layers[..n]);
      && Tree(t, Sub(b), Table(base)) && Tree(t, Sub(owns[n]), Table(w)) && Fits(t, b, owns[n], base, w)
      && b in t && b in u && next !in t && next in u && owns[n] in t && Merging(t, u, b, owns[n], base, w, {})
         && u[b] == t[b]
      && t[b].Keys == base.Keys && t[owns[n]].Keys == w.Keys && u[next] == LayeredRow(t, b, owns[n], base, layers[n])
    ensures Built(s, u, b, owns, v, layers, vals + [next])
  {
    hide Tree, Reaches, Fits, NoTables, AfterAll, Apart, InBase, InTurn, Merging, LayeredRow, LastFits;
    var n, w := |vals|, layers[|vals|].own;
    NextBase(s, t, u, b, owns, v, layers, vals);
    NextRows(s, t, u, b, owns, v, layers, vals);
    NextFits(s, t, b, owns, v, layers, vals);
    Entries(s, b, owns, v, layers, n);
    AfterOneMore(v, layers, n);
    ItselfFound(s, owns[n], w);
    SameRow(s, t, b, owns[n], v, AfterAll(v, layers[..n]), layers[n]);
  }

  // ----- What an assignment's values show in the end -----

  /** Under each key, a table of the base values, a table of its own that is nowhere in the base values, or plain. */
  lemma ShownAtKey(s: Store, t: Store, b: nat, owns: seq<nat>, v: Values, layers: seq<Layer>, vals: seq<nat>, i: nat,
                   k: string)
    requires Decoded(s, b, owns, v, layers) && Built(s, t, b, owns, v, layers, vals) && |vals| == |layers|
    requires i < |layers|
    requires k in v || k in layers[i].own || k in layers[i].extra
    ensures AfterAll(v, layers).Keys == v.Keys && vals[i] in t && k in t[vals[i]]
    ensures Tree(t, t[vals[i]][k], Seen(v, AfterAll(v, layers), layers[i])[k])
    ensures forall a :: Reaches(t, t[vals[i]][k], Seen(v, AfterAll(v, layers), layers[i])[k], a) ==>
      ComesFrom(s, t, b, owns, v, layers, i, k, a)
  {
    hide Tree, Reaches, Fits, NoTables, AfterAll, Apart, InBase, InTurn, LastFits;
    AfterAllKeys(v, layers);
    assert layers[..|layers|] == layers;
    Entries(s, b, owns, v, layers, i);
    var l, after := layers[i], AfterAll(v, layers);
    RowOf(t, b, after);
    if k in l.extra {
      PlainStands(t, l.extra, k);
    } else if k in l.own && !Both(v, l.own, k) {
      RowOf(s, owns[i], l.own);
      forall a | Reaches(s, s[owns[i]][k], l.own[k], a) ensures a in t && a in s && t[a] == s[a] {
        ChildFound(s, owns[i], l.own, k, a);
        NeverInBase(s, b, owns, v, layers, |layers|, i, k, a);
      }
      Framed(s, t, s[owns[i]][k], l.own[k]);
    }
  }

  /** Where the tables under a key of an assignment's values are from: the base values, as far as they are shown, or the
      assignment's own values. */
  ghost predicate ComesFrom(s: Store, t: Store, b: nat, owns: seq<nat>, v: Values, layers: seq<Layer>, i: nat,
                            k: string, a: nat)
    requires Decoded(s, b, owns, v, layers) && i < |layers|
  {
    if k in layers[i].own && !Both(v, layers[i].own, k) then
      owns[i] in s && k in s[owns[i]] && Reaches(s, s[owns[i]][k], layers[i].own[k], a)
    else
      var after := AfterAll(v, layers);
      b in t && k in t[b] && k in after && Reaches(t, t[b][k], after[k], a)
  }

  lemma PlainStands(t: Store, extra: Values, k: string)
    requires NoTables(extra) && k in extra
    ensures Tree(t, Plain(extra[k]), extra[k]) && forall a :: !Reaches(t, Plain(extra[k]), extra[k], a)
  {
  }

  // Under two keys, there is no table in common.
  lemma ShownOnce(s: Store, t: Store, b: nat, owns: seq<nat>, v: Values, layers: seq<Layer>, vals: seq<nat>, i: nat,
                  j: string, k: string, a: nat)
    requires Decoded(s, b, owns, v, layers) && Built(s, t, b, owns, v, layers, vals) && |vals| == |layers|
    requires i < |layers|
    requires ComesFrom(s, t, b, owns, v, layers, i, j, a) && ComesFrom(s, t, b, owns, v, layers, i, k, a)
    requires j in v || j in layers[i].own
    requires k in v || k in layers[i].own
    ensures j == k && a != vals[i]
  {
    hide Tree, Reaches, Fits, NoTables, AfterAll, Apart, InBase, InTurn, LastFits;
    AfterAllKeys(v, layers);
    assert layers[..|layers|] == layers;
    Entries(s, b, owns, v, layers, i);
    OriginOf(s, t, b, owns, v, layers, vals, i, j, a);
    OriginOf(s, t, b, owns, v, layers, vals, i, k, a);
    if k in layers[i].own && !Both(v, layers[i].own, k) {
      if j in layers[i].own && !Both(v, layers[i].own, j) { TwoKeys(s, owns[i], layers[i].own, j, k, a); }
    } else {
      if !(j in layers[i].own && !Both(v, layers[i].own, j)) { TwoKeys(t, b, AfterAll(v, layers), j, k, a); }
    }
  }

  lemma OriginOf(s: Store, t: Store, b: nat, owns: seq<nat>, v: Values, layers: seq<Layer>, vals: seq<nat>, i: nat,
                 k: string, a: nat)
    requires Decoded(s, b, owns, v, layers) && Built(s, t, b, owns, v, layers, vals) && |vals| == |layers|
    requires i < |layers|
    requires ComesFrom(s, t, b, owns, v, layers, i, k, a)
    ensures a in s && a != vals[i]
    ensures InBase(s, b, owns, v, layers, |layers|, a) <==> !(k in layers[i].own && !Both(v, layers[i].own, k))
  {
    hide Tree, Reaches, Fits, NoTables, AfterAll, Apart, InBase, InTurn, LastFits;
    AfterAllKeys(v, layers);
    assert layers[..|layers|] == layers;
    Entries(s, b, owns, v, layers, i);
    if k in layers[i].own && !Both(v, layers[i].own, k) {
      ChildFound(s, owns[i], layers[i].own, k, a);
      NeverInBase(s, b, owns, v, layers, |layers|, i, k, a);
    } else {
      ChildFound(t, b, AfterAll(v, layers), k, a);
      InBaseStored(s, b, owns, v, layers, |layers|, a);
    }
  }

  /** In the end, the values of each assignment show what all of them put into the tables of the base values. */
  lemma AllShown(s: Store, t: Store, b: nat, owns: seq<nat>, v: Values, layers: seq<Layer>, vals: seq<nat>, i: nat)
    requires Decoded(s, b, owns, v, layers) && Built(s, t, b, owns, v, layers, vals) && |vals| == |layers|
    requires i < |layers|
    ensures AfterAll(v, layers).Keys == v.Keys
    ensures Tree(t, Sub(vals[i]), Table(Seen(v, AfterAll(v, layers), layers[i])))
  {
    AfterAllKeys(v, layers);
    var seen := Seen(v, AfterAll(v, layers), layers[i]);
    var l, a := layers[i], vals[i];
    assert seen.Keys == v.Keys + l.own.Keys + l.extra.Keys;
    hide Tree, Reaches, Fits, NoTables, AfterAll, Apart, InBase, InTurn, LastFits, ComesFrom, Seen;
    forall k | k in seen ensures Tree(t, t[a][k], seen[k]) { ShownAtKey(s, t, b, owns, v, layers, vals, i, k); }
    forall k, c | k in seen && Reaches(t, t[a][k], seen[k], c)
      ensures ComesFrom(s, t, b, owns, v, layers, i, k, c) && (k in v || k in l.own) && c != a
    {
      ShownAtKey(s, t, b, owns, v, layers, vals, i, k);
      InOneOf(s, t, b, owns, v, layers, vals, i, k, c);
      ShownOnce(s, t, b, owns, v, layers, vals, i, k, k, c);
    }
    forall j, k, c | j in seen && k in seen && Reaches(t, t[a][j], seen[j], c) && Reaches(t, t[a][k], seen[k], c)
      ensures j == k
    {
      ShownOnce(s, t, b, owns, v, layers, vals, i, j, k, c);
    }
    RowIsTree(t, a, seen);
  }

  lemma InOneOf(s: Store, t: Store, b: nat, owns: seq<nat>, v: Values, layers: seq<Layer>, vals: seq<nat>, i: nat,
                k: string, a: nat)
    requires Decoded(s, b, owns, v, layers) && Built(s, t, b, owns, v, layers, vals) && |vals| == |layers|
    requires i < |layers|
    requires ComesFrom(s, t, b, owns, v, layers, i, k, a)
    ensures k in v || k in layers[i].own
  {
    hide Tree, Reaches, Apart, InTurn, NoTables, InBase;
    AfterAllKeys(v, layers);
  }

  lemma NoneBuilt(s: Store, b: nat, owns: seq<nat>, v: Values, layers: seq<Layer>)
    requires Decoded(s, b, owns, v, layers)
    ensures Built(s, s, b, owns, v, layers, [])
  {
    hide Tree, Reaches, Apart, InTurn, NoTables;
    RowOf(s, b, v);
    assert layers[..0] == [];
  }

  /** All assignments are built one after the other. Each one has the values that are meant for it, when all are built,
      if and only if they are independent. */
  method BuildAll(m: Tables, b: nat, owns: seq<nat>, extras: seq<Values>, ghost v: Values, ghost layers: seq<Layer>)
    returns (vals: seq<nat>)
    requires Decoded(m.store, b, owns, v, layers)
    requires |extras| == |layers| && forall i :: 0 <= i < |layers| ==> extras[i] == layers[i].extra
    modifies m
    ensures |vals| == |layers| && AfterAll(v, layers).Keys == v.Keys
    ensures forall i :: 0 <= i < |layers| ==>
      Tree(m.store, Sub(vals[i]), Table(Seen(v, AfterAll(v, layers), layers[i])))
    ensures Tree(m.store, Sub(b), Table(AfterAll(v, layers)))
    ensures forall i :: 0 <= i < |layers| ==> SharesTables(m.store, vals[i], b, v, layers[i])
    ensures WellGiven(v, layers) ==>
      ((forall i :: 0 <= i < |layers| ==> Tree(m.store, Sub(vals[i]), Table(Meant(v, layers[i])))) <==>
         Independent(v, layers))
  {
    hide Tree, Reaches, Fits, Apart, InTurn, NoTables, InBase, Built, LastFits, AfterAll, Seen, Meant, WellGiven,
         Independent, LayeredRow, Merging;
    ghost var s := m.store;
    vals := [];
    NoneBuilt(s, b, owns, v, layers);
    for i := 0 to |owns|
      invariant |vals| == i && Built(s, m.store, b, owns, v, layers, vals)
    {
      ghost var t := m.store;
      NextFits(s, t, b, owns, v, layers, vals);
      Entries(s, b, owns, v, layers, i);
      var next := Build(m, b, owns[i], extras[i], AfterAll(v, layers[..i]), layers[i].own);
      NextBuilt(s, t, m.store, b, owns, v, layers, vals, next);
      vals := vals + [next];
    }
    AfterAllKeys(v, layers);
    forall i | 0 <= i < |layers| ensures Tree(m.store, Sub(vals[i]), Table(Seen(v, AfterAll(v, layers), layers[i]))) {
      AllShown(s, m.store, b, owns, v, layers, vals, i);
    }
    BaseIsBuilt(s, m.store, b, owns, v, layers, vals);
    forall i | 0 <= i < |layers| ensures SharesTables(m.store, vals[i], b, v, layers[i]) {
      ShownIsShared(s, m.store, b, owns, v, layers, vals, i);
    }
    if WellGiven(v, layers) {
      MeantIffSeen(m.store, v, layers, vals);
    }
  }

  /** The tables of the base values that an assignment shows are the very tables of the base values. */
  ghost predicate SharesTables(t: Store, a: nat, b: nat, v: Values, l: Layer) {
    a in t && b in t && forall k :: Shows(v, l, k) ==> k in t[a] && k in t[b] && t[a][k] == t[b][k]
  }

  lemma ShownIsShared(s: Store, t: Store, b: nat, owns: seq<nat>, v: Values, layers: seq<Layer>, vals: seq<nat>, i: nat)
    requires Decoded(s, b, owns, v, layers) && Built(s, t, b, owns, v, layers, vals) && |vals| == |layers|
    requires i < |layers|
    ensures SharesTables(t, vals[i], b, v, layers[i])
  {
    hide Tree, Reaches, Fits, Apart, InTurn, NoTables, InBase, LastFits, AfterAll;
    Entries(s, b, owns, v, layers, i);
  }

  lemma BaseIsBuilt(s: Store, t: Store, b: nat, owns: seq<nat>, v: Values, layers: seq<Layer>, vals: seq<nat>)
    requires Decoded(s, b, owns, v, layers) && Built(s, t, b, owns, v, layers, vals) && |vals| == |layers|
    ensures b in t && Tree(t, Sub(b), Table(AfterAll(v, layers)))
  {
    hide Tree, Reaches, Fits, Apart, InTurn, NoTables, InBase, LastFits, AfterAll;
    assert layers[..|layers|] == layers;
  }

  lemma MeantIffSeen(t: Store, v: Values, layers: seq<Layer>, vals: seq<nat>)
    requires WellGiven(v, layers) && |vals| == |layers| && AfterAll(v, layers).Keys == v.Keys
    requires forall i :: 0 <= i < |layers| ==> Tree(t, Sub(vals[i]), Table(Seen(v, AfterAll(v, layers), layers[i])))
    ensures (forall i :: 0 <= i < |layers| ==> Tree(t, Sub(vals[i]), Table(Meant(v, layers[i])))) <==>
      Independent(v, layers)
  {
    hide Tree, AfterAll, Seen, Meant, WellGiven, Independent;
    AllAsMeantIff(v, layers);
    forall i | 0 <= i < |layers|
      ensures Tree(t, Sub(vals[i]), Table(Meant(v, layers[i]))) <==>
        Seen(v, AfterAll(v, layers), layers[i]) == Meant(v, layers[i])
    {
      if Tree(t, Sub(vals[i]), Table(Meant(v, layers[i]))) {
        OneValue(t, Sub(vals[i]), Table(Meant(v, layers[i])), Table(Seen(v, AfterAll(v, layers), layers[i])));
      }
    }
  }

  /** One assignment alone has the values meant for it. The base values stay as they are exactly if its tables say
      nothing new there. */
  method BuildOnce(m: Tables, b: nat, o: nat, extra: Values, ghost v: Values, ghost w: Values) returns (vals: nat)
    requires Tree(m.store, Sub(b), Table(v)) && Tree(m.store, Sub(o), Table(w)) && Apart(m.store, b, o, v, w)
    requires NoTables(extra)
    modifies m
    ensures Tree(m.store, Sub(vals), Table(Meant(v, Layer(w, extra))))
    ensures Tree(m.store, Sub(b), Table(v)) <==> forall k :: Both(v, w, k) ==> Below(w[k], v[k])
  {
    hide Tree, Reaches, Apart, Below, Meant, Seen;
    ghost var layers := [Layer(w, extra)];
    assert layers[..0] == [];
    forall k | Both(v, w, k) ensures Below(w[k], Merged(v[k], w[k])) { MergedIsThere(v[k], w[k]); }
    var list := BuildAll(m, b, [o], [extra], v, layers);
    vals := list[0];
    KeptIff(v, w);
    if Tree(m.store, Sub(b), Table(v)) {
      OneValue(m.store, Sub(b), Table(v), Table(AfterAll(v, layers)));
    }
  }

  /** Two assignments that both set a table of the base values end up with one table between them. It says what the
      second one says, then what the first one says, and then what the base values said. */
  method BuildTwo(m: Tables, b: nat, owns: seq<nat>, extras: seq<Values>, k: string, ghost v: Values,
                  ghost layers: seq<Layer>)
    returns (first: nat, second: nat)
    requires |layers| == 2 && Decoded(m.store, b, owns, v, layers)
    requires |extras| == |layers| && forall i :: 0 <= i < |layers| ==> extras[i] == layers[i].extra
    requires Both(v, layers[0].own, k) && Both(v, layers[1].own, k) && k !in layers[0].extra && k !in layers[1].extra
    modifies m
    ensures first in m.store && second in m.store && k in m.store[first] && k in m.store[second]
    ensures m.store[first][k].Sub? && m.store[first][k] == m.store[second][k]
    ensures Tree(m.store, m.store[first][k], Merged(Merged(v[k], layers[0].own[k]), layers[1].own[k]))
  {
    hide Reaches, Tree, Decoded, WellGiven, Independent, Meant, AfterAll, Seen;
    TwoMerged(v, layers, k);
    var list := BuildAll(m, b, owns, extras, v, layers);
    first, second := list[0], list[1];
    assert SharesTables(m.store, first, b, v, layers[0]) && SharesTables(m.store, second, b, v, layers[1]);
    RowOf(m.store, b, AfterAll(v, layers));
    PlainOf(m.store, m.store[b][k], AfterAll(v, layers)[k]);
  }

  lemma TwoMerged(v: Values, layers: seq<Layer>, k: string)
    requires |layers| == 2 && Both(v, layers[0].own, k) && Both(v, layers[1].own, k)
    ensures AfterAll(v, layers).Keys == v.Keys
    ensures AfterAll(v, layers)[k] == Merged(Merged(v[k], layers[0].own[k]), layers[1].own[k])
    ensures AfterAll(v, layers)[k].Table?
  {
    AfterAllKeys(v, layers);
    AfterOneMore(v, layers, 0);
    AfterOneMore(v, layers, 1);
    assert layers[..2] == layers && layers[..0] == [];
  }
}
