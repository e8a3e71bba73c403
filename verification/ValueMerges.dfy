/** Laws of merging values, and when several values can be merged into one base without showing in each other. */
module ValueMerges {
  import opened AppRollout

  /** All that x says, y says as well. */
  ghost predicate Below(x: Value, y: Value)
    decreases x
  {
    if x.Table? then y.Table? && forall k :: k in x.entries ==> k in y.entries && Below(x.entries[k], y.entries[k])
    else x == y
  }

  lemma {:induction false} BelowItself(x: Value)
    ensures Below(x, x)
    decreases x
  {
    if x.Table? {
      forall k | k in x.entries ensures Below(x.entries[k], x.entries[k]) { BelowItself(x.entries[k]); }
    }
  }

  /** Merging x changes nothing if and only if all of it is there. */
  lemma {:induction false} BelowIff(x: Value, y: Value)
    ensures Below(x, y) <==> Merged(y, x) == y
    decreases x
  {
    if x.Table? && y.Table? {
      var m := Merged(y, x).entries;
      forall k | k in x.entries && k in y.entries ensures Below(x.entries[k], y.entries[k]) <==> m[k] == y.entries[k] {
        BelowIff(x.entries[k], y.entries[k]);
      }
      if Below(x, y) {
        assert m == y.entries;
      } else {
        var k :| k in x.entries && !(k in y.entries && Below(x.entries[k], y.entries[k]));
        assert k in m;
      }
    }
  }

  /** What is merged in is there. */
  lemma {:induction false} MergedIsThere(y: Value, x: Value)
    ensures Below(x, Merged(y, x))
    decreases x
  {
    BelowItself(x);
    if x.Table? && y.Table? {
      forall k | k in x.entries ensures Below(x.entries[k], Merged(y, x).entries[k]) {
        BelowItself(x.entries[k]);
        if k in y.entries { MergedIsThere(y.entries[k], x.entries[k]); }
      }
    }
  }

  lemma {:induction false} OverLess(x: Value, y: Value)
    requires Below(x, y)
    ensures Merged(x, y) == y
    decreases x
  {
    if x.Table? {
      var m := Merged(x, y).entries;
      forall k | k in x.entries ensures m[k] == y.entries[k] { OverLess(x.entries[k], y.entries[k]); }
      assert m == y.entries;
    }
  }

  /** What ends up there anyway can be merged before. */
  lemma {:induction false} MergedBefore(y: Value, p: Value, x: Value)
    requires Below(p, Merged(y, x))
    ensures Merged(Merged(y, p), x) == Merged(y, x)
    decreases x
  {
    if x.Table? && p.Table? {
      if y.Table? {
        var m, n := Merged(Merged(y, p), x).entries, Merged(y, x).entries;
        forall k | k in y.entries.Keys + p.entries.Keys + x.entries.Keys ensures k in n && m[k] == n[k] {
          if k in p.entries && k in y.entries {
            if k in x.entries { MergedBefore(y.entries[k], p.entries[k], x.entries[k]); }
            else { BelowIff(p.entries[k], y.entries[k]); }
          } else if k in p.entries {
            OverLess(p.entries[k], n[k]);
          }
        }
        assert m == n;
      } else {
        OverLess(p, x);
      }
    }
  }

  // ----- Several values over one base -----

  /** What an assignment puts over the base values: its own values, and then some that it is given. */
  datatype Layer = Layer(own: Values, extra: Values)

  /** Both have a table under the key, so that merging goes into it. */
  predicate Both(v: Values, w: Values, k: string) { k in v && k in w && v[k].Table? && w[k].Table? }

  /** The values meant for an assignment. */
  function Meant(base: Values, l: Layer): Values { Merge(Merge(base, l.own), l.extra) }

  /** The base values when values have been merged into its tables. */
  function Absorbed(base: Values, own: Values): Values {
    map k | k in base :: if Both(base, own, k) then Merged(base[k], own[k]) else base[k]
  }

  function AfterAll(base: Values, layers: seq<Layer>): Values {
    if layers == [] then base else Absorbed(AfterAll(base, layers[..|layers| - 1]), layers[|layers| - 1].own)
  }

  lemma {:induction false} AfterAllKeys(base: Values, layers: seq<Layer>)
    ensures AfterAll(base, layers).Keys == base.Keys
    ensures forall k :: k in base ==> (AfterAll(base, layers)[k].Table? <==> base[k].Table?)
    ensures forall k :: k in base && !base[k].Table? ==> AfterAll(base, layers)[k] == base[k]
    decreases |layers|
  {
    if layers != [] {
      AfterAllKeys(base, layers[..|layers| - 1]);
    }
  }

  /** The values of an assignment that shares the tables of the base values, `after` all that went into them. */
  function Seen(base: Values, after: Values, l: Layer): Values
    requires after.Keys == base.Keys
  {
    map k | k in base.Keys + l.own.Keys + l.extra.Keys ::
      if k in l.extra then l.extra[k] else if k in l.own && !Both(base, l.own, k) then l.own[k] else after[k]
  }

  /** Under this key, an assignment shows a table of the base values. */
  predicate Shows(base: Values, l: Layer, k: string) {
    k in base && base[k].Table? && k !in l.extra && (k in l.own ==> l.own[k].Table?)
  }

  function ItsOwn(base: Values, l: Layer, k: string): Value
    requires k in base
  {
    if k in l.own then Merged(base[k], l.own[k]) else base[k]
  }

  /** Wherever an assignment shows a table of the base values, no assignment puts anything into it that is not meant for
      the first one as well. */
  ghost predicate Independent(base: Values, layers: seq<Layer>) {
    forall i, j, k :: 0 <= i < |layers| && 0 <= j < |layers| && Shows(base, layers[i], k)
                      && Both(base, layers[j].own, k) ==>
      Below(layers[j].own[k], ItsOwn(base, layers[i], k))
  }

  /** Given values are no tables. But for the last one, no assignment has a table of its own in the place of a given one
      that another assignment is not given. */
  ghost predicate WellGiven(base: Values, layers: seq<Layer>) {
    && (forall i, k :: 0 <= i < |layers| && k in layers[i].extra ==> !layers[i].extra[k].Table?)
    && (forall i, j, k :: 0 <= i < |layers| && 0 <= j < |layers| - 1 && Both(base, layers[j].own, k)
                          && k in layers[j].extra ==>
          !Shows(base, layers[i], k))
  }

  lemma MergeAt(v: Values, w: Values, k: string)
    requires k in v || k in w
    ensures k in Merge(v, w)
    ensures Merge(v, w)[k] == if k !in w then v[k] else if k !in v then w[k] else Merged(v[k], w[k])
  {
  }

  lemma SeenIff(base: Values, after: Values, l: Layer)
    requires after.Keys == base.Keys && forall k :: k in l.extra ==> !l.extra[k].Table?
    requires forall k :: k in base && !base[k].Table? ==> after[k] == base[k]
    ensures Seen(base, after, l) == Meant(base, l) <==> forall k :: Shows(base, l, k) ==> after[k] == ItsOwn(base, l, k)
  {
    var seen, meant := Seen(base, after, l), Meant(base, l);
    assert seen.Keys == meant.Keys;
    forall k | k in seen ensures seen[k] == meant[k] <==> (Shows(base, l, k) ==> after[k] == ItsOwn(base, l, k)) {
      hide Merge;
      MergeAt(Merge(base, l.own), l.extra, k);
      if k in base || k in l.own { MergeAt(base, l.own, k); }
    }
    if forall k :: Shows(base, l, k) ==> after[k] == ItsOwn(base, l, k) {
      assert seen == meant;
    }
  }

  // A table of the base values ends up as one assignment means it if no assignment puts anything else into it.
  lemma {:induction false} EndsAsMeant(base: Values, layers: seq<Layer>, upto: nat, i: nat, k: string)
    requires upto <= |layers| && i < |layers| && Shows(base, layers[i], k)
    requires forall j :: 0 <= j < |layers| && Both(base, layers[j].own, k) ==>
      Below(layers[j].own[k], ItsOwn(base, layers[i], k))
    ensures k in AfterAll(base, layers[..upto])
    ensures
      var x := AfterAll(base, layers[..upto])[k];
      if k in layers[i].own && upto <= i then Merged(x, layers[i].own[k]) == ItsOwn(base, layers[i], k)
      else x == ItsOwn(base, layers[i], k)
    decreases upto
  {
    hide Below;
    AfterAllKeys(base, layers[..upto]);
    if upto > 0 {
      EndsAsMeant(base, layers, upto - 1, i, k);
      assert layers[..upto][..upto - 1] == layers[..upto - 1];
      AfterAllKeys(base, layers[..upto - 1]);
      var x, own, m := AfterAll(base, layers[..upto - 1])[k], layers[upto - 1].own, ItsOwn(base, layers[i], k);
      if Both(base, own, k) {
        if k in layers[i].own && upto <= i {
          MergedBefore(x, own[k], layers[i].own[k]);
        } else if k !in layers[i].own || upto - 1 != i {
          BelowIff(own[k], m);
        }
      }
    }
  }

  /** All assignments end up with the values that are meant for them if and only if they are independent. */
  lemma AllAsMeantIff(base: Values, layers: seq<Layer>)
    requires WellGiven(base, layers)
    ensures AfterAll(base, layers).Keys == base.Keys
    ensures (forall i :: 0 <= i < |layers| ==> Seen(base, AfterAll(base, layers), layers[i]) == Meant(base, layers[i]))
       <==> Independent(base, layers)
  {
    hide Below, Seen, Meant, AfterAll;
    var after := AfterAll(base, layers);
    AfterAllKeys(base, layers);
    forall i | 0 <= i < |layers|
      ensures Seen(base, after, layers[i]) == Meant(base, layers[i]) <==>
                forall k :: Shows(base, layers[i], k) ==> after[k] == ItsOwn(base, layers[i], k)
    {
      SeenIff(base, after, layers[i]);
    }
    if Independent(base, layers) {
      forall i, k | 0 <= i < |layers| && Shows(base, layers[i], k) ensures after[k] == ItsOwn(base, layers[i], k) {
        EndsAsMeant(base, layers, |layers|, i, k);
        assert layers[..|layers|] == layers;
      }
    }
    if forall i :: 0 <= i < |layers| ==> Seen(base, after, layers[i]) == Meant(base, layers[i]) {
      forall i, j, k | 0 <= i < |layers| && 0 <= j < |layers| && Shows(base, layers[i], k)
                       && Both(base, layers[j].own, k)
        ensures Below(layers[j].own[k], ItsOwn(base, layers[i], k))
      {
        if k !in layers[j].extra {
          assert Shows(base, layers[j], k);
          MergedIsThere(base[k], layers[j].own[k]);
        } else {
          LastIsThere(base, layers, k);
        }
      }
    }
  }

  lemma LastIsThere(base: Values, layers: seq<Layer>, k: string)
    requires layers != [] && Both(base, layers[|layers| - 1].own, k)
    ensures k in AfterAll(base, layers) && Below(layers[|layers| - 1].own[k], AfterAll(base, layers)[k])
  {
    AfterAllKeys(base, layers[..|layers| - 1]);
    MergedIsThere(AfterAll(base, layers[..|layers| - 1])[k], layers[|layers| - 1].own[k]);
  }

  /** The base values stay as they are when one assignment is built exactly if its tables say nothing new there. */
  lemma KeptIff(base: Values, own: Values)
    ensures Absorbed(base, own) == base <==> forall k :: Both(base, own, k) ==> Below(own[k], base[k])
  {
    hide Below;
    var after := Absorbed(base, own);
    forall k | Both(base, own, k) ensures Below(own[k], base[k]) <==> after[k] == base[k] { BelowIff(own[k], base[k]); }
    if forall k :: Both(base, own, k) ==> Below(own[k], base[k]) {
      assert after == base;
    }
  }

  lemma {:induction false} NothingNewIsKept(base: Values, layers: seq<Layer>)
    requires forall i, k :: 0 <= i < |layers| && Both(base, layers[i].own, k) ==> Below(layers[i].own[k], base[k])
    ensures AfterAll(base, layers) == base
    decreases |layers|
  {
    if layers != [] {
      NothingNewIsKept(base, layers[..|layers| - 1]);
      KeptIff(base, layers[|layers| - 1].own);
    }
  }

  /** All assignments end up with the values meant for them and the base values are as before, for the next generation,
      if and only if no assignment says anything new in a table of the base values. But for the last one, none may have
      a table of its own in the place of a value that it is given. */
  lemma NothingNewIff(base: Values, layers: seq<Layer>)
    requires WellGiven(base, layers)
    requires forall i, k :: 0 <= i < |layers| - 1 && Both(base, layers[i].own, k) ==> k !in layers[i].extra
    ensures Independent(base, layers) && AfterAll(base, layers) == base
       <==> forall i, k :: 0 <= i < |layers| && Both(base, layers[i].own, k) ==> Below(layers[i].own[k], base[k])
  {
    hide Below, AfterAll, Seen, Meant;
    AllAsMeantIff(base, layers);
    if Independent(base, layers) && AfterAll(base, layers) == base {
      forall i, k | 0 <= i < |layers| && Both(base, layers[i].own, k) ensures Below(layers[i].own[k], base[k]) {
        if k in layers[i].extra {
          LastIsThere(base, layers, k);
        } else {
          assert Shows(base, layers[i], k);
          EndsAsMeant(base, layers, |layers|, i, k);
          assert layers[..|layers|] == layers;
          MergedIsThere(base[k], layers[i].own[k]);
        }
      }
    }
    if forall i, k :: 0 <= i < |layers| && Both(base, layers[i].own, k) ==> Below(layers[i].own[k], base[k]) {
      NothingNewIsKept(base, layers);
      forall i, j, k | 0 <= i < |layers| && 0 <= j < |layers| && Shows(base, layers[i], k)
                       && Both(base, layers[j].own, k)
        ensures Below(layers[j].own[k], ItsOwn(base, layers[i], k))
      {
        if k in layers[i].own { BelowIff(layers[i].own[k], base[k]); }
      }
    }
  }
}
