/** Names in their byte-wise order, and sorting by name. */
module NameOrder {

  predicate Less(a: string, b: string) {
    b != "" && (a == "" || a[0] < b[0] || (a[0] == b[0] && Less(a[1..], b[1..])))
  }

  /** Less is a strict total order. */
  lemma {:induction false} LessIsTotal(a: string, b: string)
    ensures !Less(a, a)
    ensures a == b || Less(a, b) || Less(b, a)
    ensures !(Less(a, b) && Less(b, a))
  {
    if a != "" {
      LessIsTotal(a[1..], if b != "" then b[1..] else "");
      if b != "" && a[0] == b[0] && a[1..] == b[1..] {
        assert a == [a[0]] + a[1..] && b == [b[0]] + b[1..];
      }
    }
  }

  lemma {:induction false} LessIsTransitive(a: string, b: string, c: string)
    requires Less(a, b) && Less(b, c)
    ensures Less(a, c)
  {
    if a != "" && a[0] == b[0] && b[0] == c[0] {
      LessIsTransitive(a[1..], b[1..], c[1..]);
    }
  }

  ghost predicate Distinct<T(!new)>(s: seq<T>, key: T -> string) {
    forall i, j :: 0 <= i < j < |s| ==> key(s[i]) != key(s[j])
  }

  ghost predicate Increasing<T(!new)>(s: seq<T>, key: T -> string) {
    forall i, j :: 0 <= i < j < |s| ==> Less(key(s[i]), key(s[j]))
  }

  function Insert<T(!new)>(x: T, s: seq<T>, key: T -> string): seq<T> {
    if s == [] || Less(key(x), key(s[0])) then [x] + s else [s[0]] + Insert(x, s[1..], key)
  }

  function SortBy<T(!new)>(s: seq<T>, key: T -> string): seq<T> {
    if s == [] then [] else Insert(s[0], SortBy(s[1..], key), key)
  }

  lemma {:induction false} InsertKeeps<T(!new)>(x: T, s: seq<T>, key: T -> string)
    requires Increasing(s, key) && forall y :: y in s ==> key(y) != key(x)
    ensures Increasing(Insert(x, s, key), key)
    ensures forall y :: y in Insert(x, s, key) <==> y == x || y in s
  {
    if s == [] {
    } else if Less(key(x), key(s[0])) {
      forall j | 0 < j < |s| ensures Less(key(x), key(s[j])) {
        LessIsTransitive(key(x), key(s[0]), key(s[j]));
      }
    } else {
      assert s[0] in s;
      LessIsTotal(key(x), key(s[0]));
      var rest := s[1..];
      assert s == [s[0]] + rest;
      InsertKeeps(x, rest, key);
      var more := Insert(x, rest, key);
      assert Insert(x, s, key) == [s[0]] + more;
      forall y | y in more ensures Less(key(s[0]), key(y)) {
        if y != x {
          assert y in rest;
          var j :| 0 <= j < |rest| && rest[j] == y;
          assert s[j + 1] == y;
        }
      }
    }
  }

  /** Sorting elements with different names keeps them and puts them in increasing order. */
  lemma {:induction false} SortBySorts<T(!new)>(s: seq<T>, key: T -> string)
    requires Distinct(s, key)
    ensures Increasing(SortBy(s, key), key)
    ensures forall y :: y in SortBy(s, key) <==> y in s
  {
    if s != [] {
      var rest := s[1..];
      assert s == [s[0]] + rest;
      SortBySorts(rest, key);
      forall y | y in SortBy(rest, key) ensures key(y) != key(s[0]) {
        assert y in rest;
        var j :| 0 <= j < |rest| && rest[j] == y;
        assert s[j + 1] == y;
      }
      InsertKeeps(s[0], SortBy(rest, key), key);
    }
  }

  /** An increasing sequence is determined by its elements. */
  lemma {:induction false} IncreasingIsUnique<T(!new)>(a: seq<T>, b: seq<T>, key: T -> string)
    requires Increasing(a, key) && Increasing(b, key)
    requires forall x :: x in a <==> x in b
    ensures a == b
  {
    if a == [] {
      if b != [] {
        HasElement(b);
      }
    } else {
      assert a[0] in b && b != [] && b[0] in a by { assert a[0] in a; }
      FirstIsLeast(a, b[0], key);
      FirstIsLeast(b, a[0], key);
      LessIsTotal(key(a[0]), key(b[0]));
      assert a[0] == b[0];
      RestIsOther(a, key);
      RestIsOther(b, key);
      forall x ensures x in a[1..] <==> x in b[1..] {
        assert x in a[1..] <==> x in a && x != a[0];
        assert x in b[1..] <==> x in b && x != b[0];
      }
      IncreasingIsUnique(a[1..], b[1..], key);
      assert a == [a[0]] + a[1..] && b == [b[0]] + b[1..];
    }
  }

  lemma HasElement<T(!new)>(s: seq<T>)
    requires s != []
    ensures exists x :: x in s
  {
    assert s[0] in s;
  }

  lemma FirstIsLeast<T(!new)>(s: seq<T>, x: T, key: T -> string)
    requires Increasing(s, key) && x in s
    ensures x == s[0] || Less(key(s[0]), key(x))
  {
    var i :| 0 <= i < |s| && s[i] == x;
  }

  lemma RestIsOther<T(!new)>(s: seq<T>, key: T -> string)
    requires Increasing(s, key) && s != []
    ensures forall x :: x in s[1..] <==> x in s && x != s[0]
  {
    LessIsTotal(key(s[0]), key(s[0]));
    assert s == [s[0]] + s[1..];
    forall x | x in s[1..] ensures x != s[0] {
      var i :| 0 <= i < |s[1..]| && s[1..][i] == x;
      assert Less(key(s[0]), key(s[i + 1]));
    }
  }
}
