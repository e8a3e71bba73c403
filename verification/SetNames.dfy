/** Versioned ResourceSet names: printing, parsing by `^(.+)\.v([0-9]+)$`, and choosing the next version. */
module SetNames {
  import opened Wrappers

  const INT32_MAX := 0x7fff_ffff
  const INT32_SPAN := 0x1_0000_0000
  const INT64_MAX := 0x7fff_ffff_ffff_ffff

  newtype int32 = x: int | -0x8000_0000 <= x <= 0x7fff_ffff

  /** Go's conversion int32(n): the low 32 bits, read as two's complement. */
  function ToInt32(n: int): (r: int32)
    ensures 0 <= n <= INT32_MAX ==> r as int == n
    ensures (n - r as int) % INT32_SPAN == 0
  {
    var low := n % INT32_SPAN;
    if low <= INT32_MAX then low as int32 else (low - INT32_SPAN) as int32
  }

  predicate IsDigit(c: char) { '0' <= c <= '9' }

  predicate AllDigits(s: string) { forall i :: 0 <= i < |s| ==> IsDigit(s[i]) }

  /** strconv.Atoi on a string of digits, before the range check. */
  function Number(s: string): (n: nat)
    requires AllDigits(s)
  {
    if s == "" then 0 else 10 * Number(s[..|s| - 1]) + (s[|s| - 1] as int - '0' as int)
  }

  /** "%d" of a non-negative number. */
  function Decimal(n: nat): (s: string)
    ensures s != "" && AllDigits(s) && Number(s) == n
    ensures |s| > 1 ==> s[0] != '0'
  {
    var last := ('0' as int + n % 10) as char;
    if n < 10 then [last]
    else
      var front := Decimal(n / 10);
      assert (front + [last])[..|front|] == front;
      front + [last]
  }

  /** "%s.v%d" */
  function ResourceSetName(name: string, version: int32): string {
    name + ".v" + (if version < 0 then "-" + Decimal(-(version as int)) else Decimal(version as int))
  }

  /** What one match of the pattern says: `name` and `digits` are its two groups. */
  ghost predicate Matches(s: string, name: string, digits: string)
  {
    && s == name + ".v" + digits
    && name != "" && '\n' !in name
    && digits != "" && AllDigits(digits)
  }

  datatype Decoded = NoMatch | Panics | Set(name: string, version: int32)

  /** How many of the last characters of `s` are digits. */
  function DigitTail(s: string): (n: nat)
    ensures n <= |s| && AllDigits(s[|s| - n..])
    ensures n < |s| ==> !IsDigit(s[|s| - n - 1])
  {
    if s == "" || !IsDigit(s[|s| - 1]) then 0
    else
      var front := s[..|s| - 1];
      var m := DigitTail(front);
      assert s[|s| - 1 - m..] == front[|front| - m..] + [s[|s| - 1]];
      1 + m
  }

  /** decodeResourceSetName. A version beyond 64 bits makes Atoi fail and the function panic; one beyond
      32 bits is truncated. */
  function DecodeResourceSetName(s: string): (r: Decoded)
    ensures r.NoMatch? <==> !exists name, digits :: Matches(s, name, digits)
  {
    var at := |s| - DigitTail(s);
    if at < 3 || at == |s| || s[at - 2..at] != ".v" || '\n' in s[..at - 2] then
      assert !exists name, digits :: Matches(s, name, digits) by {
        forall name, digits | Matches(s, name, digits) ensures false { MatchIsAtTail(s, name, digits); }
      }
      NoMatch
    else
      assert s == s[..at - 2] + s[at - 2..at] + s[at..];
      assert Matches(s, s[..at - 2], s[at..]);
      var n := Number(s[at..]);
      if n > INT64_MAX then Panics else Set(s[..at - 2], ToInt32(n))
  }

  // The pattern is anchored, and digits and ".v" do not overlap, so a match can only be split at the digit tail.
  lemma MatchIsAtTail(s: string, name: string, digits: string)
    requires Matches(s, name, digits)
    ensures DigitTail(s) == |digits|
    ensures |s| == |name| + 2 + |digits| && s[..|name|] == name
    ensures s[|name|..|name| + 2] == ".v" && s[|name| + 2..] == digits
  {
    var at := |s| - |digits|;
    var tail := DigitTail(s);
    assert s[at - 1] == 'v';
  }

  /** A string has at most one match, and decoding reads off exactly that one. */
  lemma DecodesTheMatch(s: string, name: string, digits: string)
    requires Matches(s, name, digits)
    ensures DecodeResourceSetName(s)
         == if Number(digits) > INT64_MAX then Panics else Set(name, ToInt32(Number(digits)))
  {
    MatchIsAtTail(s, name, digits);
  }

  /** Decoding undoes encoding for exactly the non-empty names without newline and the versions not below 0. */
  lemma DecodeUndoesEncode(name: string, version: int32)
    ensures DecodeResourceSetName(ResourceSetName(name, version)) == Set(name, version)
       <==> name != "" && '\n' !in name && version >= 0
  {
    var s := ResourceSetName(name, version);
    if version < 0 {
      // The character before the digits is '-', so the text does not match.
      var digits := Decimal(-(version as int));
      assert s == (name + ".v-") + digits;
      forall n, d | Matches(s, n, d) ensures false {
        MatchIsAtTail(s, n, d);
        TailAfterNonDigit(name + ".v-", digits);
      }
    } else if name != "" && '\n' !in name {
      assert Matches(s, name, Decimal(version as int));
      DecodesTheMatch(s, name, Decimal(version as int));
    } else {
      forall n, d | Matches(s, n, d) ensures n != name { }
    }
  }

  lemma TailAfterNonDigit(front: string, digits: string)
    requires front != "" && !IsDigit(front[|front| - 1]) && AllDigits(digits)
    ensures DigitTail(front + digits) == |digits|
  {
    var s := front + digits;
    assert s[|s| - |digits|..] == digits && s[|front| - 1] == front[|front| - 1];
  }

  /** Encoding is injective on the names it can decode. */
  lemma EncodeIsInjective(n1: string, v1: int32, n2: string, v2: int32)
    requires n1 != "" && '\n' !in n1 && v1 >= 0
    requires n2 != "" && '\n' !in n2 && v2 >= 0
    requires ResourceSetName(n1, v1) == ResourceSetName(n2, v2)
    ensures n1 == n2 && v1 == v2
  {
    DecodeUndoesEncode(n1, v1);
    DecodeUndoesEncode(n2, v2);
  }

  /** The versions that the existing sets of `name` decode to. */
  ghost predicate HasVersion(existing: seq<string>, name: string, version: int32)
  {
    exists i :: 0 <= i < |existing| && DecodeResourceSetName(existing[i]) == Set(name, version)
  }

  /** One above the largest version of the name, or 1 when it has none. */
  ghost predicate IsNext(existing: seq<string>, name: string, version: int32)
  {
    && version >= 1
    && (forall v :: HasVersion(existing, name, v) ==> v < version)
    && (version > 1 ==> HasVersion(existing, name, version - 1))
  }

  datatype NextResult = NextPanics | Next(version: int32)

  /** next: one more than the largest version of the name, 1 when there is none. It wraps at the top. */
  method NextVersion(existing: seq<string>, name: string) returns (r: NextResult)
    ensures r.NextPanics? <==> exists i :: 0 <= i < |existing| && DecodeResourceSetName(existing[i]).Panics?
    ensures r.Next? && !HasVersion(existing, name, 0x7fff_ffff) ==> IsNext(existing, name, r.version)
    ensures r.Next? && HasVersion(existing, name, 0x7fff_ffff) ==> r.version == -0x8000_0000
  {
    hide DecodeResourceSetName;
    var cur: int32 := 0;
    for i := 0 to |existing|
      invariant forall j :: 0 <= j < i ==> !DecodeResourceSetName(existing[j]).Panics?
      invariant cur >= 0 && (cur > 0 ==> HasVersion(existing, name, cur))
      invariant forall j, v :: 0 <= j < i && DecodeResourceSetName(existing[j]) == Set(name, v) ==> v <= cur
    {
      match DecodeResourceSetName(existing[i])
      case Panics => return NextPanics;
      case NoMatch =>
      case Set(n, v) =>
        if n == name && v > cur {
          cur := v;
        }
    }
    return Next(ToInt32(cur as int + 1));
  }

  /** The name chosen for the next version is not in use, unless the current maximum is the last version. */
  lemma NextNameIsFresh(existing: seq<string>, name: string, version: int32)
    requires name != "" && '\n' !in name && version >= 0
    requires forall v :: HasVersion(existing, name, v) ==> v < version
    ensures ResourceSetName(name, version) !in existing
  {
    DecodeUndoesEncode(name, version);
    forall i | 0 <= i < |existing| ensures existing[i] != ResourceSetName(name, version) {
      assert DecodeResourceSetName(existing[i]) == Set(name, version) ==> HasVersion(existing, name, version);
    }
  }
}
