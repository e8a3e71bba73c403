/** The two rewrites of the CoreDNS Corefile, and the methods that store them in the ConfigMap. */
module Corefile {
  import opened Wrappers

  const COREFILE_NAME := "Corefile"
  const ZONE_START := ".:53 {\n"
  const HOSTS_BLOCK :=
    "    hosts hosts metadata.google.internal {\n"
    + "        169.254.169.254 metadata.google.internal\n"
    + "        fallthrough\n"
    + "    }\n"
  const ZONE_START_PATCHED := ZONE_START + HOSTS_BLOCK

  ghost predicate OccursAt(s: string, pat: string, i: int)
  {
    0 <= i && i + |pat| <= |s| && s[i..i + |pat|] == pat
  }

  ghost predicate Contains(s: string, pat: string)
  {
    exists i :: OccursAt(s, pat, i)
  }

  /** Position of the first occurrence of `pat` at or after `from`, as strings.Index finds it. */
  function IndexFrom(s: string, pat: string, from: nat): (r: Option<nat>)
    requires from <= |s|
    ensures r.None? ==> forall i :: from <= i ==> !OccursAt(s, pat, i)
    ensures r.Some? ==> from <= r.value && OccursAt(s, pat, r.value)
    ensures r.Some? ==> forall i :: from <= i < r.value ==> !OccursAt(s, pat, i)
    decreases |s| - from
  {
    if from + |pat| > |s| then None
    else if s[from..from + |pat|] == pat then Some(from)
    else if from == |s| then None
    else IndexFrom(s, pat, from + 1)
  }

  function Index(s: string, pat: string): Option<nat> {
    IndexFrom(s, pat, 0)
  }

  /** strings.Replace(s, old, new, 1): the first occurrence only. */
  function ReplaceFirst(s: string, before: string, after: string): string {
    match Index(s, before)
    case None => s
    case Some(i) => s[..i] + after + s[i + |before|..]
  }

  /** The text PatchCorefile stores. */
  function PatchText(t: string): string {
    if Index(t, ZONE_START_PATCHED).Some? then t else ReplaceFirst(t, ZONE_START, ZONE_START_PATCHED)
  }

  /** The text RevertCorefile stores. */
  function RevertText(t: string): string {
    if Index(t, ZONE_START_PATCHED).None? then t else ReplaceFirst(t, ZONE_START_PATCHED, ZONE_START)
  }

  lemma IndexIffContains(s: string, pat: string)
    ensures Index(s, pat).Some? <==> Contains(s, pat)
  {
    if Contains(s, pat) {
      var i :| OccursAt(s, pat, i);
    }
  }

  // A first occurrence is unique, so any first occurrence is the one Index reports.
  lemma FirstIsIndex(s: string, pat: string, i: nat)
    requires OccursAt(s, pat, i)
    requires forall j :: 0 <= j < i ==> !OccursAt(s, pat, j)
    ensures Index(s, pat) == Some(i)
  {
  }

  /** `u` without the `rest` of the block at j, and `t` with `rest` put in behind the start at i. */
  function Cut(u: string, start: string, rest: string, j: nat): (t: string)
    requires j + |start + rest| <= |u|
    ensures |t| == |u| - |rest|
  {
    u[..j] + start + u[j + |start + rest|..]
  }

  function Splice(t: string, start: string, rest: string, i: nat): string
    requires i + |start| <= |t|
  {
    t[..i] + (start + rest) + t[i + |start|..]
  }

  // A longer pattern occurs only where its prefix does.
  lemma PrefixOccurs(s: string, prefix: string, rest: string, i: int)
    requires OccursAt(s, prefix + rest, i)
    ensures OccursAt(s, prefix, i)
  {
    assert (prefix + rest)[..|prefix|] == prefix;
    assert s[i..i + |prefix|] == s[i..i + |prefix + rest|][..|prefix|];
  }

  // Occurrences that end within a common prefix are the same in both texts.
  lemma SameWithinPrefix(s: string, t: string, pat: string, n: nat, j: nat)
    requires n <= |s| && n <= |t| && s[..n] == t[..n] && j + |pat| <= n
    ensures OccursAt(s, pat, j) <==> OccursAt(t, pat, j)
  {
    assert s[..n][j..j + |pat|] == s[j..j + |pat|];
    assert t[..n][j..j + |pat|] == t[j..j + |pat|];
  }

  // Splicing `rest` in behind the first occurrence of `start` leaves that occurrence the first one,
  // of `start` and of `start + rest` both.
  lemma SplicedBlockIsFirst(t: string, start: string, rest: string, i: nat)
    requires Index(t, start) == Some(i)
    ensures Index(Splice(t, start, rest, i), start + rest) == Some(i)
    ensures Index(Splice(t, start, rest, i), start) == Some(i)
  {
    hide IndexFrom;
    var n := i + |start|;
    var u := Splice(t, start, rest, i);
    assert OccursAt(u, start + rest, i);
    PrefixOccurs(u, start, rest, i);
    assert t[..n] == t[..i] + t[i..n];
    assert u == (t[..i] + start) + (rest + t[n..]);
    assert u[..n] == t[..n];
    forall j | 0 <= j < i
      ensures !OccursAt(u, start, j)
      ensures !OccursAt(u, start + rest, j)
    {
      SameWithinPrefix(u, t, start, n, j);
      if OccursAt(u, start + rest, j) {
        PrefixOccurs(u, start, rest, j);
      }
    }
    FirstIsIndex(u, start + rest, i);
    FirstIsIndex(u, start, i);
  }

  // Cutting `rest` out again: the first occurrence of `start` stays where it was in the longer text.
  lemma CutBlockKeepsFirst(u: string, start: string, rest: string, j: nat)
    requires Index(u, start + rest) == Some(j)
    ensures Index(Cut(u, start, rest, j), start) == Index(u, start) != None
  {
    hide IndexFrom;
    var n := j + |start|;
    var t := Cut(u, start, rest, j);
    PrefixOccurs(u, start, rest, j);
    assert OccursAt(t, start, j);
    assert u[..n] == u[..j] + u[j..n];
    assert t[..n] == u[..n];
    var i := Index(u, start).value;
    forall k | 0 <= k <= i
      ensures OccursAt(t, start, k) <==> OccursAt(u, start, k)
    {
      SameWithinPrefix(t, u, start, n, k);
    }
    FirstIsIndex(t, start, i);
  }

  // The two rewrites with the two literals left out: `Patch` and `Revert` of any block.
  lemma CutUndoesSplice(t: string, start: string, rest: string, i: nat)
    requires Index(t, start) == Some(i)
    ensures ReplaceFirst(ReplaceFirst(t, start, start + rest), start + rest, start) == t
  {
    SplicedBlockIsFirst(t, start, rest, i);
    var u := Splice(t, start, rest, i);
    assert u[..i] == t[..i];
    assert u[i + |start + rest|..] == t[i + |start|..];
    assert t == t[..i] + t[i..i + |start|] + t[i + |start|..];
  }

  lemma SpliceAfterCut(u: string, start: string, rest: string, j: nat)
    requires OccursAt(u, start + rest, j)
    ensures Splice(Cut(u, start, rest, j), start, rest, j) == u
  {
    var t := Cut(u, start, rest, j);
    assert t[..j] == u[..j];
    assert t[j + |start|..] == u[j + |start + rest|..];
    assert u == u[..j] + u[j..j + |start + rest|] + u[j + |start + rest|..];
  }

  lemma SpliceUndoesCut(u: string, start: string, rest: string, j: nat)
    requires Index(u, start + rest) == Some(j)
    ensures ReplaceFirst(ReplaceFirst(u, start + rest, start), start, start + rest) == u <==> Index(u, start) == Some(j)
    ensures |ReplaceFirst(u, start + rest, start)| == |u| - |rest|
    ensures Index(ReplaceFirst(u, start + rest, start), start).Some?
  {
    hide IndexFrom;
    var t := Cut(u, start, rest, j);
    assert t == ReplaceFirst(u, start + rest, start);
    PrefixOccurs(u, start, rest, j);
    CutBlockKeepsFirst(u, start, rest, j);
    var i := Index(t, start).value;
    SplicedBlockIsFirst(t, start, rest, i);
    assert ReplaceFirst(t, start, start + rest) == Splice(t, start, rest, i);
    if i == j {
      SpliceAfterCut(u, start, rest, j);
    }
  }

  /** Reverting a patched text gives the text back, exactly when it was not patched to begin with. */
  lemma RevertUndoesPatch(t: string)
    requires Contains(t, ZONE_START)
    ensures RevertText(PatchText(t)) == t <==> !Contains(t, ZONE_START_PATCHED)
  {
    IndexIffContains(t, ZONE_START);
    IndexIffContains(t, ZONE_START_PATCHED);
    if Contains(t, ZONE_START_PATCHED) {
      SpliceUndoesCut(t, ZONE_START, HOSTS_BLOCK, Index(t, ZONE_START_PATCHED).value);
    } else {
      var i := Index(t, ZONE_START).value;
      CutUndoesSplice(t, ZONE_START, HOSTS_BLOCK, i);
      SplicedBlockIsFirst(t, ZONE_START, HOSTS_BLOCK, i);
    }
  }

  /** A second patch changes nothing, and neither rewrite loses the zone start the other needs. */
  lemma PatchIsIdempotent(t: string)
    requires Contains(t, ZONE_START)
    ensures PatchText(PatchText(t)) == PatchText(t)
    ensures Contains(PatchText(t), ZONE_START_PATCHED)
    ensures Contains(PatchText(t), ZONE_START) && Contains(RevertText(t), ZONE_START)
  {
    IndexIffContains(t, ZONE_START);
    IndexIffContains(t, ZONE_START_PATCHED);
    if Index(t, ZONE_START_PATCHED).None? {
      SplicedBlockIsFirst(t, ZONE_START, HOSTS_BLOCK, Index(t, ZONE_START).value);
    } else {
      SpliceUndoesCut(t, ZONE_START, HOSTS_BLOCK, Index(t, ZONE_START_PATCHED).value);
    }
    IndexIffContains(PatchText(t), ZONE_START_PATCHED);
    IndexIffContains(PatchText(t), ZONE_START);
    IndexIffContains(RevertText(t), ZONE_START);
  }

  // ----- What a revert leaves behind -----

  /** A block that reverting the first one, at j, leaves in the text: another block further on, or one that comes about
      because a second copy of the host lines follows the first. */
  ghost predicate BlockIsLeft(u: string, j: nat) {
    || OccursAt(u, HOSTS_BLOCK, j + |ZONE_START_PATCHED|)
    || exists k :: k > j && OccursAt(u, ZONE_START_PATCHED, k)
  }

  lemma CharAt(s: string, pat: string, i: int, m: nat)
    requires OccursAt(s, pat, i) && m < |pat|
    ensures s[i + m] == pat[m]
  {
    assert s[i..i + |pat|][m] == pat[m];
  }

  /** A block begins with a dot and a colon, has no other colon, no other dot in its first line, and no dot at its
      end. */
  ghost predicate Marked(start: string, rest: string) {
    && |start| > 1 && rest != "" && rest[|rest| - 1] != '.'
    && (forall m :: 0 <= m < |start| ==> (start[m] == '.' <==> m == 0) && (start[m] == ':' <==> m == 1))
    && ':' !in rest
  }

  lemma HostsBlockIsMarked()
    ensures Marked(ZONE_START, HOSTS_BLOCK)
  {
    var l1, l2 := "    hosts hosts metadata.google.internal {\n", "        169.254.169.254 metadata.google.internal\n";
    var l3, l4 := "        fallthrough\n", "    }\n";
    assert HOSTS_BLOCK == l1 + l2 + l3 + l4;
    assert ':' !in l1 && ':' !in l2 && ':' !in l3 && ':' !in l4;
  }

  // Where the block occurs, so do its dot and its colon.
  lemma MarksAt(s: string, start: string, rest: string, i: int)
    requires Marked(start, rest) && OccursAt(s, start + rest, i)
    ensures 0 <= i && i + |start| + |rest| <= |s| && |start| > 1 && |rest| > 0
    ensures s[i] == '.' && s[i + |start| + |rest| - 1] != '.'
    ensures forall p :: i <= p < i + |start| + |rest| ==> (s[p] == ':' <==> p == i + 1)
  {
    var block := start + rest;
    forall p | i <= p < i + |block| ensures s[p] == block[p - i] && (block[p - i] == ':' <==> p == i + 1) {
      CharAt(s, block, i, p - i);
      if p - i >= |start| {
        assert block[p - i] == rest[p - i - |start|] && rest[p - i - |start|] in rest;
      }
    }
    assert block[|block| - 1] == rest[|rest| - 1];
  }

  lemma BlocksDoNotOverlap(s: string, start: string, rest: string, i: int, k: int)
    requires Marked(start, rest) && OccursAt(s, start + rest, i) && OccursAt(s, start + rest, k) && i < k
    ensures k >= i + |start + rest|
  {
    hide OccursAt, Marked;
    MarksAt(s, start, rest, i);
    MarksAt(s, start, rest, k);
    assert s[k + 1] == ':' && s[k] == '.';
  }

  // Up to the start at j no block comes about.
  lemma NoBlockBefore(u: string, start: string, rest: string, j: nat, k: nat)
    requires Marked(start, rest) && OccursAt(u, start + rest, j)
    requires forall i :: 0 <= i < j ==> !OccursAt(u, start + rest, i)
    requires k < j + |start| && k != j
    ensures !OccursAt(Cut(u, start, rest, j), start + rest, k)
  {
    var t, n := Cut(u, start, rest, j), j + |start|;
    PrefixOccurs(u, start, rest, j);
    assert u[..n] == u[..j] + u[j..n];
    assert t[..n] == u[..n] && t[j..n] == start;
    if k > j {
      assert t[k] == t[j..n][k - j] == start[k - j];
    } else if k + |start + rest| <= n {
      SameWithinPrefix(t, u, start + rest, n, k);
    } else {
      assert t[j + 1] == t[j..n][1] == start[1];
    }
    if OccursAt(t, start + rest, k) {
      MarksAt(t, start, rest, k);
    }
  }

  // At the start a block comes about if the rest follows once more.
  lemma BlockAtStart(u: string, start: string, rest: string, j: nat)
    requires OccursAt(u, start + rest, j)
    ensures OccursAt(Cut(u, start, rest, j), start + rest, j) <==> OccursAt(u, rest, j + |start + rest|)
  {
    var t, n, m := Cut(u, start, rest, j), j + |start|, |start + rest|;
    assert t[n..] == u[j + m..] && t[j..n] == start;
    if n + |rest| <= |t| {
      assert t[j..j + m] == start + t[n..n + |rest|];
      assert t[n..n + |rest|] == t[n..][..|rest|] == u[j + m..j + m + |rest|];
      assert t[j..j + m][|start|..] == t[n..n + |rest|];
      assert (start + rest)[|start|..] == rest;
    }
  }

  // Behind it the blocks are those of the text before, shifted.
  lemma BlocksAfter(u: string, start: string, rest: string, j: nat, k: nat)
    requires OccursAt(u, start + rest, j) && k >= j + |start|
    ensures OccursAt(Cut(u, start, rest, j), start + rest, k) <==> OccursAt(u, start + rest, k + |rest|)
  {
    var t, n, m := Cut(u, start, rest, j), j + |start|, |start + rest|;
    assert t[n..] == u[j + m..];
    if k + m <= |t| {
      assert t[k..k + m] == t[n..][k - n..k - n + m];
      assert u[k + |rest|..k + |rest| + m] == u[j + m..][k - n..k - n + m];
    }
  }

  lemma CutLeavesBlockIff(u: string, start: string, rest: string, j: nat)
    requires Marked(start, rest) && OccursAt(u, start + rest, j)
    requires forall i :: 0 <= i < j ==> !OccursAt(u, start + rest, i)
    ensures Contains(Cut(u, start, rest, j), start + rest) <==>
      OccursAt(u, rest, j + |start + rest|) || exists k :: k > j && OccursAt(u, start + rest, k)
  {
    hide Cut, Marked;
    var t := Cut(u, start, rest, j);
    BlockAtStart(u, start, rest, j);
    if k :| OccursAt(t, start + rest, k) {
      if k < j + |start| && k != j {
        NoBlockBefore(u, start, rest, j, k);
      } else if k != j {
        BlocksAfter(u, start, rest, j, k);
      }
    }
    if k :| k > j && OccursAt(u, start + rest, k) {
      BlocksDoNotOverlap(u, start, rest, j, k);
      BlocksAfter(u, start, rest, j, k - |rest|);
      assert OccursAt(t, start + rest, k - |rest|);
    }
  }

  lemma FirstBlock(u: string, j: nat)
    requires Index(u, ZONE_START_PATCHED) == Some(j)
    ensures OccursAt(u, ZONE_START + HOSTS_BLOCK, j)
    ensures forall i :: 0 <= i < j ==> !OccursAt(u, ZONE_START + HOSTS_BLOCK, i)
    ensures RevertText(u) == Cut(u, ZONE_START, HOSTS_BLOCK, j)
  {
    hide IndexFrom;
  }

  /** Whether the reverted text still holds a block can be told from the text before. */
  lemma RevertLeavesBlockIff(u: string, j: nat)
    requires Index(u, ZONE_START_PATCHED) == Some(j)
    ensures Contains(RevertText(u), ZONE_START_PATCHED) <==> BlockIsLeft(u, j)
  {
    hide Index, RevertText, OccursAt, Cut, Marked;
    FirstBlock(u, j);
    HostsBlockIsMarked();
    CutLeavesBlockIff(u, ZONE_START, HOSTS_BLOCK, j);
  }

  /** A second revert changes nothing exactly when there is no block, or none besides the first and no second copy of
      its host lines right behind it. */
  lemma RevertIsIdempotent(t: string)
    ensures RevertText(RevertText(t)) == RevertText(t) <==>
      var j := Index(t, ZONE_START_PATCHED); j.None? || !BlockIsLeft(t, j.value)
  {
    hide BlockIsLeft;
    var u := RevertText(t);
    IndexIffContains(u, ZONE_START_PATCHED);
    if Index(u, ZONE_START_PATCHED).Some? {
      SpliceUndoesCut(u, ZONE_START, HOSTS_BLOCK, Index(u, ZONE_START_PATCHED).value);
    }
    if Index(t, ZONE_START_PATCHED).Some? {
      RevertLeavesBlockIff(t, Index(t, ZONE_START_PATCHED).value);
    }
  }

  /** In the other order: patching a reverted text gives it back exactly when its first zone start
      opened the first block and reverting that leaves no other. */
  lemma PatchUndoesRevert(u: string)
    requires Contains(u, ZONE_START_PATCHED)
    ensures PatchText(RevertText(u)) == u <==>
      var j := Index(u, ZONE_START_PATCHED); j.Some? && Index(u, ZONE_START) == j && !BlockIsLeft(u, j.value)
  {
    hide BlockIsLeft;
    IndexIffContains(u, ZONE_START_PATCHED);
    var j := Index(u, ZONE_START_PATCHED).value;
    SpliceUndoesCut(u, ZONE_START, HOSTS_BLOCK, j);
    IndexIffContains(RevertText(u), ZONE_START_PATCHED);
    RevertLeavesBlockIff(u, j);
  }

  datatype Error = NotReadable | NoCorefile | NoZoneStart | NotWritable

  datatype Outcome = Done | Failed(error: Error)

  /** The ConfigMap on the API server; None when it cannot be read. */
  class CoreDns {
    var data: Option<map<string, string>>

    constructor (initial: Option<map<string, string>>)
      ensures data == initial
    {
      data := initial;
    }

    /** The Corefile a rewrite starts from, or the reason there is none. */
    function GetCorefile(): (r: (Option<string>, Error))
      reads this
      ensures r.0.Some? <==>
        data.Some? && COREFILE_NAME in data.value && Contains(data.value[COREFILE_NAME], ZONE_START)
      ensures r.0.Some? ==> data.value[COREFILE_NAME] == r.0.value
    {
      if data.None? then (None, NotReadable)
      else if COREFILE_NAME !in data.value then (None, NoCorefile)
      else
        var text := data.value[COREFILE_NAME];
        IndexIffContains(text, ZONE_START);
        if Index(text, ZONE_START).None? then (None, NoZoneStart) else (Some(text), NotReadable)
    }

    method PatchCorefile(writable: bool) returns (r: Outcome)
      modifies this
      ensures r.Failed? ==> data == old(data)
      ensures r.Done? ==>
        && old(GetCorefile()).0.Some?
        && data == Some(old(data).value[COREFILE_NAME := PatchText(old(data).value[COREFILE_NAME])])
      ensures old(GetCorefile()).0.None? ==> r == Failed(old(GetCorefile()).1)
      ensures old(GetCorefile()).0.Some? ==>
        (r.Done? <==> writable || Contains(old(data).value[COREFILE_NAME], ZONE_START_PATCHED))
        && (r.Failed? ==> r.error == NotWritable)
    {
      var (found, error) := GetCorefile();
      if found.None? {
        return Failed(error);
      }
      IndexIffContains(found.value, ZONE_START_PATCHED);
      if Index(found.value, ZONE_START_PATCHED).Some? {
        assert data.value[COREFILE_NAME := found.value] == data.value;
        return Done;
      }
      var cm := data.value[COREFILE_NAME := ReplaceFirst(found.value, ZONE_START, ZONE_START_PATCHED)];
      if !writable {
        return Failed(NotWritable);
      }
      data := Some(cm);
      return Done;
    }

    method RevertCorefile(writable: bool) returns (r: Outcome)
      modifies this
      ensures r.Failed? ==> data == old(data)
      ensures r.Done? ==>
        && old(GetCorefile()).0.Some?
        && data == Some(old(data).value[COREFILE_NAME := RevertText(old(data).value[COREFILE_NAME])])
      ensures old(GetCorefile()).0.None? ==> r == Failed(old(GetCorefile()).1)
      ensures old(GetCorefile()).0.Some? ==>
        (r.Done? <==> writable || !Contains(old(data).value[COREFILE_NAME], ZONE_START_PATCHED))
        && (r.Failed? ==> r.error == NotWritable)
    {
      var (found, error) := GetCorefile();
      if found.None? {
        return Failed(error);
      }
      IndexIffContains(found.value, ZONE_START_PATCHED);
      if Index(found.value, ZONE_START_PATCHED).None? {
        assert data.value[COREFILE_NAME := found.value] == data.value;
        return Done;
      }
      var cm := data.value[COREFILE_NAME := ReplaceFirst(found.value, ZONE_START_PATCHED, ZONE_START)];
      if !writable {
        return Failed(NotWritable);
      }
      data := Some(cm);
      return Done;
    }
  }

  /** Patching and reverting leaves the ConfigMap as it was, for every unpatched Corefile. */
  method PatchThenRevert(c: CoreDns)
    requires c.GetCorefile().0.Some?
    requires !Contains(c.data.value[COREFILE_NAME], ZONE_START_PATCHED)
    modifies c
    ensures c.data == old(c.data)
  {
    var cm := c.data.value;
    var text := cm[COREFILE_NAME];
    PatchIsIdempotent(text);
    RevertUndoesPatch(text);
    var patched := c.PatchCorefile(true);
    var reverted := c.RevertCorefile(true);
    assert cm[COREFILE_NAME := PatchText(text)][COREFILE_NAME := text] == cm;
  }
}
