/** Scoping the hunks of a change to one operator (pilot/ascendc_pilot/change_contract.py). */
module HunkScope {
  import opened Text
  import opened Lists

  datatype Hunk = Hunk(id: string, newFile: string, oldFile: string, body: string)

  const NOISE := {".clang-format", "CMakeLists.txt", ".gitignore", ".gitattributes"}
  const MARKERS := ["op_host/", "op_kernel/", "common/", "tests/", "examples/"]
  const OWN_MARKERS := ["op_host/", "op_kernel/", "common/"]

  function NormRel(path: string): string {
    DropLeading(ReplaceChar(path, '\\', '/'), {'.', '/'})
  }

  function HunkPath(h: Hunk): string {
    NormRel(OrElse(h.newFile, h.oldFile))
  }

  /** The first place a text occurs; none when it does not. */
  function Find(s: string, sub: string, from: nat): (r: Option<nat>)
    requires from <= |s|
    ensures r.Some? ==> from <= r.value && r.value <= |s| && sub <= s[r.value..]
    decreases |s| - from
  {
    if sub <= s[from..] then Some(from)
    else if from == |s| then None
    else Find(s, sub, from + 1)
  }

  /** The search finds the first place where the text occurs, and fails only when there is none. */
  lemma {:induction false} FindIff(s: string, sub: string, from: nat)
    requires from <= |s|
    ensures Find(s, sub, from).Some? <==> exists k :: from <= k <= |s| && sub <= s[k..]
    ensures Find(s, sub, from).Some? ==> forall k :: from <= k < Find(s, sub, from).value ==> !(sub <= s[k..])
    decreases |s| - from
  {
    if sub <= s[from..] {
    } else if from < |s| {
      FindIff(s, sub, from + 1);
    }
  }

  /** A path is cut at the first of the markers that occurs in it, at its first occurrence; a path without any is not cut. */
  lemma {:induction false} SplitAtMarkerIs(n: string, markers: seq<string>, i: nat)
    requires i < |markers| && Find(n, markers[i], 0).Some?
    requires forall j :: 0 <= j < i ==> Find(n, markers[j], 0).None?
    ensures SplitAtMarker(n, markers) == (n[..Find(n, markers[i], 0).value], n[Find(n, markers[i], 0).value..])
    ensures markers[i] <= SplitAtMarker(n, markers).1
  {
    if i > 0 {
      assert Find(n, markers[0], 0).None?;
      assert forall j :: 0 <= j < |markers[1..]| ==> markers[1..][j] == markers[j + 1];
      SplitAtMarkerIs(n, markers[1..], i - 1);
    }
  }

  lemma {:induction false} SplitWithoutMarker(n: string, markers: seq<string>)
    requires forall j :: 0 <= j < |markers| ==> Find(n, markers[j], 0).None?
    ensures SplitAtMarker(n, markers) == ("", n)
  {
    if markers == [] {
    } else {
      assert Find(n, markers[0], 0).None?;
      assert forall j :: 0 <= j < |markers[1..]| ==> markers[1..][j] == markers[j + 1];
      SplitWithoutMarker(n, markers[1..]);
    }
  }

  function SplitAtMarker(n: string, markers: seq<string>): (r: (string, string))
    ensures r.0 + r.1 == n
  {
    if markers == [] then ("", n)
    else
      var at := Find(n, markers[0], 0);
      if at.Some? then (n[..at.value], n[at.value..]) else SplitAtMarker(n, markers[1..])
  }

  /** What stands before the first operator marker of a path, and the rest. */
  function SplitOperator(path: string): (string, string) {
    SplitAtMarker(NormRel(path), MARKERS)
  }

  predicate PrefixIsOperator(prefix: string, operator: string) {
    var pref := DropTrailing(NormRel(prefix), {'/'});
    var name := Trim(Python, operator);
    pref == "" || (name != "" && (pref == name || EndsWith(pref, "/" + name)))
  }

  predicate IsNoise(path: string) {
    NormRel(path) in NOISE || (LastSegment(NormRel(path)) in NOISE && '/' !in NormRel(path))
  }

  predicate StartsWithSome(s: string, markers: seq<string>) {
    exists i :: 0 <= i < |markers| && markers[i] <= s
  }

  predicate InOperatorTree(path: string, operator: string) {
    var (pref, rel) := SplitOperator(path);
    !IsNoise(path) && StartsWithSome(rel, OWN_MARKERS) && PrefixIsOperator(pref, operator)
  }

  /** One changed file accounts for a path: the same place in the same operator. */
  predicate Accounts(raw: string, path: string, operator: string) {
    var n, f := NormRel(path), NormRel(raw);
    var (hPref, hRel) := SplitOperator(n);
    var (fPref, fRel) := SplitOperator(f);
    && f != ""
    && ((hRel != "" && fRel != "" && hRel == fRel) || n == f || EndsWith(n, "/" + f) || EndsWith(f, "/" + n))
    && !(hPref != "" && fPref != "" && hPref != fPref)
    && (hPref != "" ==> PrefixIsOperator(hPref, operator))
    && (fPref != "" ==> PrefixIsOperator(fPref, operator))
  }

  predicate FileMatches(path: string, files: seq<string>, operator: string) {
    exists i :: 0 <= i < |files| && Accounts(files[i], path, operator)
  }

  function IsScoped(files: seq<string>, operator: string): Hunk -> bool {
    (h: Hunk) => HunkPath(h) != "" && FileMatches(HunkPath(h), NonBlank(Python, files), operator)
  }

  function IsRelevant(files: seq<string>, operator: string): Hunk -> bool {
    (h: Hunk) => HunkPath(h) != "" && !FileMatches(HunkPath(h), NonBlank(Python, files), operator)
                 && InOperatorTree(HunkPath(h), operator)
  }

  function IsDropped(files: seq<string>, operator: string): Hunk -> bool {
    (h: Hunk) => !IsScoped(files, operator)(h) && !IsRelevant(files, operator)(h)
  }

  method MatchesSomeFile(path: string, files: seq<string>, operator: string) returns (found: bool)
    ensures found == FileMatches(path, files, operator)
  {
    for i := 0 to |files|
      invariant forall k :: 0 <= k < i ==> !Accounts(files[k], path, operator)
    {
      if Accounts(files[i], path, operator) {
        return true;
      }
    }
    found := false;
  }

  /** The hunks of the operator's own changed files, and the others in its tree, both in input order. */
  method ScopeHunks(hunks: seq<Hunk>, files: seq<string>, operator: string)
    returns (scoped: seq<Hunk>, relevant: seq<Hunk>)
    ensures scoped == Filter(hunks, IsScoped(files, operator))
    ensures relevant == Filter(hunks, IsRelevant(files, operator))
  {
    hide FileMatches, InOperatorTree, HunkPath, NonBlank;
    scoped, relevant := [], [];
    var cleaned := NonBlank(Python, files);
    for i := 0 to |hunks|
      invariant scoped + Filter(hunks[i..], IsScoped(files, operator)) == Filter(hunks, IsScoped(files, operator))
      invariant relevant + Filter(hunks[i..], IsRelevant(files, operator)) == Filter(hunks, IsRelevant(files, operator))
    {
      var row := hunks[i];
      var path := HunkPath(row);
      assert hunks[i..][0] == row && hunks[i..][1..] == hunks[i + 1..];
      if path == "" {
        continue;
      }
      var matched := MatchesSomeFile(path, cleaned, operator);
      if matched {
        scoped := scoped + [row];
      } else if InOperatorTree(path, operator) {
        relevant := relevant + [row];
      }
    }
  }

  lemma {:induction false} PartsCount(hunks: seq<Hunk>, files: seq<string>, operator: string)
    ensures var scoped := Filter(hunks, IsScoped(files, operator));
            var relevant := Filter(hunks, IsRelevant(files, operator));
            var dropped := Filter(hunks, IsDropped(files, operator));
            && multiset(scoped) + multiset(relevant) + multiset(dropped) == multiset(hunks)
            && |scoped| + |relevant| + |dropped| == |hunks|
  {
    hide FileMatches, InOperatorTree, HunkPath, NonBlank;
    if hunks == [] {
    } else {
      PartsCount(hunks[1..], files, operator);
      assert hunks == [hunks[0]] + hunks[1..];
    }
  }

  /** The two outputs and what is dropped share the input out: no hunk is in two of them, none is lost,
      and what is dropped has no path or satisfies neither test. */
  lemma ScopeIsPartition(hunks: seq<Hunk>, files: seq<string>, operator: string)
    ensures var scoped := Filter(hunks, IsScoped(files, operator));
            var relevant := Filter(hunks, IsRelevant(files, operator));
            var dropped := Filter(hunks, IsDropped(files, operator));
            && multiset(scoped) + multiset(relevant) + multiset(dropped) == multiset(hunks)
            && |scoped| + |relevant| + |dropped| == |hunks|
            && (forall h :: h in scoped ==> h !in relevant)
            && (forall h :: h in dropped ==>
                  HunkPath(h) == "" || (!FileMatches(HunkPath(h), NonBlank(Python, files), operator)
                                        && !InOperatorTree(HunkPath(h), operator)))
  {
    hide FileMatches, InOperatorTree, HunkPath, NonBlank;
    PartsCount(hunks, files, operator);
    forall h ensures h in Filter(hunks, IsScoped(files, operator)) ==> h !in Filter(hunks, IsRelevant(files, operator)) {
      FilterMember(hunks, IsScoped(files, operator), h);
      FilterMember(hunks, IsRelevant(files, operator), h);
    }
    forall h | h in Filter(hunks, IsDropped(files, operator))
      ensures HunkPath(h) == "" || (!FileMatches(HunkPath(h), NonBlank(Python, files), operator)
                                    && !InOperatorTree(HunkPath(h), operator))
    {
      FilterMember(hunks, IsDropped(files, operator), h);
    }
  }

  // ----- no hunk of another operator is kept

  /** What follows the last slash. */
  function LastSegment(s: string): string {
    if s == "" || s[|s| - 1] == '/' then "" else LastSegment(s[..|s| - 1]) + [s[|s| - 1]]
  }

  /** The step of `LastSegmentIff` on non-empty texts: compare the last characters, then the rest. */
  lemma LastSegmentStep(q: string, n: string, c: char, d: char)
    requires d != '/'
    requires LastSegment(q) == n <==> q == n || EndsWith(q, "/" + n)
    ensures LastSegment(q + [c]) == n + [d] <==> q + [c] == n + [d] || EndsWith(q + [c], "/" + (n + [d]))
  {
    var p := q + [c];
    assert p[..|p| - 1] == q;
    assert LastSegment(p) == if c == '/' then "" else LastSegment(q) + [c];
    hide LastSegment;
    assert "/" + (n + [d]) == ("/" + n) + [d];
    EndsWithAppend(q, "/" + n, c, d);
    SnocInjective(q, n, c, d);
    SnocInjective(LastSegment(q), n, c, d);
  }

  lemma SnocInjective(a: string, b: string, c: char, d: char)
    ensures a + [c] == b + [d] <==> a == b && c == d
  {
    if a + [c] == b + [d] {
      assert |a| == |b|;
      assert a == (a + [c])[..|a|] && b == (b + [d])[..|a|];
      assert c == (a + [c])[|a|] && d == (b + [d])[|a|];
    }
  }

  /** A name without slashes is the last segment of a path exactly when the path is the name or ends with
      a slash and the name. */
  lemma {:induction false} LastSegmentIff(p: string, name: string)
    requires '/' !in name
    ensures LastSegment(p) == name <==> p == name || EndsWith(p, "/" + name)
    decreases |p|
  {
    if p != "" && name != "" {
      var q, n := p[..|p| - 1], name[..|name| - 1];
      assert p == q + [p[|p| - 1]] && name == n + [name[|name| - 1]];
      assert name[|name| - 1] in name;
      LastSegmentIff(q, n);
      LastSegmentStep(q, n, p[|p| - 1], name[|name| - 1]);
    } else if p != "" {
      assert p[|p| - 1..] == [p[|p| - 1]];
      assert "/" + name == "/";
    }
  }

  lemma EndsWithAppend(s: string, suffix: string, c: char, d: char)
    ensures EndsWith(s + [c], suffix + [d]) <==> EndsWith(s, suffix) && c == d
  {
    if |suffix| <= |s| {
      var k := |s| - |suffix|;
      assert (s + [c])[k..] == s[k..] + [c];
      if s[k..] + [c] == suffix + [d] {
        assert s[k..] == (s[k..] + [c])[..|suffix|];
        assert c == (s[k..] + [c])[|suffix|];
      }
    }
  }

  /** The directory an operator prefix names. */
  function OperatorOf(prefix: string): string {
    LastSegment(DropTrailing(prefix, {'/'}))
  }

  /** A non-empty prefix of a normalised path is accepted exactly when its last segment is the operator. */
  lemma PrefixIsOperatorIff(prefix: string, operator: string)
    requires prefix != "" && prefix[0] != '/' && prefix[0] != '.' && '\\' !in prefix
    requires '/' !in Trim(Python, operator)
    ensures PrefixIsOperator(prefix, operator) <==>
            Trim(Python, operator) != "" && OperatorOf(prefix) == Trim(Python, operator)
  {
    assert ReplaceChar(prefix, '\\', '/') == prefix;
    assert NormRel(prefix) == prefix;
    DropTrailingProperties(prefix, {'/'});
    var pref := DropTrailing(prefix, {'/'});
    hide Trim, DropTrailing, NormRel, LastSegment;
    LastSegmentIff(pref, Trim(Python, operator));
  }

  lemma NormRelShape(path: string)
    ensures var n := NormRel(path);
            && '\\' !in n && (n != "" ==> n[0] != '/' && n[0] != '.')
            && NormRel(n) == n
  {
    var r := ReplaceChar(path, '\\', '/');
    DropLeadingProperties(r, {'.', '/'});
    var n := DropLeading(r, {'.', '/'});
    assert forall i :: 0 <= i < |n| ==> n[i] == r[|r| - |n| + i];
    assert ReplaceChar(n, '\\', '/') == n;
  }

  /** The operator prefix of a path, when there is one, starts and reads like the path. */
  lemma PrefixShape(path: string)
    ensures var pref := SplitOperator(path).0;
            pref <= NormRel(path) && '\\' !in pref && (pref != "" ==> pref[0] != '/' && pref[0] != '.')
  {
    NormRelShape(path);
    hide NormRel, SplitAtMarker;
    var pref := SplitOperator(path).0;
    assert pref + SplitOperator(path).1 == NormRel(path);
    assert forall c :: c in pref ==> c in NormRel(path);
  }

  /** No kept hunk lies under the prefix of another operator. */
  lemma KeptHunksAreOwn(hunks: seq<Hunk>, files: seq<string>, operator: string, h: Hunk)
    requires '/' !in Trim(Python, operator)
    requires h in Filter(hunks, IsScoped(files, operator)) || h in Filter(hunks, IsRelevant(files, operator))
    ensures var pref := SplitOperator(HunkPath(h)).0;
            pref != "" ==> OperatorOf(pref) == Trim(Python, operator) != ""
  {
    FilterMember(hunks, IsScoped(files, operator), h);
    FilterMember(hunks, IsRelevant(files, operator), h);
    var path := HunkPath(h);
    NormRelShape(OrElse(h.newFile, h.oldFile));
    PrefixShape(path);
    var pref := SplitOperator(path).0;
    if pref != "" {
      assert PrefixIsOperator(pref, operator);
      PrefixIsOperatorIff(pref, operator);
    }
  }

  // ----- the digest

  datatype Row = Row(id: string, newFile: string, oldFile: string)

  function RowOf(h: Hunk): Row {
    Row(h.id, h.newFile, h.oldFile)
  }

  function GroupKey(h: Hunk): string {
    OrElse(HunkPath(h), "_")
  }

  function OfGroup(key: string): Hunk -> bool {
    (h: Hunk) => GroupKey(h) == key
  }

  /** The group keys in the order their first hunks come. */
  function Keys(hunks: seq<Hunk>): seq<string> {
    if hunks == [] then []
    else
      var before := Keys(hunks[..|hunks| - 1]);
      var key := GroupKey(hunks[|hunks| - 1]);
      if key in before then before else before + [key]
  }

  function Rows(hunks: seq<Hunk>): seq<Row> {
    seq(|hunks|, i requires 0 <= i < |hunks| => RowOf(hunks[i]))
  }

  function Take<T>(s: seq<T>, n: nat): seq<T> {
    if |s| <= n then s else s[..n]
  }

  /** For each of the given groups, its first rows. */
  function DigestOf(hunks: seq<Hunk>, keys: seq<string>, perFile: nat): seq<Row> {
    if keys == [] then []
    else DigestOf(hunks, keys[..|keys| - 1], perFile)
         + Rows(Take(Filter(hunks, OfGroup(keys[|keys| - 1])), perFile))
  }

  predicate FirstBefore(hunks: seq<Hunk>, a: string, b: string) {
    exists p :: 0 <= p < |hunks| && GroupKey(hunks[p]) == a && forall q :: 0 <= q <= p ==> GroupKey(hunks[q]) != b
  }

  /** The keys are those of the hunks, each once, and come in the order of their first hunks. */
  lemma {:induction false} KeysInOrder(hunks: seq<Hunk>)
    ensures forall k :: k in Keys(hunks) <==> exists p :: 0 <= p < |hunks| && GroupKey(hunks[p]) == k
    ensures forall i, j :: 0 <= i < j < |Keys(hunks)| ==>
              Keys(hunks)[i] != Keys(hunks)[j] && FirstBefore(hunks, Keys(hunks)[i], Keys(hunks)[j])
    decreases |hunks|
  {
    hide GroupKey;
    if hunks == [] {
    } else {
      var last := |hunks| - 1;
      var before := hunks[..last];
      KeysInOrder(before);
      forall k ensures k in Keys(hunks) <==> exists p :: 0 <= p < |hunks| && GroupKey(hunks[p]) == k {
        if p :| 0 <= p < |before| && GroupKey(before[p]) == k {
          assert GroupKey(hunks[p]) == k;
        }
        if p :| 0 <= p < |hunks| && GroupKey(hunks[p]) == k {
          assert p < last ==> GroupKey(before[p]) == k;
        }
      }
      forall i, j | 0 <= i < j < |Keys(hunks)|
        ensures Keys(hunks)[i] != Keys(hunks)[j] && FirstBefore(hunks, Keys(hunks)[i], Keys(hunks)[j])
      {
        var a, b := Keys(hunks)[i], Keys(hunks)[j];
        assert a == Keys(before)[i] && a in Keys(before);
        var p: nat;
        if j < |Keys(before)| {
          assert FirstBefore(before, a, b);
          p :| p < |before| && GroupKey(before[p]) == a && forall q :: 0 <= q <= p ==> GroupKey(before[q]) != b;
        } else {
          p :| p < |before| && GroupKey(before[p]) == a;
          assert b !in Keys(before);
        }
        assert GroupKey(hunks[p]) == a;
        forall q | 0 <= q <= p ensures GroupKey(hunks[q]) != b {
          assert hunks[q] == before[q];
        }
      }
    }
  }

  lemma GroupsAppend(hunks: seq<Hunk>, h: Hunk, key: string)
    ensures Filter(hunks + [h], OfGroup(key)) == Filter(hunks, OfGroup(key)) + if GroupKey(h) == key then [h] else []
  {
    FilterConcat(hunks, [h], OfGroup(key));
  }

  lemma NoHunks()
    ensures forall k :: Filter([], OfGroup(k)) == []
  {
  }

  /** Groups the hunks by file: the groups' keys in order of appearance, and each group in input order. */
  method GroupByFile(hunks: seq<Hunk>) returns (byFile: map<string, seq<Hunk>>, order: seq<string>)
    ensures order == Keys(hunks)
    ensures forall k :: k in byFile <==> k in order
    ensures forall k :: k in byFile ==> byFile[k] == Filter(hunks, OfGroup(k))
  {
    hide OfGroup, GroupKey, Filter;
    NoHunks();
    byFile, order := map[], [];
    for i := 0 to |hunks|
      invariant order == Keys(hunks[..i])
      invariant forall k :: k in byFile <==> k in order
      invariant forall k :: k in byFile ==> byFile[k] == Filter(hunks[..i], OfGroup(k))
      invariant forall k :: k !in byFile ==> Filter(hunks[..i], OfGroup(k)) == []
    {
      var key := GroupKey(hunks[i]);
      ghost var next := hunks[..i + 1];
      assert next == hunks[..i] + [hunks[i]];
      assert next[..i] == hunks[..i];
      forall k ensures Filter(next, OfGroup(k)) == Filter(hunks[..i], OfGroup(k)) + if key == k then [hunks[i]] else [] {
        GroupsAppend(hunks[..i], hunks[i], k);
      }
      if key !in byFile {
        byFile := byFile[key := []];
        order := order + [key];
      }
      byFile := byFile[key := byFile[key] + [hunks[i]]];
    }
    assert hunks[..|hunks|] == hunks;
  }

  /** The first rows of the first groups, groups in the order of their names. */
  method Compact(hunks: seq<Hunk>, fileCap: nat, perFile: nat) returns (out: seq<Row>)
    ensures out == DigestOf(hunks, Take(SortTexts(Keys(hunks)), fileCap), perFile)
  {
    hide OfGroup, GroupKey, Keys, SortTexts, SortedTexts, Rows, Filter, TextBelow;
    var byFile, order := GroupByFile(hunks);
    SortTextsProperties(order);
    var keys := SortTexts(order);
    out := [];
    var idx := 0;
    while idx < |keys|
      invariant 0 <= idx <= |keys|
      invariant idx <= fileCap
      invariant out == DigestOf(hunks, keys[..idx], perFile)
    {
      if idx >= fileCap {
        break;
      }
      assert keys[..idx + 1] == keys[..idx] + [keys[idx]];
      assert keys[..idx + 1][..idx] == keys[..idx];
      assert keys[idx] in keys;
      out := out + Rows(Take(byFile[keys[idx]], perFile));
      idx := idx + 1;
    }
    assert keys[..|keys|] == keys;
  }

  lemma {:induction false} DigestBounded(hunks: seq<Hunk>, keys: seq<string>, perFile: nat)
    ensures |DigestOf(hunks, keys, perFile)| <= |keys| * perFile
    decreases |keys|
  {
    if keys == [] {
    } else {
      hide Filter;
      var last := |keys| - 1;
      DigestBounded(hunks, keys[..last], perFile);
      MulStep(last, perFile);
    }
  }

  lemma MulStep(n: nat, k: nat)
    ensures (n + 1) * k == n * k + k
  {
  }

  /** Every row of the digest is made from a hunk of the input. */
  lemma {:induction false} DigestFromHunks(hunks: seq<Hunk>, keys: seq<string>, perFile: nat, r: Row)
    requires r in DigestOf(hunks, keys, perFile)
    ensures exists h :: h in hunks && h.id == r.id && h.newFile == r.newFile && h.oldFile == r.oldFile
    decreases |keys|
  {
    hide Filter;
    var last := |keys| - 1;
    var group := Filter(hunks, OfGroup(keys[last]));
    var rows := Rows(Take(group, perFile));
    if r in DigestOf(hunks, keys[..last], perFile) {
      DigestFromHunks(hunks, keys[..last], perFile, r);
    } else {
      var i :| 0 <= i < |rows| && rows[i] == r;
      var h := Take(group, perFile)[i];
      FilterMember(hunks, OfGroup(keys[last]), h);
    }
  }

  /** No row of a listed group is lost while the group has room. */
  lemma {:induction false} DigestKeeps(hunks: seq<Hunk>, keys: seq<string>, perFile: nat, h: Hunk)
    requires h in hunks && GroupKey(h) in keys
    requires |Filter(hunks, OfGroup(GroupKey(h)))| <= perFile
    ensures RowOf(h) in DigestOf(hunks, keys, perFile)
    decreases |keys|
  {
    hide Filter, GroupKey;
    var last := |keys| - 1;
    if keys[last] == GroupKey(h) {
      var group := Filter(hunks, OfGroup(keys[last]));
      FilterMember(hunks, OfGroup(keys[last]), h);
      var i :| 0 <= i < |group| && group[i] == h;
      assert Rows(Take(group, perFile))[i] == RowOf(h);
    } else {
      assert keys == keys[..last] + [keys[last]];
      DigestKeeps(hunks, keys[..last], perFile, h);
    }
  }

  /** The digest has at most the allowed rows for the allowed number of files. */
  lemma CompactBounded(hunks: seq<Hunk>, fileCap: nat, perFile: nat)
    ensures |DigestOf(hunks, Take(SortTexts(Keys(hunks)), fileCap), perFile)| <= fileCap * perFile
  {
    var keys := Take(SortTexts(Keys(hunks)), fileCap);
    DigestBounded(hunks, keys, perFile);
    MulMonotone(|keys|, fileCap, perFile);
  }

  lemma MulMonotone(a: nat, b: nat, k: nat)
    requires a <= b
    ensures a * k <= b * k
  {
  }

  // ----- what is kept

  /** The operator that a path names is the given one, or it names none. */
  predicate NamesNoOther(path: string, operator: string) {
    var pref := SplitOperator(path).0;
    pref == "" || PrefixIsOperator(pref, operator)
  }

  /** A hunk of a changed file, as it is listed, is scoped exactly when the path names no other operator. */
  lemma ListedFileIsScopedIff(hunks: seq<Hunk>, files: seq<string>, operator: string, h: Hunk, i: nat)
    requires h in hunks && i < |NonBlank(Python, files)|
    requires NormRel(NonBlank(Python, files)[i]) == HunkPath(h) != ""
    requires forall j :: 0 <= j < |NonBlank(Python, files)| && j != i ==>
               !Accounts(NonBlank(Python, files)[j], HunkPath(h), operator)
    ensures h in Filter(hunks, IsScoped(files, operator)) <==> NamesNoOther(HunkPath(h), operator)
  {
    var path, kept := HunkPath(h), NonBlank(Python, files);
    FilterMember(hunks, IsScoped(files, operator), h);
    NormRelShape(OrElse(h.newFile, h.oldFile));
    AccountsForItself(kept[i], path, operator);
    hide Accounts, NonBlank, NormRel, SplitOperator, HunkPath;
    assert FileMatches(path, kept, operator) <==> Accounts(kept[i], path, operator);
  }

  lemma AccountsForItself(raw: string, path: string, operator: string)
    requires NormRel(raw) == path != "" && NormRel(path) == path
    ensures Accounts(raw, path, operator) <==> NamesNoOther(path, operator)
  {
    hide SplitAtMarker, PrefixIsOperator, NormRel;
  }

  /** One path is the other's end, cut at a slash. */
  ghost predicate IsTailOf(short: string, long: string) {
    exists above :: long == above + "/" + short
  }

  lemma TailIff(short: string, long: string)
    ensures EndsWith(long, "/" + short) <==> IsTailOf(short, long)
  {
    var tail := "/" + short;
    if EndsWith(long, tail) {
      assert long == long[..|long| - |tail|] + "/" + short;
    }
    if above :| long == above + "/" + short {
      assert long == above + tail;
      assert long[|above|..] == tail;
    }
  }

  /** A listed file accounts for a path exactly when they are in the same place of an operator, or the same path as far
      as both are given, and name no other operator and no two directories of it. */
  lemma AccountsIff(raw: string, path: string, operator: string)
    requires NormRel(path) == path
    ensures var f := NormRel(raw);
            var (own, place) := SplitOperator(path);
            var (listed, there) := SplitOperator(f);
            Accounts(raw, path, operator) <==>
              && f != ""
              && ((place == there && place != "") || path == f || IsTailOf(f, path) || IsTailOf(path, f))
              && (own == "" || listed == "" || own == listed)
              && NamesNoOther(path, operator) && NamesNoOther(f, operator)
  {
    NormRelShape(raw);
    TailIff(NormRel(raw), path);
    TailIff(path, NormRel(raw));
    hide SplitAtMarker, PrefixIsOperator, NormRel, EndsWith, IsTailOf;
  }

  /** Which other paths are relevant: those in the operator's own sources that are no repository noise. */
  lemma InOperatorTreeIff(path: string, operator: string)
    requires NormRel(path) == path
    ensures InOperatorTree(path, operator)
            <==> && path != ".clang-format" && path != "CMakeLists.txt" && path != ".gitignore" && path != ".gitattributes"
                 && NamesNoOther(path, operator)
                 && var rel := SplitOperator(path).1;
                    "op_host/" <= rel || "op_kernel/" <= rel || "common/" <= rel
  {
    NoiseIff(path);
    EmptyPrefix(operator);
    var rel := SplitOperator(path).1;
    assert OWN_MARKERS[0] == "op_host/" && OWN_MARKERS[1] == "op_kernel/" && OWN_MARKERS[2] == "common/";
    hide SplitAtMarker, PrefixIsOperator, NormRel, IsNoise;
  }

  lemma EmptyPrefix(operator: string)
    ensures PrefixIsOperator("", operator)
  {
  }

  lemma NoiseIff(path: string)
    requires NormRel(path) == path
    ensures IsNoise(path) <==> path in {".clang-format", "CMakeLists.txt", ".gitignore", ".gitattributes"}
  {
    hide NormRel;
    if '/' !in path {
      WholeIsLast(path);
    }
  }

  lemma {:induction false} WholeIsLast(s: string)
    requires '/' !in s
    ensures LastSegment(s) == s
    decreases |s|
  {
    if s == "" {
    } else {
      assert s[|s| - 1] in s;
      WholeIsLast(s[..|s| - 1]);
      assert s == s[..|s| - 1] + [s[|s| - 1]];
    }
  }
}
