/** Operators and architectures of a pull request (engines/workspace/pr_workspace.py): the matrix with one
    row per operator, and the flat list of (operator, architecture) pairs. */
module OperatorTargets {
  import opened Text
  import opened Lists

  /** A row of either form: with a list of architectures, or with one. */
  datatype Row = Row(root: string, name: string, arches: Option<seq<string>>, arch: string)

  /** The last component of a path; components "" and "." do not count. */
  function LastName(parts: seq<string>): string {
    if parts == [] then ""
    else
      var last := parts[|parts| - 1];
      if last == "" || last == "." then LastName(parts[..|parts| - 1]) else last
  }

  function NameOf(name: string, root: string): string {
    OrElse(name, LastName(Split(root, '/')))
  }

  function ArchesOf(row: Row): seq<string> {
    if row.arches.Some? then NonBlank(Python, row.arches.value) else []
  }

  function AppendNew(s: seq<string>, x: string): seq<string> {
    if x != "" && x !in s then s + [x] else s
  }

  function MatrixRow(row: Row): seq<Row> {
    var root := Trim(Python, row.root);
    if root == "" then []
    else [Row(root, NameOf(row.name, root), Some(AppendNew(ArchesOf(row), Trim(Python, row.arch))), "")]
  }

  function MatrixRows(rows: seq<Row>): seq<Row> {
    if rows == [] then [] else MatrixRow(rows[0]) + MatrixRows(rows[1..])
  }

  predicate HasRoot(g: seq<Row>, root: string) {
    exists i :: 0 <= i < |g| && g[i].root == root
  }

  /** Adds an architecture to the row of a root. */
  function WithArch(g: seq<Row>, root: string, arch: string): seq<Row> {
    if g == [] then []
    else if g[0].root == root && g[0].arches.Some? then
      [g[0].(arches := Some(AppendNew(g[0].arches.value, arch)))] + g[1..]
    else [g[0]] + WithArch(g[1..], root, arch)
  }

  /** One flat pair added to the groups. */
  function AddPair(g: seq<Row>, row: Row): seq<Row> {
    var root := Trim(Python, row.root);
    if root == "" then g
    else
      var withRow := if HasRoot(g, root) then g else g + [Row(root, NameOf(row.name, root), Some([]), "")];
      WithArch(withRow, root, Trim(Python, row.arch))
  }

  function GroupInto(g: seq<Row>, rows: seq<Row>): seq<Row>
    decreases rows
  {
    if rows == [] then g else GroupInto(AddPair(g, rows[0]), rows[1..])
  }

  predicate IsMatrix(rows: seq<Row>) {
    exists i :: 0 <= i < |rows| && rows[i].arches.Some?
  }

  function Normalize(rows: seq<Row>): seq<Row> {
    if IsMatrix(rows) then MatrixRows(rows) else GroupInto([], rows)
  }

  function Pair(root: string, name: string, arch: string): Row {
    Row(root, name, None, arch)
  }

  function PairsOf(root: string, name: string, arches: seq<string>): seq<Row> {
    if arches == [] then [] else [Pair(root, name, arches[0])] + PairsOf(root, name, arches[1..])
  }

  function FlatRow(row: Row): seq<Row> {
    var root := Trim(Python, row.root);
    if root == "" then []
    else if ArchesOf(row) == [] then [Pair(root, NameOf(row.name, root), "")]
    else PairsOf(root, NameOf(row.name, root), ArchesOf(row))
  }

  function Flatten(matrix: seq<Row>): seq<Row> {
    if matrix == [] then [] else FlatRow(matrix[0]) + Flatten(matrix[1..])
  }

  // ----- the loops

  /** A dictionary of rows in the order of its keys. */
  function Listed(grouped: map<string, Row>, order: seq<string>): seq<Row>
    requires forall r :: r in order ==> r in grouped
  {
    seq(|order|, i requires 0 <= i < |order| => grouped[order[i]])
  }

  ghost predicate GoodGroups(grouped: map<string, Row>, order: seq<string>) {
    && (forall r :: r in order <==> r in grouped)
    && (forall i, j :: 0 <= i < j < |order| ==> order[i] != order[j])
    && forall r :: r in grouped ==> grouped[r].root == r && grouped[r].arches.Some?
  }

  /** Adds one flat pair to the dictionary of groups. */
  method AddToGroups(grouped0: map<string, Row>, order0: seq<string>, row: Row)
    returns (grouped: map<string, Row>, order: seq<string>)
    requires GoodGroups(grouped0, order0)
    ensures GoodGroups(grouped, order)
    ensures Listed(grouped, order) == AddPair(Listed(grouped0, order0), row)
  {
    hide Trim, NameOf;
    grouped, order := grouped0, order0;
    var root := Trim(Python, row.root);
    if root == "" {
      return;
    }
    ListedHasRoot(grouped, order, root);
    if root !in grouped {
      grouped := grouped[root := Row(root, NameOf(row.name, root), Some([]), "")];
      order := order + [root];
      assert Listed(grouped, order) == Listed(grouped0, order0) + [grouped[root]];
    }
    var arch := Trim(Python, row.arch);
    ListedWithArch(grouped, order, root, arch);
    hide Listed, WithArch;
    ghost var updated := grouped[root].(arches := Some(AppendNew(grouped[root].arches.value, arch)));
    assert updated == grouped[root] ==> grouped[root := updated] == grouped;
    if arch != "" && arch !in grouped[root].arches.value {
      grouped := grouped[root := grouped[root].(arches := Some(grouped[root].arches.value + [arch]))];
    }
  }

  method GroupPairs(rows: seq<Row>) returns (out: seq<Row>)
    ensures out == GroupInto([], rows)
  {
    var grouped: map<string, Row> := map[];
    var order: seq<string> := [];
    assert Listed(grouped, order) == [];
    hide AddPair;
    for i := 0 to |rows|
      invariant GoodGroups(grouped, order)
      invariant GroupInto(Listed(grouped, order), rows[i..]) == GroupInto([], rows)
    {
      assert rows[i..][0] == rows[i] && rows[i..][1..] == rows[i + 1..];
      grouped, order := AddToGroups(grouped, order, rows[i]);
    }
    assert rows[|rows|..] == [];
    out := [];
    for i := 0 to |order|
      invariant out == Listed(grouped, order)[..i]
    {
      out := out + [grouped[order[i]]];
    }
  }

  lemma ListedHasRoot(grouped: map<string, Row>, order: seq<string>, root: string)
    requires forall r :: r in order <==> r in grouped
    requires forall r :: r in grouped ==> grouped[r].root == r
    ensures HasRoot(Listed(grouped, order), root) <==> root in grouped
  {
    if root in grouped {
      var i :| 0 <= i < |order| && order[i] == root;
      assert Listed(grouped, order)[i].root == root;
    }
  }

  /** Adding to one row of a dictionary is adding to that row of its list. */
  lemma {:induction false} ListedWithArch(grouped: map<string, Row>, order: seq<string>, root: string, arch: string)
    requires forall r :: r in order ==> r in grouped && grouped[r].root == r && grouped[r].arches.Some?
    requires forall i, j :: 0 <= i < j < |order| ==> order[i] != order[j]
    requires root in grouped && grouped[root].arches.Some?
    ensures var updated := grouped[root := grouped[root].(arches := Some(AppendNew(grouped[root].arches.value, arch)))];
            Listed(updated, order) == WithArch(Listed(grouped, order), root, arch)
    decreases |order|
  {
    var updated := grouped[root := grouped[root].(arches := Some(AppendNew(grouped[root].arches.value, arch)))];
    if order == [] {
    } else {
      var rest := order[1..];
      ListedWithArch(grouped, rest, root, arch);
      assert Listed(grouped, order) == [grouped[order[0]]] + Listed(grouped, rest);
      assert Listed(updated, order) == [updated[order[0]]] + Listed(updated, rest);
      if order[0] == root {
        assert Listed(updated, rest) == Listed(grouped, rest);
      }
    }
  }

  method ReadMatrixRow(row: Row) returns (out: seq<Row>)
    ensures out == MatrixRow(row)
  {
    hide Trim, NameOf, ArchesOf;
    var root := Trim(Python, row.root);
    if root == "" {
      return [];
    }
    var arches := ArchesOf(row);
    var arch := Trim(Python, row.arch);
    if arch != "" && arch !in arches {
      arches := arches + [arch];
    }
    out := [Row(root, NameOf(row.name, root), Some(arches), "")];
  }

  method NormalizeMatrix(rows: seq<Row>) returns (out: seq<Row>)
    ensures out == MatrixRows(rows)
  {
    hide MatrixRow;
    out := [];
    for i := 0 to |rows|
      invariant out + MatrixRows(rows[i..]) == MatrixRows(rows)
    {
      assert rows[i..][0] == rows[i] && rows[i..][1..] == rows[i + 1..];
      var row := ReadMatrixRow(rows[i]);
      out := out + row;
    }
    assert rows[|rows|..] == [];
  }

  method NormalizeRows(rows: seq<Row>) returns (out: seq<Row>)
    ensures out == Normalize(rows)
  {
    if rows == [] {
      return [];
    }
    hide MatrixRows, GroupInto;
    if exists i :: 0 <= i < |rows| && rows[i].arches.Some? {
      out := NormalizeMatrix(rows);
    } else {
      out := GroupPairs(rows);
    }
  }

  method ExpandRow(row: Row) returns (pairs: seq<Row>)
    ensures pairs == FlatRow(row)
  {
    hide Trim, NameOf, ArchesOf;
    pairs := [];
    var root := Trim(Python, row.root);
    if root == "" {
      return;
    }
    var name := NameOf(row.name, root);
    var arches := ArchesOf(row);
    if arches == [] {
      return [Pair(root, name, "")];
    }
    for j := 0 to |arches|
      invariant pairs + PairsOf(root, name, arches[j..]) == PairsOf(root, name, arches)
    {
      assert arches[j..][1..] == arches[j + 1..];
      pairs := pairs + [Pair(root, name, arches[j])];
    }
    assert arches[|arches|..] == [];
  }

  method FlattenTargets(matrix: seq<Row>) returns (pairs: seq<Row>)
    ensures pairs == Flatten(matrix)
  {
    hide FlatRow;
    pairs := [];
    for i := 0 to |matrix|
      invariant pairs + Flatten(matrix[i..]) == Flatten(matrix)
    {
      assert matrix[i..][0] == matrix[i] && matrix[i..][1..] == matrix[i + 1..];
      var more := ExpandRow(matrix[i]);
      pairs := pairs + more;
    }
    assert matrix[|matrix|..] == [];
  }

  // ----- matrix and pairs undo each other

  predicate DistinctTexts(s: seq<string>) {
    forall i, j :: 0 <= i < j < |s| ==> s[i] != s[j]
  }

  predicate Solid(s: string) {
    s != "" && Trimmed(Python, s)
  }

  /** A row as the engine writes it: a name, and distinct architectures without blanks. */
  predicate WellFormedRow(r: Row) {
    && Solid(r.root) && r.name == NameOf(r.name, r.root) && r.arch == "" && r.arches.Some?
    && (forall a :: a in r.arches.value ==> Solid(a)) && DistinctTexts(r.arches.value)
  }

  predicate WellFormed(m: seq<Row>) {
    && (forall r :: r in m ==> WellFormedRow(r))
    && forall i, j :: 0 <= i < j < |m| ==> m[i].root != m[j].root
  }

  lemma {:induction false} NonBlankSolid(s: seq<string>)
    requires forall a :: a in s ==> Solid(a)
    ensures NonBlank(Python, s) == s
  {
    if s == [] {
    } else {
      assert s[0] in s;
      TrimProperties(Python, s[0]);
      NonBlankSolid(s[1..]);
    }
  }

  lemma {:induction false} NonBlankProperties(s: seq<string>)
    ensures forall a :: a in NonBlank(Python, s) ==> Solid(a)
  {
    if s == [] {
    } else {
      TrimProperties(Python, s[0]);
      NonBlankProperties(s[1..]);
    }
  }

  lemma {:induction false} GroupIntoConcat(g: seq<Row>, a: seq<Row>, b: seq<Row>)
    ensures GroupInto(g, a + b) == GroupInto(GroupInto(g, a), b)
    decreases |a|
  {
    hide AddPair;
    if a == [] {
      assert a + b == b;
    } else {
      GroupIntoConcat(AddPair(g, a[0]), a[1..], b);
      assert (a + b)[1..] == a[1..] + b;
    }
  }

  lemma {:induction false} WithArchLast(g: seq<Row>, r: Row, arch: string)
    requires !HasRoot(g, r.root) && r.arches.Some?
    ensures WithArch(g + [r], r.root, arch) == g + [r.(arches := Some(AppendNew(r.arches.value, arch)))]
  {
    if g == [] {
      assert g + [r] == [r];
    } else {
      assert g[0].root != r.root;
      assert !HasRoot(g[1..], r.root) by {
        assert forall i :: 0 <= i < |g[1..]| ==> g[1..][i] == g[i + 1];
      }
      WithArchLast(g[1..], r, arch);
      assert (g + [r])[1..] == g[1..] + [r];
    }
  }

  /** The pairs of the architectures still to come fill the last group up. */
  lemma {:induction false} GroupPairsOfRow(g: seq<Row>, r: Row, done: seq<string>, todo: seq<string>)
    requires WellFormedRow(r) && r.arches.value == done + todo && !HasRoot(g, r.root)
    ensures GroupInto(g + [r.(arches := Some(done))], PairsOf(r.root, r.name, todo)) == g + [r]
    decreases |todo|
  {
    var part := r.(arches := Some(done));
    if todo == [] {
      assert done + todo == done;
    } else {
      var a := todo[0];
      var next := done + [a];
      assert next + todo[1..] == done + todo;
      assert a == r.arches.value[|done|] && a in r.arches.value;
      forall i | 0 <= i < |done| ensures done[i] != a {
        assert r.arches.value[i] == done[i];
      }
      TrimProperties(Python, r.root);
      TrimProperties(Python, a);
      assert (g + [part])[|g|].root == r.root;
      assert HasRoot(g + [part], r.root);
      WithArchLast(g, part, a);
      GroupPairsOfRow(g, r, next, todo[1..]);
      var pairs := PairsOf(r.root, r.name, todo);
      assert pairs[0] == Pair(r.root, r.name, a) && pairs[1..] == PairsOf(r.root, r.name, todo[1..]);
    }
  }

  /** Grouping the pairs of one well-formed row appends the row. */
  lemma GroupRow(g: seq<Row>, r: Row)
    requires WellFormedRow(r) && !HasRoot(g, r.root)
    ensures GroupInto(g, FlatRow(r)) == g + [r]
  {
    var withRow := Row(r.root, r.name, Some([]), "");
    var arches := r.arches.value;
    TrimProperties(Python, r.root);
    NonBlankSolid(arches);
    if arches == [] {
      assert FlatRow(r) == [Pair(r.root, r.name, "")];
      assert Trim(Python, "") == "";
      WithArchLast(g, withRow, "");
      assert GroupInto(AddPair(g, FlatRow(r)[0]), []) == g + [r];
    } else {
      var a := arches[0];
      assert a in arches;
      TrimProperties(Python, a);
      WithArchLast(g, withRow, a);
      var first := withRow.(arches := Some([a]));
      assert [] + [a] == [a];
      assert [a] + arches[1..] == arches;
      GroupPairsOfRow(g, r, [a], arches[1..]);
      assert FlatRow(r)[0] == Pair(r.root, r.name, a);
      assert FlatRow(r)[1..] == PairsOf(r.root, r.name, arches[1..]);
      assert AddPair(g, FlatRow(r)[0]) == g + [first];
      assert r.(arches := Some([a])) == first;
    }
  }

  lemma OtherRootsStayNew(g: seq<Row>, m: seq<Row>)
    requires m != [] && WellFormed(m)
    requires forall r :: r in m ==> !HasRoot(g, r.root)
    ensures WellFormed(m[1..])
    ensures forall x :: x in m[1..] ==> !HasRoot(g + [m[0]], x.root)
  {
    hide WellFormedRow;
    assert forall i :: 0 <= i < |m[1..]| ==> m[1..][i] == m[i + 1];
    forall x | x in m[1..] ensures !HasRoot(g + [m[0]], x.root) {
      var j :| 0 <= j < |m[1..]| && m[1..][j] == x;
      assert m[j + 1] == x && m[0].root != m[j + 1].root;
      assert x in m && !HasRoot(g, x.root);
    }
  }

  lemma {:induction false} GroupFlattened(g: seq<Row>, m: seq<Row>)
    requires WellFormed(m)
    requires forall r :: r in m ==> !HasRoot(g, r.root)
    ensures GroupInto(g, Flatten(m)) == g + m
    decreases |m|
  {
    hide FlatRow, AddPair, WellFormedRow, HasRoot;
    if m == [] {
      assert g + m == g;
    } else {
      var r := m[0];
      assert r in m;
      GroupRow(g, r);
      GroupIntoConcat(g, FlatRow(r), Flatten(m[1..]));
      OtherRootsStayNew(g, m);
      GroupFlattened(g + [r], m[1..]);
      assert g + [r] + m[1..] == g + m;
    }
  }

  lemma {:induction false} FlattenIsFlat(m: seq<Row>)
    ensures forall r :: r in Flatten(m) ==> r.arches.None?
  {
    if m == [] {
    } else {
      FlattenIsFlat(m[1..]);
      if m[0].arches.Some? {
        PairsAreFlat(Trim(Python, m[0].root), NameOf(m[0].name, Trim(Python, m[0].root)), NonBlank(Python, m[0].arches.value));
      }
    }
  }

  lemma {:induction false} PairsAreFlat(root: string, name: string, arches: seq<string>)
    ensures forall r :: r in PairsOf(root, name, arches) ==> r.arches.None?
  {
    if arches == [] {
    } else {
      PairsAreFlat(root, name, arches[1..]);
    }
  }

  // ----- grouping always gives a well-formed matrix

  lemma {:induction false} WithArchWellFormed(g: seq<Row>, root: string, arch: string)
    requires WellFormed(g) && (arch == "" || Solid(arch))
    ensures WellFormed(WithArch(g, root, arch))
    ensures |WithArch(g, root, arch)| == |g|
    ensures forall i :: 0 <= i < |g| ==> WithArch(g, root, arch)[i].root == g[i].root
  {
    if g == [] {
    } else {
      assert g[0] in g;
      var rest := g[1..];
      assert WellFormed(rest) by {
        assert forall i :: 0 <= i < |rest| ==> rest[i] == g[i + 1];
      }
      WithArchWellFormed(rest, root, arch);
      var out := WithArch(g, root, arch);
      assert out[1..] == if g[0].root == root then rest else WithArch(rest, root, arch);
      assert WellFormedRow(out[0]);
      forall r | r in out ensures WellFormedRow(r) {
        assert r == out[0] || r in out[1..];
      }
      forall i | 0 <= i < |g| ensures out[i].root == g[i].root {
        if i > 0 {
          assert out[i] == out[1..][i - 1] && g[i] == rest[i - 1];
        }
      }
    }
  }

  lemma AddPairWellFormed(g: seq<Row>, row: Row)
    requires WellFormed(g)
    ensures WellFormed(AddPair(g, row))
  {
    var root := Trim(Python, row.root);
    TrimProperties(Python, row.root);
    TrimProperties(Python, row.arch);
    if root != "" {
      var blank := Row(root, NameOf(row.name, root), Some([]), "");
      var withRow := if HasRoot(g, root) then g else g + [blank];
      assert WellFormedRow(blank);
      WithArchWellFormed(withRow, root, Trim(Python, row.arch));
    }
  }

  lemma {:induction false} GroupWellFormed(g: seq<Row>, rows: seq<Row>)
    requires WellFormed(g)
    ensures WellFormed(GroupInto(g, rows))
    decreases |rows|
  {
    if rows == [] {
    } else {
      AddPairWellFormed(g, rows[0]);
      GroupWellFormed(AddPair(g, rows[0]), rows[1..]);
    }
  }

  /** Flattening a matrix and normalising the pairs gives the matrix back exactly when it is well formed:
      distinct non-blank roots, resolved names, distinct non-blank architectures. */
  lemma NormalizeFlattenIff(m: seq<Row>)
    ensures Normalize(Flatten(m)) == m <==> WellFormed(m)
  {
    FlattenIsFlat(m);
    assert !IsMatrix(Flatten(m)) by {
      assert forall i :: 0 <= i < |Flatten(m)| ==> Flatten(m)[i] in Flatten(m);
    }
    GroupWellFormed([], Flatten(m));
    if WellFormed(m) {
      GroupFlattened([], m);
      assert [] + m == m;
    }
  }

  /** On flat pairs, normalising what was normalised and flattened changes nothing. */
  lemma NormalizeIsStable(rows: seq<Row>)
    requires forall r :: r in rows ==> r.arches.None?
    ensures WellFormed(Normalize(rows))
    ensures Normalize(Flatten(Normalize(rows))) == Normalize(rows)
  {
    assert !IsMatrix(rows) by {
      assert forall i :: 0 <= i < |rows| ==> rows[i] in rows;
    }
    GroupWellFormed([], rows);
    NormalizeFlattenIff(Normalize(rows));
  }

  // ----- pinning the targets, or asking

  datatype Targets =
    | Ready(project: string, architecture: string, pairs: seq<Row>)
    | AskProject
    | AskArchitecture(matrix: seq<Row>)

  /** The first matrix that has rows: from the acquired targets, from the changed files, from the roots. */
  function ChosenMatrix(raw: seq<Row>, fromFiles: seq<Row>, fromRoots: seq<Row>): seq<Row> {
    if Normalize(raw) != [] then Normalize(raw) else if fromFiles != [] then fromFiles else fromRoots
  }

  predicate Unresolved(row: Row) {
    row.arches.None? || row.arches.value == []
  }

  /** A row that was detected in a worktree: a directory and architecture tokens. */
  predicate Detected(row: Row) {
    && Trim(Python, row.root) != ""
    && row.arches.Some? && forall a :: a in row.arches.value ==> Solid(a)
  }

  method ResolveTargets(raw: seq<Row>, fromFiles: seq<Row>, fromRoots: seq<Row>) returns (t: Targets)
    requires forall r :: r in fromFiles || r in fromRoots ==> Detected(r)
    ensures var m := ChosenMatrix(raw, fromFiles, fromRoots);
            && (m == [] <==> t == AskProject)
            && (t.AskArchitecture? <==> m != [] && exists r :: r in m && Unresolved(r))
            && (t.AskArchitecture? ==> t.matrix == m)
            && (Normalize(raw) != [] ==> m == Normalize(raw))
            && (Normalize(raw) == [] ==> m == if fromFiles != [] then fromFiles else fromRoots)
            && (t.Ready? ==>
                  && t.pairs == Flatten(m) && t.pairs != []
                  && t.project == t.pairs[0].root && t.architecture == t.pairs[0].arch
                  && forall p :: p in t.pairs ==> p.root != "" && p.arch != "")
  {
    var matrix := NormalizeRows(raw);
    if matrix == [] {
      matrix := fromFiles;
    }
    if matrix == [] {
      matrix := fromRoots;
    }
    if matrix == [] {
      return AskProject;
    }
    for i := 0 to |matrix|
      invariant forall k :: 0 <= k < i ==> !Unresolved(matrix[k])
    {
      if Unresolved(matrix[i]) {
        assert matrix[i] in matrix;
        return AskArchitecture(matrix);
      }
    }
    NormalizeDetected(raw);
    forall r | r in matrix ensures Detected(r) && !Unresolved(r) {
      var k :| 0 <= k < |matrix| && matrix[k] == r;
    }
    FlattenComplete(matrix);
    var pairs := FlattenTargets(matrix);
    t := Ready(pairs[0].root, pairs[0].arch, pairs);
  }

  lemma {:induction false} MatrixRowsDetected(rows: seq<Row>)
    ensures forall r :: r in MatrixRows(rows) ==> Detected(r)
  {
    if rows == [] {
    } else {
      MatrixRowsDetected(rows[1..]);
      TrimProperties(Python, rows[0].root);
      TrimProperties(Python, Trim(Python, rows[0].root));
      TrimProperties(Python, rows[0].arch);
      if rows[0].arches.Some? {
        NonBlankProperties(rows[0].arches.value);
      }
      forall r | r in MatrixRow(rows[0]) ensures Detected(r) {
      }
    }
  }

  lemma NormalizeDetected(rows: seq<Row>)
    ensures forall r :: r in Normalize(rows) ==> Detected(r)
  {
    MatrixRowsDetected(rows);
    GroupWellFormed([], rows);
    forall r | r in GroupInto([], rows) ensures Detected(r) {
      TrimProperties(Python, r.root);
    }
  }

  lemma {:induction false} PairsComplete(root: string, name: string, arches: seq<string>)
    requires root != "" && forall a :: a in arches ==> Solid(a)
    ensures |PairsOf(root, name, arches)| == |arches|
    ensures forall p :: p in PairsOf(root, name, arches) <==>
              p.root == root && p.name == name && p.arches == None && p.arch in arches
  {
    if arches == [] {
    } else {
      assert arches[0] in arches;
      PairsComplete(root, name, arches[1..]);
    }
  }

  /** Flattening a resolved matrix gives at least a pair per row, none with a blank part. */
  lemma {:induction false} FlattenComplete(m: seq<Row>)
    requires forall r :: r in m ==> Detected(r) && !Unresolved(r)
    ensures |Flatten(m)| >= |m|
    ensures forall p :: p in Flatten(m) ==> p.root != "" && p.arch != ""
  {
    if m == [] {
    } else {
      var r := m[0];
      assert r in m;
      FlattenComplete(m[1..]);
      NonBlankSolid(r.arches.value);
      PairsComplete(Trim(Python, r.root), NameOf(r.name, Trim(Python, r.root)), r.arches.value);
    }
  }

  // ----- no operator and no architecture is lost or invented

  /** The row names the operator and the architecture, in its list or by itself. */
  predicate NamesPair(r: Row, root: string, arch: string) {
    Trim(Python, r.root) == root && (Trim(Python, r.arch) == arch || arch in ArchesOf(r))
  }

  predicate HasPair(pairs: seq<Row>, root: string, arch: string) {
    exists p :: p in pairs && p.root == root && p.arch == arch
  }

  /** A group lists the architecture under the root. */
  predicate Offers(g: seq<Row>, root: string, arch: string) {
    exists r :: r in g && r.root == root && r.arches.Some? && arch in r.arches.value
  }

  lemma {:induction false} PairsOfMember(root: string, name: string, arches: seq<string>, p: Row)
    ensures p in PairsOf(root, name, arches) <==> p.root == root && p.name == name && p.arches == None && p.arch in arches
  {
    if arches == [] {
    } else {
      PairsOfMember(root, name, arches[1..], p);
    }
  }

  /** A flattened row holds exactly the pairs of its list, or its operator alone when the list is empty. */
  lemma FlatRowHas(row: Row, root: string, arch: string)
    requires root != ""
    ensures arch != "" ==> (HasPair(FlatRow(row), root, arch) <==> Trim(Python, row.root) == root && arch in ArchesOf(row))
    ensures (exists p :: p in FlatRow(row) && p.root == root) <==> Trim(Python, row.root) == root
  {
    hide Trim, ArchesOf, PairsOf, NameOf;
    var own := Trim(Python, row.root);
    var name := NameOf(row.name, own);
    if own != "" && ArchesOf(row) != [] {
      forall p ensures p in FlatRow(row) <==> p.root == own && p.name == name && p.arches == None && p.arch in ArchesOf(row) {
        PairsOfMember(own, name, ArchesOf(row), p);
      }
      assert ArchesOf(row)[0] in ArchesOf(row);
      assert Pair(own, name, ArchesOf(row)[0]) in FlatRow(row);
      if arch in ArchesOf(row) {
        assert Pair(own, name, arch) in FlatRow(row);
      }
    } else if own != "" {
      assert Pair(own, name, "") in FlatRow(row);
    }
  }

  lemma {:induction false} FlattenMember(m: seq<Row>, p: Row)
    ensures p in Flatten(m) <==> exists r :: r in m && p in FlatRow(r)
  {
    hide FlatRow;
    if m == [] {
    } else {
      FlattenMember(m[1..], p);
      assert m == [m[0]] + m[1..];
    }
  }

  /** The pairs of a flattened matrix are those its rows list, and its operators are those of its rows. */
  lemma FlattenHas(m: seq<Row>, root: string, arch: string)
    requires root != ""
    ensures arch != "" ==>
              (HasPair(Flatten(m), root, arch) <==> exists r :: r in m && Trim(Python, r.root) == root && arch in ArchesOf(r))
    ensures (exists p :: p in Flatten(m) && p.root == root) <==> exists r :: r in m && Trim(Python, r.root) == root
  {
    hide Trim, ArchesOf, FlatRow, Flatten;
    forall p ensures p in Flatten(m) <==> exists r :: r in m && p in FlatRow(r) {
      FlattenMember(m, p);
    }
    forall r ensures arch != "" ==> (HasPair(FlatRow(r), root, arch) <==> Trim(Python, r.root) == root && arch in ArchesOf(r))
             ensures (exists p :: p in FlatRow(r) && p.root == root) <==> Trim(Python, r.root) == root
    {
      FlatRowHas(r, root, arch);
    }
  }

  /** What a matrix row becomes: its operator, with its list and its own architecture. */
  lemma MatrixRowIs(row: Row)
    ensures var root := Trim(Python, row.root);
            && (root == "" <==> MatrixRow(row) == [])
            && (root != "" ==>
                  && |MatrixRow(row)| == 1
                  && var r := MatrixRow(row)[0];
                     && r.root == root && Trim(Python, r.root) == root && r.name == NameOf(row.name, root) && r.arch == ""
                     && ArchesOf(r) == (if Trim(Python, row.arch) != "" && Trim(Python, row.arch) !in ArchesOf(row)
                                        then ArchesOf(row) + [Trim(Python, row.arch)] else ArchesOf(row)))
  {
    TrimProperties(Python, row.root);
    TrimProperties(Python, row.arch);
    TrimProperties(Python, Trim(Python, row.root));
    if row.arches.Some? {
      NonBlankProperties(row.arches.value);
    }
    hide Trim, NameOf, NonBlank;
    NonBlankSolid(AppendNew(ArchesOf(row), Trim(Python, row.arch)));
  }

  lemma OffersFirst(r: Row, rest: seq<Row>, root: string, arch: string)
    ensures Offers([r] + rest, root, arch) <==> Offers(rest, root, arch) || (r.root == root && r.arches.Some? && arch in r.arches.value)
    ensures HasRoot([r] + rest, root) <==> r.root == root || HasRoot(rest, root)
  {
    var g := [r] + rest;
    if x :| x in rest && x.root == root && x.arches.Some? && arch in x.arches.value {
      assert x in g;
    }
    assert r in g;
    if i :| 0 <= i < |rest| && rest[i].root == root {
      assert g[i + 1].root == root;
    }
    if i :| 0 <= i < |g| && g[i].root == root {
      assert i > 0 ==> rest[i - 1].root == root;
    }
    assert g[0] == r;
  }

  lemma {:induction false} WithArchOffers(g: seq<Row>, at: string, a: string, root: string, arch: string)
    requires forall r :: r in g ==> r.arches.Some?
    ensures Offers(WithArch(g, at, a), root, arch) <==> Offers(g, root, arch) || (root == at && arch == a != "" && HasRoot(g, at))
    ensures HasRoot(WithArch(g, at, a), root) <==> HasRoot(g, root)
    ensures forall r :: r in WithArch(g, at, a) ==> r.arches.Some?
    decreases |g|
  {
    if g == [] {
    } else {
      var rest := g[1..];
      assert g == [g[0]] + rest && g[0] in g;
      OffersFirst(g[0], rest, root, arch);
      OffersFirst(g[0], rest, at, arch);
      if g[0].root == at {
        var first := g[0].(arches := Some(AppendNew(g[0].arches.value, a)));
        OffersFirst(first, rest, root, arch);
        assert WithArch(g, at, a) == [first] + rest;
      } else {
        WithArchOffers(rest, at, a, root, arch);
        OffersFirst(g[0], WithArch(rest, at, a), root, arch);
        assert WithArch(g, at, a) == [g[0]] + WithArch(rest, at, a);
      }
    }
  }

  /** Adding a flat pair adds exactly it. */
  lemma AddPairOffers(g: seq<Row>, row: Row, root: string, arch: string)
    requires (forall r :: r in g ==> r.arches.Some?) && root != "" && arch != ""
    ensures Offers(AddPair(g, row), root, arch)
            <==> Offers(g, root, arch) || (Trim(Python, row.root) == root && Trim(Python, row.arch) == arch)
    ensures HasRoot(AddPair(g, row), root) <==> HasRoot(g, root) || Trim(Python, row.root) == root
    ensures forall r :: r in AddPair(g, row) ==> r.arches.Some?
  {
    hide Trim, NameOf, WithArch, Offers;
    var own, a := Trim(Python, row.root), Trim(Python, row.arch);
    if own != "" {
      var blank := Row(own, NameOf(row.name, own), Some([]), "");
      var withRow := if HasRoot(g, own) then g else g + [blank];
      BlankAdded(g, blank, root, arch);
      BlankAdded(g, blank, own, arch);
      hide HasRoot;
      WithArchOffers(withRow, own, a, root, arch);
    }
  }

  lemma BlankAdded(g: seq<Row>, blank: Row, root: string, arch: string)
    requires blank.arches == Some([])
    ensures Offers(g + [blank], root, arch) <==> Offers(g, root, arch)
    ensures HasRoot(g + [blank], root) <==> HasRoot(g, root) || blank.root == root
  {
    var all := g + [blank];
    if x :| x in g && x.root == root && x.arches.Some? && arch in x.arches.value {
      assert x in all;
    }
    if i :| 0 <= i < |g| && g[i].root == root {
      assert all[i].root == root;
    }
    assert all[|g|] == blank;
  }

  lemma {:induction false} GroupOffers(g: seq<Row>, rows: seq<Row>, root: string, arch: string)
    requires (forall r :: r in g ==> r.arches.Some?) && root != "" && arch != ""
    ensures Offers(GroupInto(g, rows), root, arch)
            <==> Offers(g, root, arch) || exists r :: r in rows && Trim(Python, r.root) == root && Trim(Python, r.arch) == arch
    ensures HasRoot(GroupInto(g, rows), root) <==> HasRoot(g, root) || exists r :: r in rows && Trim(Python, r.root) == root
    decreases |rows|
  {
    hide Trim, AddPair, Offers, HasRoot;
    if rows == [] {
    } else {
      AddPairOffers(g, rows[0], root, arch);
      GroupOffers(AddPair(g, rows[0]), rows[1..], root, arch);
      assert rows == [rows[0]] + rows[1..];
    }
  }

  /** Normalising and flattening keeps exactly the pairs of operators and architectures that the rows name, and exactly
      their operators, whether the rows come as a matrix, as flat pairs, or mixed. */
  lemma PairsConserved(rows: seq<Row>, root: string, arch: string)
    requires root != "" && arch != ""
    ensures HasPair(Flatten(Normalize(rows)), root, arch) <==> exists r :: r in rows && NamesPair(r, root, arch)
    ensures (exists p :: p in Flatten(Normalize(rows)) && p.root == root)
            <==> exists r :: r in rows && Trim(Python, r.root) == root
  {
    FlattenHas(Normalize(rows), root, arch);
    if IsMatrix(rows) {
      MatrixConserved(rows, root, arch);
    } else {
      FlatConserved(rows, root, arch);
    }
    hide *;
  }

  /** A matrix row keeps exactly what it names. */
  lemma MatrixRowKeeps(row: Row, root: string, arch: string)
    requires root != "" && arch != ""
    ensures (exists r :: r in MatrixRow(row) && Trim(Python, r.root) == root && arch in ArchesOf(r)) <==> NamesPair(row, root, arch)
    ensures (exists r :: r in MatrixRow(row) && Trim(Python, r.root) == root) <==> Trim(Python, row.root) == root
  {
    MatrixRowIs(row);
    hide Trim, ArchesOf, MatrixRow, NameOf;
    if MatrixRow(row) != [] {
      assert MatrixRow(row)[0] in MatrixRow(row);
    }
  }

  lemma {:induction false} MatrixConserved(rows: seq<Row>, root: string, arch: string)
    requires root != "" && arch != ""
    ensures (exists r :: r in MatrixRows(rows) && Trim(Python, r.root) == root && arch in ArchesOf(r))
            <==> exists r :: r in rows && NamesPair(r, root, arch)
    ensures (exists r :: r in MatrixRows(rows) && Trim(Python, r.root) == root)
            <==> exists r :: r in rows && Trim(Python, r.root) == root
  {
    hide Trim, ArchesOf, MatrixRow, NameOf, NamesPair;
    if rows == [] {
    } else {
      MatrixRowKeeps(rows[0], root, arch);
      MatrixConserved(rows[1..], root, arch);
      assert rows == [rows[0]] + rows[1..];
      assert MatrixRows(rows) == MatrixRow(rows[0]) + MatrixRows(rows[1..]);
    }
    hide MatrixRows;
  }

  lemma FlatConserved(rows: seq<Row>, root: string, arch: string)
    requires root != "" && arch != "" && !IsMatrix(rows)
    ensures (exists r :: r in GroupInto([], rows) && Trim(Python, r.root) == root && arch in ArchesOf(r))
            <==> exists r :: r in rows && NamesPair(r, root, arch)
    ensures (exists r :: r in GroupInto([], rows) && Trim(Python, r.root) == root)
            <==> exists r :: r in rows && Trim(Python, r.root) == root
  {
    var g := GroupInto([], rows);
    GroupOffers([], rows, root, arch);
    GroupWellFormed([], rows);
    forall r | r in rows ensures ArchesOf(r) == [] {
      var i :| 0 <= i < |rows| && rows[i] == r;
    }
    forall r | r in g ensures Trim(Python, r.root) == r.root && r.arches.Some? && ArchesOf(r) == r.arches.value {
      TrimProperties(Python, r.root);
      NonBlankSolid(r.arches.value);
    }
    hide Trim, ArchesOf, GroupInto, WellFormedRow;
    if r :| r in g && r.root == root {
      var i :| 0 <= i < |g| && g[i] == r;
    }
  }

  /** The name of an operator without one: the last component of its path that says something. */
  lemma {:induction false} LastNameIs(parts: seq<string>, name: string, rest: seq<string>)
    requires name != "" && name != "." && forall x :: x in rest ==> x == "" || x == "."
    ensures LastName(parts + [name] + rest) == name
    decreases |rest|
  {
    var all := parts + [name] + rest;
    if rest == [] {
      assert all == parts + [name];
    } else {
      var last := |rest| - 1;
      assert rest[last] in rest && all[|all| - 1] == rest[last];
      assert all[..|all| - 1] == parts + [name] + rest[..last];
      assert forall x :: x in rest[..last] ==> x in rest;
      LastNameIs(parts, name, rest[..last]);
    }
  }

  lemma {:induction false} NoLastName(parts: seq<string>)
    requires forall i :: 0 <= i < |parts| ==> parts[i] == "" || parts[i] == "."
    ensures LastName(parts) == ""
  {
    if parts == [] {
    } else {
      NoLastName(parts[..|parts| - 1]);
    }
  }
}
