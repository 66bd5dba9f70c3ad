/** Write scopes of producers and referees: the textual overlap check of
    scripts/compose_runtime_legacy.py against the run-time matching of
    pilot/ascendc_pilot/agents_registry.py. */
module ScopeSeparation {
  import opened Text

  // ----- which paths a scope matches at run time

  datatype Namespace = Pilot | Method | Source

  /** What a character class of `fnmatch` accepts; its details do not matter here. */
  type ClassTest = (string, char) -> bool

  const SOURCE_ROOTS := {"op_host", "op_kernel", "common", "op_graph", "framework", "include", "test_script"}

  /** The text starts with the tag, letters compared without case. */
  predicate StartsWithTag(s: string, tag: string) {
    |tag| <= |s| && forall i :: 0 <= i < |tag| ==> LowerChar(s[i]) == tag[i]
  }

  function Slashed(s: string): string {
    ReplaceChar(s, '\\', '/')
  }

  function SplitScope(scope: string): (Namespace, string) {
    var s := Trim(Python, Slashed(scope));
    if StartsWithTag(s, "pilot:") then (Pilot, DropLeading(s[6..], {'/'}))
    else if StartsWithTag(s, "method:") then (Method, DropLeading(s[7..], {'/'}))
    else if StartsWithTag(s, "source:") then (Source, DropLeading(s[7..], {'/'}))
    else if "skills/" <= s || "cognitive-skills/" <= s then (Method, s)
    else if Split(s, '/')[0] in SOURCE_ROOTS then (Source, s)
    else (Pilot, DropLeading(s, {'/'}))
  }

  /** Scopes of the other namespaces: by their tag, or by their first directory. */
  lemma TaggedElsewhere(scope: string, head: string, rest: string)
    requires Trim(Python, Slashed(scope)) == head + rest
    ensures head in {"method:", "skills/", "cognitive-skills/"} ==> SplitScope(scope).0 == Method
    ensures head == "source:" ==> SplitScope(scope).0 == Source
  {
    hide Trim;
    var s := head + rest;
    assert head <= s && forall i :: 0 <= i < |head| ==> s[i] == head[i];
    if head == "method:" {
      assert s[0] == 'm' && StartsWithTag(s, "method:");
    } else if head == "source:" {
      assert s[0] == 's' && StartsWithTag(s, "source:");
    } else if head == "skills/" {
      assert s[0] == 's' && s[1] == 'k';
    } else if head == "cognitive-skills/" {
      assert s[0] == 'c';
    }
  }

  lemma SourceDirectory(scope: string, root: string, rest: string)
    requires Trim(Python, Slashed(scope)) == root + "/" + rest
    requires root in ["op_host", "op_kernel", "common", "op_graph", "framework", "include", "test_script"]
    ensures SplitScope(scope).0 == Source
  {
    hide Trim, Split;
    var s := root + "/" + rest;
    assert s == root + ("/" + rest) && '/' !in root;
    SplitFirst(root, "/" + rest, '/');
    assert |root| > 5 && s[0] == root[0] && s[2] == root[2];
    assert root[0] !in {'p', 'm', 's', 'P', 'M', 'S'} && (root[0] == 'c' ==> root[2] == 'm');
    assert !("cognitive-skills/" <= s) by {
      assert "cognitive-skills/"[2] == 'g';
    }
  }

  predicate IsMeta(c: char) {
    c == '*' || c == '?' || c == '['
  }

  predicate HasMeta(s: string) {
    exists i :: 0 <= i < |s| && IsMeta(s[i])
  }

  function IndexFrom(s: string, c: char, from: nat): nat
    requires from <= |s|
    ensures from <= IndexFrom(s, c, from) <= |s|
    decreases |s| - from
  {
    if from == |s| || s[from] == c then from else IndexFrom(s, c, from + 1)
  }

  /** Where the class that a pattern opens with is closed; the length of the pattern if it is not. */
  function ClassEnd(pat: string): (j: nat)
    requires pat != ""
    ensures j > 0
    ensures j <= |pat|
  {
    var a := if |pat| > 1 && pat[1] == '!' then 2 else 1;
    var b := if a < |pat| && pat[a] == ']' then a + 1 else a;
    IndexFrom(pat, ']', b)
  }

  /** A class ends at the first closing bracket behind its first member; a `!` in front is no member. */
  lemma ClassEndIs(pat: string, start: nat, j: nat)
    requires pat != "" && start == (if |pat| > 1 && pat[1] == '!' then 2 else 1)
    requires start < j < |pat| && pat[j] == ']' && forall i :: start < i < j ==> pat[i] != ']'
    ensures ClassEnd(pat) == j
  {
    IndexIs(pat, ']', if pat[start] == ']' then start + 1 else start, j);
  }

  lemma {:induction false} IndexIs(s: string, c: char, from: nat, j: nat)
    requires from <= j < |s| && s[j] == c && forall i :: from <= i < j ==> s[i] != c
    ensures IndexFrom(s, c, from) == j
    decreases j - from
  {
    if from < j {
      IndexIs(s, c, from + 1, j);
    }
  }

  /** Shell-style matching: `*` also crosses directory separators. */
  predicate Glob(pat: string, text: string, accepts: ClassTest)
    decreases |pat| + |text|
  {
    if pat == "" then text == ""
    else if pat[0] == '*' then
      Glob(pat[1..], text, accepts) || (text != "" && Glob(pat, text[1..], accepts))
    else if pat[0] == '?' then
      text != "" && Glob(pat[1..], text[1..], accepts)
    else if pat[0] == '[' && ClassEnd(pat) < |pat| then
      var j := ClassEnd(pat);
      text != "" && accepts(pat[1..j], text[0]) && Glob(pat[j + 1..], text[1..], accepts)
    else
      text != "" && text[0] == pat[0] && Glob(pat[1..], text[1..], accepts)
  }

  // ----- what a pattern means

  datatype Item = Any | One | Class(members: string) | Literal(c: char)

  /** The pattern as a list: stars, question marks, closed classes and characters that stand for themselves. */
  function Items(pat: string): seq<Item>
    decreases |pat|
  {
    if pat == "" then []
    else if pat[0] == '[' && ClassEnd(pat) < |pat| then [Class(pat[1..ClassEnd(pat)])] + Items(pat[ClassEnd(pat) + 1..])
    else [if pat[0] == '*' then Any else if pat[0] == '?' then One else Literal(pat[0])] + Items(pat[1..])
  }

  predicate Takes(item: Item, piece: string, accepts: ClassTest) {
    match item
    case Any => true
    case One => |piece| == 1
    case Class(members) => |piece| == 1 && accepts(members, piece[0])
    case Literal(c) => piece == [c]
  }

  /** The text is cut into one piece for each item, in their order. */
  predicate CutFor(items: seq<Item>, text: string, pieces: seq<string>, accepts: ClassTest)
    decreases |items|
  {
    if items == [] then pieces == [] && text == ""
    else
      && pieces != [] && pieces[0] <= text && Takes(items[0], pieces[0], accepts)
      && CutFor(items[1..], text[|pieces[0]|..], pieces[1..], accepts)
  }

  /** What is behind the first item of a pattern. */
  function Behind(pat: string): (rest: string)
    requires pat != ""
    ensures |rest| < |pat|
  {
    if pat[0] == '[' && ClassEnd(pat) < |pat| then pat[ClassEnd(pat) + 1..] else pat[1..]
  }

  lemma ItemsBehind(pat: string)
    requires pat != ""
    ensures Items(pat) != [] && Items(pat)[1..] == Items(Behind(pat))
    ensures pat[0] == '*' ==> Items(pat)[0] == Any && Behind(pat) == pat[1..]
  {
  }

  /** An item other than a star takes one character. */
  lemma GlobBehind(pat: string, text: string, accepts: ClassTest)
    requires pat != "" && pat[0] != '*'
    ensures Glob(pat, text, accepts) <==>
              text != "" && Takes(Items(pat)[0], [text[0]], accepts) && Glob(Behind(pat), text[1..], accepts)
    ensures forall piece :: Takes(Items(pat)[0], piece, accepts) ==> |piece| == 1
  {
    hide ClassEnd;
  }

  lemma {:induction false} GlobCuts(pat: string, text: string, accepts: ClassTest) returns (pieces: seq<string>)
    requires Glob(pat, text, accepts)
    ensures CutFor(Items(pat), text, pieces, accepts)
    decreases |pat| + |text|
  {
    if pat == "" {
      pieces := [];
    } else {
      ItemsBehind(pat);
      hide Items, Behind;
      if pat[0] != '*' {
        GlobBehind(pat, text, accepts);
        hide Glob, Takes;
        var rest := GlobCuts(Behind(pat), text[1..], accepts);
        pieces := [[text[0]]] + rest;
      } else if Glob(pat[1..], text, accepts) {
        var rest := GlobCuts(pat[1..], text, accepts);
        pieces := [""] + rest;
        assert text[0..] == text;
      } else {
        var more := GlobCuts(pat, text[1..], accepts);
        pieces := [[text[0]] + more[0]] + more[1..];
        StarTakesMore(Items(pat), text, more, accepts);
      }
    }
  }

  lemma StarTakesMore(items: seq<Item>, text: string, more: seq<string>, accepts: ClassTest)
    requires items != [] && items[0] == Any && text != "" && CutFor(items, text[1..], more, accepts)
    ensures CutFor(items, text, [[text[0]] + more[0]] + more[1..], accepts)
  {
    var pieces := [[text[0]] + more[0]] + more[1..];
    assert pieces[1..] == more[1..];
    assert text[|more[0]| + 1..] == text[1..][|more[0]|..];
    assert text == [text[0]] + text[1..];
    assert pieces[0] <= text;
  }

  lemma {:induction false} CutGlobs(pat: string, text: string, pieces: seq<string>, accepts: ClassTest)
    requires CutFor(Items(pat), text, pieces, accepts)
    ensures Glob(pat, text, accepts)
    decreases |pat| + |text|
  {
    if pat == "" {
    } else {
      ItemsBehind(pat);
      hide Items, Behind;
      if pat[0] != '*' {
        GlobBehind(pat, text, accepts);
        hide Glob, Takes;
        assert pieces[0] == [text[0]];
        CutGlobs(Behind(pat), text[1..], pieces[1..], accepts);
      } else if pieces[0] == "" {
        assert text[0..] == text;
        CutGlobs(pat[1..], text, pieces[1..], accepts);
      } else {
        var shorter := [pieces[0][1..]] + pieces[1..];
        assert shorter[1..] == pieces[1..];
        assert text[1..][|pieces[0]| - 1..] == text[|pieces[0]|..];
        CutGlobs(pat, text[1..], shorter, accepts);
      }
    }
  }

  /** A pattern matches a text exactly when the text can be cut into pieces, in order, that its items take: a star
      takes any piece, slashes included, a question mark one character, a class one that it accepts. */
  lemma GlobIff(pat: string, text: string, accepts: ClassTest)
    ensures Glob(pat, text, accepts) <==> exists pieces :: CutFor(Items(pat), text, pieces, accepts)
  {
    if Glob(pat, text, accepts) {
      var pieces := GlobCuts(pat, text, accepts);
    }
    if pieces :| CutFor(Items(pat), text, pieces, accepts) {
      CutGlobs(pat, text, pieces, accepts);
    }
  }

  /** Whether one scope text of the pilot namespace matches a normalised path. */
  predicate MatchesText(norm: string, s: string, accepts: ClassTest) {
    && s != ""
    && ((EndsWith(s, "/**") && (norm == s[..|s| - 3] || s[..|s| - 3] + "/" <= norm))
        || Glob(s, norm, accepts)
        || (!HasMeta(s) && (norm == s || DropTrailing(s, {'/'}) + "/" <= norm)))
  }

  function NormalPath(path: string): string {
    DropLeading(Slashed(path), {'/'})
  }

  /** `path_matches_scope` for one scope. */
  predicate Matches(path: string, scope: string, accepts: ClassTest) {
    var (ns, s) := SplitScope(scope);
    ns.Pilot? && MatchesText(NormalPath(path), s, accepts)
  }

  // ----- the overlap check

  function JoinSlash(parts: seq<string>): string {
    if parts == [] then ""
    else if |parts| == 1 then parts[0]
    else parts[0] + "/" + JoinSlash(parts[1..])
  }

  function LiteralParts(parts: seq<string>): seq<string> {
    if parts == [] || HasMeta(parts[0]) then [] else [parts[0]] + LiteralParts(parts[1..])
  }

  function Stripped(pattern: string): string {
    DropTrailing(DropLeading(Slashed(pattern), {'/'}), {'/'})
  }

  /** The literal directories before the first part with a metacharacter. */
  function GlobPrefix(pattern: string): string {
    JoinSlash(LiteralParts(Split(Stripped(pattern), '/')))
  }

  predicate Conflict(a: string, b: string) {
    var pa, pb := GlobPrefix(a), GlobPrefix(b);
    || a == b
    || if pa == "" || pb == "" then !("runs" <= a && "runs" <= b)
       else pa == pb || pb + "/" <= pa || pa + "/" <= pb
  }

  function RemovePrefix(s: string, prefix: string): string {
    if prefix <= s then s[|prefix|..] else s
  }

  /** Scratch scopes are left out of the check: any scope whose text begins with these letters. */
  predicate StartsWithRuns(scope: string) {
    "runs" <= RemovePrefix(scope, "pilot:")
  }

  /** Which scopes the check leaves out. */
  lemma StartsWithRunsIff(s: string)
    ensures StartsWithRuns(s) <==> "runs" <= s || "pilot:runs" <= s
  {
    var tag, word := "pilot:", "runs";
    assert tag + word == "pilot:runs";
    if tag <= s {
      assert s == tag + s[6..];
      if word <= s[6..] {
        assert s[..10] == tag + s[6..][..4];
      }
      if tag + word <= s {
        assert s[6..][..4] == s[..10][6..] == word;
      }
      assert s[0] == 'p';
    }
    if tag + word <= s {
      assert s[..6] == (tag + word)[..6] == tag;
    }
  }

  method LiteralPrefix(pattern: string) returns (prefix: string)
    ensures prefix == GlobPrefix(pattern)
  {
    var all := Split(Stripped(pattern), '/');
    var parts: seq<string> := [];
    for i := 0 to |all|
      invariant LiteralParts(all) == parts + LiteralParts(all[i..])
    {
      if HasMetaChar(all[i]) {
        break;
      }
      assert all[i..][1..] == all[i + 1..];
      parts := parts + [all[i]];
    }
    assert parts + [] == parts;
    prefix := JoinSlash(parts);
  }

  predicate HasMetaChar(s: string)
    ensures HasMetaChar(s) <==> HasMeta(s)
  {
    if s == "" then false
    else
      assert HasMeta(s[1..]) ==> HasMeta(s) by {
        if j :| 0 <= j < |s[1..]| && IsMeta(s[1..][j]) {
          assert IsMeta(s[j + 1]);
        }
      }
      assert HasMeta(s) && !IsMeta(s[0]) ==> HasMeta(s[1..]) by {
        if j :| 0 <= j < |s| && IsMeta(s[j]) && !IsMeta(s[0]) {
          assert s[1..][j - 1] == s[j];
        }
      }
      IsMeta(s[0]) || HasMetaChar(s[1..])
  }

  /** The pair is one that the check reports. */
  predicate Reported(producers: seq<string>, referees: seq<string>, p: string, r: string) {
    p in producers && r in referees && !StartsWithRuns(p) && !StartsWithRuns(r) && Conflict(p, r)
  }

  /** The pairs the check reports. */
  method OverlapErrors(producers: seq<string>, referees: seq<string>) returns (errors: seq<(string, string)>)
    ensures forall p, r :: (p, r) in errors <==> Reported(producers, referees, p, r)
  {
    errors := [];
    for i := 0 to |producers|
      invariant forall p, r :: (p, r) in errors <==>
                  p in producers[..i] && r in referees && !StartsWithRuns(p) && !StartsWithRuns(r) && Conflict(p, r)
    {
      var p := producers[i];
      assert producers[..i + 1] == producers[..i] + [p];
      if StartsWithRuns(p) {
        continue;
      }
      ghost var before := errors;
      for j := 0 to |referees|
        invariant forall q, r :: (q, r) in errors <==>
                    (q, r) in before || (q == p && r in referees[..j] && !StartsWithRuns(r) && Conflict(p, r))
      {
        var r := referees[j];
        assert referees[..j + 1] == referees[..j] + [r];
        if StartsWithRuns(r) {
          continue;
        }
        if Conflict(p, r) {
          errors := errors + [(p, r)];
        }
      }
      assert referees[..|referees|] == referees;
    }
    assert producers[..|producers|] == producers;
  }

  // ----- soundness of the check

  /** The characters before the first metacharacter. */
  function LiteralHead(s: string): string {
    if s == "" || IsMeta(s[0]) then "" else [s[0]] + LiteralHead(s[1..])
  }

  lemma {:induction false} LiteralHeadProperties(s: string)
    ensures LiteralHead(s) <= s
    ensures !HasMeta(LiteralHead(s))
    ensures !HasMeta(s) <==> LiteralHead(s) == s
  {
    if s != "" && !IsMeta(s[0]) {
      LiteralHeadProperties(s[1..]);
      var t := LiteralHead(s);
      assert t[1..] == LiteralHead(s[1..]);
      if HasMeta(s) {
        var i :| 0 <= i < |s| && IsMeta(s[i]);
        assert s[1..][i - 1] == s[i];
      }
      if HasMeta(s[1..]) {
        var i :| 0 <= i < |s[1..]| && IsMeta(s[1..][i]);
        assert IsMeta(s[i + 1]);
      }
      forall i | 0 <= i < |t| ensures !IsMeta(t[i]) {
        if i > 0 {
          assert t[i] == t[1..][i - 1];
        }
      }
    }
  }

  lemma {:induction false} LiteralHeadConcat(a: string, b: string)
    requires !HasMeta(a)
    ensures LiteralHead(a + b) == a + LiteralHead(b)
  {
    if a == "" {
      assert a + b == b;
    } else {
      assert !IsMeta(a[0]);
      forall i | 0 <= i < |a[1..]| ensures !IsMeta(a[1..][i]) {
        assert a[1..][i] == a[i + 1];
      }
      LiteralHeadConcat(a[1..], b);
      assert (a + b)[1..] == a[1..] + b;
    }
  }

  /** Whatever a pattern matches begins with the pattern's literal head. */
  lemma {:induction false} GlobKeepsHead(pat: string, text: string, accepts: ClassTest)
    requires Glob(pat, text, accepts)
    ensures LiteralHead(pat) <= text
    ensures !HasMeta(pat) ==> pat == text
    decreases |pat|
  {
    if pat != "" && !IsMeta(pat[0]) {
      GlobKeepsHead(pat[1..], text[1..], accepts);
      assert text == [text[0]] + text[1..];
      LiteralHeadProperties(pat);
      LiteralHeadProperties(pat[1..]);
    } else if pat != "" {
      assert IsMeta(pat[0]);
    }
  }

  /** The first part of a text cut at slashes, and the rest. */
  lemma {:induction false} FirstPart(u: string) returns (part: string, rest: string)
    ensures '/' !in part
    ensures (u == part && rest == "" && Split(u, '/') == [part])
         || (u == part + "/" + rest && Split(u, '/') == [part] + Split(rest, '/'))
    ensures |rest| < |u| || u == part
  {
    if u == "" {
      part, rest := "", "";
    } else if u[0] == '/' {
      part, rest := "", u[1..];
      assert u == "" + "/" + u[1..];
    } else {
      var p, r := FirstPart(u[1..]);
      part, rest := [u[0]] + p, r;
      if u[1..] == p + "/" + r {
        assert u == [u[0]] + (p + "/" + r);
      }
    }
  }

  lemma HasMetaConcat(a: string, b: string)
    ensures HasMeta(a + b) <==> HasMeta(a) || HasMeta(b)
  {
    if i :| 0 <= i < |a| && IsMeta(a[i]) {
      assert IsMeta((a + b)[i]);
    }
    if i :| 0 <= i < |b| && IsMeta(b[i]) {
      assert IsMeta((a + b)[|a| + i]);
    }
    if i :| 0 <= i < |a + b| && IsMeta((a + b)[i]) {
      assert if i < |a| then IsMeta(a[i]) else IsMeta(b[i - |a|]);
    }
  }

  /** The literal parts of a text, joined: the whole text when it has no metacharacter; otherwise nothing,
      or directories whose closing slash lies in the literal head. */
  lemma {:induction false} LiteralPartsShape(u: string)
    ensures var parts := LiteralParts(Split(u, '/'));
            && (!HasMeta(u) ==> parts == Split(u, '/') && JoinSlash(parts) == u)
            && (HasMeta(u) && parts != [] ==> JoinSlash(parts) + "/" <= LiteralHead(u))
    decreases |u|
  {
    var part, rest := FirstPart(u);
    if Split(u, '/') == [part] && u == part {
      assert LiteralParts([part]) == if HasMeta(part) then [] else [part];
    } else {
      HasMetaConcat(part, "/" + rest);
      HasMetaConcat("/", rest);
      assert u == part + ("/" + rest);
      assert ([part] + Split(rest, '/'))[1..] == Split(rest, '/');
      if !HasMeta(part) {
        LiteralPartsShape(rest);
        LiteralHeadConcat(part, "/" + rest);
        LiteralHeadConcat("/", rest);
        hide Split, LiteralHead, HasMeta;
        JoinBehind(part, rest, LiteralParts(Split(rest, '/')), LiteralHead(rest));
      }
    }
  }

  lemma JoinBehind(part: string, rest: string, more: seq<string>, head: string)
    ensures more != [] && JoinSlash(more) == rest ==> JoinSlash([part] + more) == part + "/" + rest
    ensures more == [] || JoinSlash(more) + "/" <= head ==> JoinSlash([part] + more) + "/" <= part + ("/" + head)
  {
    assert ([part] + more)[1..] == more;
    if more == [] {
      assert part + "/" <= part + ("/" + head);
    } else if JoinSlash(more) + "/" <= head {
      var j := JoinSlash(more) + "/";
      assert JoinSlash([part] + more) + "/" == part + ("/" + j);
      assert "/" + j <= "/" + head;
    }
  }

  /** A literal directory prefix of a path: the path itself or a directory above it. */
  predicate Above(dir: string, path: string) {
    dir + "/" <= path + "/"
  }

  /** The text of a scope written with a tag: "" for a bare scope, or "pilot:". */
  predicate Spelled(scope: string, tag: string) {
    && Trimmed(Python, scope)
    && tag <= scope
    && (tag == "" ==> !StartsWithTag(scope, "pilot:"))
    && (tag == "pilot:" ==> |scope| > 6 && scope[6] != '/' && scope[6] != '\\')
    && (tag == "" || tag == "pilot:")
  }

  lemma SlashedKeepsTrim(s: string)
    ensures Trimmed(Python, s) ==> Trim(Python, Slashed(s)) == Slashed(s)
  {
    TrimProperties(Python, Slashed(s));
  }

  lemma TagSurvivesSlashes(s: string)
    ensures StartsWithTag(Slashed(s), "pilot:") ==> StartsWithTag(s, "pilot:")
  {
    var t := Slashed(s);
    if StartsWithTag(t, "pilot:") {
      forall i | 0 <= i < 6 ensures LowerChar(s[i]) == "pilot:"[i] {
        assert LowerChar(t[i]) == "pilot:"[i] && "pilot:"[i] != '/';
      }
    }
  }

  lemma TagIsKept(scope: string)
    requires Spelled(scope, "pilot:")
    ensures var t := Slashed(scope);
            StartsWithTag(t, "pilot:") && t == "pilot:" + t[6..] && t[0] != '/' && t[6] != '/'
  {
    hide Trim;
    var t := Slashed(scope);
    assert forall i :: 0 <= i < 6 ==> t[i] == scope[i] == "pilot:"[i];
  }

  lemma TaggedSplit(scope: string)
    requires StartsWithTag(Slashed(scope), "pilot:") && Trim(Python, Slashed(scope)) == Slashed(scope)
    ensures SplitScope(scope) == (Pilot, DropLeading(Slashed(scope)[6..], {'/'}))
  {
    hide Trim, DropLeading, Split, Slashed;
  }

  lemma TaggedText(scope: string)
    requires Spelled(scope, "pilot:")
    ensures var t := Slashed(scope);
            && SplitScope(scope) == (Pilot, DropLeading(t[6..], {'/'}))
            && DropLeading(t[6..], {'/'}) == t[6..] && DropLeading(t, {'/'}) == "pilot:" + t[6..]
  {
    SlashedKeepsTrim(scope);
    TagIsKept(scope);
    var t := Slashed(scope);
    hide Trim, DropLeading, Split, SplitScope, Slashed, StartsWithTag;
    TaggedSplit(scope);
    DropLeadingProperties(t[6..], {'/'});
    DropLeadingProperties(t, {'/'});
  }

  lemma BareText(scope: string)
    requires Spelled(scope, "")
    ensures SplitScope(scope).0.Pilot? ==> SplitScope(scope).1 == DropLeading(Slashed(scope), {'/'})
  {
    SlashedKeepsTrim(scope);
    TagSurvivesSlashes(scope);
    hide Trim, DropLeading, Split;
  }

  /** A spelled scope's text is what follows its tag. */
  lemma SpelledText(scope: string, tag: string)
    requires Spelled(scope, tag)
    ensures var (ns, s) := SplitScope(scope);
            ns.Pilot? ==> s == DropLeading(Slashed(scope)[|tag|..], {'/'})
                          && DropLeading(Slashed(scope), {'/'}) == tag + s
  {
    hide SplitScope, DropLeading;
    var t := Slashed(scope);
    if tag == "pilot:" {
      TaggedText(scope);
    } else {
      BareText(scope);
      assert t[0..] == t;
    }
  }

  lemma TrailingSlashes(s: string)
    ensures var u := DropTrailing(s, {'/'});
            && u <= s
            && (HasMeta(u) <==> HasMeta(s))
            && (HasMeta(u) ==> LiteralHead(u) == LiteralHead(s))
            && (u != s ==> u + "/" <= s)
  {
    DropTrailingProperties(s, {'/'});
    var u := DropTrailing(s, {'/'});
    var tail := s[|u|..];
    assert s == u + tail;
    assert forall i :: 0 <= i < |tail| ==> tail[i] == '/';
    HasMetaConcat(u, tail);
    if HasMeta(u) {
      HeadStopsEarly(u, tail);
    }
  }

  lemma {:induction false} HeadStopsEarly(a: string, b: string)
    requires HasMeta(a)
    ensures LiteralHead(a + b) == LiteralHead(a)
  {
    if !IsMeta(a[0]) {
      var i :| 0 <= i < |a| && IsMeta(a[i]);
      assert a[1..][i - 1] == a[i];
      HeadStopsEarly(a[1..], b);
      assert (a + b)[1..] == a[1..] + b;
    }
  }

  /** Dropping the trailing slashes of a tagged text drops them from the text. */
  lemma TaggedTrailing(tag: string, s: string)
    requires tag == "" || tag == "pilot:"
    ensures DropTrailing(tag + s, {'/'}) == tag + DropTrailing(s, {'/'})
  {
    if s == "" {
      assert tag + s == tag;
    } else if s[|s| - 1] == '/' {
      var n := |s| - 1;
      TaggedTrailing(tag, s[..n]);
      assert (tag + s)[..|tag + s| - 1] == tag + s[..n];
    } else {
      assert (tag + s)[|tag + s| - 1] == s[|s| - 1];
    }
  }

  /** How the prefix the check computes relates to the text that is matched at run time. */
  lemma PrefixShape(scope: string, tag: string)
    requires Spelled(scope, tag) && SplitScope(scope).0.Pilot?
    ensures var s := SplitScope(scope).1;
            && (!HasMeta(s) ==> GlobPrefix(scope) == tag + DropTrailing(s, {'/'}))
            && (HasMeta(s) && GlobPrefix(scope) != "" ==> GlobPrefix(scope) + "/" <= tag + LiteralHead(s))
  {
    hide SplitScope, Spelled, DropTrailing, DropLeading, LiteralHead, Split, LiteralParts, JoinSlash, HasMeta;
    var s := SplitScope(scope).1;
    SpelledText(scope, tag);
    TagHasNoMeta(scope, tag);
    TaggedTrailing(tag, s);
    var u := DropTrailing(s, {'/'});
    LiteralPartsShape(tag + u);
    TrailingSlashes(s);
    HasMetaConcat(tag, u);
    LiteralHeadConcat(tag, u);
    assert JoinSlash([]) == "" by {
      EmptyJoin();
    }
  }

  lemma EmptyJoin()
    ensures JoinSlash([]) == ""
  {
  }

  lemma TagHasNoMeta(scope: string, tag: string)
    requires Spelled(scope, tag)
    ensures tag == "" || tag == "pilot:"
    ensures !HasMeta(tag)
  {
  }

  /** The prefix the check computes lies above every path the scope matches. */
  lemma PrefixIsAbove(path: string, scope: string, tag: string, accepts: ClassTest)
    requires Spelled(scope, tag) && Matches(path, scope, accepts)
    ensures GlobPrefix(scope) == "" || Above(GlobPrefix(scope), tag + NormalPath(path))
  {
    hide SplitScope, Spelled, MatchesText, GlobPrefix, DropTrailing, LiteralHead, HasMeta, NormalPath, Above;
    var s := SplitScope(scope).1;
    var norm := NormalPath(path);
    PrefixShape(scope, tag);
    if HasMeta(s) {
      if GlobPrefix(scope) != "" {
        TextMatchKeepsHead(norm, s, accepts);
        AboveBelow(GlobPrefix(scope), tag, LiteralHead(s), norm);
      }
    } else {
      TrailingSlashes(s);
      LiteralMatch(norm, s, accepts);
      AboveLiteral(tag, DropTrailing(s, {'/'}), s, norm);
    }
  }

  lemma {:induction false} HeadStopsAt(s: string, k: nat)
    requires k < |s| && IsMeta(s[k])
    ensures |LiteralHead(s)| <= k
  {
    if !IsMeta(s[0]) {
      HeadStopsAt(s[1..], k - 1);
    }
  }

  /** A match of a scope with metacharacters: the literal head begins the path, or the path is the
      directory of a subtree scope. */
  lemma TextMatchKeepsHead(norm: string, s: string, accepts: ClassTest)
    requires MatchesText(norm, s, accepts) && HasMeta(s)
    ensures LiteralHead(s) <= norm + "/"
  {
    LiteralHeadProperties(s);
    if Glob(s, norm, accepts) {
      GlobKeepsHead(s, norm, accepts);
    } else {
      var dir := s[..|s| - 3];
      assert s == dir + "/**";
      var head := LiteralHead(s);
      HeadStopsAt(s, |dir| + 1);
      assert head <= dir + "/";
    }
  }

  lemma LiteralMatch(norm: string, s: string, accepts: ClassTest)
    requires MatchesText(norm, s, accepts) && !HasMeta(s)
    ensures norm == s || DropTrailing(s, {'/'}) + "/" <= norm
  {
    if EndsWith(s, "/**") {
      assert IsMeta(s[|s| - 1]);
    }
    if Glob(s, norm, accepts) {
      GlobKeepsHead(s, norm, accepts);
    }
  }

  /** A scope without metacharacters matches its path and what lies below; an empty one matches nothing. */
  lemma LiteralTextIff(norm: string, s: string, accepts: ClassTest)
    requires !HasMeta(s)
    ensures MatchesText(norm, s, accepts) <==> s != "" && (norm == s || DropTrailing(s, {'/'}) + "/" <= norm)
  {
    if MatchesText(norm, s, accepts) {
      LiteralMatch(norm, s, accepts);
    }
  }

  lemma AboveBelow(prefix: string, tag: string, head: string, norm: string)
    requires prefix + "/" <= tag + head
    requires head <= norm + "/"
    ensures Above(prefix, tag + norm)
  {
    assert tag + head <= tag + (norm + "/");
    assert tag + (norm + "/") == (tag + norm) + "/";
  }

  lemma AboveLiteral(tag: string, u: string, s: string, norm: string)
    requires u <= s && (u == s || u + "/" <= s)
    requires norm == s || u + "/" <= norm
    ensures Above(tag + u, tag + norm)
  {
    assert (tag + u) + "/" == tag + (u + "/");
    assert (tag + norm) + "/" == tag + (norm + "/");
    assert u + "/" <= norm + "/";
  }

  /** Two directories above one path lie one above the other. */
  lemma AboveSamePath(a: string, b: string, path: string)
    requires Above(a, path) && Above(b, path)
    ensures a == b || b + "/" <= a || a + "/" <= b
  {
    var p := path + "/";
    assert a + "/" == p[..|a| + 1];
    assert b + "/" == p[..|b| + 1];
    if |a| == |b| {
      assert a == p[..|a|] == b;
    } else if |a| < |b| {
      assert b == p[..|b|];
      assert a + "/" == b[..|a| + 1];
    } else {
      assert a == p[..|a|];
      assert b + "/" == a[..|b| + 1];
    }
  }

  /** Two scopes in one spelling that match a common path are in conflict, unless both are scratch. */
  lemma OverlapIsConflict(path: string, a: string, b: string, tag: string, accepts: ClassTest)
    requires Spelled(a, tag) && Spelled(b, tag)
    requires Matches(path, a, accepts) && Matches(path, b, accepts)
    requires !("runs" <= a && "runs" <= b)
    ensures Conflict(a, b)
  {
    PrefixIsAbove(path, a, tag, accepts);
    PrefixIsAbove(path, b, tag, accepts);
    hide Matches, GlobPrefix;
    if GlobPrefix(a) != "" && GlobPrefix(b) != "" {
      AboveSamePath(GlobPrefix(a), GlobPrefix(b), tag + NormalPath(path));
    }
  }

  /** `path_matches_scope` over a list of scopes. */
  predicate MatchesAny(path: string, scopes: seq<string>, accepts: ClassTest) {
    exists i :: 0 <= i < |scopes| && Matches(path, scopes[i], accepts)
  }

  /** The scopes of the pilot namespace that are not scratch are written in one spelling. Scratch scopes and
      scopes of other namespaces may be anything. */
  predicate OneSpelling(scopes: seq<string>, tag: string) {
    forall s :: s in scopes && !("runs" <= s || "pilot:runs" <= s) && SplitScope(s).0.Pilot? ==> Spelled(s, tag)
  }

  /** The text of a scratch scope begins with `runs`, and so does everything before its first metacharacter. */
  lemma ScratchText(s: string)
    requires "runs" <= s || "pilot:runs" <= s
    ensures SplitScope(s).0.Pilot? && "runs" <= SplitScope(s).1
  {
    var t := Slashed(s);
    var body := if "runs" <= s then t else t[6..];
    assert forall i :: 0 <= i < 4 ==> body[i] == "runs"[i];
    assert !IsSpace(Python, t[0]);
    TrimKeepsFirst(Python, t);
    var u := Trim(Python, t);
    ScratchTrimmed(t, if "runs" <= s then 4 else 10);
    hide Trim;
    if "runs" <= s {
      assert u[0] == 'r' && !StartsWithTag(u, "pilot:") && !StartsWithTag(u, "method:") && !StartsWithTag(u, "source:");
      FirstPartOfRuns(u);
      assert forall i :: 0 <= i < 4 ==> u[i] == "runs"[i];
    } else {
      assert forall i :: 0 <= i < 10 ==> u[i] == "pilot:runs"[i];
      assert StartsWithTag(u, "pilot:");
      assert u[6..][0] == 'r' && forall i :: 0 <= i < 4 ==> u[6..][i] == "runs"[i];
    }
  }

  /** Trimming leaves visible characters at the start of a text alone. */
  lemma ScratchTrimmed(t: string, n: nat)
    requires 0 < n <= |t| && forall i :: 0 <= i < n ==> !IsSpace(Python, t[i])
    ensures n <= |Trim(Python, t)| && Trim(Python, t) <= t
  {
    TrimEndVisible(t, n);
    TrimEndProperties(Python, t);
  }

  lemma {:induction false} TrimEndVisible(t: string, n: nat)
    requires 0 < n <= |t| && !IsSpace(Python, t[n - 1])
    ensures n <= |TrimEnd(Python, t)|
    decreases |t|
  {
    if n == |t| {
    } else if IsSpace(Python, t[|t| - 1]) {
      TrimEndVisible(t[..|t| - 1], n);
    }
  }

  lemma FirstChar(u: string)
    requires u != "" && u[0] != '/'
    ensures Split(u, '/')[0] != "" && Split(u, '/')[0][0] == u[0]
  {
  }

  lemma RootsBeginOtherwise(part: string)
    requires part in SOURCE_ROOTS
    ensures part != "" && part[0] != 'r'
  {
  }

  /** No source root begins with these letters. */
  lemma FirstPartOfRuns(u: string)
    requires |u| >= 4 && u[0] == 'r'
    ensures Split(u, '/')[0] !in SOURCE_ROOTS
    ensures !("skills/" <= u) && !("cognitive-skills/" <= u)
  {
    hide Split;
    FirstChar(u);
    if Split(u, '/')[0] in SOURCE_ROOTS {
      RootsBeginOtherwise(Split(u, '/')[0]);
    }
  }

  /** A scratch scope matches only paths that begin with `runs`. */
  lemma ScratchMatchesRuns(path: string, s: string, accepts: ClassTest)
    requires "runs" <= s || "pilot:runs" <= s
    requires Matches(path, s, accepts)
    ensures "runs" <= NormalPath(path)
  {
    ScratchText(s);
    hide SplitScope, NormalPath, MatchesText;
    RunsTextMatches(NormalPath(path), SplitScope(s).1, accepts);
  }

  lemma RunsTextMatches(norm: string, s: string, accepts: ClassTest)
    requires "runs" <= s && MatchesText(norm, s, accepts)
    ensures "runs" <= norm
  {
    assert s == "runs" + s[4..];
    assert !HasMeta("runs");
    LiteralHeadConcat("runs", s[4..]);
    assert "runs" <= LiteralHead(s);
    if HasMeta(s) {
      TextMatchKeepsHead(norm, s, accepts);
      RunsBeforeSlash(norm);
    } else {
      LiteralMatch(norm, s, accepts);
      DropTrailingProperties(s, {'/'});
      var u := DropTrailing(s, {'/'});
      assert s[3] == 's' && |u| >= 4;
      assert u[..4] == s[..4];
    }
  }

  lemma RunsBeforeSlash(norm: string)
    requires "runs" <= norm + "/"
    ensures "runs" <= norm
  {
    var full := norm + "/";
    assert full[..4] == "runs";
    assert full[|norm|] == '/' && forall i :: 0 <= i < 4 ==> full[i] == "runs"[i] != '/';
    assert norm[..4] == full[..4];
  }

  /** A path matched by one of the scopes that is not scratch. */
  predicate MatchesLasting(path: string, scopes: seq<string>, accepts: ClassTest) {
    exists i :: 0 <= i < |scopes| && !("runs" <= scopes[i] || "pilot:runs" <= scopes[i])
                && Matches(path, scopes[i], accepts)
  }

  /** When the check reports nothing, no path is matched both by a producer scope and by a referee scope that are not
      scratch, and no path that does not begin with `runs` is matched by any producer scope and any referee scope. */
  lemma CleanCheckSeparates(producers: seq<string>, referees: seq<string>, errors: seq<(string, string)>,
                            tag: string, path: string, accepts: ClassTest)
    requires forall p, r :: (p, r) in errors <==> Reported(producers, referees, p, r)
    requires errors == []
    requires OneSpelling(producers, tag) && OneSpelling(referees, tag)
    ensures !(MatchesLasting(path, producers, accepts) && MatchesLasting(path, referees, accepts))
    ensures !("runs" <= NormalPath(path)) ==>
              !(MatchesAny(path, producers, accepts) && MatchesAny(path, referees, accepts))
  {
    if MatchesLasting(path, producers, accepts) && MatchesLasting(path, referees, accepts) {
      var i :| 0 <= i < |producers| && !("runs" <= producers[i] || "pilot:runs" <= producers[i])
               && Matches(path, producers[i], accepts);
      var j :| 0 <= j < |referees| && !("runs" <= referees[j] || "pilot:runs" <= referees[j])
               && Matches(path, referees[j], accepts);
      SharedPathIsReported(producers, referees, producers[i], referees[j], tag, path, accepts);
    } else if !("runs" <= NormalPath(path)) {
      hide Matches, NormalPath;
      if MatchesAny(path, producers, accepts) {
        OutsideIsLasting(path, producers, accepts);
      }
      if MatchesAny(path, referees, accepts) {
        OutsideIsLasting(path, referees, accepts);
      }
    }
  }

  lemma OutsideIsLasting(path: string, scopes: seq<string>, accepts: ClassTest)
    requires !("runs" <= NormalPath(path)) && MatchesAny(path, scopes, accepts)
    ensures MatchesLasting(path, scopes, accepts)
  {
    hide Matches, NormalPath;
    var i :| 0 <= i < |scopes| && Matches(path, scopes[i], accepts);
    NotScratch(path, scopes[i], accepts);
  }

  /** A path that a producer scope and a referee scope share, neither scratch, gets the pair reported. */
  lemma SharedPathIsReported(producers: seq<string>, referees: seq<string>, p: string, r: string,
                             tag: string, path: string, accepts: ClassTest)
    requires p in producers && r in referees
    requires !("runs" <= p || "pilot:runs" <= p) && !("runs" <= r || "pilot:runs" <= r)
    requires OneSpelling(producers, tag) && OneSpelling(referees, tag)
    requires Matches(path, p, accepts) && Matches(path, r, accepts)
    ensures Reported(producers, referees, p, r)
  {
    assert SplitScope(p).0.Pilot? && SplitScope(r).0.Pilot?;
    StartsWithRunsIff(p);
    StartsWithRunsIff(r);
    hide Conflict, Matches, Spelled, SplitScope, StartsWithRuns;
    OverlapIsConflict(path, p, r, tag, accepts);
  }

  lemma NotScratch(path: string, s: string, accepts: ClassTest)
    requires Matches(path, s, accepts) && !("runs" <= NormalPath(path))
    ensures !("runs" <= s || "pilot:runs" <= s)
  {
    if "runs" <= s || "pilot:runs" <= s {
      ScratchMatchesRuns(path, s, accepts);
    }
  }

  // ----- exactness on subtree scopes

  /** A literal directory of the pilot namespace, to be followed by a slash and two stars. */
  predicate Directory(x: string, tag: string) {
    && x != "" && !HasMeta(x) && '\\' !in x && x[0] != '/'
    && Spelled(tag + x + "/**", tag)
    && SplitScope(tag + x + "/**").0.Pilot?
  }

  function Subtree(x: string, tag: string): string {
    tag + x + "/**"
  }

  lemma SlashedSame(s: string)
    requires '\\' !in s
    ensures Slashed(s) == s
  {
  }

  lemma SubtreeText(x: string, tag: string)
    requires Directory(x, tag)
    ensures SplitScope(Subtree(x, tag)) == (Pilot, x + "/**")
    ensures Stripped(Subtree(x, tag)) == tag + x + "/**"
  {
    hide SplitScope, Spelled, DropLeading, DropTrailing, Slashed, HasMeta;
    var scope := Subtree(x, tag);
    var text := x + "/**";
    assert scope == tag + text;
    assert scope[|tag|..] == text;
    assert '\\' !in tag by {
      TagIsPlain(scope, tag);
    }
    SlashedSame(scope);
    SpelledText(scope, tag);
    DropLeadingProperties(text, {'/'});
    DropTrailingProperties(scope, {'/'});
    assert scope[|scope| - 1] == '*';
  }

  lemma TagIsPlain(scope: string, tag: string)
    requires Spelled(scope, tag)
    ensures '\\' !in tag
  {
  }

  lemma SubtreeShape(x: string, tag: string)
    requires Directory(x, tag)
    ensures GlobPrefix(Subtree(x, tag)) == tag + x
    ensures SplitScope(Subtree(x, tag)) == (Pilot, x + "/**")
  {
    SubtreeText(x, tag);
    hide SplitScope, Stripped, Spelled;
    HasMetaConcat(tag, x);
    LiteralThenStars(tag + x);
  }

  lemma LiteralCut(part: string, more: seq<string>)
    ensures !HasMeta(part) ==> LiteralParts([part] + more) == [part] + LiteralParts(more)
    ensures LiteralParts(["**"]) == []
  {
    assert ([part] + more)[1..] == more;
    assert IsMeta("**"[0]);
  }

  lemma StarsAlone()
    ensures Split("**", '/') == ["**"]
  {
    SplitFirst("**", "", '/');
  }

  /** The text before a slash is the first part, and the rest is cut on its own. */
  lemma SplitAtSlash(part: string, rest: string)
    requires '/' !in part
    ensures Split(part + "/" + rest, '/') == [part] + Split(rest, '/')
  {
    SplitFirst(part, "/" + rest, '/');
    SplitSeparator(rest, '/');
    assert part + "/" + rest == part + ("/" + rest);
    hide Split;
    assert ([""] + Split(rest, '/'))[1..] == Split(rest, '/');
  }

  /** Cutting the text of a subtree scope: the literal parts join back to it. */
  lemma {:induction false} LiteralThenStars(u: string)
    requires !HasMeta(u)
    ensures JoinSlash(LiteralParts(Split(u + "/**", '/'))) == u
    ensures LiteralParts(Split(u + "/**", '/')) != []
    decreases |u|
  {
    hide Split, HasMeta, LiteralParts;
    var part, rest := FirstPart(u);
    if u == part {
      assert u + "/**" == part + "/" + "**";
      SplitAtSlash(part, "**");
      StarsAlone();
      LiteralCut(part, ["**"]);
      assert [part] + LiteralParts(["**"]) == [part];
    } else {
      HasMetaConcat(part, "/" + rest);
      HasMetaConcat("/", rest);
      assert u == part + ("/" + rest);
      LiteralThenStars(rest);
      var more := Split(rest + "/**", '/');
      assert u + "/**" == part + "/" + (rest + "/**");
      SplitAtSlash(part, rest + "/**");
      LiteralCut(part, more);
      assert ([part] + LiteralParts(more))[1..] == LiteralParts(more);
    }
  }

  /** On literal subtree scopes the check is exact: a conflict exactly when some path matches both. */
  lemma SubtreeConflictIff(x: string, y: string, tag: string, accepts: ClassTest)
    requires Directory(x, tag) && Directory(y, tag)
    ensures Conflict(Subtree(x, tag), Subtree(y, tag)) <==>
            exists path :: Matches(path, Subtree(x, tag), accepts) && Matches(path, Subtree(y, tag), accepts)
  {
    var a, b := Subtree(x, tag), Subtree(y, tag);
    SubtreeShape(x, tag);
    SubtreeShape(y, tag);
    if Conflict(a, b) {
      SubtreeNested(x, y, tag);
      var low := if |x| <= |y| then y else x;
      SubtreeMatches(low, x, tag, accepts);
      SubtreeMatches(low, y, tag, accepts);
    }
    hide Matches, GlobPrefix, Directory;
    if path :| Matches(path, a, accepts) && Matches(path, b, accepts) {
      assert Spelled(a, tag) && Spelled(b, tag) by {
        DirectoryIsSpelled(x, tag);
        DirectoryIsSpelled(y, tag);
      }
      PrefixIsAbove(path, a, tag, accepts);
      PrefixIsAbove(path, b, tag, accepts);
      AboveSamePath(tag + x, tag + y, tag + NormalPath(path));
    }
  }

  lemma DirectoryIsSpelled(x: string, tag: string)
    requires Directory(x, tag)
    ensures Spelled(Subtree(x, tag), tag)
    ensures tag + x != ""
  {
  }

  /** A subtree scope matches its directory and whatever lies under it. */
  lemma SubtreeMatches(path: string, x: string, tag: string, accepts: ClassTest)
    requires Directory(x, tag)
    requires path != "" && '\\' !in path && path[0] != '/'
    requires path == x || x + "/" <= path
    ensures Matches(path, Subtree(x, tag), accepts)
  {
    SubtreeText(x, tag);
    SlashedSame(path);
    assert NormalPath(path) == path;
    hide SplitScope, Directory, NormalPath, Glob, HasMeta, Slashed;
    var s := x + "/**";
    assert s[..|s| - 3] == x;
    assert s[|s| - 3..] == "/**";
    assert EndsWith(s, "/**");
  }

  lemma SubtreeNested(x: string, y: string, tag: string)
    requires Directory(x, tag) && Directory(y, tag)
    requires Conflict(Subtree(x, tag), Subtree(y, tag))
    ensures x == y || x + "/" <= y || y + "/" <= x
  {
    var a, b := Subtree(x, tag), Subtree(y, tag);
    SubtreeShape(x, tag);
    SubtreeShape(y, tag);
    hide GlobPrefix, Directory;
    if a == b {
      assert x == a[|tag|..|a| - 3] == y;
    } else {
      Untag(tag, x, y);
      Untag(tag, y, x);
    }
  }

  lemma Untag(tag: string, x: string, y: string)
    ensures tag + x == tag + y ==> x == y
    ensures (tag + y) + "/" <= tag + x ==> y + "/" <= x
  {
    assert (tag + x)[|tag|..] == x && (tag + y)[|tag|..] == y;
    var z := y + "/";
    assert (tag + y) + "/" == tag + z;
    if tag + z <= tag + x {
      assert z == (tag + z)[|tag|..];
      assert x[..|z|] == (tag + x)[|tag|..|tag| + |z|];
    }
  }

  // ----- where the check is not sound

  predicate Nested(x: string, y: string) {
    x == y || x + "/" <= y || y + "/" <= x
  }

  /** Some path is matched by both subtree scopes exactly when one directory lies at or under the other,
      however the scopes are written. */
  lemma CommonPathIff(x: string, s: string, y: string, t: string, accepts: ClassTest)
    requires Directory(x, s) && Directory(y, t)
    ensures (exists path :: Matches(path, Subtree(x, s), accepts) && Matches(path, Subtree(y, t), accepts))
       <==> Nested(x, y)
  {
    var a, b := Subtree(x, s), Subtree(y, t);
    DirectoryIsSpelled(x, s);
    DirectoryIsSpelled(y, t);
    SubtreeShape(x, s);
    SubtreeShape(y, t);
    if Nested(x, y) {
      var low := if |x| <= |y| then y else x;
      SubtreeMatches(low, x, s, accepts);
      SubtreeMatches(low, y, t, accepts);
    }
    hide Matches, GlobPrefix, Directory, Spelled, NormalPath, Above;
    if path :| Matches(path, a, accepts) && Matches(path, b, accepts) {
      var norm := NormalPath(path);
      PrefixIsAbove(path, a, s, accepts);
      PrefixIsAbove(path, b, t, accepts);
      DirectoryIsNamed(x, s);
      DirectoryIsNamed(y, t);
      UntagAbove(s, x, norm);
      UntagAbove(t, y, norm);
      AboveSamePath(x, y, norm);
    }
  }

  lemma DirectoryIsNamed(x: string, tag: string)
    requires Directory(x, tag)
    ensures x != ""
  {
  }

  lemma UntagAbove(tag: string, x: string, norm: string)
    requires Above(tag + x, tag + norm)
    ensures Above(x, norm)
  {
    var a, b := x + "/", norm + "/";
    assert (tag + x) + "/" == tag + a && (tag + norm) + "/" == tag + b;
    assert (tag + a)[|tag|..] == a && (tag + b)[|tag|..] == b;
    assert b[..|a|] == (tag + b)[|tag|..|tag| + |a|];
  }

  /** A bare and a tagged subtree scope are never in conflict, whatever their directories. */
  lemma MixedNeverConflicts(x: string, y: string)
    requires Directory(x, "") && Directory(y, "pilot:")
    ensures !Conflict(Subtree(x, ""), Subtree(y, "pilot:"))
    ensures !Conflict(Subtree(y, "pilot:"), Subtree(x, ""))
  {
    var a, b := Subtree(x, ""), Subtree(y, "pilot:");
    SubtreeShape(x, "");
    SubtreeShape(y, "pilot:");
    assert "" + x == x && !StartsWithTag(a, "pilot:");
    hide GlobPrefix, SplitScope;
    BareIsNotTagged(x, y);
  }

  lemma TaggedStarts(y: string, u: string)
    requires "pilot:" + y <= u
    ensures StartsWithTag(u, "pilot:")
  {
    var tagged := "pilot:" + y;
    assert forall i :: 0 <= i < 6 ==> u[i] == tagged[i] == "pilot:"[i];
  }

  /** A directory above tagged text begins with the whole tag: the tag has no slash. */
  lemma AboveTaggedStarts(x: string, y: string, rest: string)
    requires x + "/" <= "pilot:" + y
    ensures StartsWithTag(x + rest, "pilot:")
  {
    var tagged := "pilot:" + y;
    assert tagged[|x|] == (x + "/")[|x|] == '/';
    assert forall i :: 0 <= i < 6 ==> tagged[i] == "pilot:"[i] != '/';
    assert forall i :: 0 <= i < 6 ==> (x + rest)[i] == (x + "/")[i] == tagged[i];
  }

  /** Text that does not begin with the tag neither is, nor contains, nor is contained in tagged text. */
  lemma BareIsNotTagged(x: string, y: string)
    requires !StartsWithTag(x + "/**", "pilot:")
    ensures x + "/**" != "pilot:" + y + "/**"
    ensures x != "pilot:" + y
    ensures !(x + "/" <= "pilot:" + y) && !(("pilot:" + y) + "/" <= x)
  {
    hide StartsWithTag;
    var n := x + "/**";
    if x + "/" <= "pilot:" + y {
      AboveTaggedStarts(x, y, "/**");
    } else if "pilot:" + y <= n {
      TaggedStarts(y, n);
    } else {
      assert x <= n;
    }
  }

  /** On subtree scopes of any spellings the check agrees with the paths they match exactly when they are
      spelled alike or neither directory lies at or under the other. */
  lemma AgreesIff(x: string, s: string, y: string, t: string, accepts: ClassTest)
    requires Directory(x, s) && Directory(y, t)
    ensures (Conflict(Subtree(x, s), Subtree(y, t))
             <==> exists path :: Matches(path, Subtree(x, s), accepts) && Matches(path, Subtree(y, t), accepts))
       <==> s == t || !Nested(x, y)
  {
    TagOfDirectory(x, s);
    TagOfDirectory(y, t);
    hide Conflict, Matches, Directory, Nested;
    CommonPathIff(x, s, y, t, accepts);
    if s == t {
      SubtreeConflictIff(x, y, s, accepts);
    } else if s == "" {
      MixedNeverConflicts(x, y);
    } else {
      MixedNeverConflicts(y, x);
    }
  }

  lemma TagOfDirectory(x: string, tag: string)
    requires Directory(x, tag)
    ensures tag == "" || tag == "pilot:"
  {
  }

  lemma SampleSplit(scope: string)
    requires scope == "uo/**"
    ensures Split(scope, '/')[0] == "uo" && Trim(Python, scope) == scope && Slashed(scope) == scope
  {
    SlashedSame(scope);
    TrimProperties(Python, scope);
    assert scope == "uo" + "/**";
    SplitFirst("uo", "/**", '/');
  }

  lemma SampleBare()
    ensures Directory("uo", "")
  {
    var scope := "uo/**";
    assert "" + "uo" + "/**" == scope;
    SampleSplit(scope);
    TrimProperties(Python, scope);
    hide Trim, Split, Slashed;
  }

  /** Whatever carries the tag is matched in the pilot namespace. */
  lemma TaggedIsPilot(scope: string)
    requires Spelled(scope, "pilot:")
    ensures SplitScope(scope).0.Pilot?
  {
    SlashedKeepsTrim(scope);
    hide Trim, DropLeading;
    var t := Slashed(scope);
    assert forall i :: 0 <= i < 6 ==> t[i] == "pilot:"[i];
  }

  lemma SampleTagged()
    ensures Directory("uo", "pilot:")
  {
    hide SplitScope;
    assert "pilot:" + "uo" + "/**" == "pilot:uo/**";
    assert "pilot:" <= "pilot:uo/**";
    TaggedIsPilot("pilot:uo/**");
  }

  lemma Unnested(a: string, b: string, pa: string, pb: string)
    requires a != "" && b != "" && a[0] != b[0] && GlobPrefix(a) == pa && GlobPrefix(b) == pb
    requires pa != "" && pb != "" && pa[0] != pb[0]
    ensures !Conflict(a, b)
  {
    hide GlobPrefix;
  }

  /** Mixed spellings escape the check: the bare and the tagged scope match the same paths. */
  lemma MixedSpellingsEscape(accepts: ClassTest)
    ensures Matches("uo", Subtree("uo", ""), accepts) && Matches("uo", Subtree("uo", "pilot:"), accepts)
    ensures !Conflict(Subtree("uo", ""), Subtree("uo", "pilot:"))
  {
    hide SplitScope, GlobPrefix, Directory, Matches, Conflict;
    SampleBare();
    SampleTagged();
    SubtreeMatches("uo", "uo", "", accepts);
    SubtreeMatches("uo", "uo", "pilot:", accepts);
    SubtreeShape("uo", "");
    SubtreeShape("uo", "pilot:");
    Unnested(Subtree("uo", ""), Subtree("uo", "pilot:"), "" + "uo", "pilot:" + "uo");
  }
}
