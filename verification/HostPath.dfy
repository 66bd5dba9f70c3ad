/** Project paths of the dispatch registry: POSIX path resolution of a trimmed text. */
module HostPath {
  import opened Text

  /** Path segments with empty, "." and ".." segments worked out against those already kept. */
  function Collapse(segs: seq<string>, kept: seq<string>): seq<string> {
    if segs == [] then kept
    else if segs[0] == "" || segs[0] == "." then Collapse(segs[1..], kept)
    else if segs[0] == ".." then Collapse(segs[1..], if kept == [] then [] else kept[..|kept| - 1])
    else Collapse(segs[1..], kept + [segs[0]])
  }

  function Join(segs: seq<string>): string {
    if segs == [] then "" else "/" + segs[0] + Join(segs[1..])
  }

  function Render(segs: seq<string>): string {
    if segs == [] then "/" else Join(segs)
  }

  /** An absolute path without empty, "." or ".." segments. */
  function Clean(path: string): string {
    Render(Collapse(Split(path, '/'), []))
  }

  function Resolve(cwd: string, path: string): string {
    if path != "" && path[0] == '/' then Clean(path) else Clean(cwd + "/" + path)
  }

  function NormalizeProject(cwd: string, project: string): string {
    var raw := Trim(JavaScript, project);
    if raw == "" then "" else Resolve(cwd, raw)
  }

  /** A project path that every later normalisation leaves alone, whatever the working directory. */
  predicate Canonical(project: string) {
    project != "" && project[0] == '/' && Clean(project) == project && Trimmed(JavaScript, project)
  }

  predicate PlainSegment(seg: string) {
    seg != "" && seg != "." && seg != ".." && '/' !in seg
  }

  lemma {:induction false} CollapsePlain(segs: seq<string>, kept: seq<string>)
    requires forall x :: x in segs ==> '/' !in x
    requires forall x :: x in kept ==> PlainSegment(x)
    ensures forall x :: x in Collapse(segs, kept) ==> PlainSegment(x)
  {
    if segs == [] {
    } else {
      if segs[0] == "" || segs[0] == "." {
        CollapsePlain(segs[1..], kept);
      } else if segs[0] == ".." {
        CollapsePlain(segs[1..], if kept == [] then [] else kept[..|kept| - 1]);
      } else {
        CollapsePlain(segs[1..], kept + [segs[0]]);
      }
    }
  }

  lemma {:induction false} CollapseOfPlain(segs: seq<string>, kept: seq<string>)
    requires forall x :: x in segs ==> PlainSegment(x)
    ensures Collapse(segs, kept) == kept + segs
  {
    if segs == [] {
      assert kept + segs == kept;
    } else {
      assert segs[0] in segs;
      CollapseOfPlain(segs[1..], kept + [segs[0]]);
      assert kept + [segs[0]] + segs[1..] == kept + segs;
    }
  }

  lemma {:induction false} SplitJoin(segs: seq<string>)
    requires forall x :: x in segs ==> '/' !in x
    ensures Split(Join(segs), '/') == [""] + segs
  {
    if segs == [] {
    } else {
      var rest := Join(segs[1..]);
      SplitJoin(segs[1..]);
      assert segs[0] in segs;
      SplitFirst(segs[0], rest, '/');
      SplitSeparator(segs[0] + rest, '/');
      assert Join(segs) == "/" + (segs[0] + rest);
      assert ([""] + segs[1..])[1..] == segs[1..];
      assert [segs[0]] + segs[1..] == segs;
    }
  }

  lemma {:induction false} CollapseConcat(a: seq<string>, b: seq<string>, kept: seq<string>)
    ensures Collapse(a + b, kept) == Collapse(b, Collapse(a, kept))
  {
    if a == [] {
      assert a + b == b;
    } else {
      assert (a + b)[1..] == a[1..] + b;
      if a[0] == "" || a[0] == "." {
        CollapseConcat(a[1..], b, kept);
      } else if a[0] == ".." {
        CollapseConcat(a[1..], b, if kept == [] then [] else kept[..|kept| - 1]);
      } else {
        CollapseConcat(a[1..], b, kept + [a[0]]);
      }
    }
  }

  /** What ".." and "." do anywhere in a path: a directory and the ".." behind it undo each other, the root has no
      parent, and empty segments and "." say nothing. */
  lemma ParentUndoes(a: seq<string>, seg: string, b: seq<string>)
    ensures PlainSegment(seg) ==> Collapse(a + [seg, ".."] + b, []) == Collapse(a + b, [])
    ensures Collapse([".."] + b, []) == Collapse(b, [])
    ensures seg == "" || seg == "." ==> Collapse(a + [seg] + b, []) == Collapse(a + b, [])
  {
    CollapseConcat(a, b, []);
    CollapseFirst(seg, b, Collapse(a, []));
    assert ([".."] + b)[1..] == b;
    assert a + [seg, ".."] + b == a + ([seg] + ([".."] + b));
    assert a + [seg] + b == a + ([seg] + b);
    hide Collapse;
    CollapseConcat(a, [seg] + ([".."] + b), []);
    CollapseConcat(a, [seg] + b, []);
  }

  lemma CollapseFirst(seg: string, b: seq<string>, kept: seq<string>)
    ensures PlainSegment(seg) ==> Collapse([seg] + ([".."] + b), kept) == Collapse(b, kept)
    ensures seg == "" || seg == "." ==> Collapse([seg] + b, kept) == Collapse(b, kept)
  {
    assert ([seg] + b)[1..] == b && ([".."] + b)[1..] == b;
    assert ([seg] + ([".."] + b))[1..] == [".."] + b;
    assert (kept + [seg])[..|kept|] == kept;
  }

  lemma SplitCons(c: char, s: string, sep: char)
    ensures Split([c] + s, sep)
         == if c == sep then [""] + Split(s, sep) else [[c] + Split(s, sep)[0]] + Split(s, sep)[1..]
  {
    assert ([c] + s)[1..] == s;
  }

  lemma {:induction false} SplitAtSlash(a: string, b: string)
    ensures Split(a + "/" + b, '/') == Split(a, '/') + Split(b, '/')
  {
    if a == "" {
      assert a + "/" + b == "/" + b;
      SplitSeparator(b, '/');
      assert Split("", '/') == [""];
    } else {
      SplitAtSlash(a[1..], b);
      hide Split;
      assert [a[0]] + a[1..] == a;
      assert [a[0]] + (a[1..] + "/" + b) == a + "/" + b;
      SplitGrows(a[0], a[1..], a[1..] + "/" + b, Split(b, '/'));
    }
  }

  lemma SplitGrows(c: char, s: string, all: string, more: seq<string>)
    requires Split(all, '/') == Split(s, '/') + more
    ensures Split([c] + all, '/') == Split([c] + s, '/') + more
  {
    SplitCons(c, s, '/');
    SplitCons(c, all, '/');
    hide Split;
    var parts := Split(s, '/');
    assert parts[0] == (parts + more)[0];
    assert (parts + more)[1..] == parts[1..] + more;
  }

  /** A relative project is worked out from the working directory, an absolute one from the root. */
  lemma RelativeFromDirectory(cwd: string, project: string)
    requires Trim(JavaScript, project) != ""
    ensures var raw := Trim(JavaScript, project);
            NormalizeProject(cwd, project)
            == Render(Collapse(Split(raw, '/'), if raw[0] == '/' then [] else Collapse(Split(cwd, '/'), [])))
  {
    var raw := Trim(JavaScript, project);
    SplitAtSlash(cwd, raw);
    CollapseConcat(Split(cwd, '/'), Split(raw, '/'), []);
  }

  /** Cleaning is idempotent: a rendered path splits back into its own segments. */
  lemma CleanIdempotent(path: string)
    ensures Clean(Clean(path)) == Clean(path)
    ensures Clean(path) != "" && Clean(path)[0] == '/'
  {
    SplitPartsFree(path, '/');
    var segs := Collapse(Split(path, '/'), []);
    CollapsePlain(Split(path, '/'), []);
    SplitJoin(segs);
    CollapseOfPlain(segs, []);
    assert [] + segs == segs;
    assert ([""] + segs)[1..] == segs;
    if segs == [] {
      assert Split("/", '/') == ["", ""];
      assert Collapse(["", ""], []) == Collapse([""], []);
    } else {
      assert Collapse([""] + segs, []) == Collapse(segs, []);
    }
  }

  lemma {:induction false} JoinConcat(a: seq<string>, b: seq<string>)
    ensures Join(a + b) == Join(a) + Join(b)
  {
    if a == [] {
      assert a + b == b;
    } else {
      JoinConcat(a[1..], b);
      assert (a + b)[1..] == a[1..] + b;
    }
  }

  lemma {:induction false} CollapseLength(segs: seq<string>, kept: seq<string>)
    ensures |Join(Collapse(segs, kept))| <= |Join(kept)| + |Join(segs)|
  {
    if segs == [] {
    } else {
      if segs[0] == "" || segs[0] == "." {
        CollapseLength(segs[1..], kept);
      } else if segs[0] == ".." {
        if kept == [] {
          CollapseLength(segs[1..], []);
        } else {
          var top := |kept| - 1;
          CollapseLength(segs[1..], kept[..top]);
          assert kept == kept[..top] + kept[top..];
          JoinConcat(kept[..top], kept[top..]);
        }
      } else {
        CollapseLength(segs[1..], kept + [segs[0]]);
        JoinConcat(kept, [segs[0]]);
        assert Join([segs[0]]) == "/" + segs[0] + Join([]);
      }
    }
  }

  lemma {:induction false} JoinSplitLength(path: string)
    ensures |Join(Split(path, '/'))| == |path| + 1
  {
    if path == "" {
      assert Join([""]) == "/" + "" + Join([]);
    } else {
      JoinSplitLength(path[1..]);
      var rest := Split(path[1..], '/');
      if path[0] == '/' {
        assert ([""] + rest)[1..] == rest;
      } else {
        assert ([[path[0]] + rest[0]] + rest[1..])[1..] == rest[1..];
      }
    }
  }

  lemma CleanLength(path: string)
    requires path != "" && path[0] == '/'
    ensures |Clean(path)| <= |path|
  {
    var rest := Split(path[1..], '/');
    assert Split(path, '/') == [""] + rest;
    JoinSplitLength(path[1..]);
    CollapseLength(rest, []);
    assert ([""] + rest)[1..] == rest;
    assert Collapse([""] + rest, []) == Collapse(rest, []);
  }

  /** The normal form is absolute and clean, or empty for a blank project. */
  lemma NormalShape(cwd: string, project: string)
    ensures var r := NormalizeProject(cwd, project);
            r == "" || (r[0] == '/' && Clean(r) == r)
    ensures NormalizeProject(cwd, project) == "" <==> Trim(JavaScript, project) == ""
  {
    var raw := Trim(JavaScript, project);
    if raw != "" {
      CleanIdempotent(if raw[0] == '/' then raw else cwd + "/" + raw);
    }
  }

  /** Normalising a normal form again changes it exactly when the form ends in white space:
      trimming then cuts the last segment. */
  lemma NormalizeIdempotentIff(cwd: string, project: string)
    ensures var r := NormalizeProject(cwd, project);
            && (NormalizeProject(cwd, r) == r <==> Trimmed(JavaScript, r))
            && (NormalizeProject(cwd, r) == r <==> r == "" || Canonical(r))
  {
    var r := NormalizeProject(cwd, project);
    NormalShape(cwd, project);
    if r != "" {
      TrimProperties(JavaScript, r);
      TrimKeepsFirst(JavaScript, r);
      var t := Trim(JavaScript, r);
      CleanLength(t);
    }
  }

  /** The canonical paths are the non-empty fixed points, and they do not depend on the working directory. */
  lemma CanonicalIsFixedPoint(cwd: string, project: string)
    ensures Canonical(project) <==> project != "" && NormalizeProject(cwd, project) == project
  {
    if project != "" && NormalizeProject(cwd, project) == project {
      NormalShape(cwd, project);
      NormalizeIdempotentIff(cwd, project);
    }
    TrimProperties(JavaScript, project);
  }

  lemma CollapseStep(seg: string, rest: seq<string>, kept: seq<string>)
    requires seg != ".."
    ensures Collapse([seg] + rest, kept)
         == Collapse(rest, if seg == "" || seg == "." then kept else kept + [seg])
  {
    assert ([seg] + rest)[1..] == rest;
  }

  lemma SplitSample()
    ensures Split("/a/ /", '/') == ["", "a", " ", ""]
    ensures Split("/a/", '/') == ["", "a", ""]
  {
    SplitFirst("", "/a/ /", '/');
    SplitFirst("a", "/ /", '/');
    SplitFirst(" ", "/", '/');
    SplitFirst("a", "/", '/');
  }

  lemma CollapseSample()
    ensures Collapse(["", "a", " ", ""], []) == ["a", " "]
    ensures Collapse(["", "a", ""], []) == ["a"]
  {
    calc {
      Collapse(["", "a", " ", ""], []);
      { assert ["", "a", " ", ""] == [""] + ["a", " ", ""]; CollapseStep("", ["a", " ", ""], []); }
      Collapse(["a", " ", ""], []);
      { assert ["a", " ", ""] == ["a"] + [" ", ""]; CollapseStep("a", [" ", ""], []); assert [] + ["a"] == ["a"]; }
      Collapse([" ", ""], ["a"]);
      { assert [" ", ""] == [" "] + [""]; CollapseStep(" ", [""], ["a"]); assert ["a"] + [" "] == ["a", " "]; }
      Collapse([""], ["a", " "]);
      { assert [""] == [""] + []; CollapseStep("", [], ["a", " "]); }
      ["a", " "];
    }
    CollapseStep("", ["a", ""], []);
    CollapseStep("a", [""], []);
    CollapseStep("", [], ["a"]);
  }

  /** Two normalisations of "/a/ /": the blank directory disappears only the second time. */
  lemma NormalizeTwiceDiffers(cwd: string)
    ensures NormalizeProject(cwd, "/a/ /") == "/a/ "
    ensures NormalizeProject(cwd, "/a/ ") == "/a"
  {
    assert Trim(JavaScript, "/a/ /") == "/a/ /";
    assert Trim(JavaScript, "/a/ ") == "/a/";
    SplitSample();
    CollapseSample();
    hide Trim, Split, Collapse;
    assert Join([" "]) == "/" + " " + Join([]);
    assert ["a", " "][1..] == [" "];
    assert Join(["a", " "]) == "/" + "a" + Join([" "]);
    assert Join(["a"]) == "/" + "a" + Join([]);
  }
}
