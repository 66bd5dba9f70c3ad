/** Finding JSON objects in command output by counting braces: `parseAcpStdoutJson`
    (opencode-plugin/pilot-driver-core.ts) and `extractJsonObjects` (opencode-plugin/ascendc-pilot.ts).
    Both scanners ignore string quoting. */
module BraceScanner {
  import opened Text
  import opened Lists

  /** The length of the shortest beginning of `s` that brings the depth back to zero. */
  function Close(s: string, depth: nat): (n: Option<nat>)
    ensures n.Some? ==> 0 < n.value && n.value <= |s|
  {
    if s == "" then None
    else if s[0] == '{' then Plus(1, Close(s[1..], depth + 1))
    else if s[0] == '}' && depth == 1 then Some(1)
    else Plus(1, Close(s[1..], if s[0] == '}' && depth > 0 then depth - 1 else depth))
  }

  function Plus(k: nat, n: Option<nat>): Option<nat> {
    if n.None? then None else Some(k + n.value)
  }

  /** Opening minus closing braces. */
  function Depth(s: string): int {
    if s == "" then 0
    else Depth(s[..|s| - 1]) + if s[|s| - 1] == '{' then 1 else if s[|s| - 1] == '}' then -1 else 0
  }

  /** The braces balance at the end and not before. */
  predicate Minimal(t: string) {
    t != "" && t[0] == '{' && Depth(t) == 0 && forall k :: 0 < k < |t| ==> Depth(t[..k]) > 0
  }

  lemma {:induction false} DepthConcat(a: string, b: string)
    ensures Depth(a + b) == Depth(a) + Depth(b)
  {
    if b == "" {
      assert a + b == a;
    } else {
      DepthConcat(a, b[..|b| - 1]);
      assert (a + b)[..|a + b| - 1] == a + b[..|b| - 1];
    }
  }

  lemma DepthFirst(s: string, k: nat)
    requires 0 < k <= |s|
    ensures Depth(s[..k]) == Depth(s[1..][..k - 1]) + if s[0] == '{' then 1 else if s[0] == '}' then -1 else 0
  {
    assert s[..k] == [s[0]] + s[1..][..k - 1];
    DepthConcat([s[0]], s[1..][..k - 1]);
    assert [s[0]][..0] == "";
  }

  /** Where a scan at positive depth stops: at the first place where the depth reaches zero. */
  lemma {:induction false} CloseIff(s: string, depth: nat, n: nat)
    requires depth > 0
    ensures Close(s, depth) == Some(n) <==>
              && 0 < n <= |s| && depth + Depth(s[..n]) == 0
              && forall k :: 0 < k < n ==> depth + Depth(s[..k]) > 0
    decreases |s|
  {
    if s != "" && n > 0 {
      var next := if s[0] == '{' then depth + 1 else if s[0] == '}' then depth - 1 else depth;
      forall k | 0 < k <= |s| ensures depth + Depth(s[..k]) == next + Depth(s[1..][..k - 1]) {
        DepthFirst(s, k);
      }
      assert s[1..][..0] == "";
      if next == 0 {
        assert Close(s, depth) == Some(1);
        if n > 1 {
          assert depth + Depth(s[..1]) == 0;
        }
      } else if n > 1 {
        CloseIff(s[1..], next, n - 1);
        assert depth + Depth(s[..1]) > 0;
        CloseTail(s, depth, next, n);
      } else if n <= |s| {
        assert depth + Depth(s[..1]) == next;
      }
    }
  }

  lemma CloseTail(s: string, depth: nat, next: nat, n: nat)
    requires 1 < n && s != "" && next > 0
    requires forall k :: 0 < k <= |s| ==> depth + Depth(s[..k]) == next + Depth(s[1..][..k - 1])
    ensures (0 < n - 1 <= |s[1..]| && next + Depth(s[1..][..n - 1]) == 0
             && forall k :: 0 < k < n - 1 ==> next + Depth(s[1..][..k]) > 0)
       <==> (n <= |s| && depth + Depth(s[..n]) == 0
             && forall k :: 0 < k < n ==> depth + Depth(s[..k]) > 0)
  {
    if n <= |s| {
      assert s[1..][..0] == "";
      if forall k :: 0 < k < n - 1 ==> next + Depth(s[1..][..k]) > 0 {
        forall k | 0 < k < n ensures depth + Depth(s[..k]) > 0 {
          assert k > 1 ==> next + Depth(s[1..][..k - 1]) > 0;
        }
      }
      if forall k :: 0 < k < n ==> depth + Depth(s[..k]) > 0 {
        forall k | 0 < k < n - 1 ensures next + Depth(s[1..][..k]) > 0 {
          assert depth + Depth(s[..k + 1]) > 0;
          assert s[1..][..k + 1 - 1] == s[1..][..k];
        }
      }
    }
  }

  lemma NoDepth()
    ensures Depth("") == 0
  {
  }

  lemma CloseOpened(s: string)
    requires s != "" && s[0] == '{'
    ensures Close(s, 0) == Plus(1, Close(s[1..], 1))
  {
  }

  lemma MinimalPrefixes(s: string, n: nat)
    requires s != "" && s[0] == '{' && 0 < n <= |s|
    ensures Minimal(s[..n]) <==> Depth(s[..n]) == 0 && forall k :: 0 < k < n ==> Depth(s[..k]) > 0
  {
    hide Depth;
    assert forall k :: 0 < k < n ==> s[..n][..k] == s[..k];
  }

  /** A scan from an opening brace stops exactly behind the text whose braces balance there first. */
  lemma ScanStopsIff(s: string, n: nat)
    requires s != "" && s[0] == '{'
    ensures Close(s, 0) == Some(n) <==> n <= |s| && Minimal(s[..n])
  {
    hide Close, Depth;
    CloseOpened(s);
    forall k | 0 < k <= |s| ensures Depth(s[..k]) == 1 + Depth(s[1..][..k - 1]) {
      DepthFirst(s, k);
    }
    if 0 < n <= |s| {
      MinimalPrefixes(s, n);
    }
    if n > 1 {
      hide Minimal;
      CloseIff(s[1..], 1, n - 1);
      CloseTail(s, 0, 1, n);
    } else if n == 1 {
      assert s[1..][..0] == "";
      NoDepth();
      assert Depth(s[..1]) == 1;
    }
  }

  // ----- printed objects

  /** The shape of an object's text as far as braces go: text without braces, or a nested object.
      Every object of sections 4 and 7 of RFC 8259 whose strings have no braces is of this shape. */
  datatype Doc = Plain(text: string) | Object(kids: seq<Doc>)

  predicate NoBraces(s: string) {
    '{' !in s && '}' !in s
  }

  predicate Printable(d: Doc) {
    match d
    case Plain(text) => NoBraces(text)
    case Object(kids) => forall k :: k in kids ==> Printable(k)
  }

  function Print(d: Doc): string {
    match d
    case Plain(text) => text
    case Object(kids) => "{" + PrintAll(kids) + "}"
  }

  function PrintAll(kids: seq<Doc>): string {
    if kids == [] then "" else Print(kids[0]) + PrintAll(kids[1..])
  }

  lemma {:induction false} ClosePlain(text: string, rest: string, depth: nat)
    requires NoBraces(text)
    ensures Close(text + rest, depth) == Plus(|text|, Close(rest, depth))
  {
    if text == "" {
      assert text + rest == rest;
    } else {
      assert text[0] in text;
      assert NoBraces(text[1..]);
      ClosePlain(text[1..], rest, depth);
      assert (text + rest)[1..] == text[1..] + rest;
    }
  }

  lemma CloseAtOpening(rest: string, depth: nat)
    ensures Close("{" + rest, depth) == Plus(1, Close(rest, depth + 1))
  {
    assert ("{" + rest)[1..] == rest;
  }

  lemma CloseAtClosing(rest: string, depth: nat)
    requires depth > 1
    ensures Close("}" + rest, depth) == Plus(1, Close(rest, depth - 1))
  {
    assert ("}" + rest)[1..] == rest;
  }

  /** A scan inside an object passes over whatever is printed there. */
  lemma {:induction false} CloseDoc(d: Doc, rest: string, depth: nat)
    requires Printable(d) && depth > 0
    ensures Close(Print(d) + rest, depth) == Plus(|Print(d)|, Close(rest, depth))
    decreases d, 0
  {
    hide Close, PrintAll;
    match d
    case Plain(text) => ClosePlain(text, rest, depth);
    case Object(kids) =>
      var inner := PrintAll(kids);
      assert Print(d) + rest == "{" + (inner + ("}" + rest));
      CloseAtOpening(inner + ("}" + rest), depth);
      CloseDocs(kids, "}" + rest, depth + 1);
      CloseAtClosing(rest, depth + 1);
  }

  lemma {:induction false} CloseDocs(kids: seq<Doc>, rest: string, depth: nat)
    requires (forall k :: k in kids ==> Printable(k)) && depth > 0
    ensures Close(PrintAll(kids) + rest, depth) == Plus(|PrintAll(kids)|, Close(rest, depth))
    decreases kids, 1
  {
    hide Close, Print, Printable;
    if kids == [] {
      assert PrintAll(kids) + rest == rest;
    } else {
      var first, more := Print(kids[0]), PrintAll(kids[1..]);
      assert kids[0] in kids;
      CloseDoc(kids[0], more + rest, depth);
      CloseDocs(kids[1..], rest, depth);
      assert first + more + rest == first + (more + rest);
    }
  }

  /** Scanning a printed object followed by anything stops exactly behind the object. */
  lemma ScanRecoversObject(kids: seq<Doc>, logs: string)
    requires Printable(Object(kids))
    ensures var text := Print(Object(kids)); Close(text + logs, 0) == Some(|text|) && Minimal(text)
  {
    var text := Print(Object(kids));
    var inner := PrintAll(kids);
    CloseDocs(kids, "}" + logs, 1);
    assert text + logs == "{" + (inner + ("}" + logs));
    assert ("{" + (inner + ("}" + logs)))[1..] == inner + ("}" + logs);
    ScanStopsIff(text + logs, |text|);
    assert (text + logs)[..|text|] == text;
  }

  /** A brace inside a string stops the scan early: {"a":"}"} is cut after seven characters. */
  lemma BraceInStringStopsScan(logs: string)
    ensures Close("{\"a\":\"}\"}" + logs, 0) == Some(7)
  {
    var head := "{\"a\":\"}";
    var rest := "\"}" + logs;
    assert "{\"a\":\"}\"}" + logs == head + rest;
    ClosePlain("\"a\":\"", "}" + rest, 1);
    assert head + rest == "{" + ("\"a\":\"" + ("}" + rest));
    assert ("{" + ("\"a\":\"" + ("}" + rest)))[1..] == "\"a\":\"" + ("}" + rest);
    assert Close("}" + rest, 1) == Some(1);
  }

  // ----- the first object of a command's output

  datatype Parsed<V> = NoJson | Value(value: V) | ParseError

  /** From the first opening brace on; the empty text when there is none. */
  function FromBrace(s: string): string {
    if s == "" || s[0] == '{' then s else FromBrace(s[1..])
  }

  function ParseFrom<V>(slice: string, parse: string -> Option<V>): Parsed<V> {
    if parse(slice).Some? then Value(parse(slice).value)
    else
      var n := Close(slice, 0);
      if n.Some? && parse(slice[..n.value]).Some? then Value(parse(slice[..n.value]).value)
      else ParseError
  }

  function ParseStdout<V>(stdout: string, parse: string -> Option<V>): Parsed<V> {
    var slice := FromBrace(Trim(JavaScript, stdout));
    if slice == "" then NoJson else ParseFrom(slice, parse)
  }

  /** One character of a scan; nothing is open before the first one. */
  lemma CloseStep(slice: string, j: nat, depth: nat)
    requires j < |slice| && (depth == 0 ==> slice[j] == '{')
    ensures Close(slice[j..], depth)
         == if slice[j] == '{' then Plus(1, Close(slice[j + 1..], depth + 1))
            else if slice[j] == '}' then if depth == 1 then Some(1) else Plus(1, Close(slice[j + 1..], depth - 1))
            else Plus(1, Close(slice[j + 1..], depth))
  {
    assert slice[j..][1..] == slice[j + 1..];
  }

  lemma CloseEnd(slice: string, depth: nat)
    ensures Close(slice[|slice|..], depth) == None && slice[0..] == slice
  {
  }

  /** The scan as a loop over the characters. */
  method ScanObject(slice: string) returns (n: Option<nat>)
    requires slice != "" && slice[0] == '{'
    ensures n == Close(slice, 0)
  {
    hide Close;
    var depth: nat := 0;
    CloseEnd(slice, 0);
    for j := 0 to |slice|
      invariant Close(slice, 0) == Plus(j, Close(slice[j..], depth))
      invariant j > 0 ==> depth > 0
    {
      CloseStep(slice, j, depth);
      if slice[j] == '{' {
        depth := depth + 1;
      } else if slice[j] == '}' {
        depth := depth - 1;
        if depth == 0 {
          return Some(j + 1);
        }
      }
    }
    CloseEnd(slice, depth);
    n := None;
  }

  method ParseAcpStdout<V>(stdout: string, parse: string -> Option<V>) returns (r: Parsed<V>)
    ensures r == ParseStdout(stdout, parse)
  {
    var slice := FromBrace(Trim(JavaScript, stdout));
    if slice == "" {
      return NoJson;
    }
    FromBraceShape(Trim(JavaScript, stdout));
    var whole := parse(slice);
    if whole.Some? {
      return Value(whole.value);
    }
    var n := ScanObject(slice);
    if n.Some? {
      var first := parse(slice[..n.value]);
      if first.Some? {
        return Value(first.value);
      }
    }
    r := ParseError;
  }

  lemma FromBraceShape(s: string)
    ensures FromBrace(s) == "" || FromBrace(s)[0] == '{'
  {
  }

  lemma {:induction false} FromBraceSkips(noise: string, t: string)
    requires '{' !in noise && t != "" && t[0] == '{'
    ensures FromBrace(noise + t) == t
  {
    if noise == "" {
      assert noise + t == t;
    } else {
      assert noise[0] in noise;
      FromBraceSkips(noise[1..], t);
      assert (noise + t)[1..] == noise[1..] + t;
    }
  }

  lemma {:induction false} TrimStartBefore(a: string, t: string)
    requires t != "" && !IsSpace(JavaScript, t[0])
    ensures TrimStart(JavaScript, a + t) == TrimStart(JavaScript, a) + t
  {
    if a == "" {
      assert a + t == t;
    } else {
      TrimStartBefore(a[1..], t);
      assert (a + t)[1..] == a[1..] + t;
    }
  }

  lemma {:induction false} TrimEndAfter(t: string, b: string)
    requires t != "" && !IsSpace(JavaScript, t[|t| - 1])
    ensures TrimEnd(JavaScript, t + b) == t + TrimEnd(JavaScript, b)
    decreases |b|
  {
    if b == "" {
      assert t + b == t;
    } else {
      TrimEndAfter(t, b[..|b| - 1]);
      assert (t + b)[..|t + b| - 1] == t + b[..|b| - 1];
    }
  }

  lemma {:induction false} TrimStartPart(a: string)
    ensures forall c :: c in TrimStart(JavaScript, a) ==> c in a
  {
    if a == "" {
    } else {
      TrimStartPart(a[1..]);
    }
  }

  /** What is left of an object's surroundings when the output has been trimmed and cut at a brace. */
  lemma TrimmedOutput(noise: string, text: string, logs: string)
    requires '{' !in noise && text != "" && text[0] == '{' && text[|text| - 1] == '}'
    ensures FromBrace(Trim(JavaScript, noise + text + logs)) == text + TrimEnd(JavaScript, logs)
  {
    hide TrimStart, TrimEnd, FromBrace;
    var before, behind := TrimStart(JavaScript, noise), TrimEnd(JavaScript, logs);
    assert noise + text + logs == noise + (text + logs);
    TrimStartBefore(noise, text + logs);
    TrimEndAfter(before + text, logs);
    assert before + (text + logs) == (before + text) + logs;
    TrimStartPart(noise);
    FromBraceSkips(before, text + behind);
    assert (before + text) + behind == before + (text + behind);
  }

  /** An object printed after text without opening braces and before any logs is what the parser returns,
      if `parse` reads nothing else out of the object with logs behind it. */
  lemma StdoutGivesObject<V>(noise: string, kids: seq<Doc>, logs: string, parse: string -> Option<V>)
    requires '{' !in noise && Printable(Object(kids))
    requires parse(Print(Object(kids))).Some?
    requires var text := Print(Object(kids));
             var behind := TrimEnd(JavaScript, logs);
             parse(text + behind).None? || parse(text + behind) == parse(text)
    ensures ParseStdout(noise + Print(Object(kids)) + logs, parse) == Value(parse(Print(Object(kids))).value)
  {
    var text := Print(Object(kids));
    var behind := TrimEnd(JavaScript, logs);
    assert text[0] == '{' && text[|text| - 1] == '}';
    hide Print, Printable, Trim, TrimEnd, FromBrace, Close;
    TrimmedOutput(noise, text, logs);
    ScanRecoversObject(kids, behind);
    assert (text + behind)[..|text|] == text;
  }

  // ----- all objects of a text

  /** The texts that are tried as objects, left to right. */
  function Objects(s: string): seq<string>
    decreases |s|
  {
    if s == "" then []
    else if s[0] != '{' || Close(s, 0).None? then Objects(s[1..])
    else [s[..Close(s, 0).value]] + Objects(s[Close(s, 0).value..])
  }

  /** What lies before, between and after them. */
  function Gaps(s: string): (g: seq<string>)
    ensures |g| > 0
    decreases |s|
  {
    if s == "" then [""]
    else if s[0] != '{' || Close(s, 0).None? then
      var g := Gaps(s[1..]);
      [[s[0]] + g[0]] + g[1..]
    else [""] + Gaps(s[Close(s, 0).value..])
  }

  function Weave(gaps: seq<string>, objects: seq<string>): string
    requires |gaps| == |objects| + 1
  {
    if objects == [] then gaps[0] else gaps[0] + objects[0] + Weave(gaps[1..], objects[1..])
  }

  lemma Regroup(c: char, gap: string, text: string, rest: string)
    ensures ([c] + gap) + text + rest == [c] + (gap + text + rest)
  {
  }

  lemma WeaveFirst(c: char, gaps: seq<string>, objects: seq<string>)
    requires |gaps| == |objects| + 1
    ensures Weave([[c] + gaps[0]] + gaps[1..], objects) == [c] + Weave(gaps, objects)
  {
    var g := [[c] + gaps[0]] + gaps[1..];
    assert g[1..] == gaps[1..];
    if objects != [] {
      Regroup(c, gaps[0], objects[0], Weave(gaps[1..], objects[1..]));
    }
  }

  lemma ObjectsAfter(s: string, n: nat)
    requires s != "" && s[0] == '{' && Close(s, 0) == Some(n)
    ensures n <= |s| && Objects(s) == [s[..n]] + Objects(s[n..]) && Gaps(s) == [""] + Gaps(s[n..])
  {
  }

  lemma ObjectsSkipped(s: string)
    requires s != "" && (s[0] != '{' || Close(s, 0).None?)
    ensures Objects(s) == Objects(s[1..])
    ensures Gaps(s) == [[s[0]] + Gaps(s[1..])[0]] + Gaps(s[1..])[1..]
  {
  }

  lemma WeaveNext(text: string, gaps: seq<string>, objects: seq<string>)
    requires |gaps| == |objects| + 1
    ensures Weave([""] + gaps, [text] + objects) == text + Weave(gaps, objects)
  {
    assert ([""] + gaps)[1..] == gaps;
    assert ([text] + objects)[1..] == objects;
  }

  lemma NothingToScan()
    ensures Objects("") == [] && Gaps("") == [""] && Weave([""], []) == ""
  {
  }

  /** On any text the tried slices are disjoint, in order, and minimally balanced: the text is woven of
      them and of the gaps. */
  lemma {:induction false} ObjectsAreDisjoint(s: string)
    ensures |Gaps(s)| == |Objects(s)| + 1
    ensures Weave(Gaps(s), Objects(s)) == s
    ensures forall t :: t in Objects(s) ==> Minimal(t)
    decreases |s|
  {
    hide Objects, Gaps, Weave, Close, Minimal;
    if s == "" {
      NothingToScan();
    } else {
      if s[0] != '{' || Close(s, 0).None? {
        ObjectsAreDisjoint(s[1..]);
        ObjectsSkipped(s);
        WeaveFirst(s[0], Gaps(s[1..]), Objects(s[1..]));
        assert [s[0]] + s[1..] == s;
      } else {
        var n := Close(s, 0).value;
        ScanStopsIff(s, n);
        ObjectsAreDisjoint(s[n..]);
        ObjectsAfter(s, n);
        WeaveNext(s[..n], Gaps(s[n..]), Objects(s[n..]));
        assert s[..n] + s[n..] == s;
      }
    }
  }

  function Keep<V>(texts: seq<string>, parse: string -> Option<V>): seq<V> {
    if texts == [] then []
    else (if parse(texts[0]).Some? then [parse(texts[0]).value] else []) + Keep(texts[1..], parse)
  }

  /** One step of the scan at an opening brace that has its closing one. */
  lemma ObjectsStep<V>(src: string, i: nat, n: nat, parse: string -> Option<V>)
    requires i < |src| && src[i] == '{' && Close(src[i..], 0) == Some(n)
    ensures i + n <= |src|
    ensures Keep(Objects(src[i..]), parse)
         == (if parse(src[i..i + n]).Some? then [parse(src[i..i + n]).value] else [])
            + Keep(Objects(src[i + n..]), parse)
  {
    var rest := src[i..];
    hide Close;
    assert rest[..n] == src[i..i + n] && rest[n..] == src[i + n..];
    var tail := Objects(src[i + n..]);
    assert Objects(rest) == [src[i..i + n]] + tail;
    hide Objects;
    assert ([src[i..i + n]] + tail)[1..] == tail;
  }

  lemma ObjectsEnd<V>(src: string, i: nat, parse: string -> Option<V>)
    requires i == |src|
    ensures Keep(Objects(src[i..]), parse) == []
  {
    assert src[i..] == "";
  }

  lemma ObjectsSkip(src: string, i: nat)
    requires i < |src| && (src[i] != '{' || Close(src[i..], 0).None?)
    ensures Objects(src[i..]) == Objects(src[i + 1..])
  {
    hide Close;
    assert src[i..][1..] == src[i + 1..];
  }

  /** The values of the slices that parse; `parse` also refuses what is no object. */
  method ExtractObjects<V>(src: string, parse: string -> Option<V>) returns (out: seq<V>)
    ensures out == Keep(Objects(src), parse)
  {
    hide Close, Objects, Keep;
    out := [];
    var i := 0;
    assert src[0..] == src;
    while i < |src|
      invariant 0 <= i <= |src|
      invariant out + Keep(Objects(src[i..]), parse) == Keep(Objects(src), parse)
    {
      if src[i] != '{' {
        ObjectsSkip(src, i);
        i := i + 1;
        continue;
      }
      var n := ScanObject(src[i..]);
      if n.None? {
        ObjectsSkip(src, i);
        i := i + 1;
        continue;
      }
      ObjectsStep(src, i, n.value, parse);
      var value := parse(src[i..i + n.value]);
      if value.Some? {
        out := out + [value.value];
      }
      i := i + n.value;
    }
    ObjectsEnd(src, i, parse);
  }

  /** Text without braces, then an object. */
  datatype Piece = Piece(noise: string, kids: seq<Doc>)

  function PieceText(p: Piece): string {
    p.noise + Print(Object(p.kids))
  }

  function Texts(pieces: seq<Piece>): seq<string> {
    if pieces == [] then [] else [Print(Object(pieces[0].kids))] + Texts(pieces[1..])
  }

  function Stream(pieces: seq<Piece>, tail: string): string {
    if pieces == [] then tail else PieceText(pieces[0]) + Stream(pieces[1..], tail)
  }

  lemma {:induction false} ObjectsSkipPlain(noise: string, rest: string)
    requires '{' !in noise
    ensures Objects(noise + rest) == Objects(rest)
  {
    if noise == "" {
      assert noise + rest == rest;
    } else {
      assert noise[0] in noise;
      ObjectsSkipPlain(noise[1..], rest);
      assert (noise + rest)[1..] == noise[1..] + rest;
    }
  }

  /** Objects printed among text without opening braces are found exactly, in order. */
  lemma {:induction false} ObjectsAreRecovered(pieces: seq<Piece>, tail: string)
    requires forall p :: p in pieces ==> '{' !in p.noise && Printable(Object(p.kids))
    requires '{' !in tail
    ensures Objects(Stream(pieces, tail)) == Texts(pieces)
  {
    if pieces == [] {
      ObjectsSkipPlain(tail, "");
      assert tail + "" == tail;
    } else {
      var p := pieces[0];
      assert p in pieces;
      var text, rest := Print(Object(p.kids)), Stream(pieces[1..], tail);
      assert Stream(pieces, tail) == p.noise + (text + rest);
      ObjectsSkipPlain(p.noise, text + rest);
      ScanRecoversObject(p.kids, rest);
      assert (text + rest)[..|text|] == text && (text + rest)[|text|..] == rest;
      assert (text + rest)[0] == '{';
      ObjectsAreRecovered(pieces[1..], tail);
    }
  }
}
