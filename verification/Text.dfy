/** Strings as the two host languages trim and cut them. */
module Text {

  /** The language whose white space a trim removes. */
  datatype Language = JavaScript | Python

  predicate IsSpace(lang: Language, c: char) {
    var n := c as int;
    || 9 <= n <= 13 || n == 0x20 || n == 0xA0 || n == 0x1680 || 0x2000 <= n <= 0x200A
    || n == 0x2028 || n == 0x2029 || n == 0x202F || n == 0x205F || n == 0x3000
    || (lang.JavaScript? && n == 0xFEFF)
    || (lang.Python? && (0x1C <= n <= 0x1F || n == 0x85))
  }

  function TrimStart(lang: Language, s: string): string {
    if s != "" && IsSpace(lang, s[0]) then TrimStart(lang, s[1..]) else s
  }

  function TrimEnd(lang: Language, s: string): string {
    if s != "" && IsSpace(lang, s[|s| - 1]) then TrimEnd(lang, s[..|s| - 1]) else s
  }

  function Trim(lang: Language, s: string): string {
    TrimEnd(lang, TrimStart(lang, s))
  }

  /** No white space at either end. */
  predicate Trimmed(lang: Language, s: string) {
    s == "" || (!IsSpace(lang, s[0]) && !IsSpace(lang, s[|s| - 1]))
  }

  lemma TrimStartProperties(lang: Language, s: string)
    ensures var t := TrimStart(lang, s); t == "" || !IsSpace(lang, t[0])
    ensures |TrimStart(lang, s)| <= |s|
  {
  }

  lemma TrimEndProperties(lang: Language, s: string)
    ensures var t := TrimEnd(lang, s);
            && t <= s
            && (t == "" || !IsSpace(lang, t[|t| - 1]))
  {
  }

  /** A trimmed text is trimmed, is no longer than the text, and equals it only when nothing was cut. */
  lemma TrimProperties(lang: Language, s: string)
    ensures Trimmed(lang, Trim(lang, s))
    ensures |Trim(lang, s)| <= |s|
    ensures Trim(lang, s) == s <==> Trimmed(lang, s)
    ensures !Trimmed(lang, s) ==> |Trim(lang, s)| < |s|
  {
    TrimStartProperties(lang, s);
    TrimEndProperties(lang, TrimStart(lang, s));
    if Trimmed(lang, s) {
      assert TrimStart(lang, s) == s;
    } else {
      if IsSpace(lang, s[0]) {
        TrimStartProperties(lang, s[1..]);
      } else {
        TrimEndProperties(lang, s[..|s| - 1]);
      }
    }
  }

  predicate Blank(lang: Language, s: string) {
    forall i :: 0 <= i < |s| ==> IsSpace(lang, s[i])
  }

  lemma {:induction false} TrimStartBlank(lang: Language, a: string, t: string)
    requires Blank(lang, a) && (t == "" || !IsSpace(lang, t[0]))
    ensures TrimStart(lang, a + t) == t
  {
    if a == "" {
      assert a + t == t;
    } else {
      assert forall i :: 0 <= i < |a[1..]| ==> a[1..][i] == a[i + 1];
      TrimStartBlank(lang, a[1..], t);
      assert (a + t)[1..] == a[1..] + t;
    }
  }

  lemma {:induction false} TrimEndBlank(lang: Language, t: string, b: string)
    requires Blank(lang, b) && (t == "" || !IsSpace(lang, t[|t| - 1]))
    ensures TrimEnd(lang, t + b) == t
    decreases |b|
  {
    if b == "" {
      assert t + b == t;
    } else {
      TrimEndBlank(lang, t, b[..|b| - 1]);
      assert (t + b)[..|t + b| - 1] == t + b[..|b| - 1];
    }
  }

  /** Trimming takes away exactly the white space around a trimmed text. */
  lemma TrimIs(lang: Language, a: string, t: string, b: string)
    requires Blank(lang, a) && Blank(lang, b) && Trimmed(lang, t)
    ensures Trim(lang, a + t + b) == t
  {
    hide TrimStart, TrimEnd, IsSpace;
    if t == "" {
      assert forall i :: 0 <= i < |a + b| ==> (a + b)[i] == if i < |a| then a[i] else b[i - |a|];
      TrimStartBlank(lang, a + b, "");
      TrimEndBlank(lang, "", "");
      assert "" + "" == "";
      assert a + t + b == a + b + "";
    } else {
      TrimStartBlank(lang, a, t + b);
      TrimEndBlank(lang, t, b);
      assert a + t + b == a + (t + b);
    }
  }

  /** Nothing is left of a text exactly when it is white space throughout. */
  lemma BlankIff(lang: Language, s: string)
    ensures Trim(lang, s) == "" <==> Blank(lang, s)
  {
    if Blank(lang, s) {
      TrimIs(lang, s, "", "");
      assert s + "" + "" == s;
    } else {
      var i :| 0 <= i < |s| && !IsSpace(lang, s[i]);
      VisibleStays(lang, s, i);
    }
  }

  lemma {:induction false} VisibleStays(lang: Language, s: string, i: nat)
    requires i < |s| && !IsSpace(lang, s[i])
    ensures Trim(lang, s) != ""
    decreases |s|
  {
    if IsSpace(lang, s[0]) {
      VisibleStays(lang, s[1..], i - 1);
    } else {
      TrimKeepsFirst(lang, s);
    }
  }

  /** A text that starts with a visible character keeps its start when trimmed. */
  lemma TrimKeepsFirst(lang: Language, s: string)
    requires s != "" && !IsSpace(lang, s[0])
    ensures Trim(lang, s) != "" && Trim(lang, s) <= s
  {
    TrimEndProperties(lang, s);
    TrimEndKeepsVisible(lang, s);
  }

  lemma TrimEndKeepsVisible(lang: Language, s: string)
    requires s != "" && !IsSpace(lang, s[0])
    ensures TrimEnd(lang, s) != ""
  {
  }

  /** The trimmed texts of a list, blank ones left out. */
  function NonBlank(lang: Language, s: seq<string>): seq<string> {
    if s == [] then []
    else
      var t := Trim(lang, s[0]);
      (if t == "" then [] else [t]) + NonBlank(lang, s[1..])
  }

  /** What stays of a list is what its texts trim to, as far as that is not empty. */
  lemma {:induction false} NonBlankMember(lang: Language, s: seq<string>, x: string)
    ensures x in NonBlank(lang, s) <==> x != "" && exists i :: 0 <= i < |s| && Trim(lang, s[i]) == x
  {
    hide Trim;
    if s == [] {
    } else {
      NonBlankMember(lang, s[1..], x);
      if i :| 0 <= i < |s| && Trim(lang, s[i]) == x {
        assert i > 0 ==> s[1..][i - 1] == s[i];
      }
      if i :| 0 <= i < |s[1..]| && Trim(lang, s[1..][i]) == x {
        assert s[i + 1] == s[1..][i];
      }
    }
  }

  function LowerChar(c: char): char {
    if 'A' <= c <= 'Z' then ((c as int) + 32) as char else c
  }

  /** ASCII letters in lower case, every other character as it is. */
  function LowerText(s: string): (r: string)
    ensures |r| == |s|
    ensures forall i :: 0 <= i < |s| ==> if 'A' <= s[i] <= 'Z' then r[i] as int == s[i] as int + 32 else r[i] == s[i]
  {
    seq(|s|, i requires 0 <= i < |s| => LowerChar(s[i]))
  }

  /** The first of two texts that says something: the host languages' `or` on texts. */
  function OrElse(a: string, b: string): string {
    if a != "" then a else b
  }

  predicate EndsWith(s: string, suffix: string) {
    |suffix| <= |s| && s[|s| - |suffix|..] == suffix
  }

  /** Every occurrence of one character replaced by another. */
  function ReplaceChar(s: string, from: char, to: char): (r: string)
    ensures |r| == |s|
    ensures forall i :: 0 <= i < |s| ==> r[i] == if s[i] == from then to else s[i]
  {
    seq(|s|, i requires 0 <= i < |s| => if s[i] == from then to else s[i])
  }

  /** The text without the characters of `cut` it starts with. */
  function DropLeading(s: string, cut: set<char>): string {
    if s != "" && s[0] in cut then DropLeading(s[1..], cut) else s
  }

  /** The text without the characters of `cut` it ends with. */
  function DropTrailing(s: string, cut: set<char>): string {
    if s != "" && s[|s| - 1] in cut then DropTrailing(s[..|s| - 1], cut) else s
  }

  lemma DropLeadingProperties(s: string, cut: set<char>)
    ensures var t := DropLeading(s, cut);
            && |t| <= |s|
            && t == s[|s| - |t|..]
            && (t == "" || t[0] !in cut)
            && (forall i :: 0 <= i < |s| - |t| ==> s[i] in cut)
            && (t == s <==> s == "" || s[0] !in cut)
  {
  }

  lemma DropTrailingProperties(s: string, cut: set<char>)
    ensures var t := DropTrailing(s, cut);
            && t <= s
            && (t == "" || t[|t| - 1] !in cut)
            && (forall i :: |t| <= i < |s| ==> s[i] in cut)
            && (t == s <==> s == "" || s[|s| - 1] !in cut)
  {
  }

  /** The cut at a separator: always at least one part, parts free of it. */
  function Split(s: string, sep: char): (parts: seq<string>)
    ensures |parts| > 0
  {
    if s == "" then [""]
    else
      var rest := Split(s[1..], sep);
      if s[0] == sep then [""] + rest else [[s[0]] + rest[0]] + rest[1..]
  }

  lemma SplitPartsFree(s: string, sep: char)
    ensures forall p :: p in Split(s, sep) ==> sep !in p
  {
    if s == "" {
    } else {
      SplitPartsFree(s[1..], sep);
      assert Split(s[1..], sep)[0] in Split(s[1..], sep);
    }
  }

  lemma SplitSeparator(rest: string, sep: char)
    ensures Split([sep] + rest, sep) == [""] + Split(rest, sep)
  {
    assert ([sep] + rest)[1..] == rest;
  }

  /** A part with no separator, followed by the end or by the separator, is the first part. */
  lemma {:induction false} SplitFirst(part: string, rest: string, sep: char)
    requires sep !in part
    requires rest == "" || rest[0] == sep
    ensures Split(part + rest, sep) == [part] + Split(rest, sep)[1..]
  {
    if part == "" {
      assert part + rest == rest;
    } else {
      SplitFirst(part[1..], rest, sep);
      assert (part + rest)[1..] == part[1..] + rest;
      assert [part[0]] + part[1..] == part;
    }
  }

  // ----- sorted texts

  /** The order of Python texts: by the first character that differs. */
  predicate TextBelow(a: string, b: string) {
    b != "" && (a == "" || a[0] < b[0] || (a[0] == b[0] && TextBelow(a[1..], b[1..])))
  }

  function InsertText(x: string, s: seq<string>): seq<string> {
    if s == [] || TextBelow(x, s[0]) then [x] + s else [s[0]] + InsertText(x, s[1..])
  }

  function SortTexts(s: seq<string>): seq<string> {
    if s == [] then [] else InsertText(s[0], SortTexts(s[1..]))
  }

  predicate SortedTexts(s: seq<string>) {
    forall i, j :: 0 <= i < j < |s| ==> !TextBelow(s[j], s[i])
  }

  lemma {:induction false} NotBelowTransitive(a: string, b: string, c: string)
    requires !TextBelow(b, a) && !TextBelow(c, b)
    ensures !TextBelow(c, a)
  {
    if a != "" && b != "" && c != "" && a[0] == b[0] == c[0] {
      NotBelowTransitive(a[1..], b[1..], c[1..]);
    }
  }

  lemma {:induction false} BelowIsAsymmetric(a: string, b: string)
    requires TextBelow(a, b)
    ensures !TextBelow(b, a)
  {
    if a != "" && a[0] == b[0] {
      BelowIsAsymmetric(a[1..], b[1..]);
    }
  }

  lemma {:induction false} InsertTextProperties(x: string, s: seq<string>)
    requires SortedTexts(s)
    ensures SortedTexts(InsertText(x, s)) && |InsertText(x, s)| == |s| + 1
    ensures forall y :: y in InsertText(x, s) <==> y == x || y in s
  {
    if s != [] && TextBelow(x, s[0]) {
      BelowIsAsymmetric(x, s[0]);
      forall j | 0 <= j < |s| ensures !TextBelow(s[j], x) {
        if j > 0 {
          NotBelowTransitive(x, s[0], s[j]);
        }
      }
    } else if s != [] {
      InsertTextProperties(x, s[1..]);
      var t := InsertText(x, s[1..]);
      forall j | 0 <= j < |t| ensures !TextBelow(t[j], s[0]) {
        assert t[j] in t;
        if t[j] != x {
          var k :| 0 <= k < |s[1..]| && s[1..][k] == t[j];
          assert s[k + 1] == t[j];
        }
      }
    }
  }

  /** The same texts in order. */
  lemma {:induction false} SortTextsProperties(s: seq<string>)
    ensures SortedTexts(SortTexts(s)) && |SortTexts(s)| == |s|
    ensures forall x :: x in SortTexts(s) <==> x in s
  {
    if s == [] {
    } else {
      SortTextsProperties(s[1..]);
      InsertTextProperties(s[0], SortTexts(s[1..]));
    }
  }
}
