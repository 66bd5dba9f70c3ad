/** Splitting a command line into arguments (opencode-plugin/ascendc-pilot.ts), and quoting them. */
module ArgvTokenizer {
  import opened Text

  const NO_QUOTE := '\0'

  predicate IsQuote(c: char) {
    c == '"' || c == '\''
  }

  function Pushed(cur: string): seq<string> {
    if cur == "" then [] else [cur]
  }

  /** The tokens of `s`, with the token under way and the quote that is open, if any. */
  function Tokens(s: string, cur: string, quote: char): seq<string> {
    if s == "" then Pushed(cur)
    else if quote != NO_QUOTE then
      if s[0] == quote then Tokens(s[1..], cur, NO_QUOTE) else Tokens(s[1..], cur + [s[0]], quote)
    else if IsQuote(s[0]) then Tokens(s[1..], cur, s[0])
    else if IsSpace(JavaScript, s[0]) then Pushed(cur) + Tokens(s[1..], "", NO_QUOTE)
    else Tokens(s[1..], cur + [s[0]], NO_QUOTE)
  }

  function Tokenize(input: string): seq<string> {
    Tokens(input, "", NO_QUOTE)
  }

  method TokenizeArgv(input: string) returns (out: seq<string>)
    ensures out == Tokenize(input)
  {
    out := [];
    var cur := "";
    var quote := NO_QUOTE;
    assert input[0..] == input;
    for i := 0 to |input|
      invariant out + Tokens(input[i..], cur, quote) == Tokenize(input)
    {
      var ch := input[i];
      assert input[i..][0] == ch && input[i..][1..] == input[i + 1..];
      if quote != NO_QUOTE {
        if ch == quote {
          quote := NO_QUOTE;
        } else {
          cur := cur + [ch];
        }
        continue;
      }
      if IsQuote(ch) {
        quote := ch;
        continue;
      }
      if IsSpace(JavaScript, ch) {
        if cur != "" {
          out := out + [cur];
          cur := "";
        }
        continue;
      }
      cur := cur + [ch];
    }
    assert input[|input|..] == "";
    if cur != "" {
      out := out + [cur];
    }
  }

  /** Double quotes get a backslash, as when a project argument is quoted. */
  function Escape(arg: string): string {
    if arg == "" then "" else (if arg[0] == '"' then "\\\"" else [arg[0]]) + Escape(arg[1..])
  }

  function Quote(arg: string): string {
    "\"" + Escape(arg) + "\""
  }

  function CommandLine(args: seq<string>): string {
    if args == [] then ""
    else if |args| == 1 then Quote(args[0])
    else Quote(args[0]) + " " + CommandLine(args[1..])
  }

  lemma {:induction false} EscapePlain(arg: string)
    requires '"' !in arg
    ensures Escape(arg) == arg
  {
    if arg == "" {
    } else {
      assert arg[0] in arg;
      EscapePlain(arg[1..]);
    }
  }

  /** The characters up to the closing quote join the token under way. */
  lemma {:induction false} TokensQuoted(quote: char, arg: string, rest: string, cur: string)
    requires quote != NO_QUOTE && quote !in arg
    ensures Tokens(arg + [quote] + rest, cur, quote) == Tokens(rest, cur + arg, NO_QUOTE)
  {
    if arg == "" {
      assert arg + [quote] + rest == [quote] + rest;
      assert ([quote] + rest)[1..] == rest;
      assert cur + arg == cur;
    } else {
      assert arg[0] in arg;
      TokensQuoted(quote, arg[1..], rest, cur + [arg[0]]);
      assert (arg + [quote] + rest)[1..] == arg[1..] + [quote] + rest;
      assert cur + [arg[0]] + arg[1..] == cur + arg;
    }
  }

  lemma TokensOfQuote(arg: string, rest: string)
    requires '"' !in arg
    ensures Tokens(Quote(arg) + rest, "", NO_QUOTE) == Tokens(rest, arg, NO_QUOTE)
  {
    EscapePlain(arg);
    assert Quote(arg) + rest == "\"" + (arg + "\"" + rest);
    assert ("\"" + (arg + "\"" + rest))[1..] == arg + "\"" + rest;
    TokensQuoted('"', arg, rest, "");
    assert "" + arg == arg;
  }

  /** The next quoted argument and the space behind it make one token. */
  lemma TokenizeNext(arg: string, rest: string)
    requires arg != "" && '"' !in arg
    ensures Tokenize(Quote(arg) + " " + rest) == [arg] + Tokenize(rest)
  {
    TokensOfQuote(arg, " " + rest);
    assert Quote(arg) + " " + rest == Quote(arg) + (" " + rest);
    assert (" " + rest)[1..] == rest;
  }

  lemma TokenizeLast(arg: string)
    requires arg != "" && '"' !in arg
    ensures Tokenize(Quote(arg)) == [arg]
  {
    TokensOfQuote(arg, "");
    assert Quote(arg) + "" == Quote(arg);
  }

  lemma {:induction false} QuotedRoundTrip(args: seq<string>)
    requires forall a :: a in args ==> a != "" && '"' !in a
    ensures Tokenize(CommandLine(args)) == args
  {
    if args == [] {
    } else {
      hide Tokenize, Quote;
      assert args[0] in args;
      assert forall a :: a in args[1..] ==> a in args;
      if |args| == 1 {
        TokenizeLast(args[0]);
      } else {
        QuotedRoundTrip(args[1..]);
        TokenizeNext(args[0], CommandLine(args[1..]));
      }
    }
  }

  // ----- words made of bare and quoted parts

  /** A part of a word: bare characters, or a text between two equal quotes. */
  datatype Part = Bare(text: string) | Quoted(quote: char, text: string)

  predicate IsPart(p: Part) {
    match p
    case Bare(text) => forall c :: c in text ==> !IsQuote(c) && !IsSpace(JavaScript, c)
    case Quoted(quote, text) => IsQuote(quote) && quote !in text
  }

  function PartText(p: Part): string {
    match p
    case Bare(text) => text
    case Quoted(quote, text) => [quote] + text + [quote]
  }

  function Written(word: seq<Part>): string {
    if word == [] then "" else PartText(word[0]) + Written(word[1..])
  }

  function Meant(word: seq<Part>): string {
    if word == [] then "" else word[0].text + Meant(word[1..])
  }

  /** Words, each followed by a gap. */
  function Line(words: seq<(seq<Part>, string)>): string {
    if words == [] then "" else Written(words[0].0) + words[0].1 + Line(words[1..])
  }

  /** What the words mean; those that mean nothing are not there. */
  function Meanings(words: seq<(seq<Part>, string)>): seq<string> {
    if words == [] then [] else Pushed(Meant(words[0].0)) + Meanings(words[1..])
  }

  /** White space behind every word, behind the last perhaps none. */
  predicate IsLine(words: seq<(seq<Part>, string)>) {
    && (forall w, p :: w in words && p in w.0 ==> IsPart(p))
    && (forall w :: w in words ==> Blank(JavaScript, w.1))
    && forall i :: 0 <= i < |words| - 1 ==> words[i].1 != ""
  }

  lemma {:induction false} TokensBare(text: string, rest: string, cur: string)
    requires IsPart(Bare(text))
    ensures Tokens(text + rest, cur, NO_QUOTE) == Tokens(rest, cur + text, NO_QUOTE)
  {
    hide IsSpace;
    if text == "" {
      assert text + rest == rest && cur + text == cur;
    } else {
      assert text[0] in text;
      TokensBare(text[1..], rest, cur + [text[0]]);
      assert (text + rest)[1..] == text[1..] + rest;
      assert cur + [text[0]] + text[1..] == cur + text;
    }
  }

  lemma TokensPart(p: Part, rest: string, cur: string)
    requires IsPart(p)
    ensures Tokens(PartText(p) + rest, cur, NO_QUOTE) == Tokens(rest, cur + p.text, NO_QUOTE)
  {
    match p
    case Bare(text) => TokensBare(text, rest, cur);
    case Quoted(quote, text) =>
      TokensQuoted(quote, text, rest, cur);
      assert PartText(p) + rest == [quote] + (text + [quote] + rest);
      assert ([quote] + (text + [quote] + rest))[1..] == text + [quote] + rest;
  }

  lemma {:induction false} TokensWord(word: seq<Part>, rest: string, cur: string)
    requires forall p :: p in word ==> IsPart(p)
    ensures Tokens(Written(word) + rest, cur, NO_QUOTE) == Tokens(rest, cur + Meant(word), NO_QUOTE)
  {
    hide Tokens, IsPart, PartText;
    if word == [] {
      assert Written(word) + rest == rest && cur + Meant(word) == cur;
    } else {
      assert word[0] in word;
      TokensPart(word[0], Written(word[1..]) + rest, cur);
      TokensWord(word[1..], rest, cur + word[0].text);
      assert Written(word) + rest == PartText(word[0]) + (Written(word[1..]) + rest);
      assert cur + Meant(word) == cur + word[0].text + Meant(word[1..]);
    }
  }

  lemma {:induction false} TokensGap(gap: string, rest: string, cur: string)
    requires Blank(JavaScript, gap) && (gap != "" || rest == "")
    ensures Tokens(gap + rest, cur, NO_QUOTE) == Pushed(cur) + Tokens(rest, "", NO_QUOTE)
  {
    if gap == "" {
      assert gap + rest == "";
    } else {
      assert !IsQuote(gap[0]);
      assert (gap + rest)[1..] == gap[1..] + rest;
      assert forall i :: 0 <= i < |gap[1..]| ==> gap[1..][i] == gap[i + 1];
      if gap[1..] == "" {
        assert gap[1..] + rest == rest;
      } else {
        TokensGap(gap[1..], rest, "");
        assert Pushed("") + Tokens(rest, "", NO_QUOTE) == Tokens(rest, "", NO_QUOTE);
      }
    }
  }

  lemma LineBehind(words: seq<(seq<Part>, string)>)
    requires IsLine(words) && words != []
    ensures (forall p :: p in words[0].0 ==> IsPart(p)) && Blank(JavaScript, words[0].1)
    ensures IsLine(words[1..]) && (words[0].1 != "" || words[1..] == [])
  {
    hide IsPart, Blank;
    var more := words[1..];
    assert words[0] in words;
    assert forall w :: w in more ==> w in words;
    assert forall i :: 0 <= i < |more| ==> more[i] == words[i + 1];
  }

  lemma TokensWordAndGap(word: seq<Part>, gap: string, rest: string)
    requires (forall p :: p in word ==> IsPart(p)) && Blank(JavaScript, gap) && (gap != "" || rest == "")
    ensures Tokenize(Written(word) + gap + rest) == Pushed(Meant(word)) + Tokenize(rest)
  {
    hide Tokens, IsPart, Blank, Written, Meant, Pushed;
    TokensWord(word, gap + rest, "");
    TokensGap(gap, rest, Meant(word));
    assert "" + Meant(word) == Meant(word);
    assert Written(word) + gap + rest == Written(word) + (gap + rest);
  }

  /** Words of bare and quoted parts, with any white space between them, come out as what they mean: quotes of
      either kind only mark their parts, and words that mean nothing disappear. */
  lemma {:induction false} TokenizeLine(words: seq<(seq<Part>, string)>)
    requires IsLine(words)
    ensures Tokenize(Line(words)) == Meanings(words)
  {
    if words == [] {
    } else {
      LineBehind(words);
      hide IsLine, Tokenize, IsPart, Blank, Written, Meant, Pushed;
      TokenizeLine(words[1..]);
      TokensWordAndGap(words[0].0, words[0].1, Line(words[1..]));
    }
  }

  /** A quote that is never closed runs on to the end. */
  lemma OpenQuoteRunsOn(quote: char, text: string)
    requires IsQuote(quote) && quote !in text
    ensures Tokenize([quote] + text) == Pushed(text)
  {
    assert ([quote] + text)[1..] == text;
    OpenTokens(quote, text, "");
    assert "" + text == text;
  }

  lemma {:induction false} OpenTokens(quote: char, text: string, cur: string)
    requires quote != NO_QUOTE && quote !in text
    ensures Tokens(text, cur, quote) == Pushed(cur + text)
  {
    if text == "" {
      assert cur + text == cur;
    } else {
      assert text[0] in text;
      OpenTokens(quote, text[1..], cur + [text[0]]);
      assert cur + [text[0]] + text[1..] == cur + text;
    }
  }

  // ----- when the round trip fails

  function Count(s: string, c: char): nat {
    if s == "" then 0 else (if s[0] == c then 1 else 0) + Count(s[1..], c)
  }

  function CountAll(ss: seq<string>, c: char): nat {
    if ss == [] then 0 else Count(ss[0], c) + CountAll(ss[1..], c)
  }

  lemma {:induction false} CountConcat(a: string, b: string, c: char)
    ensures Count(a + b, c) == Count(a, c) + Count(b, c)
  {
    if a == "" {
      assert a + b == b;
    } else {
      CountConcat(a[1..], b, c);
      assert (a + b)[1..] == a[1..] + b;
    }
  }

  lemma CountAllPushed(cur: string, more: seq<string>, c: char)
    ensures CountAll(Pushed(cur) + more, c) == Count(cur, c) + CountAll(more, c)
  {
    if cur == "" {
      assert Pushed(cur) + more == more;
    } else {
      assert ([cur] + more)[1..] == more;
    }
  }

  /** Tokenizing loses no backslash, and makes no empty token. */
  lemma {:induction false} TokensKeepBackslashes(s: string, cur: string, quote: char)
    requires quote == NO_QUOTE || IsQuote(quote)
    ensures CountAll(Tokens(s, cur, quote), '\\') == Count(cur, '\\') + Count(s, '\\')
    ensures forall t :: t in Tokens(s, cur, quote) ==> t != ""
  {
    if s == "" {
      CountAllPushed(cur, [], '\\');
      assert Pushed(cur) + [] == Pushed(cur);
    } else {
      CountConcat(cur, [s[0]], '\\');
      assert Count([s[0]], '\\') == if s[0] == '\\' then 1 else 0;
      if quote != NO_QUOTE {
        if s[0] == quote {
          TokensKeepBackslashes(s[1..], cur, NO_QUOTE);
        } else {
          TokensKeepBackslashes(s[1..], cur + [s[0]], quote);
        }
      } else if IsQuote(s[0]) {
        TokensKeepBackslashes(s[1..], cur, s[0]);
      } else if IsSpace(JavaScript, s[0]) {
        TokensKeepBackslashes(s[1..], "", NO_QUOTE);
        CountAllPushed(cur, Tokens(s[1..], "", NO_QUOTE), '\\');
      } else {
        TokensKeepBackslashes(s[1..], cur + [s[0]], NO_QUOTE);
      }
    }
  }

  lemma {:induction false} EscapeCounts(arg: string)
    ensures Count(Escape(arg), '\\') == Count(arg, '\\') + Count(arg, '"')
  {
    if arg == "" {
    } else {
      EscapeCounts(arg[1..]);
      CountConcat(if arg[0] == '"' then "\\\"" else [arg[0]], Escape(arg[1..]), '\\');
      assert "\\\""[1..] == "\"" && "\""[1..] == "";
      assert Count("\\\"", '\\') == 1;
      assert [arg[0]][1..] == "";
    }
  }

  lemma QuoteCounts(arg: string)
    ensures Count(Quote(arg), '\\') == Count(arg, '\\') + Count(arg, '"')
  {
    EscapeCounts(arg);
    CountConcat("\"" + Escape(arg), "\"", '\\');
    CountConcat("\"", Escape(arg), '\\');
    assert "\""[1..] == "";
  }

  lemma {:induction false} CommandLineCounts(args: seq<string>)
    ensures Count(CommandLine(args), '\\') == CountAll(args, '\\') + CountAll(args, '"')
  {
    if args == [] {
    } else {
      QuoteCounts(args[0]);
      CommandLineCounts(args[1..]);
      if |args| > 1 {
        CountConcat(Quote(args[0]) + " ", CommandLine(args[1..]), '\\');
        CountConcat(Quote(args[0]), " ", '\\');
        assert " "[1..] == "";
      }
    }
  }

  lemma {:induction false} NoneCounted(ss: seq<string>, c: char)
    requires CountAll(ss, c) == 0
    ensures forall s :: s in ss ==> c !in s
  {
    if ss == [] {
    } else {
      NoneCounted(ss[1..], c);
      NoneInText(ss[0], c);
    }
  }

  lemma {:induction false} NoneInText(s: string, c: char)
    requires Count(s, c) == 0
    ensures c !in s
  {
    if s == "" {
    } else {
      NoneInText(s[1..], c);
    }
  }

  /** Quoting the arguments, joining them with spaces and tokenizing gives the list back exactly when no
      argument is empty and none has a double quote: the tokenizer never undoes the escape. */
  lemma RoundTripIff(args: seq<string>)
    ensures Tokenize(CommandLine(args)) == args <==> forall a :: a in args ==> a != "" && '"' !in a
  {
    if forall a :: a in args ==> a != "" && '"' !in a {
      QuotedRoundTrip(args);
    }
    if Tokenize(CommandLine(args)) == args {
      TokensKeepBackslashes(CommandLine(args), "", NO_QUOTE);
      CommandLineCounts(args);
      NoneCounted(args, '"');
    }
  }
}
