/**
 The wildcard compiler of pkg/bridge/fetch.go: a CDP URL pattern becomes the text of a regular
 expression. That text is read back by a parser that knows every quantifier, and matched by
 the rules of Go's engine, so that a stray quantifier or an unquoted character would show.
 */
module FetchPatterns {
  import opened Common

  // ---------------------------------------------------------------- what a pattern means

  datatype Token = Run | Any | Lit(c: char)

  /** '*' is a run, '?' one character, and a backslash quotes the next character, or itself at the end. */
  function Tokens(p: string): seq<Token> {
    if p == "" then []
    else if p[0] == '*' then [Run] + Tokens(p[1..])
    else if p[0] == '?' then [Any] + Tokens(p[1..])
    else if p[0] == '\\' && |p| > 1 then [Lit(p[1])] + Tokens(p[2..])
    else [Lit(p[0])] + Tokens(p[1..])
  }

  /** Direct matching. `line` says whether wildcards stop at a newline. */
  predicate Glob(ts: seq<Token>, s: string, line: bool)
    decreases |ts|, |s|
  {
    if ts == [] then s == ""
    else if ts[0].Run? then
      Glob(ts[1..], s, line) || (s != "" && Wild(s[0], line) && Glob(ts, s[1..], line))
    else s != "" && (if ts[0].Any? then Wild(s[0], line) else s[0] == ts[0].c) && Glob(ts[1..], s[1..], line)
  }

  predicate Wild(c: char, line: bool) { line ==> c != '\n' }

  // ---------------------------------------------------------------- the compiler

  const METACHARACTERS := {'\\', '.', '+', '*', '?', '(', ')', '|', '[', ']', '{', '}', '^', '$'}

  function QuoteMeta(c: char): string { if c in METACHARACTERS then ['\\', c] else [c] }

  function Emit(t: Token): string {
    match t case Run => ".*" case Any => "." case Lit(c) => QuoteMeta(c)
  }

  function EmitAll(ts: seq<Token>): string { if ts == [] then "" else Emit(ts[0]) + EmitAll(ts[1..]) }

  function Compiled(p: string): string { "^" + EmitAll(Tokens(p)) + "$" }

  /** How much of the pattern the token at its front takes. */
  function Width(p: string): nat { if |p| > 1 && p[0] == '\\' then 2 else 1 }

  lemma NextToken(p: string, i: nat)
    requires i < |p|
    ensures var ts := Tokens(p[i..]); var n := Width(p[i..]);
      && i + n <= |p| && ts != [] && ts[1..] == Tokens(p[i + n..])
      && EmitAll(ts) == Emit(ts[0]) + EmitAll(ts[1..])
  {
    assert p[i..][Width(p[i..])..] == p[i + Width(p[i..])..];
  }

  lemma Written(before: string, t: string, rest: string, all: string)
    requires before + (t + rest) == all
    ensures (before + t) + rest == all
  {
    assert (before + t) + rest == before + (t + rest);
  }

  /** The loop over the pattern, writing into a builder. */
  method CdpURLPatternRegexp(pattern: string) returns (result: string)
    ensures result == Compiled(pattern)
  {
    result := "^";
    var i := 0;
    ghost var all := "^" + EmitAll(Tokens(pattern));
    assert pattern[0..] == pattern;
    while i < |pattern|
      invariant 0 <= i <= |pattern|
      invariant result + EmitAll(Tokens(pattern[i..])) == all
      decreases |pattern| - i
    {
      ghost var ts, n := Tokens(pattern[i..]), Width(pattern[i..]);
      NextToken(pattern, i);
      Written(result, Emit(ts[0]), EmitAll(ts[1..]), all);
      hide EmitAll;
      match pattern[i] {
        case '*' =>
          result := result + ".*";
        case '?' =>
          result := result + ".";
        case '\\' =>
          if i + 1 < |pattern| {
            i := i + 1;
            result := result + QuoteMeta(pattern[i]);
          } else {
            result := result + "\\\\";
          }
        case _ =>
          result := result + QuoteMeta(pattern[i]);
      }
      i := i + 1;
    }
    assert Tokens(pattern[i..]) == [] && result + "" == result;
    result := result + "$";
  }

  // ---------------------------------------------------------------- reading the text back

  datatype Atom = Dot | Char(c: char)

  datatype Quantifier = Once | Star | Plus | Opt

  datatype Item = Begin | End | Rep(atom: Atom, q: Quantifier)

  predicate IsQuantifier(c: char) { c == '*' || c == '+' || c == '?' }

  predicate Punctuation(c: char) { '!' <= c <= '/' || ':' <= c <= '@' || '[' <= c <= '`' || '{' <= c <= '~' }

  /** The item at the front of a text and its length; groups, classes, alternation and letter escapes are not read. */
  function ParseAtom(s: string): Option<(Atom, nat)>
    requires s != ""
  {
    if s[0] == '.' then Some((Dot, 1))
    else if s[0] == '\\' then (if |s| > 1 && Punctuation(s[1]) then Some((Char(s[1]), 2)) else None)
    else if s[0] in METACHARACTERS then None
    else Some((Char(s[0]), 1))
  }

  function QuantifierOf(c: char): Quantifier { if c == '*' then Star else if c == '+' then Plus else Opt }

  function Consed(i: Item, rest: Option<seq<Item>>): Option<seq<Item>> {
    if rest.Some? then Some([i] + rest.value) else None
  }

  /** A quantifier binds to the atom before it; a second one, or one with nothing to bind to, is an error. */
  function Parse(s: string): Option<seq<Item>> {
    if s == "" then Some([])
    else if s[0] == '^' || s[0] == '$' then
      if |s| > 1 && IsQuantifier(s[1]) then None else Consed(if s[0] == '^' then Begin else End, Parse(s[1..]))
    else
      var a := ParseAtom(s);
      if a.None? then None
      else if a.value.1 < |s| && IsQuantifier(s[a.value.1]) then
        if a.value.1 + 1 < |s| && IsQuantifier(s[a.value.1 + 1]) then None
        else Consed(Rep(a.value.0, QuantifierOf(s[a.value.1])), Parse(s[a.value.1 + 1..]))
      else Consed(Rep(a.value.0, Once), Parse(s[a.value.1..]))
  }

  function Read(t: Token): Item {
    match t case Run => Rep(Dot, Star) case Any => Rep(Dot, Once) case Lit(c) => Rep(Char(c), Once)
  }

  function ReadAll(ts: seq<Token>): (items: seq<Item>)
    ensures |items| == |ts|
  {
    if ts == [] then [] else [Read(ts[0])] + ReadAll(ts[1..])
  }

  predicate NoQuantifierFirst(s: string) { s == "" || !IsQuantifier(s[0]) }

  lemma ParseEmitted(t: Token, rest: string)
    requires NoQuantifierFirst(rest)
    ensures NoQuantifierFirst(Emit(t) + rest)
    ensures Parse(Emit(t) + rest) == Consed(Read(t), Parse(rest))
  {
    var s := Emit(t) + rest;
    var n := |Emit(t)|;
    assert s[n..] == rest;
    match t {
      case Run => assert s[0] == '.' && s[1] == '*'; assert s[1 + 1..] == rest;
      case Any =>
      case Lit(c) => if c in METACHARACTERS { assert s[0] == '\\' && s[1] == c && Punctuation(c); }
    }
  }

  lemma {:induction false} ParseEmittedAll(ts: seq<Token>)
    ensures NoQuantifierFirst(EmitAll(ts) + "$")
    ensures Parse(EmitAll(ts) + "$") == Some(ReadAll(ts) + [End])
  {
    if ts == [] {
      assert EmitAll(ts) + "$" == "$" && "$"[1..] == "" && ReadAll(ts) + [End] == [End];
      assert Parse("$") == Consed(End, Parse("")) && [End] + [] == [End];
    } else {
      ParseEmittedAll(ts[1..]);
      ParseEmitted(ts[0], EmitAll(ts[1..]) + "$");
      assert EmitAll(ts) + "$" == Emit(ts[0]) + (EmitAll(ts[1..]) + "$");
      assert ReadAll(ts) + [End] == [Read(ts[0])] + (ReadAll(ts[1..]) + [End]);
    }
  }

  /**
   The emitted text always reads back, and as nothing but the tokens of the pattern between the
   two anchors: no quantifier but the star of each run, no unquoted metacharacter.
   */
  lemma CompiledReadsBack(p: string)
    ensures Parse(Compiled(p)) == Some([Begin] + ReadAll(Tokens(p)) + [End])
  {
    var body := EmitAll(Tokens(p)) + "$";
    ParseEmittedAll(Tokens(p));
    assert Compiled(p) == "^" + body && ("^" + body)[1..] == body;
    assert [Begin] + ReadAll(Tokens(p)) + [End] == [Begin] + (ReadAll(Tokens(p)) + [End]);
  }

  // ---------------------------------------------------------------- matching the text

  predicate Allows(q: Quantifier, n: nat) {
    match q case Once => n == 1 case Star => true case Plus => n >= 1 case Opt => n <= 1
  }

  /** Without flags a dot matches any character but a newline. */
  predicate AtomOk(a: Atom, c: char) { if a.Dot? then c != '\n' else c == a.c }

  /** The atom, repeated as the quantifier allows, takes the text from i to j. */
  ghost predicate Spans(a: Atom, q: Quantifier, s: string, i: nat, j: nat) {
    i <= j <= |s| && Allows(q, j - i) && forall n | i <= n < j :: AtomOk(a, s[n])
  }

  /** Some match of all the items starts at place i of the text. */
  ghost predicate MatchAt(items: seq<Item>, s: string, i: nat)
  {
    if items == [] then i <= |s|
    else match items[0]
      case Begin => i == 0 && MatchAt(items[1..], s, i)
      case End => i == |s| && MatchAt(items[1..], s, i)
      case Rep(a, q) => exists j: nat :: Spans(a, q, s, i, j) && MatchAt(items[1..], s, j)
  }

  /** MatchString: a match may start anywhere. */
  ghost predicate MatchString(text: string, s: string) {
    Parse(text).Some? && exists i: nat :: MatchAt(Parse(text).value, s, i)
  }

  lemma {:induction false} TokensMatch(ts: seq<Token>, s: string, i: nat)
    requires i <= |s|
    ensures MatchAt(ReadAll(ts) + [End], s, i) <==> Glob(ts, s[i..], true)
    decreases |ts|, |s| - i
  {
    var items := ReadAll(ts) + [End];
    if ts == [] {
      assert items == [End] && items[1..] == [];
    } else {
      var rest := ReadAll(ts[1..]) + [End];
      assert items == [Read(ts[0])] + rest && items[1..] == rest;
      if ts[0].Run? {
        RunMatches(ts, s, i);
      } else {
        var a := Read(ts[0]).atom;
        if i < |s| {
          TokensMatch(ts[1..], s, i + 1);
          assert s[i..][1..] == s[i + 1..];
          if Glob(ts, s[i..], true) { assert Spans(a, Once, s, i, i + 1); }
        }
      }
    }
  }

  /** A run matches nothing, or one more character and then as a run again. */
  lemma RunMatches(ts: seq<Token>, s: string, i: nat)
    requires i <= |s| && ts != [] && ts[0].Run?
    ensures MatchAt([Rep(Dot, Star)] + (ReadAll(ts[1..]) + [End]), s, i) <==> Glob(ts, s[i..], true)
    decreases |ts|, |s| - i, 0
  {
    var rest := ReadAll(ts[1..]) + [End];
    var items := [Rep(Dot, Star)] + rest;
    assert items[1..] == rest;
    TokensMatch(ts[1..], s, i);
    if i < |s| {
      RunMatches(ts, s, i + 1);
      assert s[i..][1..] == s[i + 1..];
      RunLonger(rest, s, i);
    }
    if MatchAt(rest, s, i) { assert Spans(Dot, Star, s, i, i); }
  }

  lemma RunLonger(rest: seq<Item>, s: string, i: nat)
    requires i < |s|
    ensures MatchAt([Rep(Dot, Star)] + rest, s, i)
       <==> MatchAt(rest, s, i) || (s[i] != '\n' && MatchAt([Rep(Dot, Star)] + rest, s, i + 1))
  {
    var items := [Rep(Dot, Star)] + rest;
    assert items[0] == Rep(Dot, Star) && items[1..] == rest;
    if MatchAt(items, s, i) {
      var j: nat :| Spans(Dot, Star, s, i, j) && MatchAt(items[1..], s, j);
      if j > i { assert Spans(Dot, Star, s, i + 1, j); }
    }
    if MatchAt(rest, s, i) { assert Spans(Dot, Star, s, i, i); }
    var k := i + 1;
    if MatchAt(items, s, k) {
      var j: nat :| Spans(Dot, Star, s, k, j) && MatchAt(items[1..], s, j);
      if s[i] != '\n' { assert Spans(Dot, Star, s, i, j); }
    }
  }

  /** The compiled expression matches a URL exactly when the pattern does, its wildcards stopping at newlines. */
  lemma CompiledMeaning(p: string, url: string)
    ensures MatchString(Compiled(p), url) <==> Glob(Tokens(p), url, true)
  {
    CompiledReadsBack(p);
    var rest := ReadAll(Tokens(p)) + [End];
    var items := [Begin] + ReadAll(Tokens(p)) + [End];
    assert items[1..] == rest;
    TokensMatch(Tokens(p), url, 0);
    assert url[0..] == url;
    if Glob(Tokens(p), url, true) { assert MatchAt(items, url, 0); }
  }

  // ---------------------------------------------------------------- the pattern, character by character

  /** An empty pattern is read as a star. */
  function Effective(p: string): string { if p == "" then "*" else p }

  /** The empty pattern, compiled, matches the empty URL only. */
  lemma EmptyRule(url: string)
    ensures MatchString(Compiled(""), url) <==> url == ""
  {
    CompiledMeaning("", url);
    hide MatchString, Compiled;
  }

  /** A question mark takes one character, whichever it is but a newline. */
  lemma QuestionMarkRule(p: string, url: string)
    ensures MatchString(Compiled("?" + p), url) <==>
      url != "" && url[0] != '\n' && MatchString(Compiled(p), url[1..])
  {
    hide MatchString, Compiled;
    CompiledMeaning("?" + p, url);
    FrontToken("?" + p, p, Any);
    if url != "" { CompiledMeaning(p, url[1..]); }
  }

  /** A character that is no wildcard and no backslash takes itself. */
  lemma LiteralRule(c: char, p: string, url: string)
    requires c != '*' && c != '?' && c != '\\'
    ensures MatchString(Compiled([c] + p), url) <==> url != "" && url[0] == c && MatchString(Compiled(p), url[1..])
  {
    hide MatchString, Compiled;
    CompiledMeaning([c] + p, url);
    FrontToken([c] + p, p, Lit(c));
    if url != "" { CompiledMeaning(p, url[1..]); }
  }

  /** A backslash takes the character after it as itself, whatever it is. */
  lemma EscapeRule(c: char, p: string, url: string)
    ensures MatchString(Compiled(['\\', c] + p), url) <==>
      url != "" && url[0] == c && MatchString(Compiled(p), url[1..])
  {
    hide MatchString, Compiled;
    CompiledMeaning(['\\', c] + p, url);
    assert (['\\', c] + p)[2..] == p;
    if url != "" { CompiledMeaning(p, url[1..]); }
  }

  /** A backslash at the end of the pattern takes a backslash. */
  lemma LastBackslashRule(url: string)
    ensures MatchString(Compiled("\\"), url) <==> url == "\\"
  {
    hide MatchString, Compiled;
    CompiledMeaning("\\", url);
    assert "\\"[1..] == "";
    FrontToken("\\", "", Lit('\\'));
    if url != "" { assert url == [url[0]] + url[1..]; }
  }

  /** A star takes any number of characters, none of them a newline. */
  lemma StarRule(p: string, url: string)
    ensures MatchString(Compiled("*" + p), url) <==>
      exists n :: 0 <= n <= |url| && '\n' !in url[..n] && MatchString(Compiled(p), url[n..])
  {
    hide MatchString, Compiled;
    CompiledMeaning("*" + p, url);
    FrontToken("*" + p, p, Run);
    RunTakes(Tokens("*" + p), url);
    forall n | 0 <= n <= |url| ensures MatchString(Compiled(p), url[n..]) <==> Glob(Tokens(p), url[n..], true) {
      CompiledMeaning(p, url[n..]);
    }
    hide Tokens, Glob;
  }

  lemma FrontToken(q: string, p: string, t: Token)
    requires q != "" && q[1..] == p && (q[0] == '\\' ==> p == "")
    requires t == if q[0] == '*' then Run else if q[0] == '?' then Any else Lit(q[0])
    ensures Tokens(q) == [t] + Tokens(p)
  {}

  lemma {:induction false} RunTakes(ts: seq<Token>, s: string)
    requires ts != [] && ts[0].Run?
    ensures Glob(ts, s, true) <==> exists n :: 0 <= n <= |s| && '\n' !in s[..n] && Glob(ts[1..], s[n..], true)
    decreases |s|
  {
    assert s[..0] == "" && s[0..] == s;
    if s != "" {
      RunTakes(ts, s[1..]);
      var rest := ts[1..];
      forall n | 1 <= n <= |s| ensures s[n..] == s[1..][n - 1..] && s[..n] == [s[0]] + s[1..][..n - 1] {}
      if s[0] != '\n' && Glob(ts, s[1..], true) {
        var n :| 0 <= n <= |s[1..]| && '\n' !in s[1..][..n] && Glob(rest, s[1..][n..], true);
        assert s[n + 1..] == s[1..][n..] && s[..n + 1] == [s[0]] + s[1..][..n];
      }
      if n :| 1 <= n <= |s| && '\n' !in s[..n] && Glob(rest, s[n..], true) {
        assert s[..n][0] == s[0];
        assert Glob(rest, s[1..][n - 1..], true) && '\n' !in s[1..][..n - 1];
      }
    }
  }

  /** Only the empty pattern is replaced, by a star. */
  lemma EffectiveRule(p: string, url: string)
    ensures MatchString(Compiled(Effective(p)), url) <==>
      if p == "" then '\n' !in url else MatchString(Compiled(p), url)
  {
    if p == "" {
      StarRule("", url);
      hide MatchString, Compiled;
      assert "*" + "" == "*";
      forall n | 0 <= n <= |url| ensures MatchString(Compiled(""), url[n..]) <==> n == |url| { EmptyRule(url[n..]); }
      assert url[..|url|] == url;
    }
  }

  // ---------------------------------------------------------------- newlines

  lemma {:induction false} LineAgrees(ts: seq<Token>, s: string)
    requires '\n' !in s
    ensures Glob(ts, s, true) <==> Glob(ts, s, false)
    decreases |ts|, |s|
  {
    if ts != [] {
      LineAgrees(ts[1..], s);
      if s != "" {
        LineAgrees(ts[1..], s[1..]);
        LineAgrees(ts, s[1..]);
      }
    }
  }

  /** On a URL without newlines the compiled expression means what the pattern says. */
  lemma CompiledPreservesMeaning(p: string, url: string)
    requires '\n' !in url
    ensures MatchString(Compiled(p), url) <==> Glob(Tokens(p), url, false)
  {
    CompiledMeaning(p, url);
    LineAgrees(Tokens(p), url);
  }

  function Newlines(s: string): nat { if s == "" then 0 else (if s[0] == '\n' then 1 else 0) + Newlines(s[1..]) }

  function NewlineTokens(ts: seq<Token>): nat {
    if ts == [] then 0 else (if ts[0] == Lit('\n') then 1 else 0) + NewlineTokens(ts[1..])
  }

  predicate HasWildcard(ts: seq<Token>) { exists t :: t in ts && !t.Lit? }

  lemma {:induction false} LineMatchesCount(ts: seq<Token>, s: string)
    requires Glob(ts, s, true)
    ensures Newlines(s) == NewlineTokens(ts)
    decreases |ts|, |s|
  {
    if ts != [] {
      if ts[0].Run? {
        if Glob(ts[1..], s, true) { LineMatchesCount(ts[1..], s); } else { LineMatchesCount(ts, s[1..]); }
      } else {
        LineMatchesCount(ts[1..], s[1..]);
      }
    }
  }

  /** A text the pattern matches, with a newline wherever it has a wildcard. */
  function Broken(ts: seq<Token>): string {
    if ts == [] then "" else [if ts[0].Lit? then ts[0].c else '\n'] + Broken(ts[1..])
  }

  lemma {:induction false} BrokenMatches(ts: seq<Token>)
    ensures Glob(ts, Broken(ts), false)
    ensures Newlines(Broken(ts)) >= NewlineTokens(ts)
    ensures HasWildcard(ts) ==> Newlines(Broken(ts)) > NewlineTokens(ts)
  {
    if ts != [] {
      BrokenMatches(ts[1..]);
      assert Broken(ts)[1..] == Broken(ts[1..]);
      if HasWildcard(ts) && ts[0].Lit? {
        var t :| t in ts && !t.Lit?;
        assert ts == [ts[0]] + ts[1..] && t in ts[1..];
      }
      if ts[0].Run? { assert Glob(ts[1..], Broken(ts)[1..], false); assert Glob(ts, Broken(ts)[1..], false); }
    }
  }

  lemma {:induction false} LiteralsAgree(ts: seq<Token>, s: string)
    requires !HasWildcard(ts)
    ensures Glob(ts, s, true) <==> Glob(ts, s, false)
  {
    if ts != [] {
      assert ts[0] in ts && forall t :: t in ts[1..] ==> t in ts;
      if s != "" { LiteralsAgree(ts[1..], s[1..]); }
    }
  }

  /**
   Newlines are the whole difference: over all texts the meaning is kept exactly by the patterns
   without wildcards.
   */
  lemma MeaningKeptIff(p: string)
    ensures (forall url :: MatchString(Compiled(p), url) <==> Glob(Tokens(p), url, false)) <==> !HasWildcard(Tokens(p))
  {
    if HasWildcard(Tokens(p)) {
      var url := Broken(Tokens(p));
      BrokenMatches(Tokens(p));
      CompiledMeaning(p, url);
      if Glob(Tokens(p), url, true) { LineMatchesCount(Tokens(p), url); }
      assert !(MatchString(Compiled(p), url) <==> Glob(Tokens(p), url, false));
    } else {
      forall url ensures MatchString(Compiled(p), url) <==> Glob(Tokens(p), url, false) {
        CompiledMeaning(p, url);
        LiteralsAgree(Tokens(p), url);
      }
    }
  }

  /** Quoting every character of a text gives a pattern for that text alone. */
  function Quoted(text: string): string { if text == "" then "" else ['\\', text[0]] + Quoted(text[1..]) }

  lemma {:induction false} QuotedTokens(text: string)
    ensures |Tokens(Quoted(text))| == |text|
    ensures forall i | 0 <= i < |text| :: Tokens(Quoted(text))[i] == Lit(text[i])
  {
    if text != "" {
      QuotedTokens(text[1..]);
      var q := Quoted(text);
      assert q[0] == '\\' && q[1] == text[0] && q[2..] == Quoted(text[1..]);
      assert Tokens(q) == [Lit(text[0])] + Tokens(Quoted(text[1..]));
      hide Tokens, Quoted;
    }
  }

  lemma {:induction false} LiteralMatchesItself(ts: seq<Token>, text: string, s: string)
    requires |ts| == |text| && forall i | 0 <= i < |text| :: ts[i] == Lit(text[i])
    ensures Glob(ts, s, true) <==> s == text
  {
    if ts != [] {
      if s != "" {
        LiteralMatchesItself(ts[1..], text[1..], s[1..]);
        assert s == text <==> s[0] == text[0] && s[1..] == text[1..] by {
          assert s == [s[0]] + s[1..];
          assert text == [text[0]] + text[1..];
        }
      }
    }
  }

  lemma QuotedMatchesItself(text: string, url: string)
    ensures MatchString(Compiled(Quoted(text)), url) <==> url == text
  {
    CompiledMeaning(Quoted(text), url);
    QuotedTokens(text);
    LiteralMatchesItself(Tokens(Quoted(text)), text, url);
  }
}
