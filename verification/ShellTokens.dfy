/** The tokens of a command line, character by character; a command is parsed from its tokens alone. */
module ShellTokens {
  import opened ShellGrammar

  /** The kinds and words of all tokens. */
  function Toks(t: string): (r: seq<(char, string)>)
    decreases |t|
  {
    var k := GetToken(t);
    if k.kind == '\0' then [] else [(k.kind, k.word)] + Toks(k.rest)
  }

  /** No character of the word is white space or a symbol. */
  predicate PlainWord(w: string) {
    w != [] && forall c :: c in w ==> c !in " \t\r\n\U{0B}" && c !in "<|>&;()"
  }

  lemma {:induction false} SkipFirst(t: string)
    ensures Toks(SkipSpace(t)) == Toks(t)
  {
    hide ParseRedirs;
    Skips(t);
  }

  // ------------------------------------------------------------------ what the tokens are

  lemma {:induction false} BlankFirst(c: char, t: string)
    requires c in " \t\r\n\U{0B}"
    ensures Toks([c] + t) == Toks(t)
  {
    assert ([c] + t)[1..] == t;
    assert SkipSpace([c] + t) == SkipSpace(t);
    SkipFirst([c] + t);
    SkipFirst(t);
  }

  lemma {:induction false} SymbolFirst(c: char, t: string)
    requires c in "<|>&;()" && (c == '>' ==> t == [] || t[0] != '>')
    ensures Toks([c] + t) == [(c, [])] + Toks(t)
  {
    hide GetToken;
    SymbolToken(c, t);
    SkipFirst(t);
  }

  lemma {:induction false} AppendFirst(t: string)
    ensures Toks(">>" + t) == [('+', [])] + Toks(t)
  {
    hide WordLen;
    assert SkipSpace(">>" + t) == ">>" + t && (">>" + t)[2..] == t;
    SkipFirst(t);
  }

  lemma {:induction false} WordFirst(w: string, t: string)
    requires PlainWord(w) && (t == [] || t[0] in " \t\r\n\U{0B}" || t[0] in "<|>&;()")
    ensures Toks(w + t) == [('a', w)] + Toks(t)
  {
    hide GetToken;
    forall j | 0 <= j < |w| ensures IsWordChar(w[j]) {
      assert w[j] in w;
    }
    WordToken(w, t);
    SkipFirst(t);
  }

  lemma WordIsPlain(w: string)
    requires IsWord(w)
    ensures PlainWord(w)
  {
    forall c | c in w ensures c !in " \t\r\n\U{0B}" && c !in "<|>&;()" {
      var j :| 0 <= j < |w| && w[j] == c;
      assert IsWordChar(w[j]);
    }
  }

  /** The word a text begins with. */
  lemma WordThere(t: string)
    requires t != [] && IsWordChar(t[0])
    ensures var n := WordLen(t); PlainWord(t[..n]) && (n < |t| ==> t[n] in " \t\r\n\U{0B}" || t[n] in "<|>&;()")
  {
    WordIsPlain(t[..WordLen(t)]);
  }

  /** Each of the five white space characters separates tokens, and is part of none. */
  lemma {:induction false} BlankSeparates(s: string, c: char, t: string)
    requires c in " \t\r\n\U{0B}"
    ensures Toks(s + [c] + t) == Toks(s) + Toks(t)
    decreases |s|
  {
    hide Toks; hide WordLen;
    if s == [] {
      assert s + [c] + t == [c] + t;
      BlankFirst(c, t);
      NoTokens();
    } else if IsSpace(s[0]) {
      Peeled(s, 1, c, t);
      BlankFirst(s[0], s[1..]);
      BlankFirst(s[0], s[1..] + [c] + t);
      BlankSeparates(s[1..], c, t);
    } else if IsSymbol(s[0]) && !(s[0] == '>' && |s| > 1 && s[1] == '>') {
      Peeled(s, 1, c, t);
      SymbolFirst(s[0], s[1..]);
      SymbolFirst(s[0], s[1..] + [c] + t);
      BlankSeparates(s[1..], c, t);
    } else if IsSymbol(s[0]) {
      Peeled(s, 2, c, t);
      assert s[..2] == ">>";
      AppendFirst(s[2..]);
      AppendFirst(s[2..] + [c] + t);
      BlankSeparates(s[2..], c, t);
    } else {
      var n := WordLen(s);
      WordThere(s);
      Peeled(s, n, c, t);
      WordFirst(s[..n], s[n..]);
      WordFirst(s[..n], s[n..] + [c] + t);
      BlankSeparates(s[n..], c, t);
    }
  }

  lemma NoTokens()
    ensures Toks([]) == []
  {
  }

  lemma Peeled(s: string, n: nat, c: char, t: string)
    requires 0 < n <= |s|
    ensures s == s[..n] + s[n..] && s + [c] + t == s[..n] + (s[n..] + [c] + t) && (n == 1 ==> s[..n] == [s[0]])
    ensures (s[n..] + [c] + t)[0] == if n < |s| then s[n] else c
  {
  }

  // ------------------------------------------------------------------ parsing by tokens

  /** The same find, or the same failure, with the same tokens after it. */
  ghost predicate Alike<T>(a: Result<T>, b: Result<T>) {
    if a.Ok? then b.Ok? && a.value == b.value && Toks(a.rest) == Toks(b.rest) else b.Err?
  }

  predicate Symbols(toks: string) {
    forall c :: c in toks ==> c in "<|>&;()"
  }

  /** What the parser looks at is the first token. */
  lemma FirstToken(t: string, toks: string)
    requires Symbols(toks)
    ensures Peek(t, toks) <==> Toks(t) != [] && (Toks(t)[0].0 in toks || (Toks(t)[0].0 == '+' && '>' in toks))
    ensures GetToken(t).kind == if Toks(t) == [] then '\0' else Toks(t)[0].0
    ensures Toks(t) == [] <==> GetToken(t).kind == '\0'
    ensures Toks(t) != [] ==> GetToken(t).word == Toks(t)[0].1 && Toks(GetToken(t).rest) == Toks(t)[1..]
    ensures Toks(t) == [] <==> SkipSpace(t) == []
  {
    hide GetToken; hide Peek; hide SkipSpace;
    PeekKind(t, toks);
  }

  lemma PeekKind(t: string, toks: string)
    requires Symbols(toks)
    ensures var k := GetToken(t).kind; Peek(t, toks) <==> k in toks || (k == '+' && '>' in toks)
    ensures GetToken(t).kind == '\0' <==> SkipSpace(t) == []
  {
    hide WordLen; hide SkipSpace;
    var u := SkipSpace(t);
    assert '+' !in toks && '\0' !in toks && 'a' !in toks;
    if u != [] && !IsSymbol(u[0]) {
      assert u[0] !in toks;
    }
  }

  lemma {:induction false} RedirsByTokens(s: string, t: string)
    requires Toks(s) == Toks(t)
    ensures Alike(ParseRedirs(s), ParseRedirs(t))
    decreases |s|
  {
    hide GetToken; hide Peek; hide Toks; hide SkipSpace;
    FirstToken(s, "<>");
    FirstToken(t, "<>");
    if Peek(s, "<>") {
      var k, l := GetToken(s).rest, GetToken(t).rest;
      FirstToken(k, "");
      FirstToken(l, "");
      if Toks(k) != [] {
        RedirsByTokens(GetToken(k).rest, GetToken(l).rest);
      }
    } else {
      SkipFirst(s);
      SkipFirst(t);
    }
  }

  lemma {:induction false} ArgsByTokens(n: nat, s: string, t: string)
    requires Toks(s) == Toks(t)
    ensures Alike(ParseArgs(n, s), ParseArgs(n, t))
    decreases |s|
  {
    hide GetToken; hide Peek; hide Toks; hide SkipSpace; hide ParseRedirs;
    FirstToken(s, "|)&;");
    FirstToken(t, "|)&;");
    SkipFirst(s);
    SkipFirst(t);
    if Toks(s) != [] {
      var k, l := GetToken(s).rest, GetToken(t).rest;
      RedirsByTokens(k, l);
      if ParseRedirs(k).Ok? {
        ArgsByTokens(n + 1, ParseRedirs(k).rest, ParseRedirs(l).rest);
      }
    }
  }

  lemma {:induction false} ExecByTokens(s: string, t: string)
    requires Toks(s) == Toks(t)
    ensures Alike(ParseExec(s), ParseExec(t))
    decreases |s|, 0
  {
    hide GetToken; hide Peek; hide Toks; hide SkipSpace; hide ParseRedirs; hide ParseArgs; hide ParseLine; hide Wrap;
    FirstToken(s, "(");
    FirstToken(t, "(");
    if Peek(s, "(") {
      LineByTokens(GetToken(s).rest, GetToken(t).rest);
      var c, d := ParseLine(GetToken(s).rest), ParseLine(GetToken(t).rest);
      if c.Ok? {
        FirstToken(c.rest, ")");
        FirstToken(d.rest, ")");
        if Peek(c.rest, ")") {
          RedirsByTokens(GetToken(c.rest).rest, GetToken(d.rest).rest);
        }
      }
    } else {
      RedirsByTokens(s, t);
      if ParseRedirs(s).Ok? {
        ArgsByTokens(0, ParseRedirs(s).rest, ParseRedirs(t).rest);
      }
    }
  }

  lemma {:induction false} PipeByTokens(s: string, t: string)
    requires Toks(s) == Toks(t)
    ensures Alike(ParsePipe(s), ParsePipe(t))
    decreases |s|, 1
  {
    hide GetToken; hide Peek; hide Toks; hide SkipSpace; hide ParseExec;
    ExecByTokens(s, t);
    var c, d := ParseExec(s), ParseExec(t);
    if c.Ok? {
      FirstToken(c.rest, "|");
      FirstToken(d.rest, "|");
      if Peek(c.rest, "|") {
        PipeByTokens(GetToken(c.rest).rest, GetToken(d.rest).rest);
      }
    }
  }

  lemma {:induction false} BacksByTokens(c: Cmd<string>, s: string, t: string)
    requires Toks(s) == Toks(t)
    ensures ParseBacks(c, s).0 == ParseBacks(c, t).0 && Toks(ParseBacks(c, s).1) == Toks(ParseBacks(c, t).1)
    decreases |s|
  {
    hide GetToken; hide Peek; hide Toks; hide SkipSpace;
    FirstToken(s, "&");
    FirstToken(t, "&");
    SkipFirst(s);
    SkipFirst(t);
    if Peek(s, "&") {
      BacksByTokens(Back(c), GetToken(s).rest, GetToken(t).rest);
    }
  }

  lemma {:induction false} LineByTokens(s: string, t: string)
    requires Toks(s) == Toks(t)
    ensures Alike(ParseLine(s), ParseLine(t))
    decreases |s|, 2
  {
    hide GetToken; hide Peek; hide Toks; hide SkipSpace; hide ParsePipe; hide ParseBacks;
    PipeByTokens(s, t);
    var c, d := ParsePipe(s), ParsePipe(t);
    if c.Ok? {
      BacksByTokens(c.value, c.rest, d.rest);
      var x, y := ParseBacks(c.value, c.rest).1, ParseBacks(d.value, d.rest).1;
      FirstToken(x, ";");
      FirstToken(y, ";");
      if Peek(x, ";") {
        LineByTokens(GetToken(x).rest, GetToken(y).rest);
      }
    }
  }

  /** A command line means what its tokens say: how they are spaced does not matter. */
  lemma ParseByTokens(s: string, t: string)
    requires Toks(s) == Toks(t)
    ensures ParseCmd(s) == ParseCmd(t)
  {
    hide ParseLine; hide Toks;
    LineByTokens(s, t);
    var c, d := ParseLine(s), ParseLine(t);
    if c.Ok? {
      FirstToken(c.rest, "");
      FirstToken(d.rest, "");
    }
  }

  // ------------------------------------------------------------------ white space

  /** Any white space may stand for any other, be doubled, and stand at either end. */
  lemma BlanksAreAlike(s: string, c: char, d: char, t: string)
    requires c in " \t\r\n\U{0B}" && d in " \t\r\n\U{0B}"
    ensures ParseCmd(s + [c] + t) == ParseCmd(s + [d] + t)
    ensures ParseCmd(s + [c] + ([d] + t)) == ParseCmd(s + [c] + t)
    ensures ParseCmd(t + [c]) == ParseCmd(t) && ParseCmd([c] + t) == ParseCmd(t)
  {
    hide ParseCmd; hide Toks;
    BlankSeparates(s, c, t);
    BlankSeparates(s, d, t);
    BlankSeparates(s, c, [d] + t);
    BlankFirst(d, t);
    BlankFirst(c, t);
    BlankSeparates(t, c, []);
    NoTokens();
    assert t + [c] + [] == t + [c];
    ParseByTokens(s + [c] + t, s + [d] + t);
    ParseByTokens(s + [c] + ([d] + t), s + [c] + t);
    ParseByTokens(t + [c], t);
    ParseByTokens([c] + t, t);
  }

  /** A line as the user types it, with its newline: the round trip holds for it too. */
  lemma LineEndRoundTrip(c: Cmd<string>)
    requires Worded(c)
    ensures ParseCmd(PrintLine(c) + "\n") == if Printable(c) then Ok(c, []) else Err
  {
    hide ParseCmd; hide PrintLine;
    BlanksAreAlike([], '\n', '\n', PrintLine(c));
    RoundTrip(c);
  }

  /** Every word of the command, argument or file name. */
  function WordsOf(c: Cmd<string>): (r: set<string>) {
    match c
    case Exec(args) => set w | w in args
    case Redir(d, f, _) => {f} + WordsOf(d)
    case Pipe(l, r) => WordsOf(l) + WordsOf(r)
    case List(l, r) => WordsOf(l) + WordsOf(r)
    case Back(d) => WordsOf(d)
  }

  lemma {:induction false} WordedIsPlain(c: Cmd<string>, w: string)
    requires Worded(c) && w in WordsOf(c)
    ensures PlainWord(w)
  {
    match c {
      case Exec(args) =>
        WordIsPlain(w);
      case Redir(d, f, _) =>
        if w == f {
          WordIsPlain(f);
        } else {
          WordedIsPlain(d, w);
        }
      case Pipe(l, r) =>
        if w in WordsOf(l) { WordedIsPlain(l, w); } else { WordedIsPlain(r, w); }
      case List(l, r) =>
        if w in WordsOf(l) { WordedIsPlain(l, w); } else { WordedIsPlain(r, w); }
      case Back(d) => WordedIsPlain(d, w);
    }
  }

  /** No word of an accepted command holds white space or a symbol. */
  lemma WordsArePlain(t: string, w: string)
    requires ParseCmd(t).Ok? && w in WordsOf(ParseCmd(t).value)
    ensures PlainWord(w)
  {
    hide ParseCmd; hide WordsOf;
    NormalForm(t);
    PrintableIsWorded(ParseCmd(t).value);
    WordedIsPlain(ParseCmd(t).value, w);
  }
}
