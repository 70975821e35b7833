/** Shell command lines: tokens, the grammar as a function on text, canonical text, and the round trip. */
module ShellGrammar {
  const MAXARGS: nat := 20

  /** Commands over words of type T. A redirection is `>` or `<`; `>>` opens its file just like `>`. */
  datatype Cmd<T> =
    | Exec(args: seq<T>)
    | Redir(cmd: Cmd<T>, file: T, out: bool)
    | Pipe(left: Cmd<T>, right: Cmd<T>)
    | List(left: Cmd<T>, right: Cmd<T>)
    | Back(cmd: Cmd<T>)

  /** What a parser finds, and the text after it; Err is the shell's panic. */
  datatype Result<T> = Ok(value: T, rest: string) | Err

  datatype Token = Token(kind: char, word: string, rest: string)

  datatype Redirect<T> = Redirect(file: T, out: bool)

  // ------------------------------------------------------------------ characters and tokens

  predicate IsSpace(c: char) {
    c == ' ' || c == '\t' || c == '\r' || c == '\n' || c == '\U{0B}'
  }

  predicate IsSymbol(c: char) {
    c == '<' || c == '|' || c == '>' || c == '&' || c == ';' || c == '(' || c == ')'
  }

  predicate IsWordChar(c: char) {
    !IsSpace(c) && !IsSymbol(c)
  }

  function SkipSpace(t: string): (r: string)
    ensures |r| <= |t| && (r == [] || !IsSpace(r[0]))
  {
    if t != [] && IsSpace(t[0]) then SkipSpace(t[1..]) else t
  }

  function WordLen(t: string): (n: nat)
    ensures n <= |t| && (forall j :: 0 <= j < n ==> IsWordChar(t[j])) && (n < |t| ==> !IsWordChar(t[n]))
    ensures t != [] && IsWordChar(t[0]) ==> n > 0
  {
    if t == [] || !IsWordChar(t[0]) then 0 else 1 + WordLen(t[1..])
  }

  /** The token text begins with: its kind and its length. The kind is the symbol itself, `+` for `>>`, `a` for a word,
      and 0 at the end. */
  function Lex(u: string): (r: (char, nat))
    requires u == [] || !IsSpace(u[0])
    ensures r.1 <= |u| && (r.0 != '\0' ==> r.1 > 0)
  {
    if u == [] then ('\0', 0)
    else if u[0] == '>' then if |u| > 1 && u[1] == '>' then ('+', 2) else ('>', 1)
    else if IsSymbol(u[0]) then (u[0], 1)
    else ('a', WordLen(u))
  }

  function GetToken(t: string): (k: Token)
    ensures |k.rest| <= |t| && (k.kind != '\0' ==> |k.rest| < |t|)
    ensures k.rest == [] || !IsSpace(k.rest[0])
  {
    var u := SkipSpace(t);
    var (kind, n) := Lex(u);
    Token(kind, if kind == 'a' then u[..n] else [], SkipSpace(u[n..]))
  }

  /** The next thing is one of these symbols. */
  predicate Peek(t: string, toks: string) {
    var u := SkipSpace(t);
    u != [] && u[0] in toks
  }

  // ------------------------------------------------------------------ the grammar

  function ParseRedirs(t: string): (r: Result<seq<Redirect<string>>>)
    ensures r.Ok? ==> |r.rest| <= |t| && (r.rest == [] || !IsSpace(r.rest[0]))
    decreases |t|
  {
    if !Peek(t, "<>") then Ok([], SkipSpace(t))
    else
      var k := GetToken(t);
      var f := GetToken(k.rest);
      if f.kind != 'a' then Err
      else
        var r := ParseRedirs(f.rest);
        if r.Err? then Err else Ok([Redirect(f.word, k.kind != '<')] + r.value, r.rest)
  }

  /** Words and redirections, after n words. */
  function ParseArgs(n: nat, t: string): (r: Result<(seq<string>, seq<Redirect<string>>)>)
    ensures r.Ok? ==> |r.rest| <= |t| && (r.rest == [] || !IsSpace(r.rest[0]))
    decreases |t|
  {
    var k := GetToken(t);
    if Peek(t, "|)&;") || k.kind == '\0' then Ok(([], []), SkipSpace(t))
    else if k.kind != 'a' || n + 1 >= MAXARGS then Err
    else
      var d := ParseRedirs(k.rest);
      if d.Err? then Err
      else
        var r := ParseArgs(n + 1, d.rest);
        if r.Err? then Err else Ok(([k.word] + r.value.0, d.value + r.value.1), r.rest)
  }

  function Wrap<T>(c: Cmd<T>, rs: seq<Redirect<T>>): (r: Cmd<T>)
    decreases |rs|
  {
    if rs == [] then c else Wrap(Redir(c, rs[0].file, rs[0].out), rs[1..])
  }

  function ParseExec(t: string): (r: Result<Cmd<string>>)
    ensures r.Ok? ==> |r.rest| <= |t| && (r.rest == [] || !IsSpace(r.rest[0]))
    decreases |t|, 0
  {
    if Peek(t, "(") then
      var c := ParseLine(GetToken(t).rest);
      if c.Err? || !Peek(c.rest, ")") then Err
      else
        var d := ParseRedirs(GetToken(c.rest).rest);
        if d.Err? then Err else Ok(Wrap(c.value, d.value), d.rest)
    else
      var d := ParseRedirs(t);
      if d.Err? then Err
      else
        var a := ParseArgs(0, d.rest);
        if a.Err? then Err else Ok(Wrap(Exec(a.value.0), d.value + a.value.1), a.rest)
  }

  function ParsePipe(t: string): (r: Result<Cmd<string>>)
    ensures r.Ok? ==> |r.rest| <= |t| && (r.rest == [] || !IsSpace(r.rest[0]))
    decreases |t|, 1
  {
    var c := ParseExec(t);
    if c.Err? || !Peek(c.rest, "|") then c
    else
      var d := ParsePipe(GetToken(c.rest).rest);
      if d.Err? then Err else Ok(Pipe(c.value, d.value), d.rest)
  }

  function ParseBacks<T>(c: Cmd<T>, t: string): (r: (Cmd<T>, string))
    ensures |r.1| <= |t| && (r.1 == [] || !IsSpace(r.1[0]))
    decreases |t|
  {
    if Peek(t, "&") then ParseBacks(Back(c), GetToken(t).rest) else (c, SkipSpace(t))
  }

  function ParseLine(t: string): (r: Result<Cmd<string>>)
    ensures r.Ok? ==> |r.rest| <= |t| && (r.rest == [] || !IsSpace(r.rest[0]))
    decreases |t|, 2
  {
    var c := ParsePipe(t);
    if c.Err? then Err
    else
      var b := ParseBacks(c.value, c.rest);
      if !Peek(b.1, ";") then Ok(b.0, b.1)
      else
        var d := ParseLine(GetToken(b.1).rest);
        if d.Err? then Err else Ok(List(b.0, d.value), d.rest)
  }

  /** A whole command line. */
  function ParseCmd(t: string): (r: Result<Cmd<string>>) {
    var c := ParseLine(t);
    if c.Ok? && SkipSpace(c.rest) == [] then c else Err
  }

  // ------------------------------------------------------------------ canonical text

  predicate IsWord(w: string) {
    w != [] && forall j :: 0 <= j < |w| ==> IsWordChar(w[j])
  }

  predicate Words(args: seq<string>) {
    forall j :: 0 <= j < |args| ==> IsWord(args[j])
  }

  /** Words are words. */
  predicate Worded(c: Cmd<string>) {
    match c
    case Exec(args) => Words(args)
    case Redir(d, f, _) => IsWord(f) && Worded(d)
    case Pipe(l, r) => Worded(l) && Worded(r)
    case List(l, r) => Worded(l) && Worded(r)
    case Back(d) => Worded(d)
  }

  /** Words are words, and no command has too many. */
  predicate Printable(c: Cmd<string>) {
    match c
    case Exec(args) => |args| < MAXARGS && Words(args)
    case Redir(d, f, _) => IsWord(f) && Printable(d)
    case Pipe(l, r) => Printable(l) && Printable(r)
    case List(l, r) => Printable(l) && Printable(r)
    case Back(d) => Printable(d)
  }

  function PrintArgs(args: seq<string>): (t: string) {
    if args == [] then []
    else if |args| == 1 then args[0]
    else args[0] + " " + PrintArgs(args[1..])
  }

  function PrintRedir(r: Redirect<string>): (t: string) {
    (if r.out then ">" else "<") + r.file
  }

  predicate Simple<T>(c: Cmd<T>) {
    c.Exec? || c.Redir?
  }

  /** A command where one simple command is expected: anything else goes in parentheses. */
  function PrintExec(c: Cmd<string>): (t: string)
    decreases c, if Simple(c) then 0 else 4
  {
    match c
    case Exec(args) => PrintArgs(args)
    case Redir(d, f, out) => PrintExec(d) + PrintRedir(Redirect(f, out))
    case _ => "(" + PrintLine(c) + ")"
  }

  function PrintPipe(c: Cmd<string>): (t: string)
    decreases c, if c.List? || c.Back? then 5 else 1
  {
    match c
    case Pipe(l, r) => PrintExec(l) + "|" + PrintPipe(r)
    case _ => PrintExec(c)
  }

  function PrintBacks(c: Cmd<string>): (t: string)
    decreases c, if c.List? then 6 else 2
  {
    match c
    case Back(d) => PrintBacks(d) + "&"
    case _ => PrintPipe(c)
  }

  function PrintLine(c: Cmd<string>): (t: string)
    decreases c, 3
  {
    match c
    case List(l, r) => PrintBacks(l) + ";" + PrintLine(r)
    case _ => PrintBacks(c)
  }

  // ------------------------------------------------------------------ tokens of canonical text

  /** Text that is over, or goes on with one of these symbols. */
  predicate Stops(t: string, toks: string) {
    t == [] || (t[0] in toks && IsSymbol(t[0]))
  }

  lemma {:induction false} WordToken(w: string, t: string)
    requires IsWord(w) && (t == [] || !IsWordChar(t[0]))
    ensures GetToken(w + t) == Token('a', w, SkipSpace(t))
  {
    var u := w + t;
    assert IsWordChar(w[0]) && u[0] == w[0];
    assert forall j :: 0 <= j < |w| ==> u[j] == w[j];
    assert t != [] ==> u[|w|] == t[0];
    assert WordLen(u) == |w|;
    assert u[..|w|] == w && u[|w|..] == t;
  }

  lemma {:induction false} SymbolToken(x: char, t: string)
    requires IsSymbol(x) && (x == '>' ==> t == [] || t[0] != '>')
    ensures GetToken([x] + t) == Token(x, [], SkipSpace(t))
    ensures forall toks :: Peek([x] + t, toks) <==> x in toks
  {
    var u := [x] + t;
    assert SkipSpace(u) == u && u[1..] == t;
  }

  lemma {:induction false} SkipOne(t: string)
    requires t == [] || !IsSpace(t[0])
    ensures SkipSpace(t) == t && SkipSpace(" " + t) == t
  {
    assert (" " + t)[1..] == t;
  }

  lemma {:induction false} ArgsStart(args: seq<string>)
    requires args != [] && Words(args)
    ensures PrintArgs(args) != [] && IsWordChar(PrintArgs(args)[0])
  {
    hide IsWordChar;
    assert IsWord(args[0]);
  }

  lemma {:induction false} ArgsToken(args: seq<string>, t: string)
    requires args != [] && Words(args) && (t == [] || (!IsWordChar(t[0]) && !IsSpace(t[0])))
    ensures GetToken(PrintArgs(args) + t) == Token('a', args[0], PrintArgs(args[1..]) + t)
  {
    hide GetToken;
    hide SkipSpace;
    hide WordLen;
    hide IsSpace;
    hide IsSymbol;
    hide IsWordChar;
    assert IsWord(args[0]);
    if |args| == 1 {
      WordToken(args[0], t);
      SkipOne(t);
      assert PrintArgs(args[1..]) + t == t;
    } else {
      var u := PrintArgs(args[1..]) + t;
      ArgsStart(args[1..]);
      SpaceIsNotWord();
      SkipOne(u);
      WordToken(args[0], " " + u);
      assert PrintArgs(args) + t == args[0] + (" " + u);
    }
  }

  lemma SpaceIsNotWord()
    ensures !IsWordChar(' ') && forall c :: IsWordChar(c) ==> !IsSpace(c)
  {
  }

  // ------------------------------------------------------------------ redirections

  function PrintRedirs(rs: seq<Redirect<string>>): (t: string) {
    if rs == [] then [] else PrintRedir(rs[0]) + PrintRedirs(rs[1..])
  }

  predicate Files(rs: seq<Redirect<string>>) {
    forall j :: 0 <= j < |rs| ==> IsWord(rs[j].file)
  }

  lemma {:induction false} RedirsStart(rs: seq<Redirect<string>>, t: string)
    requires Files(rs) && Stops(t, "|)&;")
    ensures var u := PrintRedirs(rs) + t;
      (u == [] || IsSymbol(u[0])) && SkipSpace(u) == u && (rs != [] ==> u != [] && (u[0] == '<' || u[0] == '>'))
  {
    if rs == [] {
      assert PrintRedirs(rs) + t == t;
    }
  }

  lemma {:induction false} StopsBefore(t: string, toks: string, x: string)
    requires Stops(t, toks) && forall c :: c in toks ==> c !in x
    ensures !Peek(t, x) && SkipSpace(t) == t
  {
  }

  lemma {:induction false} StopsParsing(t: string)
    requires Stops(t, "|)&;")
    ensures ParseRedirs(t) == Ok([], t) && SkipSpace(t) == t && forall n :: ParseArgs(n, t) == Ok(([], []), t)
  {
  }

  lemma {:induction false} RedirsRoundTrip(rs: seq<Redirect<string>>, t: string)
    requires Files(rs) && Stops(t, "|)&;")
    ensures ParseRedirs(PrintRedirs(rs) + t) == Ok(rs, t)
    decreases |rs|
  {
    hide GetToken;
    hide SkipSpace;
    hide WordLen;
    hide Peek;
    hide IsWord;
    hide Stops;
    if rs == [] {
      StopsParsing(t);
      assert PrintRedirs(rs) + t == t;
    } else {
      var more := PrintRedirs(rs[1..]) + t;
      RedirsRoundTrip(rs[1..], t);
      RedirTokens(rs[0], more, rs[1..], t);
      assert PrintRedirs(rs) + t == PrintRedir(rs[0]) + more;
      assert [rs[0]] + rs[1..] == rs;
    }
  }

  /** The two tokens of a redirection. */
  lemma {:induction false} RedirTokens(r: Redirect<string>, more: string, rs: seq<Redirect<string>>, t: string)
    requires IsWord(r.file) && Files(rs) && Stops(t, "|)&;") && more == PrintRedirs(rs) + t
    ensures var u := PrintRedir(r) + more;
      && Peek(u, "<>") && GetToken(GetToken(u).rest) == Token('a', r.file, more)
      && (GetToken(u).kind != '<' <==> r.out)
  {
    hide GetToken;
    hide WordLen;
    RedirsStart(rs, t);
    var x := if r.out then '>' else '<';
    var v := r.file + more;
    assert PrintRedir(r) + more == [x] + v;
    assert IsWordChar(r.file[0]) && v[0] == r.file[0];
    SymbolToken(x, v);
    WordToken(r.file, more);
  }

  // ------------------------------------------------------------------ simple commands

  lemma ArgsStep(n: nat, t: string, w: string, u: string, ds: seq<Redirect<string>>, v: string,
      ws: seq<string>, es: seq<Redirect<string>>, rest: string)
    requires !Peek(t, "|)&;") && GetToken(t) == Token('a', w, u) && ParseRedirs(u) == Ok(ds, v)
    requires n + 1 < MAXARGS ==> ParseArgs(n + 1, v) == Err || ParseArgs(n + 1, v) == Ok((ws, es), rest)
    ensures ParseArgs(n, t) ==
      if n + 1 < MAXARGS && ParseArgs(n + 1, v).Ok? then Ok(([w] + ws, ds + es), rest) else Err
  {
    hide GetToken;
    hide Peek;
    hide ParseRedirs;
    hide SkipSpace;
  }

  lemma {:induction false} ArgsRoundTrip(n: nat, args: seq<string>, rs: seq<Redirect<string>>, t: string)
    requires Words(args) && n < MAXARGS && Files(rs) && Stops(t, "|)&;") && args != []
    ensures ParseArgs(n, PrintArgs(args) + (PrintRedirs(rs) + t)) ==
      if n + |args| < MAXARGS then Ok((args, rs), t) else Err
    decreases |args|
  {
    hide GetToken;
    hide SkipSpace;
    hide WordLen;
    hide Peek;
    hide IsWord;
    hide Stops;
    hide ParseRedirs;
    hide ParseArgs;
    hide PrintRedirs;
    hide PrintArgs;
    var d := PrintRedirs(rs) + t;
    var u := PrintArgs(args) + d;
    var more := args[1..];
    FirstArg(args, rs, t);
    if more == [] {
      RedirsRoundTrip(rs, t);
      StopsParsing(t);
      ArgsStep(n, u, args[0], d, rs, t, [], [], t);
      assert [args[0]] + [] == args && rs + [] == rs;
    } else {
      var v := PrintArgs(more) + d;
      FirstArg(more, rs, t);
      if n + 1 < MAXARGS {
        ArgsRoundTrip(n + 1, more, rs, t);
      }
      ArgsStep(n, u, args[0], v, [], v, more, rs, t);
      assert [args[0]] + more == args && [] + rs == rs;
    }
  }

  lemma {:induction false} FirstArg(args: seq<string>, rs: seq<Redirect<string>>, t: string)
    requires Words(args) && Files(rs) && Stops(t, "|)&;") && args != []
    ensures var d := PrintRedirs(rs) + t; var u := PrintArgs(args) + d;
      && !Peek(u, "|)&;") && !Peek(u, "(") && ParseRedirs(u) == Ok([], u)
      && GetToken(u) == Token('a', args[0], if |args| == 1 then d else PrintArgs(args[1..]) + d)
  {
    hide GetToken;
    hide WordLen;
    hide PrintRedirs;
    hide Stops;
    var d := PrintRedirs(rs) + t;
    RedirsStart(rs, t);
    ArgsStart(args);
    ArgsToken(args, d);
    NoRedirs(PrintArgs(args) + d);
    assert |args| == 1 ==> PrintArgs(args[1..]) + d == d;
  }

  lemma {:induction false} NoRedirs(t: string)
    requires t != [] && IsWordChar(t[0])
    ensures ParseRedirs(t) == Ok([], t) && !Peek(t, "(") && !Peek(t, "|)&;")
  {
  }

  function Base<T>(c: Cmd<T>): (r: Cmd<T>)
    ensures !r.Redir?
  {
    if c.Redir? then Base(c.cmd) else c
  }

  function Redirs<T>(c: Cmd<T>): (r: seq<Redirect<T>>) {
    if c.Redir? then Redirs(c.cmd) + [Redirect(c.file, c.out)] else []
  }

  lemma {:induction false} WrapOne<T>(c: Cmd<T>, rs: seq<Redirect<T>>, r: Redirect<T>)
    ensures Wrap(c, rs + [r]) == Redir(Wrap(c, rs), r.file, r.out)
    decreases |rs|
  {
    if rs == [] {
      assert (rs + [r])[1..] == [];
    } else {
      assert (rs + [r])[1..] == rs[1..] + [r];
      WrapOne(Redir(c, rs[0].file, rs[0].out), rs[1..], r);
    }
  }

  lemma {:induction false} WrapBase<T>(c: Cmd<T>)
    ensures Wrap(Base(c), Redirs(c)) == c
  {
    if c.Redir? {
      WrapBase(c.cmd);
      WrapOne(Base(c.cmd), Redirs(c.cmd), Redirect(c.file, c.out));
    }
  }

  lemma {:induction false} PrintRedirsOne(rs: seq<Redirect<string>>, r: Redirect<string>)
    ensures PrintRedirs(rs + [r]) == PrintRedirs(rs) + PrintRedir(r)
    decreases |rs|
  {
    if rs == [] {
      assert (rs + [r])[1..] == [];
    } else {
      assert (rs + [r])[1..] == rs[1..] + [r];
      PrintRedirsOne(rs[1..], r);
    }
  }

  lemma {:induction false} PrintBase(c: Cmd<string>)
    requires Worded(c)
    ensures PrintExec(c) == PrintExec(Base(c)) + PrintRedirs(Redirs(c))
    ensures Worded(Base(c)) && Files(Redirs(c)) && (Printable(c) <==> Printable(Base(c)))
  {
    if c.Redir? {
      PrintBase(c.cmd);
      PrintRedirsOne(Redirs(c.cmd), Redirect(c.file, c.out));
    }
  }

  lemma {:induction false} SimpleRoundTrip(args: seq<string>, rs: seq<Redirect<string>>, t: string)
    requires Words(args) && Files(rs) && Stops(t, "|)&;")
    ensures ParseExec(PrintArgs(args) + (PrintRedirs(rs) + t)) ==
      if |args| < MAXARGS then Ok(Wrap(Exec(args), rs), t) else Err
  {
    hide GetToken;
    hide SkipSpace;
    hide WordLen;
    hide Peek;
    hide IsWord;
    hide Stops;
    hide ParseRedirs;
    hide ParseArgs;
    hide PrintRedirs;
    hide Wrap;
    var d := PrintRedirs(rs) + t;
    if args == [] {
      assert PrintArgs(args) + d == d;
      NoBlock(rs, t);
      RedirsRoundTrip(rs, t);
      StopsParsing(t);
      assert rs + [] == rs;
    } else {
      FirstArg(args, rs, t);
      ArgsRoundTrip(0, args, rs, t);
      assert [] + rs == rs;
    }
  }

  lemma {:induction false} NoBlock(rs: seq<Redirect<string>>, t: string)
    requires Files(rs) && Stops(t, "|)&;")
    ensures !Peek(PrintRedirs(rs) + t, "(")
  {
    RedirsStart(rs, t);
    if rs == [] {
      assert PrintRedirs(rs) + t == t;
    }
  }

  // ------------------------------------------------------------------ the round trip

  /** Simple commands and parentheses: too many words anywhere inside are an error. */
  lemma {:induction false} ExecRoundTrip(c: Cmd<string>, t: string)
    requires Worded(c) && Stops(t, "|)&;")
    ensures ParseExec(PrintExec(c) + t) == if Printable(c) then Ok(c, t) else Err
    decreases c, if Simple(c) then 0 else 4
  {
    hide GetToken;
    hide SkipSpace;
    hide WordLen;
    hide Peek;
    hide IsWord;
    hide ParseRedirs;
    hide ParseArgs;
    hide PrintRedirs;
    hide PrintArgs;
    hide Wrap;
    hide Redirs;
    hide Base;
    var b, rs := Base(c), Redirs(c);
    PrintBase(c);
    WrapBase(c);
    var d := PrintRedirs(rs) + t;
    assert !b.Redir?;
    if b.Exec? {
      SimpleRoundTrip(b.args, rs, t);
      assert PrintExec(c) + t == PrintArgs(b.args) + d;
    } else {
      var in_ := PrintLine(b) + (")" + d);
      assert PrintExec(c) + t == "(" + in_;
      BaseSmaller(c);
      LineRoundTrip(b, ")" + d);
      SymbolToken('(', in_);
      LineSkips(in_);
      SymbolToken(')', d);
      RedirsStart(rs, t);
      RedirsRoundTrip(rs, t);
    }
  }

  lemma {:induction false} BaseSmaller(c: Cmd<string>)
    ensures Base(c) == c || Base(c) < c
  {
    if c.Redir? {
      BaseSmaller(c.cmd);
    }
  }

  lemma {:induction false} PipeRoundTrip(c: Cmd<string>, t: string)
    requires Worded(c) && Stops(t, ")&;")
    ensures ParsePipe(PrintPipe(c) + t) == if Printable(c) then Ok(c, t) else Err
    decreases c, if c.List? || c.Back? then 5 else 1
  {
    hide GetToken;
    hide SkipSpace;
    hide WordLen;
    hide Peek;
    hide IsWord;
    hide ParseExec;
    if c.Pipe? {
      var u := PrintPipe(c.right) + t;
      ExecRoundTrip(c.left, "|" + u);
      assert PrintPipe(c) + t == PrintExec(c.left) + ("|" + u);
      SymbolToken('|', u);
      PipeRoundTrip(c.right, t);
      PipeSkips(u);
    } else {
      ExecRoundTrip(c, t);
      StopsBefore(t, ")&;", "|");
    }
  }

  /** Leading space does not matter. */
  lemma {:induction false} Skips(t: string)
    ensures SkipSpace(SkipSpace(t)) == SkipSpace(t) && GetToken(SkipSpace(t)) == GetToken(t)
    ensures forall toks :: Peek(SkipSpace(t), toks) == Peek(t, toks)
    ensures ParseRedirs(SkipSpace(t)) == ParseRedirs(t)
  {
  }

  lemma {:induction false} ExecSkips(t: string)
    ensures ParseExec(SkipSpace(t)) == ParseExec(t)
  {
    Skips(t);
  }

  lemma {:induction false} PipeSkips(t: string)
    ensures ParsePipe(SkipSpace(t)) == ParsePipe(t)
  {
    ExecSkips(t);
  }

  lemma {:induction false} LineSkips(t: string)
    ensures ParseLine(SkipSpace(t)) == ParseLine(t)
  {
    PipeSkips(t);
  }

  function Amps(n: nat): (t: string) {
    if n == 0 then [] else "&" + Amps(n - 1)
  }

  function Backs<T>(c: Cmd<T>, n: nat): (r: Cmd<T>)
    decreases n
  {
    if n == 0 then c else Backs(Back(c), n - 1)
  }

  /** What is put in the background, and how many times. */
  function Front<T>(c: Cmd<T>): (r: (Cmd<T>, nat))
    ensures !r.0.Back?
  {
    if c.Back? then (Front(c.cmd).0, Front(c.cmd).1 + 1) else (c, 0)
  }

  lemma {:induction false} BacksOne<T>(c: Cmd<T>, n: nat)
    ensures Backs(c, n + 1) == Back(Backs(c, n))
    decreases n
  {
    if n > 0 {
      BacksOne(Back(c), n - 1);
    }
  }

  lemma {:induction false} AmpsOne(n: nat)
    ensures Amps(n) + "&" == "&" + Amps(n)
  {
    if n > 0 {
      AmpsOne(n - 1);
    }
  }

  lemma {:induction false} FrontMeaning(c: Cmd<string>)
    requires Worded(c)
    ensures var (p, n) := Front(c);
      && Worded(p) && (Printable(p) <==> Printable(c)) && c == Backs(p, n)
      && PrintBacks(c) == PrintPipe(p) + Amps(n) && (p == c || p < c)
  {
    if c.Back? {
      FrontMeaning(c.cmd);
      var (p, n) := Front(c.cmd);
      BacksOne(p, n);
      AmpsOne(n);
      assert PrintPipe(p) + Amps(n) + "&" == PrintPipe(p) + (Amps(n) + "&");
    }
  }

  lemma {:induction false} BacksRoundTrip<T>(c: Cmd<T>, n: nat, t: string)
    requires Stops(t, ");")
    ensures ParseBacks(c, Amps(n) + t) == (Backs(c, n), t)
    decreases n
  {
    hide GetToken;
    hide SkipSpace;
    hide WordLen;
    hide Peek;
    hide IsWord;
    if n == 0 {
      assert Amps(0) + t == t;
      StopsBefore(t, ");", "&");
    } else {
      var u := Amps(n - 1) + t;
      assert Amps(n) + t == "&" + u;
      SymbolToken('&', u);
      assert u == [] || !IsSpace(u[0]) by {
        assert n - 1 > 0 ==> u[0] == '&';
        assert n == 1 ==> u == t;
      }
      SkipOne(u);
      BacksRoundTrip(Back(c), n - 1, t);
    }
  }

  /** A line up to `;`. */
  lemma {:induction false} FrontRoundTrip(c: Cmd<string>, t: string)
    requires Worded(c) && Stops(t, ");")
    ensures var p := ParsePipe(PrintBacks(c) + t);
      if Printable(c) then p.Ok? && ParseBacks(p.value, p.rest) == (c, t) else p.Err?
    decreases c, if c.List? then 6 else 2
  {
    FrontMeaning(c);
    var (p, n) := Front(c);
    var u := Amps(n) + t;
    assert PrintBacks(c) + t == PrintPipe(p) + u;
    assert Stops(u, ")&;") by {
      assert n > 0 ==> u[0] == '&';
      assert n == 0 ==> u == t;
    }
    PipeRoundTrip(p, u);
    BacksRoundTrip(p, n, t);
  }

  lemma {:induction false} LineRoundTrip(c: Cmd<string>, t: string)
    requires Worded(c) && Stops(t, ")")
    ensures ParseLine(PrintLine(c) + t) == if Printable(c) then Ok(c, t) else Err
    decreases c, 3
  {
    hide GetToken;
    hide SkipSpace;
    hide WordLen;
    hide Peek;
    hide IsWord;
    hide ParsePipe;
    hide ParseBacks;
    if c.List? {
      var u := PrintLine(c.right) + t;
      FrontRoundTrip(c.left, ";" + u);
      assert PrintLine(c) + t == PrintBacks(c.left) + (";" + u);
      SymbolToken(';', u);
      LineRoundTrip(c.right, t);
      LineSkips(u);
    } else {
      FrontRoundTrip(c, t);
      StopsBefore(t, ")", ";");
    }
  }

  /** Parsing the canonical text of a command gives the command back if each of its simple commands has fewer than
      MAXARGS words, and is an error otherwise. */
  lemma {:induction false} RoundTrip(c: Cmd<string>)
    requires Worded(c)
    ensures ParseCmd(PrintLine(c)) == if Printable(c) then Ok(c, []) else Err
  {
    LineRoundTrip(c, []);
    assert PrintLine(c) + [] == PrintLine(c);
  }

  lemma AppendToken(v: string)
    requires v == [] || !IsSpace(v[0])
    ensures GetToken(">>" + v) == Token('+', [], v) && Peek(">>" + v, "<>")
  {
    hide WordLen;
    assert (">>" + v)[2..] == v;
    SkipOne(v);
  }

  /** `>>` opens its file as `>` does. */
  lemma {:induction false} AppendParsesAsWrite(f: string, rs: seq<Redirect<string>>, t: string)
    requires IsWord(f) && Files(rs) && Stops(t, "|)&;")
    ensures ParseRedirs(">>" + (f + (PrintRedirs(rs) + t))) == Ok([Redirect(f, true)] + rs, t)
    ensures ParseRedirs(PrintRedirs([Redirect(f, true)] + rs) + t) == Ok([Redirect(f, true)] + rs, t)
  {
    hide WordLen;
    hide GetToken;
    hide Peek;
    hide SkipSpace;
    hide PrintRedirs;
    hide Stops;
    var more := PrintRedirs(rs) + t;
    var v := f + more;
    RedirsStart(rs, t);
    assert IsWordChar(f[0]) && v[0] == f[0];
    AppendToken(v);
    WordToken(f, more);
    RedirsRoundTrip(rs, t);
    RedirsRoundTrip([Redirect(f, true)] + rs, t);
  }

  // ------------------------------------------------------------------ what the parser accepts

  lemma TokenIsWord(t: string)
    ensures GetToken(t).kind == 'a' ==> IsWord(GetToken(t).word)
  {
    var u := SkipSpace(t);
    if u != [] && Lex(u).0 == 'a' {
      assert IsWordChar(u[0]);
    }
  }

  lemma {:induction false} RedirsAreFiles(t: string)
    ensures ParseRedirs(t).Ok? ==> Files(ParseRedirs(t).value)
    decreases |t|
  {
    hide GetToken; hide IsWord;
    if Peek(t, "<>") && ParseRedirs(t).Ok? {
      var f := GetToken(GetToken(t).rest);
      TokenIsWord(GetToken(t).rest);
      SomeToken(t);
      RedirsAreFiles(f.rest);
    }
  }

  /** A symbol that is there is a token. */
  lemma SomeToken(t: string)
    ensures forall toks :: Peek(t, toks) ==> GetToken(t).kind != '\0' || '\0' in toks
  {
  }

  lemma {:induction false} ArgsAreWords(n: nat, t: string)
    requires n < MAXARGS
    ensures var r := ParseArgs(n, t); r.Ok? ==> Words(r.value.0) && n + |r.value.0| < MAXARGS && Files(r.value.1)
    decreases |t|
  {
    hide GetToken; hide IsWord; hide Peek; hide SkipSpace; hide ParseRedirs;
    var k := GetToken(t);
    if ParseArgs(n, t).Ok? && !(Peek(t, "|)&;") || k.kind == '\0') {
      TokenIsWord(t);
      RedirsAreFiles(k.rest);
      ArgsAreWords(n + 1, ParseRedirs(k.rest).rest);
    }
  }

  lemma {:induction false} WrapPrintable(c: Cmd<string>, rs: seq<Redirect<string>>)
    requires Printable(c) && Files(rs)
    ensures Printable(Wrap(c, rs))
    decreases |rs|
  {
    if rs != [] {
      WrapPrintable(Redir(c, rs[0].file, rs[0].out), rs[1..]);
    }
  }

  lemma {:induction false} ExecIsPrintable(t: string)
    ensures ParseExec(t).Ok? ==> Printable(ParseExec(t).value)
    decreases |t|, 0
  {
    hide GetToken; hide IsWord; hide Peek; hide SkipSpace; hide ParseRedirs; hide ParseArgs; hide Wrap; hide Printable;
    SomeToken(t);
    if ParseExec(t).Ok? {
      if Peek(t, "(") {
        LineIsPrintable(GetToken(t).rest);
        var c := ParseLine(GetToken(t).rest);
        RedirsAreFiles(GetToken(c.rest).rest);
        WrapPrintable(c.value, ParseRedirs(GetToken(c.rest).rest).value);
      } else {
        var d := ParseRedirs(t);
        RedirsAreFiles(t);
        ArgsAreWords(0, d.rest);
        var a := ParseArgs(0, d.rest);
        assert Printable(Exec(a.value.0)) by { ExecPrintable(a.value.0); }
        WrapPrintable(Exec(a.value.0), d.value + a.value.1);
      }
    }
  }

  lemma ExecPrintable(args: seq<string>)
    requires Words(args) && |args| < MAXARGS
    ensures Printable(Exec(args))
  {
  }

  lemma {:induction false} PipeIsPrintable(t: string)
    ensures ParsePipe(t).Ok? ==> Printable(ParsePipe(t).value)
    decreases |t|, 1
  {
    hide GetToken; hide IsWord; hide Peek; hide SkipSpace; hide ParseExec;
    ExecIsPrintable(t);
    var c := ParseExec(t);
    if c.Ok? && Peek(c.rest, "|") {
      SomeToken(c.rest);
      PipeIsPrintable(GetToken(c.rest).rest);
    }
  }

  lemma {:induction false} BacksPrintable(c: Cmd<string>, t: string)
    requires Printable(c)
    ensures Printable(ParseBacks(c, t).0)
    decreases |t|
  {
    hide GetToken; hide IsWord; hide Peek; hide SkipSpace;
    if Peek(t, "&") {
      SomeToken(t);
      BacksPrintable(Back(c), GetToken(t).rest);
    }
  }

  lemma {:induction false} LineIsPrintable(t: string)
    ensures ParseLine(t).Ok? ==> Printable(ParseLine(t).value)
    decreases |t|, 2
  {
    hide GetToken; hide IsWord; hide Peek; hide SkipSpace; hide ParsePipe; hide ParseBacks;
    PipeIsPrintable(t);
    var c := ParsePipe(t);
    if c.Ok? {
      BacksPrintable(c.value, c.rest);
      var b := ParseBacks(c.value, c.rest);
      if Peek(b.1, ";") {
        SomeToken(b.1);
        LineIsPrintable(GetToken(b.1).rest);
      }
    }
  }

  /** The canonical text is a normal form: whatever text parses, the text of its command parses to the same command. */
  lemma NormalForm(t: string)
    ensures ParseCmd(t).Ok? ==>
      var c := ParseCmd(t).value; Printable(c) && ParseCmd(PrintLine(c)) == Ok(c, [])
  {
    hide ParseLine; hide PrintLine;
    LineIsPrintable(t);
    if ParseCmd(t).Ok? {
      var c := ParseCmd(t).value;
      PrintableIsWorded(c);
      RoundTrip(c);
    }
  }

  lemma {:induction false} PrintableIsWorded(c: Cmd<string>)
    ensures Printable(c) ==> Worded(c)
  {
    match c {
      case Exec(_) =>
      case Redir(d, _, _) => PrintableIsWorded(d);
      case Pipe(l, r) => PrintableIsWorded(l); PrintableIsWorded(r);
      case List(l, r) => PrintableIsWorded(l); PrintableIsWorded(r);
      case Back(d) => PrintableIsWorded(d);
    }
  }
}
