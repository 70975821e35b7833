/** The shell's parser, moving a cursor over the text, and its in-place termination of words. */
module Shell {
  import opened ShellGrammar

  /** A word, as the two places in the text where it starts and ends. */
  datatype Tok = Tok(start: nat, end: nat)

  /** A longest run of word characters. */
  predicate IsTok(s: string, t: Tok) {
    && t.start < t.end <= |s|
    && (forall j :: t.start <= j < t.end ==> IsWordChar(s[j]))
    && (t.end < |s| ==> !IsWordChar(s[t.end]))
  }

  predicate ToksOk(s: string, c: Cmd<Tok>) {
    match c
    case Exec(args) => forall j :: 0 <= j < |args| ==> IsTok(s, args[j])
    case Redir(d, f, _) => IsTok(s, f) && ToksOk(s, d)
    case Pipe(l, r) => ToksOk(s, l) && ToksOk(s, r)
    case List(l, r) => ToksOk(s, l) && ToksOk(s, r)
    case Back(d) => ToksOk(s, d)
  }

  function Text(s: string, t: Tok): (w: string)
    requires IsTok(s, t)
  {
    s[t.start..t.end]
  }

  function Texts(s: string, ts: seq<Tok>): (ws: seq<string>)
    requires forall j :: 0 <= j < |ts| ==> IsTok(s, ts[j])
  {
    seq(|ts|, j requires 0 <= j < |ts| => Text(s, ts[j]))
  }

  /** The command with its words read off the text. */
  function Strings(s: string, c: Cmd<Tok>): (r: Cmd<string>)
    requires ToksOk(s, c)
  {
    match c
    case Exec(args) => Exec(Texts(s, args))
    case Redir(d, f, out) => Redir(Strings(s, d), Text(s, f), out)
    case Pipe(l, r) => Pipe(Strings(s, l), Strings(s, r))
    case List(l, r) => List(Strings(s, l), Strings(s, r))
    case Back(d) => Back(Strings(s, d))
  }

  predicate FilesOk(s: string, rs: seq<Redirect<Tok>>) {
    forall j :: 0 <= j < |rs| ==> IsTok(s, rs[j].file)
  }

  function FileTexts(s: string, rs: seq<Redirect<Tok>>): (ds: seq<Redirect<string>>)
    requires FilesOk(s, rs)
  {
    seq(|rs|, j requires 0 <= j < |rs| => Redirect(Text(s, rs[j].file), rs[j].out))
  }

  lemma {:induction false} WrapStrings(s: string, c: Cmd<Tok>, rs: seq<Redirect<Tok>>)
    requires ToksOk(s, c) && FilesOk(s, rs)
    ensures ToksOk(s, Wrap(c, rs)) && Strings(s, Wrap(c, rs)) == Wrap(Strings(s, c), FileTexts(s, rs))
    decreases |rs|
  {
    if rs != [] {
      WrapStrings(s, Redir(c, rs[0].file, rs[0].out), rs[1..]);
      assert FileTexts(s, rs)[1..] == FileTexts(s, rs[1..]);
    }
  }

  // ------------------------------------------------------------------ tokens

  method SkipTo(s: string, i: nat) returns (j: nat)
    requires i <= |s|
    ensures i <= j <= |s| && s[j..] == SkipSpace(s[i..])
  {
    j := i;
    while j < |s| && IsSpace(s[j])
      invariant i <= j <= |s| && SkipSpace(s[j..]) == SkipSpace(s[i..])
    {
      assert s[j..][1..] == s[j + 1..];
      j := j + 1;
    }
  }

  method WordEnd(s: string, q: nat) returns (j: nat)
    requires q < |s| && IsWordChar(s[q])
    ensures q < j <= |s| && j == q + WordLen(s[q..]) && IsTok(s, Tok(q, j))
  {
    j := q;
    while j < |s| && !IsSpace(s[j]) && !IsSymbol(s[j])
      invariant q <= j <= |s| && (forall k :: q <= k < j ==> IsWordChar(s[k]))
    {
      j := j + 1;
    }
    var u := s[q..];
    assert forall k :: q <= k < j ==> u[k - q] == s[k];
    assert j < |s| ==> u[j - q] == s[j];
    assert WordLen(u) == j - q;
  }

  /** The token at q, past any space: its kind, and where it ends. */
  method LexAt(s: string, q: nat) returns (kind: char, e: nat)
    requires q <= |s| && (q < |s| ==> !IsSpace(s[q]))
    ensures q <= e <= |s| && Lex(s[q..]) == (kind, e - q)
    ensures kind == 'a' ==> IsTok(s, Tok(q, e))
  {
    if q == |s| {
      return '\0', q;
    }
    if s[q] == '>' {
      if q + 1 < |s| && s[q + 1] == '>' {
        return '+', q + 2;
      }
      return '>', q + 1;
    }
    if IsSymbol(s[q]) {
      return s[q], q + 1;
    }
    kind := 'a';
    e := WordEnd(s, q);
  }

  /** The next token, where it lies, and where the one after it begins. */
  method GetTok(s: string, i: nat) returns (kind: char, t: Tok, j: nat)
    requires i <= |s|
    ensures i <= j <= |s| && kind == GetToken(s[i..]).kind && s[j..] == GetToken(s[i..]).rest
    ensures kind == 'a' ==> IsTok(s, t) && Text(s, t) == GetToken(s[i..]).word
  {
    hide SkipSpace;
    hide Lex;
    hide IsTok;
    var q := SkipTo(s, i);
    var e;
    kind, e := LexAt(s, q);
    t := Tok(q, e);
    assert s[q..][..e - q] == s[q..e] && s[q..][e - q..] == s[e..];
    j := SkipTo(s, e);
  }

  /** Whether one of these symbols is next; the cursor moves to it. */
  method PeekAt(s: string, i: nat, toks: string) returns (yes: bool, j: nat)
    requires i <= |s|
    ensures yes == Peek(s[i..], toks) && i <= j <= |s| && s[j..] == SkipSpace(s[i..])
  {
    j := SkipTo(s, i);
    yes := j < |s| && s[j] in toks;
  }

  // ------------------------------------------------------------------ the parser

  /** A parsed command and the cursor after it; Fail is the shell's panic. */
  datatype Parsed = Fail | Parsed(cmd: Cmd<Tok>, pos: nat)

  /** The method's answer is the grammar's. */
  predicate Agree(s: string, i: nat, p: Parsed, r: Result<Cmd<string>>) {
    if r.Err? then p.Fail?
    else p.Parsed? && i <= p.pos <= |s| && ToksOk(s, p.cmd) && Strings(s, p.cmd) == r.value && s[p.pos..] == r.rest
  }

  /** Redirections found so far, and what the rest of the text gives. */
  function Then(ds: seq<Redirect<string>>, r: Result<seq<Redirect<string>>>): (q: Result<seq<Redirect<string>>>) {
    if r.Err? then Err else Ok(ds + r.value, r.rest)
  }

  lemma {:induction false} RedirStep(t: string, ds: seq<Redirect<string>>)
    ensures var k := GetToken(t); var f := GetToken(k.rest);
      && (!Peek(t, "<>") ==> Then(ds, ParseRedirs(t)) == Ok(ds, SkipSpace(t)))
      && (Peek(t, "<>") && f.kind != 'a' ==> Then(ds, ParseRedirs(t)) == Err)
      && (Peek(t, "<>") && f.kind == 'a' ==>
            Then(ds, ParseRedirs(t)) == Then(ds + [Redirect(f.word, k.kind != '<')], ParseRedirs(f.rest)))
  {
    hide GetToken;
    hide Peek;
    var k := GetToken(t);
    var f := GetToken(k.rest);
    assert ds + [] == ds;
    var more := ParseRedirs(f.rest);
    if Peek(t, "<>") && f.kind == 'a' && more.Ok? {
      var d := [Redirect(f.word, k.kind != '<')];
      assert ds + (d + more.value) == (ds + d) + more.value;
    }
  }

  lemma ThenNothing(r: Result<seq<Redirect<string>>>)
    ensures Then([], r) == r
  {
    if r.Ok? {
      assert [] + r.value == r.value;
    }
  }

  lemma FileTextsOne(s: string, rs: seq<Redirect<Tok>>, r: Redirect<Tok>)
    requires FilesOk(s, rs) && IsTok(s, r.file)
    ensures FilesOk(s, rs + [r]) && FileTexts(s, rs + [r]) == FileTexts(s, rs) + [Redirect(Text(s, r.file), r.out)]
  {
  }

  /** parseredirs: the redirections at the cursor. */
  method Parseredirs(s: string, i: nat) returns (ok: bool, rs: seq<Redirect<Tok>>, j: nat)
    requires i <= |s|
    ensures i <= j <= |s| && FilesOk(s, rs)
    ensures ParseRedirs(s[i..]) == if ok then Ok(FileTexts(s, rs), s[j..]) else Err
  {
    hide GetToken;
    hide SkipSpace;
    hide Peek;
    hide ParseRedirs;
    hide IsTok;
    rs, j := [], i;
    assert FileTexts(s, rs) == [];
    ThenNothing(ParseRedirs(s[i..]));
    while true
      invariant i <= j <= |s| && FilesOk(s, rs)
      invariant Then(FileTexts(s, rs), ParseRedirs(s[j..])) == ParseRedirs(s[i..])
      decreases |s| - j
    {
      RedirStep(s[j..], FileTexts(s, rs));
      Skips(s[j..]);
      var yes, p := PeekAt(s, j, "<>");
      if !yes {
        return true, rs, p;
      }
      var kind, _, q := GetTok(s, p);
      var word, f, e := GetTok(s, q);
      if word != 'a' {
        return false, rs, e;
      }
      FileTextsOne(s, rs, Redirect(f, kind != '<'));
      rs := rs + [Redirect(f, kind != '<')];
      j := e;
    }
  }

  /** Words and redirections found so far, and what the rest of the text gives. */
  function ThenArgs(ws: seq<string>, ds: seq<Redirect<string>>, r: Result<(seq<string>, seq<Redirect<string>>)>)
    : (q: Result<(seq<string>, seq<Redirect<string>>)>)
  {
    if r.Err? then Err else Ok((ws + r.value.0, ds + r.value.1), r.rest)
  }

  lemma ArgStep(n: nat, t: string, ws: seq<string>, ds: seq<Redirect<string>>)
    ensures var k := GetToken(t); var d := ParseRedirs(k.rest); var r := ThenArgs(ws, ds, ParseArgs(n, t));
      if Peek(t, "|)&;") || k.kind == '\0' then r == Ok((ws, ds), SkipSpace(t))
      else if k.kind != 'a' || n + 1 >= MAXARGS || d.Err? then r == Err
      else r == ThenArgs(ws + [k.word], ds + d.value, ParseArgs(n + 1, d.rest))
  {
    hide GetToken;
    hide Peek;
    hide SkipSpace;
    hide ParseRedirs;
    assert ws + [] == ws && ds + [] == ds;
    var k := GetToken(t);
    var d := ParseRedirs(k.rest);
    if d.Ok? {
      var more := ParseArgs(n + 1, d.rest);
      if more.Ok? {
        assert ws + ([k.word] + more.value.0) == (ws + [k.word]) + more.value.0;
        assert ds + (d.value + more.value.1) == (ds + d.value) + more.value.1;
      }
    }
  }

  predicate ArgsOk(s: string, ts: seq<Tok>) {
    forall j :: 0 <= j < |ts| ==> IsTok(s, ts[j])
  }

  lemma TextsOne(s: string, ts: seq<Tok>, t: Tok, rs: seq<Redirect<Tok>>, qs: seq<Redirect<Tok>>)
    requires ArgsOk(s, ts) && IsTok(s, t) && FilesOk(s, rs) && FilesOk(s, qs)
    ensures ArgsOk(s, ts + [t]) && Texts(s, ts + [t]) == Texts(s, ts) + [Text(s, t)]
    ensures FilesOk(s, rs + qs) && FileTexts(s, rs + qs) == FileTexts(s, rs) + FileTexts(s, qs)
  {
  }

  lemma ThenNoArgs(r: Result<(seq<string>, seq<Redirect<string>>)>, ds: seq<Redirect<string>>)
    ensures ThenArgs([], ds, r) == if r.Err? then Err else Ok((r.value.0, ds + r.value.1), r.rest)
  {
    if r.Ok? {
      assert [] + r.value.0 == r.value.0;
    }
  }

  /** The loop of parseexec: words and redirections, from the cursor on, after redirections rs0. */
  method Parseargs(s: string, i: nat, rs0: seq<Redirect<Tok>>)
    returns (ok: bool, args: seq<Tok>, rs: seq<Redirect<Tok>>, j: nat)
    requires i <= |s| && FilesOk(s, rs0)
    ensures i <= j <= |s| && ArgsOk(s, args) && FilesOk(s, rs)
    ensures ThenArgs([], FileTexts(s, rs0), ParseArgs(0, s[i..])) ==
      if ok then Ok((Texts(s, args), FileTexts(s, rs)), s[j..]) else Err
  {
    hide GetToken;
    hide SkipSpace;
    hide Peek;
    hide ParseRedirs;
    hide ParseArgs;
    hide ThenArgs;
    hide IsTok;
    args, rs, j := [], rs0, i;
    assert Texts(s, args) == [];
    while true
      invariant i <= j <= |s| && ArgsOk(s, args) && FilesOk(s, rs)
      invariant ThenArgs(Texts(s, args), FileTexts(s, rs), ParseArgs(|args|, s[j..])) ==
        ThenArgs([], FileTexts(s, rs0), ParseArgs(0, s[i..]))
      decreases |s| - j
    {
      ArgStep(|args|, s[j..], Texts(s, args), FileTexts(s, rs));
      Skips(s[j..]);
      var stop, p := PeekAt(s, j, "|)&;");
      if stop {
        return true, args, rs, p;
      }
      var kind, t, e := GetTok(s, p);
      if kind == '\0' {
        AtEnd(s[j..]);
        return true, args, rs, e;
      }
      if kind != 'a' || |args| + 1 >= MAXARGS {
        return false, args, rs, e;
      }
      var more, qs, f := Parseredirs(s, e);
      if !more {
        return false, args, rs, f;
      }
      TextsOne(s, args, t, rs, qs);
      args, rs, j := args + [t], rs + qs, f;
    }
  }

  lemma {:induction false} AtEnd(t: string)
    requires GetToken(t).kind == '\0'
    ensures GetToken(t).rest == SkipSpace(t)
  {
  }

  // ------------------------------------------------------------------ lines, pipes, blocks

  lemma {:induction false} ExecStep(t: string)
    ensures ParseExec(t) ==
      if Peek(t, "(") then
        var c := ParseLine(GetToken(t).rest);
        if c.Err? || !Peek(c.rest, ")") then Err
        else
          var d := ParseRedirs(GetToken(c.rest).rest);
          if d.Err? then Err else Ok(Wrap(c.value, d.value), d.rest)
      else
        var d := ParseRedirs(t);
        if d.Err? then Err
        else
          var r := ThenArgs([], d.value, ParseArgs(0, d.rest));
          if r.Err? then Err else Ok(Wrap(Exec(r.value.0), r.value.1), r.rest)
  {
    hide GetToken;
    hide Peek;
    hide ParseRedirs;
    hide ParseArgs;
    hide ParseLine;
    hide Wrap;
    var d := ParseRedirs(t);
    if d.Ok? {
      ThenNoArgs(ParseArgs(0, d.rest), d.value);
    }
  }

  method Parseexec(s: string, i: nat) returns (p: Parsed)
    requires i <= |s|
    ensures Agree(s, i, p, ParseExec(s[i..]))
    decreases |s| - i, 1
  {
    hide GetToken;
    hide Peek;
    hide SkipSpace;
    hide ParseRedirs;
    hide ParseArgs;
    hide ParseExec;
    hide ParseLine;
    hide ThenArgs;
    hide Wrap;
    hide IsTok;
    Skips(s[i..]);
    ExecSkips(s[i..]);
    var block, j := PeekAt(s, i, "(");
    if block {
      p := Parseblock(s, j);
      return;
    }
    ExecStep(s[j..]);
    var ok, rs0, k := Parseredirs(s, j);
    if !ok {
      return Fail;
    }
    var args, rs, e;
    ok, args, rs, e := Parseargs(s, k, rs0);
    if !ok {
      return Fail;
    }
    WrapStrings(s, Exec(args), rs);
    p := Parsed(Wrap(Exec(args), rs), e);
  }

  method Parseblock(s: string, i: nat) returns (p: Parsed)
    requires i <= |s| && Peek(s[i..], "(")
    ensures Agree(s, i, p, ParseExec(s[i..]))
    decreases |s| - i, 0
  {
    hide GetToken;
    hide Peek;
    hide SkipSpace;
    hide ParseRedirs;
    hide ParseArgs;
    hide ParseExec;
    hide ParseLine;
    hide ThenArgs;
    hide Wrap;
    hide IsTok;
    hide ToksOk;
    hide Strings;
    ExecStep(s[i..]);
    PeekIsToken(s[i..], "(");
    var kind, _, j := GetTok(s, i);
    p := Parseline(s, j);
    if p.Fail? {
      return;
    }
    Skips(s[p.pos..]);
    var close, k := PeekAt(s, p.pos, ")");
    if !close {
      return Fail;
    }
    var _, _, e := GetTok(s, k);
    var ok, rs, f := Parseredirs(s, e);
    if !ok {
      return Fail;
    }
    WrapStrings(s, p.cmd, rs);
    p := Parsed(Wrap(p.cmd, rs), f);
  }

  lemma PeekIsToken(t: string, toks: string)
    requires Peek(t, toks)
    ensures GetToken(t).kind != '\0' && |GetToken(t).rest| < |t|
  {
  }

  method Parsepipe(s: string, i: nat) returns (p: Parsed)
    requires i <= |s|
    ensures Agree(s, i, p, ParsePipe(s[i..]))
    decreases |s| - i, 2
  {
    hide GetToken;
    hide Peek;
    hide SkipSpace;
    hide ParseExec;
    hide IsTok;
    p := Parseexec(s, i);
    if p.Fail? {
      return;
    }
    var t := s[p.pos..];
    Skips(t);
    var more, j := PeekAt(s, p.pos, "|");
    if !more {
      SkippedAlready(ParseExec(s[i..]));
      return;
    }
    PeekIsToken(t, "|");
    var _, _, k := GetTok(s, j);
    var q := Parsepipe(s, k);
    p := if q.Fail? then Fail else Parsed(Pipe(p.cmd, q.cmd), q.pos);
  }

  /** A parser leaves the cursor past any space. */
  lemma SkippedAlready<T>(r: Result<T>)
    requires r.Ok? && (r.rest == [] || !IsSpace(r.rest[0]))
    ensures SkipSpace(r.rest) == r.rest
  {
  }

  lemma {:induction false} BackStep<T>(c: Cmd<T>, t: string)
    ensures ParseBacks(c, t) == if Peek(t, "&") then ParseBacks(Back(c), GetToken(t).rest) else (c, SkipSpace(t))
  {
  }

  method Parseline(s: string, i: nat) returns (p: Parsed)
    requires i <= |s|
    ensures Agree(s, i, p, ParseLine(s[i..]))
    decreases |s| - i, 3
  {
    hide GetToken;
    hide Peek;
    hide SkipSpace;
    hide ParsePipe;
    hide ParseBacks;
    hide IsTok;
    p := Parsepipe(s, i);
    if p.Fail? {
      return;
    }
    var c, j := p.cmd, p.pos;
    ghost var b := ParseBacks(Strings(s, c), s[j..]);
    var more := true;
    while more
      invariant i <= j <= |s| && ToksOk(s, c) && ParseBacks(Strings(s, c), s[j..]) == b
      invariant !more ==> !Peek(s[j..], "&") && SkipSpace(s[j..]) == s[j..]
      decreases more, |s| - j
    {
      BackStep(Strings(s, c), s[j..]);
      Skips(s[j..]);
      var k;
      more, k := PeekAt(s, j, "&");
      if more {
        PeekIsToken(s[j..], "&");
        var _, _, e := GetTok(s, k);
        c, j := Back(c), e;
      } else {
        j := k;
        BackStep(Strings(s, c), s[j..]);
      }
    }
    BackStep(Strings(s, c), s[j..]);
    var semi, k := PeekAt(s, j, ";");
    if !semi {
      return Parsed(c, k);
    }
    PeekIsToken(s[j..], ";");
    Skips(s[j..]);
    var _, _, e := GetTok(s, k);
    var q := Parseline(s, e);
    p := if q.Fail? then Fail else Parsed(List(c, q.cmd), q.pos);
  }

  // ------------------------------------------------------------------ nulterminate

  function Toks(c: Cmd<Tok>): (r: set<Tok>) {
    match c
    case Exec(args) => set t | t in args
    case Redir(d, f, _) => Toks(d) + {f}
    case Pipe(l, r) => Toks(l) + Toks(r)
    case List(l, r) => Toks(l) + Toks(r)
    case Back(d) => Toks(d)
  }

  /** A buffer with zeroes at the ends of these words. */
  function Ended(b: seq<char>, ts: set<Tok>): (r: seq<char>)
    ensures |r| == |b|
  {
    seq(|b|, k requires 0 <= k < |b| => if exists t :: t in ts && t.end == k then '\0' else b[k])
  }

  lemma EndedTwice(b: seq<char>, x: set<Tok>, y: set<Tok>)
    ensures Ended(Ended(b, x), y) == Ended(b, x + y)
  {
    var u, w := Ended(Ended(b, x), y), Ended(b, x + y);
    forall k | 0 <= k < |b| ensures u[k] == w[k] {
      if exists t :: t in x && t.end == k {
        var t :| t in x && t.end == k;
        assert t in x + y;
      }
      if exists t :: t in y && t.end == k {
        var t :| t in y && t.end == k;
        assert t in x + y;
      }
    }
  }

  lemma EndedOne(b: seq<char>, t: Tok)
    requires t.end < |b|
    ensures Ended(b, {t}) == b[t.end := '\0']
  {
    var u := Ended(b, {t});
    assert u[t.end] == '\0' by {
      assert t in {t} && t.end == t.end;
    }
  }

  lemma EndedNone(b: seq<char>)
    ensures Ended(b, {}) == b
  {
  }

  predicate EndsIn(c: Cmd<Tok>, n: nat) {
    forall t :: t in Toks(c) ==> t.end < n
  }

  method Nulterminate(buf: array<char>, c: Cmd<Tok>)
    requires EndsIn(c, buf.Length)
    modifies buf
    ensures buf[..] == Ended(old(buf[..]), Toks(c))
    decreases c
  {
    match c {
      case Exec(args) =>
        EndedNone(buf[..]);
        var i := 0;
        ghost var seen: set<Tok> := {};
        while i < |args|
          invariant i <= |args| && seen == (set t | t in args[..i])
          invariant buf[..] == Ended(old(buf[..]), seen)
        {
          assert args[i] in Toks(c);
          EndedOne(buf[..], args[i]);
          EndedTwice(old(buf[..]), seen, {args[i]});
          buf[args[i].end] := '\0';
          assert args[..i + 1] == args[..i] + [args[i]];
          seen := seen + {args[i]};
          i := i + 1;
        }
        assert args[..i] == args;
      case Redir(d, f, _) =>
        Nulterminate(buf, d);
        EndedOne(buf[..], f);
        EndedTwice(old(buf[..]), Toks(d), {f});
        buf[f.end] := '\0';
      case Pipe(l, r) =>
        Nulterminate(buf, l);
        Nulterminate(buf, r);
        EndedTwice(old(buf[..]), Toks(l), Toks(r));
      case List(l, r) =>
        Nulterminate(buf, l);
        Nulterminate(buf, r);
        EndedTwice(old(buf[..]), Toks(l), Toks(r));
      case Back(d) =>
        Nulterminate(buf, d);
    }
  }

  /** The string that starts at i: everything up to the next zero. */
  function CString(b: seq<char>, i: nat): (r: string)
    requires i <= |b|
    decreases |b| - i
  {
    if i == |b| || b[i] == '\0' then [] else [b[i]] + CString(b, i + 1)
  }

  lemma {:induction false} CStringIs(b: seq<char>, i: nat, e: nat)
    requires i <= e < |b| && b[e] == '\0' && forall k :: i <= k < e ==> b[k] != '\0'
    ensures CString(b, i) == b[i..e]
    decreases e - i
  {
    if i < e {
      CStringIs(b, i + 1, e);
    }
  }

  lemma {:induction false} ToksAreToks(s: string, c: Cmd<Tok>, t: Tok)
    requires ToksOk(s, c) && t in Toks(c)
    ensures IsTok(s, t)
  {
    match c {
      case Exec(args) =>
      case Redir(d, f, _) => if t != f { ToksAreToks(s, d, t); }
      case Pipe(l, r) => if t in Toks(l) { ToksAreToks(s, l, t); } else { ToksAreToks(s, r, t); }
      case List(l, r) => if t in Toks(l) { ToksAreToks(s, l, t); } else { ToksAreToks(s, r, t); }
      case Back(d) => ToksAreToks(s, d, t);
    }
  }

  /** After the zeroes are written, every word of the command is exactly its token: no zero falls inside another word.
      */
  lemma {:induction false} WordsSurvive(s: string, c: Cmd<Tok>, t: Tok)
    requires '\0' !in s && ToksOk(s, c) && t in Toks(c)
    ensures IsTok(s, t) && CString(Ended(s + ['\0'], Toks(c)), t.start) == Text(s, t)
  {
    ToksAreToks(s, c, t);
    var b := s + ['\0'];
    var u := Ended(b, Toks(c));
    assert u[t.end] == '\0';
    forall k | t.start <= k < t.end ensures u[k] == s[k] && u[k] != '\0' {
      forall x | x in Toks(c) ensures x.end != k {
        ToksAreToks(s, c, x);
      }
    }
    CStringIs(u, t.start, t.end);
    assert u[t.start..t.end] == s[t.start..t.end];
  }

  /** parsecmd, on a buffer that ends with a zero: the command the grammar gives, its words ended in place. */
  method Parsecmd(buf: array<char>, ghost s: string) returns (p: Parsed)
    requires '\0' !in s && buf[..] == s + ['\0']
    modifies buf
    ensures ParseCmd(s).Err? ==> p.Fail? && buf[..] == old(buf[..])
    ensures ParseCmd(s).Ok? ==> p.Parsed? && ToksOk(s, p.cmd) && Strings(s, p.cmd) == ParseCmd(s).value
    ensures p.Parsed? ==> forall t :: t in Toks(p.cmd) ==> IsTok(s, t) && CString(buf[..], t.start) == Text(s, t)
  {
    hide ParseLine;
    hide CString;
    hide Ended;
    var text := buf[..buf.Length - 1];
    assert text == s;
    p := Parseline(text, 0);
    assert s[0..] == s;
    if p.Fail? {
      return;
    }
    var _, end := PeekAt(text, p.pos, "");
    if end != |text| {
      return Fail;
    }
    forall t | t in Toks(p.cmd)
      ensures t.end < buf.Length && IsTok(s, t) && CString(Ended(s + ['\0'], Toks(p.cmd)), t.start) == Text(s, t)
    {
      WordsSurvive(s, p.cmd, t);
    }
    Nulterminate(buf, p.cmd);
  }
}
