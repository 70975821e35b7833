/** The regular-expression matcher of grep, against the language a pattern denotes. */
module Grep {
  /** A pattern: single characters, starred characters, and a final `$`. */
  datatype Pattern = Nil | One(c: char, rest: Pattern) | Star(c: char, rest: Pattern) | End

  /** A star after a character counts before anything else; `$` counts only as the last character. */
  function Parse(re: string): (p: Pattern)
    decreases |re|
  {
    if re == [] then Nil
    else if |re| > 1 && re[1] == '*' then Star(re[0], Parse(re[2..]))
    else if re == "$" then End
    else One(re[0], Parse(re[1..]))
  }

  /** `.` stands for any character. */
  predicate Fits(c: char, x: char) {
    c == '.' || c == x
  }

  predicate AllFit(c: char, u: string) {
    forall j :: 0 <= j < |u| ==> Fits(c, u[j])
  }

  /** The strings a pattern denotes; `last` says whether the string ends where the text ends. */
  ghost predicate Denotes(p: Pattern, u: string, last: bool) {
    match p
    case Nil => u == []
    case One(c, q) => u != [] && Fits(c, u[0]) && Denotes(q, u[1..], last)
    case Star(c, q) => exists n :: 0 <= n <= |u| && AllFit(c, u[..n]) && Denotes(q, u[n..], last)
    case End => u == [] && last
  }

  /** Some string at the start of the text is in the language. */
  ghost predicate Begins(p: Pattern, text: string) {
    exists k :: 0 <= k <= |text| && Denotes(p, text[..k], k == |text|)
  }

  lemma BeginsNil(text: string)
    ensures Begins(Nil, text)
  {
    assert Denotes(Nil, text[..0], 0 == |text|);
  }

  lemma BeginsEnd(text: string)
    ensures Begins(End, text) <==> text == []
  {
    if text == [] {
      assert Denotes(End, text[..0], 0 == |text|);
    }
  }

  lemma BeginsOne(c: char, q: Pattern, text: string)
    ensures Begins(One(c, q), text) <==> text != [] && Fits(c, text[0]) && Begins(q, text[1..])
  {
    if Begins(One(c, q), text) {
      var k :| 0 <= k <= |text| && Denotes(One(c, q), text[..k], k == |text|);
      assert text[..k][1..] == text[1..][..k - 1];
    }
    if text != [] && Fits(c, text[0]) && Begins(q, text[1..]) {
      var k :| 0 <= k <= |text| - 1 && Denotes(q, text[1..][..k], k == |text| - 1);
      assert text[..k + 1][1..] == text[1..][..k];
      assert Denotes(One(c, q), text[..k + 1], k + 1 == |text|);
    }
  }

  /** A starred character takes some fitting characters, and the rest of the pattern begins after them. */
  lemma BeginsStar(c: char, q: Pattern, text: string)
    ensures Begins(Star(c, q), text) <==> exists n :: 0 <= n <= |text| && AllFit(c, text[..n]) && Begins(q, text[n..])
  {
    if Begins(Star(c, q), text) {
      var k :| 0 <= k <= |text| && Denotes(Star(c, q), text[..k], k == |text|);
      var n :| 0 <= n <= k && AllFit(c, text[..k][..n]) && Denotes(q, text[..k][n..], k == |text|);
      assert text[..k][..n] == text[..n];
      assert text[..k][n..] == text[n..][..k - n];
      assert Begins(q, text[n..]);
    }
    if exists n :: 0 <= n <= |text| && AllFit(c, text[..n]) && Begins(q, text[n..]) {
      var n :| 0 <= n <= |text| && AllFit(c, text[..n]) && Begins(q, text[n..]);
      var k :| 0 <= k <= |text| - n && Denotes(q, text[n..][..k], k == |text| - n);
      assert text[..n + k][..n] == text[..n];
      assert text[..n + k][n..] == text[n..][..k];
      assert Denotes(Star(c, q), text[..n + k], n + k == |text|);
    }
  }

  // ------------------------------------------------------------------ what patterns are written like

  function Print(p: Pattern): (re: string) {
    match p
    case Nil => []
    case One(c, q) => [c] + Print(q)
    case Star(c, q) => [c, '*'] + Print(q)
    case End => "$"
  }

  /** No single character stands before a star, and none is a final `$`. */
  predicate Normal(p: Pattern) {
    match p
    case One(c, q) => Normal(q) && !(c == '$' && q == Nil) && (q.One? || q.Star? ==> q.c != '*')
    case Star(_, q) => Normal(q)
    case _ => true
  }

  /** Every string is one pattern, written out. */
  lemma {:induction false} PrintParse(re: string)
    ensures Normal(Parse(re)) && Print(Parse(re)) == re
    decreases |re|
  {
    if re != [] {
      if |re| > 1 && re[1] == '*' {
        PrintParse(re[2..]);
      } else if re != "$" {
        PrintParse(re[1..]);
        var q := Parse(re[1..]);
        if q.One? || q.Star? {
          assert re[1] == Print(q)[0];
        }
      }
    }
  }

  /** And every pattern in normal form is the pattern of what it is written like. */
  lemma {:induction false} ParsePrint(p: Pattern)
    requires Normal(p)
    ensures Parse(Print(p)) == p
  {
    match p {
      case Nil =>
      case End =>
      case One(c, q) =>
        ParsePrint(q);
        assert Print(p)[1..] == Print(q);
        assert q == End ==> Print(p)[1] == '$';
      case Star(c, q) =>
        ParsePrint(q);
        assert Print(p)[2..] == Print(q);
    }
  }

  // ------------------------------------------------------------------ what some patterns find

  /** No character of the string is special. */
  predicate Plain(re: string) {
    forall j :: 0 <= j < |re| ==> re[j] != '.' && re[j] != '*' && re[j] != '$' && re[j] != '^'
  }

  lemma {:induction false} PlainBegins(re: string, text: string)
    requires Plain(re)
    ensures Begins(Parse(re), text) <==> re <= text
    ensures Begins(Parse(re + "$"), text) <==> text == re
    decreases |re|
  {
    if re == [] {
      BeginsNil(text);
      BeginsEnd(text);
      assert re + "$" == "$";
    } else {
      var q := re[1..];
      BeginsOne(re[0], Parse(q), text);
      BeginsOne(re[0], Parse(q + "$"), text);
      assert (re + "$")[1..] == q + "$" && |re + "$"| > 1;
      assert (re + "$")[1] != '*';
      if text != [] {
        PlainBegins(q, text[1..]);
        assert re == [re[0]] + q && text == [text[0]] + text[1..];
      }
    }
  }

  /** A pattern without special characters finds itself, anywhere in the text; between `^` and `$`, only itself. */
  lemma PlainFinds(re: string, text: string)
    requires Plain(re)
    ensures Finds(re, text) <==> exists i :: 0 <= i <= |text| && re <= text[i..]
    ensures Finds("^" + re, text) <==> re <= text
    ensures Finds("^" + re + "$", text) <==> text == re
  {
    forall i | 0 <= i <= |text| ensures Begins(Parse(re), text[i..]) <==> re <= text[i..] {
      PlainBegins(re, text[i..]);
    }
    PlainBegins(re, text);
    assert ("^" + re)[1..] == re && ("^" + re + "$")[1..] == re + "$";
  }

  function Dots(n: nat): (re: string) {
    if n == 0 then [] else "." + Dots(n - 1)
  }

  /** Each `.` takes one character, whichever it is. */
  lemma {:induction false} DotsFind(n: nat, text: string)
    ensures Begins(Parse(Dots(n)), text) <==> n <= |text|
    ensures Finds("^" + Dots(n), text) <==> n <= |text|
  {
    if n == 0 {
      BeginsNil(text);
    } else {
      assert Dots(n)[1..] == Dots(n - 1) && (n > 1 ==> Dots(n)[1] == '.');
      BeginsOne('.', Parse(Dots(n - 1)), text);
      if text != [] {
        DotsFind(n - 1, text[1..]);
      }
    }
    assert ("^" + Dots(n))[1..] == Dots(n);
  }

  /** A starred character takes any number of itself, none included; a starred `.` takes anything. */
  lemma StarFinds(c: char, text: string)
    ensures Finds("^" + [c, '*'] + "$", text) <==> c == '.' || forall j :: 0 <= j < |text| ==> text[j] == c
  {
    var re := [c, '*'] + "$";
    assert ("^" + [c, '*'] + "$")[1..] == re && re[2..] == "$";
    BeginsStar(c, End, text);
    forall n | 0 <= n <= |text| ensures Begins(End, text[n..]) <==> n == |text| {
      BeginsEnd(text[n..]);
    }
    assert Parse(re) == Star(c, End);
    assert text[..|text|] == text && AllFit(c, text[..|text|]) == AllFit(c, text);
    assert Begins(Star(c, End), text) <==> AllFit(c, text);
    if c != '.' && AllFit(c, text) {
      forall j | 0 <= j < |text| ensures text[j] == c {
        assert Fits(c, text[j]);
      }
    }
  }

  // ------------------------------------------------------------------ the matcher

  method MatchHere(re: string, text: string) returns (r: bool)
    ensures r <==> Begins(Parse(re), text)
    decreases |re|, 0
  {
    if re == [] {
      BeginsNil(text);
      return true;
    }
    if |re| > 1 && re[1] == '*' {
      r := MatchStar(re[0], re[2..], text);
      return;
    }
    if re[0] == '$' && |re| == 1 {
      BeginsEnd(text);
      return text == [];
    }
    BeginsOne(re[0], Parse(re[1..]), text);
    if text != [] && (re[0] == '.' || re[0] == text[0]) {
      r := MatchHere(re[1..], text[1..]);
      return;
    }
    return false;
  }

  method MatchStar(c: char, re: string, text: string) returns (r: bool)
    ensures r <==> Begins(Star(c, Parse(re)), text)
    decreases |re|, 1
  {
    BeginsStar(c, Parse(re), text);
    var i, more := 0, true;
    while more
      invariant i <= |text|
      invariant more ==> AllFit(c, text[..i]) && forall n :: 0 <= n < i ==> !Begins(Parse(re), text[n..])
      invariant !more ==> forall n :: 0 <= n <= |text| && AllFit(c, text[..n]) ==> !Begins(Parse(re), text[n..])
      decreases more, |text| - i
    {
      var here := MatchHere(re, text[i..]);
      if here {
        return true;
      }
      if i < |text| {
        var x := text[i];
        i := i + 1;
        more := x == c || c == '.';
        if !more {
          StarStops(c, text, i);
        }
      } else {
        more := false;
      }
    }
    return false;
  }

  /** Past a character that does not fit, nothing fits. */
  lemma StarStops(c: char, text: string, i: nat)
    requires 0 < i <= |text| && !Fits(c, text[i - 1])
    ensures forall n :: i <= n <= |text| ==> !AllFit(c, text[..n])
  {
    forall n | i <= n <= |text| ensures !AllFit(c, text[..n]) {
      assert text[..n][i - 1] == text[i - 1];
    }
  }

  /** What a pattern finds: `^` ties it to the start of the text, otherwise it may begin anywhere, also at the end. */
  ghost predicate Finds(re: string, text: string) {
    if re != [] && re[0] == '^' then Begins(Parse(re[1..]), text)
    else exists i :: 0 <= i <= |text| && Begins(Parse(re), text[i..])
  }

  method Match(re: string, text: string) returns (r: bool)
    ensures r <==> Finds(re, text)
  {
    if re != [] && re[0] == '^' {
      r := MatchHere(re[1..], text);
      return;
    }
    var i := 0;
    while true
      invariant i <= |text| && forall n :: 0 <= n < i ==> !Begins(Parse(re), text[n..])
      decreases |text| - i
    {
      r := MatchHere(re, text[i..]);
      if r {
        return;
      }
      if i == |text| {
        return false;
      }
      i := i + 1;
    }
  }
}
