/** Path names: splitting off components, and walking the directory tree. */
module Paths {
  import opened Blocks
  import opened Dinodes
  import opened Files
  import opened Options
  import opened Names
  import opened Directory

  const SLASH: byte := 47
  const ROOTINO: nat := 1

  // ------------------------------------------------------------------ components

  /** The pieces between slashes, empty ones included. */
  function Split(p: seq<byte>): (r: seq<seq<byte>>)
    ensures |r| > 0
  {
    if p == [] then [[]]
    else
      var r := Split(p[1..]);
      if p[0] == SLASH then [[]] + r else [[p[0]] + r[0]] + r[1..]
  }

  function NonEmpty(s: seq<seq<byte>>): (r: seq<seq<byte>>) {
    if s == [] then [] else if s[0] == [] then NonEmpty(s[1..]) else [s[0]] + NonEmpty(s[1..])
  }

  /** The non-empty pieces between slashes. */
  function Components(p: seq<byte>): (r: seq<seq<byte>>) {
    NonEmpty(Split(p))
  }

  lemma SlashFirst(p: seq<byte>)
    requires p != [] && p[0] == SLASH
    ensures Components(p) == Components(p[1..])
  {
    var r := Split(p[1..]);
    assert ([[]] + r)[1..] == r;
  }

  predicate NoSlash(e: seq<byte>) {
    forall j :: 0 <= j < |e| ==> e[j] != SLASH
  }

  /** An element, followed by the end or a slash. */
  lemma {:induction false} ElementFirst(e: seq<byte>, p: seq<byte>)
    requires NoSlash(e) && (p == [] || p[0] == SLASH)
    ensures Split(e + p) == [e] + Split(p)[1..]
  {
    if e == [] {
      assert e + p == p;
    } else {
      ElementFirst(e[1..], p);
      assert (e + p)[1..] == e[1..] + p;
      assert [e[0]] + e[1..] == e;
    }
  }

  lemma ComponentsOf(e: seq<byte>, p: seq<byte>)
    requires NoSlash(e) && e != [] && (p == [] || p[0] == SLASH)
    ensures Components(e + p) == [e] + Components(p)
  {
    ElementFirst(e, p);
    var s := Split(p);
    assert ([e] + s[1..])[1..] == s[1..];
    assert s[0] == [] ==> NonEmpty(s) == NonEmpty(s[1..]);
  }

  function Joined(es: seq<seq<byte>>): (p: seq<byte>) {
    if es == [] then [] else [47] + es[0] + Joined(es[1..])
  }

  predicate Element(e: seq<byte>) {
    e != [] && 47 !in e
  }

  /** Elements put behind slashes are the components again. */
  lemma {:induction false} JoinedComponents(es: seq<seq<byte>>)
    requires forall j :: 0 <= j < |es| ==> Element(es[j])
    ensures Components(Joined(es)) == es
  {
    if es != [] {
      var p := Joined(es);
      var more := Joined(es[1..]);
      JoinedComponents(es[1..]);
      assert Element(es[0]);
      assert p[1..] == es[0] + more;
      SlashFirst(p);
      ComponentsOf(es[0], more);
    }
  }

  function Flat(es: seq<seq<byte>>): (p: seq<byte>) {
    if es == [] then [] else es[0] + Flat(es[1..])
  }

  function Unslashed(p: seq<byte>): (r: seq<byte>) {
    if p == [] then [] else if p[0] == 47 then Unslashed(p[1..]) else [p[0]] + Unslashed(p[1..])
  }

  /** The components of a path are elements, and hold all its bytes but the slashes, in order. */
  lemma {:induction false} ComponentsAreAll(p: seq<byte>)
    ensures Flat(Components(p)) == Unslashed(p)
    ensures forall j :: 0 <= j < |Components(p)| ==> Element(Components(p)[j])
    decreases |p|
  {
    SplitIsAll(p);
    PiecesAreAll(Split(p));
  }

  lemma {:induction false} SplitIsAll(p: seq<byte>)
    ensures Flat(Split(p)) == Unslashed(p) && forall j :: 0 <= j < |Split(p)| ==> 47 !in Split(p)[j]
  {
    if p != [] {
      SplitIsAll(p[1..]);
      var r := Split(p[1..]);
      assert ([[]] + r)[1..] == r && ([[p[0]] + r[0]] + r[1..])[1..] == r[1..];
    }
  }

  lemma {:induction false} PiecesAreAll(s: seq<seq<byte>>)
    requires forall j :: 0 <= j < |s| ==> 47 !in s[j]
    ensures Flat(NonEmpty(s)) == Flat(s) && forall j :: 0 <= j < |NonEmpty(s)| ==> Element(NonEmpty(s)[j])
  {
    if s != [] {
      PiecesAreAll(s[1..]);
      assert s[0] != [] ==> NonEmpty(s)[1..] == NonEmpty(s[1..]);
    }
  }

  /** A name the length of its element, cut to 14 bytes, has the same key. */
  lemma CutKey(e: seq<byte>, name: seq<byte>)
    requires forall j :: 0 <= j < |e| ==> e[j] != 0
    requires name == if |e| >= DIRSIZ then e[..DIRSIZ] else e + [0]
    ensures Key(name) == Key(e)
  {
    KeysCompare(name, e, if |e| >= DIRSIZ then DIRSIZ else |e|);
  }

  /** Takes the first component off a path: its name, and the path after it without leading slashes. */
  method Skipelem(path: seq<byte>) returns (rest: Option<seq<byte>>, name: seq<byte>)
    requires 0 !in path
    ensures rest.None? <==> Components(path) == []
    ensures rest.Some? ==> Key(name) == Key(Components(path)[0]) && Components(rest.value) == Components(path)[1..]
    ensures rest.Some? ==> 0 !in rest.value && |rest.value| < |path|
    ensures rest.Some? ==> (rest.value == [] <==> |Components(path)| == 1)
  {
    var p := SkipSlashes(path);
    name := [];
    if p == [] {
      return None, name;
    }
    var n := 0;
    while n < |p| && p[n] != SLASH
      invariant n <= |p| && NoSlash(p[..n])
      invariant p[0] != SLASH
    {
      n := n + 1;
    }
    var e := p[..n];
    name := if n >= DIRSIZ then e[..DIRSIZ] else e + [0];
    CutKey(e, name);
    assert e + p[n..] == p;
    ComponentsOf(e, p[n..]);
    var q := SkipSlashes(p[n..]);
    if q != [] {
      FirstComponent(q);
    }
    return Some(q), name;
  }

  lemma FirstComponent(p: seq<byte>)
    requires p != [] && p[0] != SLASH
    ensures Components(p) != []
  {
  }

  method SkipSlashes(path: seq<byte>) returns (p: seq<byte>)
    requires 0 !in path
    ensures Components(p) == Components(path) && 0 !in p && |p| <= |path| && (p == [] || p[0] != SLASH)
  {
    p := path;
    while p != [] && p[0] == SLASH
      invariant Components(p) == Components(path) && 0 !in p && |p| <= |path|
    {
      SlashFirst(p);
      p := p[1..];
    }
  }

  // ------------------------------------------------------------------ the tree

  /** The directories, as maps from names to inode numbers. */
  type Tree = map<nat, map<seq<byte>, nat>>

  function Walk(d: Tree, i: nat, cs: seq<seq<byte>>): (r: Option<nat>)
    decreases |cs|
  {
    if cs == [] then Some(i)
    else if i !in d || Key(cs[0]) !in d[i] then None
    else Walk(d, d[i][Key(cs[0])], cs[1..])
  }

  /** The directory that the last component is looked up in. */
  function WalkParent(d: Tree, i: nat, cs: seq<seq<byte>>): (r: Option<nat>) {
    if cs == [] then None
    else
      var p := Walk(d, i, cs[..|cs| - 1]);
      if p.Some? && p.value in d then p else None
  }

  /** What a walk does with its first component. */
  lemma {:induction false} WalkStep(d: Tree, i: nat, cs: seq<seq<byte>>)
    requires cs != []
    ensures i !in d || Key(cs[0]) !in d[i] ==> Walk(d, i, cs) == None && (|cs| > 1 ==> WalkParent(d, i, cs) == None)
    ensures i in d && Key(cs[0]) in d[i] ==> Walk(d, i, cs) == Walk(d, d[i][Key(cs[0])], cs[1..])
    ensures |cs| > 1 && i in d && Key(cs[0]) in d[i] ==>
      WalkParent(d, i, cs) == WalkParent(d, d[i][Key(cs[0])], cs[1..])
    ensures |cs| == 1 ==> WalkParent(d, i, cs) == if i in d then Some(i) else None
    ensures i !in d ==> WalkParent(d, i, cs) == None
  {
    if |cs| > 1 {
      assert cs[..|cs| - 1][1..] == cs[1..][..|cs| - 2];
    }
  }

  /** What is left to follow, cs from i, leads where the whole path leads. */
  ghost predicate Following(d: Tree, start: nat, all: seq<seq<byte>>, i: nat, cs: seq<seq<byte>>, parent: bool) {
    && Walk(d, start, all) == Walk(d, i, cs)
    && (parent ==> WalkParent(d, start, all) == WalkParent(d, i, cs))
    && (parent && cs != [] ==> all != [] && all[|all| - 1] == cs[|cs| - 1])
  }

  /** Where a path leads. */
  function Target(d: Tree, i: nat, cs: seq<seq<byte>>, parent: bool): (r: Option<nat>) {
    if parent then WalkParent(d, i, cs) else Walk(d, i, cs)
  }

  lemma FollowStep(d: Tree, start: nat, all: seq<seq<byte>>, i: nat, cs: seq<seq<byte>>,
      parent: bool)
    requires Following(d, start, all, i, cs, parent) && cs != []
    ensures i !in d ==> Target(d, start, all, parent) == None
    ensures i in d && parent && |cs| == 1 ==>
      Target(d, start, all, parent) == Some(i) && all != [] && all[|all| - 1] == cs[0]
    ensures i in d && Key(cs[0]) !in d[i] && !(parent && |cs| == 1) ==> Target(d, start, all, parent) == None
    ensures i in d && Key(cs[0]) in d[i] && !(parent && |cs| == 1) ==>
      Following(d, start, all, d[i][Key(cs[0])], cs[1..], parent)
  {
    WalkStep(d, i, cs);
  }

  lemma FollowEnds(d: Tree, start: nat, all: seq<seq<byte>>, i: nat, parent: bool)
    requires Following(d, start, all, i, [], parent)
    ensures Target(d, start, all, parent) == if parent then None else Some(i)
  {
  }

  lemma FollowStarts(d: Tree, start: nat, all: seq<seq<byte>>, parent: bool)
    ensures Following(d, start, all, start, all, parent)
  {
  }

  ghost function TreeOf(fs: Fs): (r: Tree)
    requires fs.Valid()
    reads fs
  {
    map i: nat | i < |fs.inodes| && fs.inodes[i].kind == T_DIR :: DirMap(fs.Contents()[i])
  }

  /** Every directory is well formed, and its entries name inodes. */
  ghost predicate TreeOk(fs: Fs)
    reads fs
  {
    && fs.Valid() && ROOTINO < |fs.inodes|
    && (forall i :: 0 <= i < |fs.inodes| && fs.inodes[i].kind == T_DIR ==> IsDir(fs, i))
    && (forall i, k :: i in TreeOf(fs) && k in TreeOf(fs)[i] ==> TreeOf(fs)[i][k] < |fs.inodes|)
  }

  /** What one component comes to: the path has ended, there is no such file, the parent is found, or go on. */
  datatype Turn = End | Fail | Here | Go(next: nat, rest: seq<byte>)

  /** The inode cache as its reference counts. */
  class Icache {
    const fs: Fs
    var refs: multiset<nat>

    constructor (fs: Fs)
      ensures this.fs == fs && refs == multiset{}
    {
      this.fs := fs;
      refs := multiset{};
    }

    method Iget(i: nat)
      modifies this
      ensures refs == old(refs) + multiset{i}
    {
      refs := refs[i := refs[i] + 1];
    }

    method Iput(i: nat)
      requires i in refs
      modifies this
      ensures refs == old(refs) - multiset{i}
    {
      refs := refs[i := refs[i] - 1];
    }

    /** From one inode to the next. */
    method Move(ip: nat, next: nat)
      requires ip in refs
      modifies this
      ensures refs == old(refs) - multiset{ip} + multiset{next}
    {
      Iget(next);
      Iput(ip);
    }

    /** A name looked up in a directory. */
    method Lookup(ip: nat, name: seq<byte>) returns (next: nat)
      requires TreeOk(fs) && ip < |fs.inodes| && fs.inodes[ip].kind == T_DIR
      modifies fs
      ensures fs.V() == old(fs.V()) && fs.iblocks == old(fs.iblocks) && fs.inodes == old(fs.inodes)
      ensures TreeOk(fs) && fs.Valid() && TreeOf(fs) == old(TreeOf(fs))
      ensures ip in TreeOf(fs) && (next == 0 <==> Key(name) !in TreeOf(fs)[ip])
      ensures next != 0 ==> next == TreeOf(fs)[ip][Key(name)] && next < |fs.inodes|
    {
      hide Volume.Ok; hide OnDisk;
      hide DirMap;
      hide Unique;
      var k;
      next, k := Dirlookup(fs, ip, name);
      assert TreeOf(fs) == old(TreeOf(fs));
    }

    /** One component followed. */
    method Follow(ip: nat, p: seq<byte>, parent: bool, ghost start: nat, ghost all: seq<seq<byte>>,
        ghost base: multiset<nat>)
      returns (t: Turn, name: seq<byte>)
      requires 0 !in p && TreeOk(fs) && fs.Valid() && ip < |fs.inodes| && refs == base + multiset{ip}
      requires Following(TreeOf(fs), start, all, ip, Components(p), parent)
      modifies this, fs
      ensures fs.V() == old(fs.V()) && fs.iblocks == old(fs.iblocks) && fs.inodes == old(fs.inodes)
      ensures TreeOk(fs) && fs.Valid() && TreeOf(fs) == old(TreeOf(fs))
      ensures t.End? ==> Components(p) == [] && refs == old(refs)
      ensures t.Fail? ==> Target(TreeOf(fs), start, all, parent) == None && refs == base
      ensures t.Here? ==> Target(TreeOf(fs), start, all, parent) == Some(ip) && refs == old(refs) && parent
      ensures t.Here? ==> all != [] && Key(name) == Key(all[|all| - 1])
      ensures t.Go? ==> t.next < |fs.inodes| && refs == base + multiset{t.next}
      ensures t.Go? ==>
        Following(TreeOf(fs), start, all, t.next, Components(t.rest), parent) && |t.rest| < |p| && 0 !in t.rest
    {
      hide *;
      var rest;
      rest, name := Skipelem(p);
      if rest.None? {
        return End, name;
      }
      FollowStep(TreeOf(fs), start, all, ip, Components(p), parent);
      DirsInTree(ip);
      if fs.inodes[ip].kind != T_DIR {
        Iput(ip);
        return Fail, name;
      }
      if parent && rest.value == [] {
        return Here, name;
      }
      var next := Lookup(ip, name);
      if next == 0 {
        Iput(ip);
        return Fail, name;
      }
      Move(ip, next);
      return Go(next, rest.value), name;
    }

    /** Follows a path from the root or from cwd; with `parent`, stops one component early. The inode it returns
        has one more reference; no other count changes. */
    method Namex(path: seq<byte>, parent: bool, cwd: nat) returns (r: Option<nat>, name: seq<byte>)
      requires 0 !in path && TreeOk(fs) && cwd < |fs.inodes|
      modifies this, fs
      ensures fs.V() == old(fs.V()) && fs.iblocks == old(fs.iblocks) && TreeOk(fs)
      ensures var start := if path != [] && path[0] == SLASH then ROOTINO else cwd;
        r == Target(TreeOf(fs), start, Components(path), parent)
      ensures parent && r.Some? ==> Components(path) != [] && Key(name) == Key(Components(path)[|Components(path)| - 1])
      ensures refs == if r.Some? then old(refs) + multiset{r.value} else old(refs)
    {
      hide *;
      TreeHasRoot();
      ghost var d := TreeOf(fs);
      name := [];
      var ip: nat := if path != [] && path[0] == SLASH then ROOTINO else cwd;
      Iget(ip);
      ghost var start: nat, all := ip, Components(path);
      FollowStarts(d, start, all, parent);
      var p, more := path, true;
      while more
        invariant refs == old(refs) + multiset{ip} && ip < |fs.inodes|
        invariant fs.V() == old(fs.V()) && fs.iblocks == old(fs.iblocks) && fs.inodes == old(fs.inodes)
        invariant TreeOk(fs) && fs.Valid() && TreeOf(fs) == d
        invariant 0 !in p
        invariant Following(d, start, all, ip, Components(p), parent)
        invariant !more ==> Components(p) == []
        decreases more, |p|
      {
        var t;
        t, name := Follow(ip, p, parent, start, all, old(refs));
        match t {
          case End => more := false;
          case Fail => return None, name;
          case Here => return Some(ip), name;
          case Go(next, rest) => ip, p := next, rest;
        }
      }
      FollowEnds(d, start, all, ip, parent);
      if parent {
        Iput(ip);
        return None, name;
      }
      return Some(ip), name;
    }

    lemma TreeHasRoot()
      requires TreeOk(fs)
      ensures fs.Valid() && ROOTINO < |fs.inodes|
    {
    }

    lemma DirsInTree(i: nat)
      requires TreeOk(fs) && fs.Valid() && i < |fs.inodes|
      ensures i in TreeOf(fs) <==> fs.inodes[i].kind == T_DIR
    {
    }
  }
}
