/** Link counts: link, unlink, create and mkdir on inodes whose directories are finite maps. */
module Links {
  import opened Blocks
  import opened N = Names
  import opened Options
  import Sets

  const ROOT: nat := 1

  datatype Kind = Free | Dir | File | Device

  predicate Plain(k: Kind) {
    k == File || k == Device
  }

  datatype Node = Node(kind: Kind, nlink: int, dir: map<seq<byte>, nat>)

  /** `inflight` holds an inode once for each link call that has raised its count and not yet made the entry. */
  datatype Store = Store(nodes: seq<Node>, inflight: multiset<nat>)

  predicate Linked(n: Node) {
    n.kind == Dir && n.nlink > 0
  }

  predicate Dots(k: seq<byte>) {
    k == DOT || k == DOTDOT
  }

  /** An entry other than "." in a linked directory, naming i. */
  predicate Names(s: Store, d: nat, k: seq<byte>, i: nat) {
    d < |s.nodes| && Linked(s.nodes[d]) && k in s.nodes[d].dir && k != DOT && s.nodes[d].dir[k] == i
  }

  ghost function NamesOf(s: Store, i: nat): (r: set<(nat, seq<byte>)>)
    ensures forall d: nat, k :: (d, k) in r <==> Names(s, d, k, i)
  {
    set d: nat, k | d < |s.nodes| && k in s.nodes[d].dir && Names(s, d, k, i) :: (d, k)
  }

  // ------------------------------------------------------------------ invariant

  /** Link counts are right. */
  ghost predicate Counts(s: Store) {
    forall i {:trigger NamesOf(s, i)} :: 0 <= i < |s.nodes| ==>
      if s.nodes[i].kind == Free then NamesOf(s, i) == {} && s.inflight[i] == 0
      else s.nodes[i].nlink == |NamesOf(s, i)| + s.inflight[i]
  }

  /** What every directory has, and what an unlinked one has. */
  predicate DirAt(s: Store, d: nat)
    requires d < |s.nodes|
  {
    s.nodes[d].kind == Dir ==>
      && DOT in s.nodes[d].dir && s.nodes[d].dir[DOT] == d && DOTDOT in s.nodes[d].dir
      && s.nodes[d].dir[DOTDOT] < |s.nodes| && (d != ROOT ==> s.nodes[d].dir[DOTDOT] != d)
      && (!Linked(s.nodes[d]) ==> forall k :: k in s.nodes[d].dir ==> Dots(k))
      && (Linked(s.nodes[d]) ==> forall k :: k in s.nodes[d].dir ==> s.nodes[d].dir[k] < |s.nodes|)
  }

  /** Entry k of directory d is where its child hangs: the child's ".." is d, and no other entry names the child. */
  ghost predicate EdgeAt(s: Store, d: nat, k: seq<byte>)
    requires d < |s.nodes| && k in s.nodes[d].dir
  {
    var c := s.nodes[d].dir[k];
    Linked(s.nodes[d]) && !Dots(k) && c < |s.nodes| && s.nodes[c].kind == Dir ==>
      && c != ROOT && c != d && DOTDOT in s.nodes[c].dir && s.nodes[c].dir[DOTDOT] == d
      && forall e, l :: Names(s, e, l, c) && !Dots(l) ==> e == d && l == k
  }

  /** A linked directory is the root, or its ".." is a linked directory with an entry for it. */
  ghost predicate ParentAt(s: Store, d: nat)
    requires d < |s.nodes|
  {
    Linked(s.nodes[d]) && DOTDOT in s.nodes[d].dir ==>
      var p := s.nodes[d].dir[DOTDOT];
      && (d == ROOT ==> p == ROOT)
      && (d != ROOT ==> p < |s.nodes| && Linked(s.nodes[p]) && exists k :: Names(s, p, k, d) && !Dots(k))
  }

  /** Parents and children agree with each other. */
  ghost predicate Edges(s: Store) {
    && ROOT < |s.nodes| && Linked(s.nodes[ROOT])
    && (forall d {:trigger DirAt(s, d)} :: 0 <= d < |s.nodes| ==> DirAt(s, d))
    && (forall d, k {:trigger EdgeAt(s, d, k)} :: 0 <= d < |s.nodes| && k in s.nodes[d].dir ==> EdgeAt(s, d, k))
    && (forall d {:trigger ParentAt(s, d)} :: 0 <= d < |s.nodes| ==> ParentAt(s, d))
    && (forall i :: i in s.inflight ==> i < |s.nodes| && Plain(s.nodes[i].kind))
  }

  /** Linked directories other than the root rank above their parents. */
  predicate Ranked(s: Store, rank: seq<nat>) {
    && |rank| == |s.nodes|
    && forall d :: 0 <= d < |s.nodes| && d != ROOT && Linked(s.nodes[d]) && DOTDOT in s.nodes[d].dir ==>
         s.nodes[d].dir[DOTDOT] < |rank| && rank[s.nodes[d].dir[DOTDOT]] < rank[d]
  }

  /** The linked directories are a tree: parents and children agree, and going up never comes back. */
  ghost predicate Tree(s: Store) {
    Edges(s) && exists rank :: Ranked(s, rank)
  }

  ghost predicate Inv(s: Store) {
    Counts(s) && Tree(s)
  }

  // ------------------------------------------------------------------ steps

  datatype Step =
    | LinkBegin(i: nat)                                  // ip->nlink++
    | LinkEnd(i: nat, d: nat, k: seq<byte>)              // dirlink
    | LinkAbort(i: nat)                                  // ip->nlink--
    | Unlink(d: nat, k: seq<byte>)
    | Create(d: nat, k: seq<byte>, i: nat, kind: Kind)   // i from ialloc
    | Release(i: nat)                                    // the last iput of an inode without links

  predicate IsDir(s: Store, d: nat) {
    d < |s.nodes| && s.nodes[d].kind == Dir
  }

  predicate Empty(n: Node) {
    forall k :: k in n.dir ==> Dots(k)
  }

  /** What the code checks, or has locked, before it takes the step. */
  predicate Allowed(s: Store, a: Step) {
    match a
    case LinkBegin(i) => i < |s.nodes| && Plain(s.nodes[i].kind)
    case LinkEnd(i, d, k) =>
      i in s.inflight && i < |s.nodes| && Plain(s.nodes[i].kind) && IsDir(s, d) && k !in s.nodes[d].dir
    case LinkAbort(i) => i in s.inflight && i < |s.nodes| && Plain(s.nodes[i].kind)
    case Unlink(d, k) =>
      && IsDir(s, d) && !Dots(k) && k in s.nodes[d].dir && s.nodes[d].dir[k] < |s.nodes|
      && (s.nodes[s.nodes[d].dir[k]].kind == Dir ==> Empty(s.nodes[s.nodes[d].dir[k]]))
    case Create(d, k, i, kind) =>
      IsDir(s, d) && k !in s.nodes[d].dir && i < |s.nodes| && s.nodes[i].kind == Free && kind != Free
    case Release(i) => i < |s.nodes| && s.nodes[i].kind != Free && s.nodes[i].nlink == 0
  }

  /** The directory that gets a new entry is itself linked. */
  predicate Proper(s: Store, a: Step) {
    && (a.LinkEnd? ==> a.d < |s.nodes| && Linked(s.nodes[a.d]))
    && (a.Create? ==> a.d < |s.nodes| && Linked(s.nodes[a.d]))
  }

  function Raise(s: Store, i: nat, delta: int): (r: Store)
    requires i < |s.nodes|
  {
    s.(nodes := s.nodes[i := s.nodes[i].(nlink := s.nodes[i].nlink + delta)])
  }

  function Enter(s: Store, d: nat, k: seq<byte>, i: nat): (r: Store)
    requires d < |s.nodes|
  {
    s.(nodes := s.nodes[d := s.nodes[d].(dir := s.nodes[d].dir[k := i])])
  }

  function Remove(s: Store, d: nat, k: seq<byte>): (r: Store)
    requires d < |s.nodes|
  {
    s.(nodes := s.nodes[d := s.nodes[d].(dir := s.nodes[d].dir - {k})])
  }

  function NewNode(kind: Kind, i: nat, d: nat): (r: Node) {
    Node(kind, 1, if kind == Dir then map[DOT := i, DOTDOT := d] else map[])
  }

  function Do(s: Store, a: Step): (r: Store)
    requires Allowed(s, a)
  {
    match a
    case LinkBegin(i) => Raise(s, i, 1).(inflight := s.inflight + multiset{i})
    case LinkEnd(i, d, k) => Enter(s, d, k, i).(inflight := s.inflight - multiset{i})
    case LinkAbort(i) => Raise(s, i, -1).(inflight := s.inflight - multiset{i})
    case Unlink(d, k) =>
      var i := s.nodes[d].dir[k];
      var t := Remove(s, d, k);
      Raise(if s.nodes[i].kind == Dir then Raise(t, d, -1) else t, i, -1)
    case Create(d, k, i, kind) =>
      var t := s.(nodes := s.nodes[i := NewNode(kind, i, d)]);
      Enter(if kind == Dir then Raise(t, d, 1) else t, d, k, i)
    case Release(i) => s.(nodes := s.nodes[i := Node(Free, 0, map[])])
  }

  // ------------------------------------------------------------------ which names a step makes and takes away

  lemma SameNames(s: Store, t: Store, i: nat)
    requires forall d, k :: Names(t, d, k, i) <==> Names(s, d, k, i)
    ensures NamesOf(t, i) == NamesOf(s, i)
  {
    forall x | x in NamesOf(t, i) ensures x in NamesOf(s, i) {
      assert Names(t, x.0, x.1, i);
    }
    forall x | x in NamesOf(s, i) ensures x in NamesOf(t, i) {
      assert Names(s, x.0, x.1, i);
    }
  }

  lemma OneMore(s: Store, t: Store, i: nat, e: nat, l: seq<byte>)
    requires !Names(s, e, l, i)
    requires forall d, k :: Names(t, d, k, i) <==> Names(s, d, k, i) || (d == e && k == l)
    ensures |NamesOf(t, i)| == |NamesOf(s, i)| + 1
  {
    forall x | x in NamesOf(t, i) ensures x in NamesOf(s, i) + {(e, l)} {
      assert Names(t, x.0, x.1, i);
    }
    forall x | x in NamesOf(s, i) ensures x in NamesOf(t, i) {
      assert Names(s, x.0, x.1, i);
    }
    assert Names(t, e, l, i);
    assert NamesOf(t, i) == NamesOf(s, i) + {(e, l)};
  }

  lemma OneLess(s: Store, t: Store, i: nat, e: nat, l: seq<byte>)
    requires Names(s, e, l, i)
    requires forall d, k :: Names(t, d, k, i) <==> Names(s, d, k, i) && !(d == e && k == l)
    ensures |NamesOf(t, i)| == |NamesOf(s, i)| - 1
  {
    OneMore(t, s, i, e, l);
  }

  // ------------------------------------------------------------------ going up ends at the root

  /** A directory that is linked was linked before, with the same parent. */
  predicate UpKept(s: Store, t: Store, d: nat)
    requires d < |s.nodes| == |t.nodes|
  {
    Linked(t.nodes[d]) && DOTDOT in t.nodes[d].dir ==>
      Linked(s.nodes[d]) && DOTDOT in s.nodes[d].dir && s.nodes[d].dir[DOTDOT] == t.nodes[d].dir[DOTDOT]
  }

  lemma UpsKept(s: Store, a: Step, d: nat)
    requires Allowed(s, a) && Proper(s, a) && d < |s.nodes| && !(a.Create? && d == a.i)
    requires s.nodes[d].kind == Dir ==> DOTDOT in s.nodes[d].dir
    ensures |Do(s, a).nodes| == |s.nodes| && UpKept(s, Do(s, a), d)
  {
  }

  lemma RankStays(s: Store, t: Store, rank: seq<nat>)
    requires Ranked(s, rank) && |t.nodes| == |s.nodes| && forall d :: 0 <= d < |s.nodes| ==> UpKept(s, t, d)
    ensures Ranked(t, rank)
  {
    forall d | 0 <= d < |t.nodes| && d != ROOT && Linked(t.nodes[d]) && DOTDOT in t.nodes[d].dir
      ensures t.nodes[d].dir[DOTDOT] < |rank| && rank[t.nodes[d].dir[DOTDOT]] < rank[d]
    {
      assert UpKept(s, t, d);
    }
  }

  lemma RankGrows(s: Store, t: Store, rank: seq<nat>, i: nat, d: nat)
    requires Ranked(s, rank) && |t.nodes| == |s.nodes| && i < |s.nodes| && d < |s.nodes| && i != d && i != ROOT
    requires forall e :: 0 <= e < |s.nodes| && e != i ==> UpKept(s, t, e)
    requires DOTDOT in t.nodes[i].dir ==> t.nodes[i].dir[DOTDOT] == d
    requires forall e :: 0 <= e < |s.nodes| && e != ROOT && Linked(s.nodes[e]) && DOTDOT in s.nodes[e].dir ==>
      s.nodes[e].dir[DOTDOT] != i
    ensures Ranked(t, rank[i := rank[d] + 1])
  {
    var r := rank[i := rank[d] + 1];
    forall e | 0 <= e < |t.nodes| && e != ROOT && Linked(t.nodes[e]) && DOTDOT in t.nodes[e].dir
      ensures t.nodes[e].dir[DOTDOT] < |r| && r[t.nodes[e].dir[DOTDOT]] < r[e]
    {
      assert e != i ==> UpKept(s, t, e);
    }
  }

  /** A new directory ranks above the one it is made in; no other step gives a directory another parent. */
  lemma RankKept(s: Store, a: Step)
    requires Inv(s) && Allowed(s, a) && Proper(s, a)
    ensures exists rank :: Ranked(Do(s, a), rank)
  {
    hide Counts; hide EdgeAt; hide ParentAt; hide Do; hide UpKept;
    var rank :| Ranked(s, rank);
    var t := Do(s, a);
    forall d | 0 <= d < |s.nodes| && !(a.Create? && d == a.i) ensures |t.nodes| == |s.nodes| && UpKept(s, t, d) {
      assert DirAt(s, d);
      UpsKept(s, a, d);
    }
    if a.Create? {
      NewAbove(s, a.d, a.k, a.i, a.kind);
      assert DirAt(s, a.d);
      UpsKept(s, a, a.d);
      RankGrows(s, t, rank, a.i, a.d);
      var r: seq<nat> := rank[a.i := rank[a.d] + 1];
      assert Ranked(t, r);
    } else {
      assert DirAt(s, ROOT);
      UpsKept(s, a, ROOT);
      RankStays(s, t, rank);
    }
  }

  lemma NewAbove(s: Store, d: nat, k: seq<byte>, i: nat, kind: Kind)
    requires Inv(s) && Allowed(s, Create(d, k, i, kind)) && Linked(s.nodes[d])
    ensures var n := Do(s, Create(d, k, i, kind)).nodes[i]; DOTDOT in n.dir ==> n.dir[DOTDOT] == d
    ensures i != d && i != ROOT
    ensures forall e :: 0 <= e < |s.nodes| && e != ROOT && Linked(s.nodes[e]) && DOTDOT in s.nodes[e].dir ==>
      s.nodes[e].dir[DOTDOT] != i
  {
    hide Counts; hide EdgeAt; hide Ranked;
    forall e | 0 <= e < |s.nodes| && e != ROOT && Linked(s.nodes[e]) && DOTDOT in s.nodes[e].dir
      ensures s.nodes[e].dir[DOTDOT] != i
    {
      assert ParentAt(s, e);
    }
  }

  // ------------------------------------------------------------------ link

  lemma CountStep(s: Store, a: Step)
    requires Inv(s) && Allowed(s, a) && (a.LinkBegin? || a.LinkAbort? || a.Release?)
    ensures forall d, k, j :: Names(Do(s, a), d, k, j) <==> Names(s, d, k, j)
  {
  }

  lemma LinkBeginKeepsInv(s: Store, a: Step)
    requires Inv(s) && Allowed(s, a) && (a.LinkBegin? || a.LinkAbort?)
    ensures Inv(Do(s, a))
  {
    hide Counts; hide Ranked; hide DirAt; hide EdgeAt; hide ParentAt;
    var t := Do(s, a);
    RankKept(s, a);
    CountStep(s, a);
    LinkBeginCounts(s, a);
    forall d | 0 <= d < |t.nodes| ensures DirAt(t, d) && ParentAt(t, d) {
      assert DirAt(s, d) && ParentAt(s, d);
      LinkBeginDir(s, a, d);
    }
    forall d, k | 0 <= d < |t.nodes| && k in t.nodes[d].dir ensures EdgeAt(t, d, k) {
      assert EdgeAt(s, d, k);
      LinkBeginEdge(s, a, d, k);
    }
  }

  lemma LinkBeginCounts(s: Store, a: Step)
    requires Inv(s) && Allowed(s, a) && (a.LinkBegin? || a.LinkAbort?)
    ensures Counts(Do(s, a))
  {
    hide Tree;
    var t := Do(s, a);
    CountStep(s, a);
    forall j | 0 <= j < |t.nodes| ensures NamesOf(t, j) == NamesOf(s, j) {
      SameNames(s, t, j);
    }
  }

  lemma LinkBeginDir(s: Store, a: Step, d: nat)
    requires Inv(s) && Allowed(s, a) && (a.LinkBegin? || a.LinkAbort?)
    requires d < |s.nodes| && DirAt(s, d) && ParentAt(s, d)
    ensures |Do(s, a).nodes| == |s.nodes| && DirAt(Do(s, a), d) && ParentAt(Do(s, a), d)
  {
    hide Inv;
    CountStep(s, a);
  }

  lemma LinkBeginEdge(s: Store, a: Step, d: nat, k: seq<byte>)
    requires Inv(s) && Allowed(s, a) && (a.LinkBegin? || a.LinkAbort?)
    requires d < |s.nodes| && k in s.nodes[d].dir && EdgeAt(s, d, k)
    ensures d < |Do(s, a).nodes| && k in Do(s, a).nodes[d].dir && EdgeAt(Do(s, a), d, k)
  {
    hide Inv;
    CountStep(s, a);
  }

  lemma LinkEndNames(s: Store, i: nat, d: nat, k: seq<byte>)
    requires Inv(s) && Allowed(s, LinkEnd(i, d, k)) && Linked(s.nodes[d])
    ensures forall e, l, j :: Names(Do(s, LinkEnd(i, d, k)), e, l, j) <==>
      Names(s, e, l, j) || (e == d && l == k && j == i)
    ensures !Dots(k)
  {
    assert DirAt(s, d);
  }

  lemma LinkEndKeepsInv(s: Store, i: nat, d: nat, k: seq<byte>)
    requires Inv(s) && Allowed(s, LinkEnd(i, d, k)) && Linked(s.nodes[d])
    ensures Inv(Do(s, LinkEnd(i, d, k)))
  {
    var t := Do(s, LinkEnd(i, d, k));
    RankKept(s, LinkEnd(i, d, k));
    LinkEndNames(s, i, d, k);
    LinkEndKeepsCounts(s, i, d, k);
    forall e | 0 <= e < |t.nodes| ensures DirAt(t, e) && ParentAt(t, e) {
      assert DirAt(s, e) && ParentAt(s, e);
    }
    forall e, l | 0 <= e < |t.nodes| && l in t.nodes[e].dir ensures EdgeAt(t, e, l) {
      assert l in s.nodes[e].dir ==> EdgeAt(s, e, l);
    }
  }

  lemma LinkEndKeepsCounts(s: Store, i: nat, d: nat, k: seq<byte>)
    requires Inv(s) && Allowed(s, LinkEnd(i, d, k)) && Linked(s.nodes[d])
    ensures Counts(Do(s, LinkEnd(i, d, k)))
  {
    hide Tree;
    var t := Do(s, LinkEnd(i, d, k));
    LinkEndNames(s, i, d, k);
    OneMore(s, t, i, d, k);
    forall j | 0 <= j < |t.nodes| && j != i ensures NamesOf(t, j) == NamesOf(s, j) {
      SameNames(s, t, j);
    }
    forall j | 0 <= j < |t.nodes|
      ensures if t.nodes[j].kind == Free then NamesOf(t, j) == {} && t.inflight[j] == 0
              else t.nodes[j].nlink == |NamesOf(t, j)| + t.inflight[j]
    {
      assert NamesOf(s, j) == NamesOf(s, j);
    }
  }

  // ------------------------------------------------------------------ unlink

  /** An empty linked directory other than the root has one name, its entry in the parent. */
  lemma EmptyHasOneName(s: Store, d: nat, k: seq<byte>)
    requires Inv(s) && Allowed(s, Unlink(d, k)) && s.nodes[s.nodes[d].dir[k]].kind == Dir
    ensures Linked(s.nodes[d])
    ensures var i := s.nodes[d].dir[k];
      i != d && i != ROOT && s.nodes[i].nlink == 1 && DOTDOT in s.nodes[i].dir && s.nodes[i].dir[DOTDOT] == d
  {
    var i := s.nodes[d].dir[k];
    assert DirAt(s, d) && EdgeAt(s, d, k) && DirAt(s, i);
    forall e | 0 <= e < |s.nodes| && Linked(s.nodes[e]) && DOTDOT in s.nodes[e].dir
      ensures s.nodes[e].dir[DOTDOT] != i
    {
      assert ParentAt(s, e);
    }
    forall e, l | Names(s, e, l, i) ensures e == d && l == k {
    }
    assert Names(s, d, k, i);
    assert NamesOf(s, i) == {(d, k)} by {
      forall x | x in NamesOf(s, i) ensures x == (d, k) {
        assert Names(s, x.0, x.1, i);
      }
    }
    assert s.inflight[i] == 0;
  }

  /** The directory an entry is taken from stays linked. */
  lemma ParentStaysLinked(s: Store, d: nat, k: seq<byte>)
    requires Inv(s) && Allowed(s, Unlink(d, k)) && s.nodes[s.nodes[d].dir[k]].kind == Dir
    ensures s.nodes[d].nlink >= 2
  {
    EmptyHasOneName(s, d, k);
    var i := s.nodes[d].dir[k];
    assert ParentAt(s, d) && DirAt(s, d) && DirAt(s, i);
    assert Names(s, i, DOTDOT, d);
    var p := s.nodes[d].dir[DOTDOT];
    var l :| Names(s, p, l, d) && (l == DOTDOT ==> d == ROOT && p == ROOT) && (p != i || l != DOTDOT);
    Sets.SubsetSize({(i, DOTDOT), (p, l)}, NamesOf(s, d));
    assert |{(i, DOTDOT), (p, l)}| == 2;
    assert NamesOf(s, d) == NamesOf(s, d);
  }

  lemma UnlinkNames(s: Store, d: nat, k: seq<byte>)
    requires Inv(s) && Allowed(s, Unlink(d, k))
    ensures Linked(s.nodes[d])
    ensures var i := s.nodes[d].dir[k];
      forall e, l, j :: Names(Do(s, Unlink(d, k)), e, l, j) <==>
        Names(s, e, l, j) && !(e == d && l == k) && !(s.nodes[i].kind == Dir && e == i)
  {
    hide Counts;
    var i := s.nodes[d].dir[k];
    assert DirAt(s, d);
    if s.nodes[i].kind == Dir {
      EmptyHasOneName(s, d, k);
      ParentStaysLinked(s, d, k);
    }
  }

  lemma UnlinkKeepsCounts(s: Store, d: nat, k: seq<byte>)
    requires Inv(s) && Allowed(s, Unlink(d, k))
    ensures Counts(Do(s, Unlink(d, k)))
  {
    hide Tree;
    var i := s.nodes[d].dir[k];
    var t := Do(s, Unlink(d, k));
    var dir := s.nodes[i].kind == Dir;
    UnlinkNames(s, d, k);
    if dir {
      EmptyHasOneName(s, d, k);
      UnlinkedEntries(s, i);
      OneLess(s, t, d, i, DOTDOT);
    }
    OneLess(s, t, i, d, k);
    forall j | 0 <= j < |t.nodes|
      ensures if t.nodes[j].kind == Free then NamesOf(t, j) == {} && t.inflight[j] == 0
              else t.nodes[j].nlink == |NamesOf(t, j)| + t.inflight[j]
    {
      assert NamesOf(s, j) == NamesOf(s, j);
      if j != i && !(dir && j == d) {
        SameNames(s, t, j);
      }
    }
  }

  /** The entries of an empty directory, other than ".". */
  lemma UnlinkedEntries(s: Store, i: nat)
    requires Inv(s) && IsDir(s, i) && Empty(s.nodes[i])
    ensures forall l, j :: Names(s, i, l, j) ==> l == DOTDOT && j == s.nodes[i].dir[DOTDOT]
  {
    assert DirAt(s, i);
  }

  lemma UnlinkKeepsTree(s: Store, d: nat, k: seq<byte>)
    requires Inv(s) && Allowed(s, Unlink(d, k))
    ensures Tree(Do(s, Unlink(d, k)))
  {
    hide Counts;
    hide EdgeAt;
    hide ParentAt;
    hide DirAt;
    var i := s.nodes[d].dir[k];
    var t := Do(s, Unlink(d, k));
    RankKept(s, Unlink(d, k));
    UnlinkNames(s, d, k);
    if s.nodes[i].kind == Dir {
      EmptyHasOneName(s, d, k);
      ParentStaysLinked(s, d, k);
    }
    forall e | 0 <= e < |t.nodes| ensures DirAt(t, e) {
      UnlinkKeepsDirAt(s, d, k, e);
    }
    forall e, l | 0 <= e < |t.nodes| && l in t.nodes[e].dir ensures EdgeAt(t, e, l) {
      UnlinkKeepsEdge(s, d, k, e, l);
    }
    forall e | 0 <= e < |t.nodes| ensures ParentAt(t, e) {
      UnlinkKeepsParent(s, d, k, e);
    }
  }

  lemma UnlinkKeepsDirAt(s: Store, d: nat, k: seq<byte>, e: nat)
    requires Inv(s) && Allowed(s, Unlink(d, k)) && e < |s.nodes|
    ensures DirAt(Do(s, Unlink(d, k)), e)
  {
    hide Counts;
    hide EdgeAt;
    assert DirAt(s, e);
    if s.nodes[s.nodes[d].dir[k]].kind == Dir {
      EmptyHasOneName(s, d, k);
      ParentStaysLinked(s, d, k);
    }
  }

  lemma UnlinkKeepsEdge(s: Store, d: nat, k: seq<byte>, e: nat, l: seq<byte>)
    requires Inv(s) && Allowed(s, Unlink(d, k)) && e < |s.nodes| && l in Do(s, Unlink(d, k)).nodes[e].dir
    ensures EdgeAt(Do(s, Unlink(d, k)), e, l)
  {
    hide Counts;
    UnlinkNames(s, d, k);
    assert EdgeAt(s, e, l);
  }

  lemma UnlinkKeepsParent(s: Store, d: nat, k: seq<byte>, e: nat)
    requires Inv(s) && Allowed(s, Unlink(d, k)) && e < |s.nodes|
    ensures ParentAt(Do(s, Unlink(d, k)), e)
  {
    hide Counts;
    var i := s.nodes[d].dir[k];
    var t := Do(s, Unlink(d, k));
    UnlinkNames(s, d, k);
    assert ParentAt(s, e) && DirAt(s, e);
    if s.nodes[i].kind == Dir {
      EmptyHasOneName(s, d, k);
      ParentStaysLinked(s, d, k);
      UnlinkedEntries(s, i);
    }
    if Linked(t.nodes[e]) && DOTDOT in t.nodes[e].dir && e != ROOT {
      var p := s.nodes[e].dir[DOTDOT];
      var l :| Names(s, p, l, e) && !Dots(l);
      assert Names(t, p, l, e);
    }
  }

  // ------------------------------------------------------------------ create and mkdir

  lemma CreateNames(s: Store, d: nat, k: seq<byte>, i: nat, kind: Kind)
    requires Inv(s) && Allowed(s, Create(d, k, i, kind)) && Linked(s.nodes[d])
    ensures forall e, l, j :: Names(Do(s, Create(d, k, i, kind)), e, l, j) <==>
      Names(s, e, l, j) || (e == d && l == k && j == i) || (kind == Dir && e == i && l == DOTDOT && j == d)
    ensures !Dots(k) && i != d && forall e, l :: !Names(s, e, l, i)
  {
    assert DirAt(s, d);
    assert NamesOf(s, i) == {};
    forall e: nat, l ensures !Names(s, e, l, i) {
      assert (e, l) !in NamesOf(s, i);
    }
  }

  lemma CreateKeepsCounts(s: Store, d: nat, k: seq<byte>, i: nat, kind: Kind)
    requires Inv(s) && Allowed(s, Create(d, k, i, kind)) && Linked(s.nodes[d])
    ensures Counts(Do(s, Create(d, k, i, kind)))
  {
    hide Tree;
    var t := Do(s, Create(d, k, i, kind));
    CreateNames(s, d, k, i, kind);
    OneMore(s, t, i, d, k);
    if kind == Dir {
      OneMore(s, t, d, i, DOTDOT);
    }
    assert NamesOf(s, i) == {};
    forall j | 0 <= j < |t.nodes|
      ensures if t.nodes[j].kind == Free then NamesOf(t, j) == {} && t.inflight[j] == 0
              else t.nodes[j].nlink == |NamesOf(t, j)| + t.inflight[j]
    {
      assert NamesOf(s, j) == NamesOf(s, j);
      if j != i && !(kind == Dir && j == d) {
        SameNames(s, t, j);
      }
    }
  }

  lemma CreateKeepsEdge(s: Store, d: nat, k: seq<byte>, i: nat, kind: Kind, e: nat, l: seq<byte>)
    requires Inv(s) && Allowed(s, Create(d, k, i, kind)) && Linked(s.nodes[d]) && e < |s.nodes|
    requires l in Do(s, Create(d, k, i, kind)).nodes[e].dir
    ensures EdgeAt(Do(s, Create(d, k, i, kind)), e, l)
  {
    hide Counts;
    CreateNames(s, d, k, i, kind);
    if e != i && !(e == d && l == k) {
      assert EdgeAt(s, e, l);
    }
    if Linked(s.nodes[e]) && l in s.nodes[e].dir && l != DOT {
      assert Names(s, e, l, s.nodes[e].dir[l]);
    }
  }

  lemma CreateKeepsParent(s: Store, d: nat, k: seq<byte>, i: nat, kind: Kind, e: nat)
    requires Inv(s) && Allowed(s, Create(d, k, i, kind)) && Linked(s.nodes[d]) && e < |s.nodes|
    ensures ParentAt(Do(s, Create(d, k, i, kind)), e) && DirAt(Do(s, Create(d, k, i, kind)), e)
  {
    hide Counts;
    var t := Do(s, Create(d, k, i, kind));
    CreateNames(s, d, k, i, kind);
    assert ParentAt(s, e) && DirAt(s, e);
    assert Names(t, d, k, i);
    if e != i && e != ROOT && Linked(t.nodes[e]) && DOTDOT in t.nodes[e].dir {
      var p := s.nodes[e].dir[DOTDOT];
      var l :| Names(s, p, l, e) && !Dots(l);
      assert Names(t, p, l, e);
    }
  }

  lemma CreateKeepsInv(s: Store, d: nat, k: seq<byte>, i: nat, kind: Kind)
    requires Inv(s) && Allowed(s, Create(d, k, i, kind)) && Linked(s.nodes[d])
    ensures Inv(Do(s, Create(d, k, i, kind)))
  {
    hide Counts;
    hide EdgeAt;
    hide ParentAt;
    hide DirAt;
    var t := Do(s, Create(d, k, i, kind));
    RankKept(s, Create(d, k, i, kind));
    CreateKeepsCounts(s, d, k, i, kind);
    forall e, l | 0 <= e < |t.nodes| && l in t.nodes[e].dir ensures EdgeAt(t, e, l) {
      CreateKeepsEdge(s, d, k, i, kind, e, l);
    }
    forall e | 0 <= e < |t.nodes| ensures ParentAt(t, e) && DirAt(t, e) {
      CreateKeepsParent(s, d, k, i, kind, e);
    }
  }

  // ------------------------------------------------------------------ the last iput

  lemma ReleaseKeepsInv(s: Store, i: nat)
    requires Inv(s) && Allowed(s, Release(i))
    ensures Inv(Do(s, Release(i)))
  {
    var t := Do(s, Release(i));
    RankKept(s, Release(i));
    CountStep(s, Release(i));
    assert NamesOf(s, i) == NamesOf(s, i);
    forall j | 0 <= j < |t.nodes| ensures NamesOf(t, j) == NamesOf(s, j) {
      SameNames(s, t, j);
    }
    forall e: nat, l ensures !Names(s, e, l, i) {
      assert (e, l) !in NamesOf(s, i);
    }
    forall d | 0 <= d < |t.nodes| ensures DirAt(t, d) && ParentAt(t, d) {
      assert DirAt(s, d) && ParentAt(s, d);
    }
    forall d, k | 0 <= d < |t.nodes| && k in t.nodes[d].dir ensures EdgeAt(t, d, k) {
      assert EdgeAt(s, d, k);
    }
  }

  // ------------------------------------------------------------------ runs

  lemma DoKeepsInv(s: Store, a: Step)
    requires Inv(s) && Allowed(s, a) && Proper(s, a)
    ensures Inv(Do(s, a))
  {
    hide Inv;
    hide Do;
    match a {
      case LinkBegin(_) => LinkBeginKeepsInv(s, a);
      case LinkAbort(_) => LinkBeginKeepsInv(s, a);
      case LinkEnd(i, d, k) => LinkEndKeepsInv(s, i, d, k);
      case Unlink(d, k) => UnlinkKeepsInv(s, d, k);
      case Create(d, k, i, kind) => CreateKeepsInv(s, d, k, i, kind);
      case Release(i) => ReleaseKeepsInv(s, i);
    }
  }

  lemma UnlinkKeepsInv(s: Store, d: nat, k: seq<byte>)
    requires Inv(s) && Allowed(s, Unlink(d, k))
    ensures Inv(Do(s, Unlink(d, k)))
  {
    hide Do;
    hide Counts;
    hide Tree;
    UnlinkKeepsCounts(s, d, k);
    UnlinkKeepsTree(s, d, k);
  }

  ghost predicate Run(ss: seq<Store>, a: seq<Step>) {
    && |ss| == |a| + 1 && Inv(ss[0])
    && forall n {:trigger a[n]} :: 0 <= n < |a| ==>
         Allowed(ss[n], a[n]) && Proper(ss[n], a[n]) && ss[n + 1] == Do(ss[n], a[n])
  }

  /** In any run, with link calls interleaved in any way, a link count is the number of names plus the links being
      made. */
  lemma LinkCountsAreRight(ss: seq<Store>, a: seq<Step>, n: nat, i: nat)
    requires Run(ss, a) && n < |ss| && i < |ss[n].nodes| && ss[n].nodes[i].kind != Free
    ensures Inv(ss[n])
    ensures ss[n].nodes[i].nlink == |NamesOf(ss[n], i)| + ss[n].inflight[i]
  {
    RunKeepsInv(ss, a, n);
    assert NamesOf(ss[n], i) == NamesOf(ss[n], i);
  }

  lemma {:induction false} RunKeepsInv(ss: seq<Store>, a: seq<Step>, n: nat)
    requires Run(ss, a) && n < |ss|
    ensures Inv(ss[n])
  {
    hide Inv;
    if n > 0 {
      RunKeepsInv(ss, a, n - 1);
      assert ss[n] == Do(ss[n - 1], a[n - 1]);
      DoKeepsInv(ss[n - 1], a[n - 1]);
    }
  }

  // ------------------------------------------------------------------ every directory has one path

  /** Where the names lead from the root through linked directories, dot names aside. */
  function Walk(s: Store, ks: seq<seq<byte>>): (r: Option<nat>) {
    if ks == [] then Some(ROOT)
    else
      var n := |ks| - 1;
      var d := Walk(s, ks[..n]);
      if d.Some? && d.value < |s.nodes| && Linked(s.nodes[d.value]) && ks[n] in s.nodes[d.value].dir && !Dots(ks[n])
      then Some(s.nodes[d.value].dir[ks[n]])
      else None
  }

  /** Going up from a linked directory ends at the root, and the names on the way lead back. */
  lemma {:induction false} PathTo(s: Store, d: nat, rank: seq<nat>) returns (ks: seq<seq<byte>>)
    requires Inv(s) && Ranked(s, rank) && d < |s.nodes| && Linked(s.nodes[d])
    ensures Walk(s, ks) == Some(d)
    decreases rank[d]
  {
    hide Counts; hide EdgeAt;
    if d == ROOT {
      return [];
    }
    assert DirAt(s, d) && ParentAt(s, d);
    var p := s.nodes[d].dir[DOTDOT];
    var k :| Names(s, p, k, d) && !Dots(k);
    ks := PathTo(s, p, rank);
    ks := ks + [k];
    assert ks[..|ks| - 1] + [k] == ks;
  }

  /** No two paths lead to the same directory. */
  lemma {:induction false} OnePath(s: Store, d: nat, ks: seq<seq<byte>>, ls: seq<seq<byte>>)
    requires Inv(s) && d < |s.nodes| && Linked(s.nodes[d]) && Walk(s, ks) == Walk(s, ls) == Some(d)
    ensures ks == ls
    decreases |ks| + |ls|
  {
    hide Counts; hide DirAt; hide ParentAt;
    if ks != [] {
      LastEdge(s, d, ks);
    }
    if ls != [] {
      LastEdge(s, d, ls);
    }
    if ks != [] && ls != [] {
      var m, n := |ks| - 1, |ls| - 1;
      var p := Walk(s, ks[..m]).value;
      assert Names(s, p, ks[m], d) && EdgeAt(s, p, ks[m]);
      assert Names(s, Walk(s, ls[..n]).value, ls[n], d);
      OnePath(s, p, ks[..m], ls[..n]);
      assert ks == ks[..m] + [ks[m]] && ls == ls[..n] + [ls[n]];
    }
  }

  lemma LastEdge(s: Store, d: nat, ks: seq<seq<byte>>)
    requires Inv(s) && d < |s.nodes| && Linked(s.nodes[d]) && Walk(s, ks) == Some(d) && ks != []
    ensures var n := |ks| - 1; var p := Walk(s, ks[..n]);
      p.Some? && p.value < |s.nodes| && Linked(s.nodes[p.value]) && Names(s, p.value, ks[n], d) && !Dots(ks[n])
    ensures d != ROOT
  {
    hide Counts;
    var n := |ks| - 1;
    var p := Walk(s, ks[..n]).value;
    assert EdgeAt(s, p, ks[n]);
  }

  /** In any run the linked directories are a tree: from the root there is one path to each of them, and only one. */
  lemma DirectoriesAreATree(ss: seq<Store>, a: seq<Step>, n: nat, d: nat) returns (ks: seq<seq<byte>>)
    requires Run(ss, a) && n < |ss| && d < |ss[n].nodes| && Linked(ss[n].nodes[d])
    ensures forall ls :: Walk(ss[n], ls) == Some(d) <==> ls == ks
  {
    RunKeepsInv(ss, a, n);
    var s := ss[n];
    var rank :| Ranked(s, rank);
    ks := PathTo(s, d, rank);
    forall ls | Walk(s, ls) == Some(d) ensures ls == ks {
      OnePath(s, d, ks, ls);
    }
  }

  // ------------------------------------------------------------------ when a new entry keeps the counts right

  function Up(s: Store, d: nat): (r: nat)
    requires d < |s.nodes|
  {
    if DOTDOT in s.nodes[d].dir then s.nodes[d].dir[DOTDOT] else 0
  }

  lemma UnlinkedDirNames(s: Store, d: nat, k: seq<byte>, i: nat, kind: Kind)
    requires Inv(s) && Allowed(s, Create(d, k, i, kind)) && !Linked(s.nodes[d])
    ensures var t := Do(s, Create(d, k, i, kind)); var up := Up(s, d);
      forall e, l, j :: Names(t, e, l, j) <==>
        || Names(s, e, l, j)
        || (kind == Dir
            && ((e == d && l == DOTDOT && j == up) || (e == d && l == k && j == i)
                || (e == i && l == DOTDOT && j == d)))
    ensures !Dots(k) && i != d && (forall e, l :: !Names(s, e, l, i))
    ensures d != ROOT && Up(s, d) != d && Up(s, d) < |s.nodes|
  {
    assert DirAt(s, d);
    assert NamesOf(s, i) == {} && NamesOf(s, d) == NamesOf(s, d);
    forall e: nat, l ensures !Names(s, e, l, i) {
      assert (e, l) !in NamesOf(s, i);
    }
    assert s.nodes[d].nlink == 0;
  }

  /** create in an unlinked directory. */
  lemma CreateBreaksCounts(s: Store, d: nat, k: seq<byte>, i: nat, kind: Kind)
    requires Inv(s) && Allowed(s, Create(d, k, i, kind)) && !Linked(s.nodes[d])
    ensures !Counts(Do(s, Create(d, k, i, kind)))
  {
    hide Tree;
    var t := Do(s, Create(d, k, i, kind));
    var up := Up(s, d);
    UnlinkedDirNames(s, d, k, i, kind);
    if kind != Dir {
      SameNames(s, t, i);
      assert NamesOf(s, i) == {};
    } else if up == i {
      Sets.SubsetSize({(d, k), (d, DOTDOT)}, NamesOf(t, i));
      assert |{(d, k), (d, DOTDOT)}| == 2;
      assert NamesOf(s, i) == {};
    } else {
      OneMore(s, t, up, d, DOTDOT);
      assert NamesOf(s, up) == NamesOf(s, up);
    }
  }

  lemma LinkBreaksCounts(s: Store, i: nat, d: nat, k: seq<byte>)
    requires Inv(s) && Allowed(s, LinkEnd(i, d, k)) && !Linked(s.nodes[d])
    ensures !Counts(Do(s, LinkEnd(i, d, k)))
  {
    hide Tree;
    var t := Do(s, LinkEnd(i, d, k));
    SameNames(s, t, i);
    assert NamesOf(s, i) == NamesOf(s, i);
  }

  /** Making an entry keeps the counts right if and only if the directory it goes into is linked. */
  lemma CountsRightIffLinked(s: Store, a: Step)
    requires Inv(s) && Allowed(s, a)
    ensures Counts(Do(s, a)) <==> Proper(s, a)
  {
    hide Do;
    hide Counts;
    if Proper(s, a) {
      DoKeepsInv(s, a);
    } else if a.LinkEnd? {
      LinkBreaksCounts(s, a.i, a.d, a.k);
    } else {
      CreateBreaksCounts(s, a.d, a.k, a.i, a.kind);
    }
  }

  /** A directory that was removed while a process is in it, and a file created there: its count is 1, and no name
      leads to it. */
  lemma CreateInRemovedDirectory() returns (s: Store, a: Step)
    ensures Inv(s) && Allowed(s, a) && a.Create? && a.kind == File && !Counts(Do(s, a))
  {
    var none := Node(Free, 0, map[]);
    s := Store(
      [none, Node(Dir, 1, map[DOT := 1, DOTDOT := 1]), Node(Dir, 0, map[DOT := 2, DOTDOT := 1]), none], multiset{});
    a := Create(2, [97], 3, File);
    forall i: nat, d: nat, k ensures Names(s, d, k, i) <==> d == 1 && k == DOTDOT && i == 1 {
    }
    forall i | 0 <= i < |s.nodes| ensures NamesOf(s, i) == if i == 1 then {(1, DOTDOT)} else {} {
    }
    assert Ranked(s, [0, 0, 0, 0]);
    CountsRightIffLinked(s, a);
  }

  // ------------------------------------------------------------------ for the system calls

  /** A name that is there, is not a dot name, and is not a directory with something in it. */
  predicate CanUnlink(s: Store, d: nat, k: seq<byte>)
    requires d < |s.nodes|
  {
    && !Dots(k) && k in s.nodes[d].dir
    && (IsDir(s, s.nodes[d].dir[k]) ==> Empty(s.nodes[s.nodes[d].dir[k]]))
  }

  /** A new disk: the root directory is its own parent, and nothing else is allocated. */
  lemma FreshInv(s: Store)
    requires ROOT < |s.nodes| && s.inflight == multiset{}
    requires s.nodes[ROOT] == Node(Dir, 1, map[DOT := ROOT, DOTDOT := ROOT])
    requires forall i :: 0 <= i < |s.nodes| && i != ROOT ==> s.nodes[i] == Node(Free, 0, map[])
    ensures Inv(s)
  {
    forall i | 0 <= i < |s.nodes| ensures NamesOf(s, i) == if i == ROOT then {(ROOT, DOTDOT)} else {} {
    }
    assert Ranked(s, seq(|s.nodes|, i => 0));
  }

  /** A name in a directory leads to an inode with a positive count. */
  lemma NamedInode(s: Store, d: nat, k: seq<byte>)
    requires Inv(s) && IsDir(s, d) && !Dots(k) && k in s.nodes[d].dir
    ensures var i := s.nodes[d].dir[k];
      i < |s.nodes| && s.nodes[i].kind != Free && s.nodes[i].nlink >= 1 && i != d
  {
    assert DirAt(s, d) && EdgeAt(s, d, k);
    var i := s.nodes[d].dir[k];
    assert Names(s, d, k, i);
    assert (d, k) in NamesOf(s, i);
  }

  // ------------------------------------------------------------------ what each step changes

  /** unlink: the name is gone from its directory and from no other, its inode has one link less, and so has the
      directory if that inode is one. */
  lemma UnlinkEffect(s: Store, d: nat, k: seq<byte>, j: nat)
    requires Allowed(s, Unlink(d, k)) && j < |s.nodes|
    ensures var t, i := Do(s, Unlink(d, k)), s.nodes[d].dir[k];
      && |t.nodes| == |s.nodes| && t.inflight == s.inflight && t.nodes[j].kind == s.nodes[j].kind
      && t.nodes[j].dir == (if j == d then s.nodes[j].dir - {k} else s.nodes[j].dir)
      && t.nodes[j].nlink == s.nodes[j].nlink
         - (if j == i then 1 else 0) - (if j == d && s.nodes[i].kind == Dir then 1 else 0)
  {
  }

  /** create: a free inode gets its kind, one link and, as a directory, its dot names; the name leads to it, and its
      directory has one link more for a subdirectory. */
  lemma CreateEffect(s: Store, d: nat, k: seq<byte>, i: nat, kind: Kind, j: nat)
    requires Allowed(s, Create(d, k, i, kind)) && j < |s.nodes|
    ensures var t := Do(s, Create(d, k, i, kind));
      && |t.nodes| == |s.nodes| && t.inflight == s.inflight
      && (j == i ==>
            t.nodes[j] == Node(kind, 1, if kind == Dir then map[DOT := i, DOTDOT := d] else map[]))
      && (j == d ==>
            t.nodes[j] == Node(Dir, s.nodes[j].nlink + (if kind == Dir then 1 else 0), s.nodes[j].dir[k := i]))
      && (j != i && j != d ==> t.nodes[j] == s.nodes[j])
  {
  }

  /** link, both halves: one more link for the inode, and the name leads to it. */
  lemma LinkEffect(s: Store, i: nat, d: nat, k: seq<byte>, j: nat)
    requires Allowed(s, LinkBegin(i)) && IsDir(s, d) && k !in s.nodes[d].dir && j < |s.nodes|
    ensures Allowed(Do(s, LinkBegin(i)), LinkEnd(i, d, k)) && Allowed(Do(s, LinkBegin(i)), LinkAbort(i))
    ensures Do(Do(s, LinkBegin(i)), LinkAbort(i)) == s
    ensures var t := Do(Do(s, LinkBegin(i)), LinkEnd(i, d, k));
      && |t.nodes| == |s.nodes| && t.inflight == s.inflight && t.nodes[j].kind == s.nodes[j].kind
      && t.nodes[j].nlink == s.nodes[j].nlink + (if j == i then 1 else 0)
      && t.nodes[j].dir == (if j == d then s.nodes[j].dir[k := i] else s.nodes[j].dir)
  {
    var u := Do(s, LinkBegin(i));
    assert u.inflight - multiset{i} == s.inflight;
    assert Do(u, LinkAbort(i)).nodes == s.nodes;
  }
}
