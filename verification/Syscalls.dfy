module Syscalls {
  // The system calls that make and remove names, on the bytes of the disk. Each is a step of Links on the directories
  // those bytes spell, and leaves a sound volume: blocks owned once, the free map right, directories with unique names,
  // link counts right, and the directories a tree.

  import opened Blocks
  import opened Volume
  import opened Dinodes
  import opened Files
  import opened Names
  import opened Directory
  import opened Options
  import Links

  const T_FILE: nat := 2

  function KindOf(kind: nat): (r: Links.Kind) {
    if kind == 0 then Links.Free
    else if kind == T_DIR then Links.Dir
    else if kind == T_FILE then Links.File
    else Links.Device
  }

  // ------------------------------------------------------------------ inodes and files as names

  function NodeOf(ip: Inode, c: seq<byte>): (r: Links.Node) {
    Links.Node(KindOf(ip.kind), ip.nlink, if ip.kind == T_DIR then DirMap(c) else map[])
  }

  /** The inodes with their directories as maps, when no link call is under way. */
  function StoreOf(inodes: seq<Inode>, files: seq<seq<byte>>): (r: Links.Store)
    requires |files| == |inodes|
    ensures |r.nodes| == |inodes| && forall i :: 0 <= i < |inodes| ==> r.nodes[i] == NodeOf(inodes[i], files[i])
  {
    Links.Store(seq(|inodes|, i requires 0 <= i < |inodes| => NodeOf(inodes[i], files[i])), multiset{})
  }

  /** The bytes of a directory: whole entries, names unique, the dot names first. */
  ghost predicate DirBytes(c: seq<byte>) {
    DirOk(c) && Unique(Entries(c)) && Dotted(Entries(c))
  }

  /** Inode numbers fit into an entry, number 0 stands for none, and directories are directories. */
  ghost predicate Regular(inodes: seq<Inode>, files: seq<seq<byte>>) {
    && |files| == |inodes| <= 0x1_0000 && (|inodes| > 0 ==> inodes[0].kind == 0)
    && forall i :: 0 <= i < |inodes| && inodes[i].kind == T_DIR ==> DirBytes(files[i])
  }

  ghost predicate Sound(fs: Fs)
    reads fs
  {
    fs.Valid() && Regular(fs.inodes, fs.Contents()) && Links.Inv(StoreOf(fs.inodes, fs.Contents()))
  }

  // ------------------------------------------------------------------ what each primitive does to the names

  lemma EnterIs(inodes: seq<Inode>, files: seq<seq<byte>>, d: nat, ip: Inode, c: seq<byte>, k: seq<byte>, i: nat)
    requires |files| == |inodes| && d < |inodes| && inodes[d].kind == ip.kind == T_DIR && inodes[d].nlink == ip.nlink
    requires DirMap(c) == DirMap(files[d])[k := i]
    ensures StoreOf(inodes[d := ip], files[d := c]) == Links.Enter(StoreOf(inodes, files), d, k, i)
  {
    hide DirMap;
    var s := Links.Enter(StoreOf(inodes, files), d, k, i);
    assert StoreOf(inodes[d := ip], files[d := c]).nodes == s.nodes;
  }

  lemma RemoveIs(inodes: seq<Inode>, files: seq<seq<byte>>, d: nat, c: seq<byte>, k: seq<byte>)
    requires |files| == |inodes| && d < |inodes| && inodes[d].kind == T_DIR && DirMap(c) == DirMap(files[d]) - {k}
    ensures StoreOf(inodes, files[d := c]) == Links.Remove(StoreOf(inodes, files), d, k)
  {
    hide DirMap;
    assert StoreOf(inodes, files[d := c]).nodes == Links.Remove(StoreOf(inodes, files), d, k).nodes;
  }

  lemma RaiseIs(inodes: seq<Inode>, files: seq<seq<byte>>, i: nat, delta: int)
    requires |files| == |inodes| && i < |inodes|
    ensures StoreOf(inodes[i := WithLinks(inodes[i], inodes[i].nlink + delta)], files) ==
      Links.Raise(StoreOf(inodes, files), i, delta)
  {
    hide DirMap;
    var w := inodes[i := WithLinks(inodes[i], inodes[i].nlink + delta)];
    assert StoreOf(w, files).nodes == Links.Raise(StoreOf(inodes, files), i, delta).nodes;
  }

  lemma StaysRegular(inodes: seq<Inode>, files: seq<seq<byte>>, d: nat, ip: Inode, c: seq<byte>)
    requires Regular(inodes, files) && 0 < d < |inodes| && (ip.kind == T_DIR ==> DirBytes(c))
    ensures Regular(inodes[d := ip], files[d := c])
  {
    hide DirBytes;
  }

  /** The same bytes in every file but those. */
  ghost predicate SameFiles(a: seq<seq<byte>>, b: seq<seq<byte>>, but: set<nat>) {
    |b| == |a| && forall i :: 0 <= i < |a| && i !in but ==> b[i] == a[i]
  }

  /** The same inodes but those, apart from link counts. */
  ghost predicate SameInodes(a: seq<Inode>, b: seq<Inode>, but: set<nat>) {
    |b| == |a| && forall i :: 0 <= i < |a| && i !in but ==> b[i] == WithLinks(a[i], b[i].nlink)
  }

  lemma SameThen(inodes: seq<Inode>, files: seq<seq<byte>>, i: nat, mid: seq<Inode>, kept: seq<seq<byte>>, d: nat,
                 after: seq<Inode>, left: seq<seq<byte>>)
    requires SameInodes(inodes, mid, {i}) && SameFiles(files, kept, {i}) && |files| == |inodes|
    requires d < |mid| && |after| == |mid| && after == mid[d := after[d]] && SameFiles(kept, left, {d})
    ensures SameInodes(inodes, after, {i, d}) && SameFiles(files, left, {i, d})
    ensures i < |inodes| && i != d ==> after[i] == mid[i] && left[i] == kept[i]
  {
  }

  /** The names on the disk. */
  ghost function NamesOn(fs: Fs): (r: Links.Store)
    requires fs.Valid()
    reads fs
  {
    StoreOf(fs.inodes, fs.Contents())
  }

  /** dirlink, as a step on names. */
  method AddName(fs: Fs, dp: nat, name: seq<byte>, inum: nat) returns (r: LinkResult)
    requires fs.Valid() && Regular(fs.inodes, fs.Contents()) && 0 < inum < |fs.inodes|
    requires dp < |fs.inodes| && fs.inodes[dp].kind == T_DIR
    modifies fs
    ensures r.Exists? <==> Key(name) in old(NamesOn(fs)).nodes[dp].dir
    ensures r.Panic? ==> fs.Full() || |old(fs.Contents()[dp])| == MAXBYTES
    ensures r.Panic? <==> !r.Exists? && NoRoom(old(fs.V()), dp, old(fs.Contents()[dp]))
    ensures r.Exists? ==> fs.V() == old(fs.V()) && fs.iblocks == old(fs.iblocks)
    ensures r.Linked? ==>
      && fs.Valid() && Regular(fs.inodes, fs.Contents()) && |fs.inodes| == |old(fs.inodes)|
      && SameFiles(old(fs.Contents()), fs.Contents(), {dp})
      && DirMap(fs.Contents()[dp]) == DirMap(old(fs.Contents()[dp]))[Key(name) := inum]
      && NamesOn(fs) == Links.Enter(old(NamesOn(fs)), dp, Key(name), inum)
      && fs.inodes == old(fs.inodes)[dp := fs.inodes[dp]] && fs.inodes[dp].nlink == old(fs.inodes)[dp].nlink
      && fs.inodes[dp].kind == T_DIR
    ensures !r.Panic? ==> fs.LogsSince(old(fs.I()), old(fs.logged))
  {
    hide Volume.Ok; hide OnDisk; hide Unique; hide EntryAt; hide DirMap; hide DirOk; hide Dotted; hide Entries;
    hide NoRoom; hide Logs;
    ghost var inodes, files := fs.inodes, fs.Contents();
    assert DirBytes(files[dp]);
    r := Dirlink(fs, dp, name, inum);
    if r.Linked? {
      ghost var c := fs.Contents()[dp];
      EnterIs(inodes, files, dp, fs.inodes[dp], c, Key(name), inum);
      StaysRegular(inodes, files, dp, fs.inodes[dp], c);
    }
  }

  /** Clearing an entry, as a step on names. */
  method DropName(fs: Fs, dp: nat, k: nat, ghost key: seq<byte>)
    requires fs.Valid() && Regular(fs.inodes, fs.Contents())
    requires dp < |fs.inodes| && fs.inodes[dp].kind == T_DIR && key != DOT && key != DOTDOT
    requires var es := Entries(fs.Contents()[dp]); k < |es| && es[k].inum != 0 && es[k].key == key
    modifies fs
    ensures fs.Valid() && Regular(fs.inodes, fs.Contents()) && fs.inodes == old(fs.inodes)
    ensures NamesOn(fs) == Links.Remove(old(NamesOn(fs)), dp, key)
    ensures SameFiles(old(fs.Contents()), fs.Contents(), {dp})
    ensures DirMap(fs.Contents()[dp]) == DirMap(old(fs.Contents()[dp])) - {key}
    ensures fs.LogsSince(old(fs.I()), old(fs.logged))
  {
    hide Logs;
    hide Volume.Ok; hide OnDisk; hide Unique; hide EntryAt; hide DirMap; hide DirOk; hide Dotted;
    ghost var inodes, files := fs.inodes, fs.Contents();
    assert DirBytes(files[dp]);
    var _ := ClearEntry(fs, dp, k);
    ghost var c := fs.Contents()[dp];
    RemoveIs(inodes, files, dp, c, key);
    StaysRegular(inodes, files, dp, fs.inodes[dp], c);
    assert inodes[dp := fs.inodes[dp]] == inodes;
  }

  /** A link count goes up or down. */
  method AddLinks(fs: Fs, i: nat, delta: int)
    requires fs.Valid() && Regular(fs.inodes, fs.Contents()) && 0 < i < |fs.inodes|
    requires -0x8000 <= fs.inodes[i].nlink + delta && (delta > 0 ==> fs.inodes[i].nlink + delta < 0x8000)
    modifies fs
    ensures fs.Valid() && Regular(fs.inodes, fs.Contents())
    ensures fs.inodes == old(fs.inodes)[i := WithLinks(old(fs.inodes)[i], old(fs.inodes)[i].nlink + delta)]
    ensures fs.Contents() == old(fs.Contents())
    ensures NamesOn(fs) == Links.Raise(old(NamesOn(fs)), i, delta)
    ensures fs.V() == WithInode(old(fs.V()), i, fs.inodes[i])
    ensures fs.LogsSince(old(fs.I()), old(fs.logged))
  {
    hide Logs;
    hide Volume.Ok; hide OnDisk; hide DirBytes; hide DirMap;
    ghost var inodes, files := fs.inodes, fs.Contents();
    RaiseIs(inodes, files, i, delta);
    OnDiskFits(fs.iblocks, inodes, i);
    fs.SetLinks(i, fs.inodes[i].nlink + delta);
    StaysRegular(inodes, files, i, fs.inodes[i], files[i]);
    assert files[i := files[i]] == files;
  }

  // ------------------------------------------------------------------ steps on names

  /** The steps take s to t. */
  ghost predicate Takes(s: Links.Store, steps: seq<Links.Step>, t: Links.Store)
    decreases |steps|
  {
    if steps == [] then t == s
    else Links.Allowed(s, steps[0]) && Takes(Links.Do(s, steps[0]), steps[1..], t)
  }

  /** And every new entry goes into a linked directory. */
  ghost predicate TakesProperly(s: Links.Store, steps: seq<Links.Step>, t: Links.Store)
    decreases |steps|
  {
    if steps == [] then t == s
    else
      && Links.Allowed(s, steps[0]) && Links.Proper(s, steps[0])
      && TakesProperly(Links.Do(s, steps[0]), steps[1..], t)
  }

  lemma {:induction false} StepsKeepInv(s: Links.Store, steps: seq<Links.Step>, t: Links.Store)
    requires Links.Inv(s) && TakesProperly(s, steps, t)
    ensures Links.Inv(t)
    decreases |steps|
  {
    hide Links.Inv; hide Links.Do; hide Links.Allowed; hide Links.Proper;
    if steps != [] {
      Links.DoKeepsInv(s, steps[0]);
      StepsKeepInv(Links.Do(s, steps[0]), steps[1..], t);
    }
  }

  lemma TakesOne(s: Links.Store, a: Links.Step)
    requires Links.Allowed(s, a)
    ensures Takes(s, [a], Links.Do(s, a)) && (Links.Proper(s, a) ==> TakesProperly(s, [a], Links.Do(s, a)))
  {
    assert [a][1..] == [];
  }

  lemma TakesTwo(s: Links.Store, a: Links.Step, b: Links.Step)
    requires Links.Allowed(s, a) && Links.Allowed(Links.Do(s, a), b)
    ensures var t := Links.Do(Links.Do(s, a), b);
      && Takes(s, [a, b], t)
      && (Links.Proper(s, a) && Links.Proper(Links.Do(s, a), b) ==> TakesProperly(s, [a, b], t))
  {
    hide Links.Do; hide Links.Allowed; hide Links.Proper;
    TakesOne(Links.Do(s, a), b);
    assert [a, b][1..] == [b];
  }

  lemma CountNotNegative(s: Links.Store, i: nat)
    requires Links.Inv(s) && i < |s.nodes| && s.nodes[i].kind != Links.Free
    ensures s.nodes[i].nlink >= 0
  {
    hide Links.Tree;
    assert Links.NamesOf(s, i) == Links.NamesOf(s, i);
  }

  // ------------------------------------------------------------------ link

  datatype CallResult = Succeeds | Failed | Panics

  /** The two steps of link. */
  function LinkSteps(i: nat, d: nat, k: seq<byte>): (r: seq<Links.Step>) {
    [Links.LinkBegin(i), Links.LinkEnd(i, d, k)]
  }

  /** link: the inode that the old path names gets another name, in the directory of the new path. Either path may lead
      nowhere. Failing undoes the count. */
  method Link(fs: Fs, ip: Option<nat>, dp: Option<nat>, name: seq<byte>) returns (r: CallResult)
    requires Sound(fs) && (dp.Some? ==> dp.value < |fs.inodes| && fs.inodes[dp.value].kind == T_DIR)
    requires ip.Some? ==> ip.value < |fs.inodes| && fs.inodes[ip.value].kind != 0 && fs.inodes[ip.value].nlink < 0x7fff
    modifies fs
    ensures r.Failed? <==>
      ip.None? || old(fs.inodes)[ip.value].kind == T_DIR || dp.None? ||
      Key(name) in old(NamesOn(fs)).nodes[dp.value].dir
    ensures r.Panics? <==> !r.Failed? && NoRoom(old(fs.V()), dp.value, old(fs.Contents())[dp.value])
    ensures r.Failed? ==> Sound(fs) && fs.inodes == old(fs.inodes) && fs.Contents() == old(fs.Contents())
    ensures r.Succeeds? ==>
      && fs.Valid() && Regular(fs.inodes, fs.Contents())
      && SameFiles(old(fs.Contents()), fs.Contents(), {dp.value})
      && SameInodes(old(fs.inodes), fs.inodes, {dp.value})
      && DirMap(fs.Contents()[dp.value]) == DirMap(old(fs.Contents()[dp.value]))[Key(name) := ip.value]
      && Takes(old(NamesOn(fs)), LinkSteps(ip.value, dp.value, Key(name)), NamesOn(fs))
      && (Links.Counts(NamesOn(fs)) <==> old(fs.inodes)[dp.value].nlink > 0)
    ensures r.Succeeds? && old(fs.inodes)[dp.value].nlink > 0 ==>
      Sound(fs) && TakesProperly(old(NamesOn(fs)), LinkSteps(ip.value, dp.value, Key(name)), NamesOn(fs))
    ensures !r.Panics? ==> fs.LogsSince(old(fs.I()), old(fs.logged))
  {
    hide Volume.Ok; hide OnDisk; hide DirBytes; hide DirMap; hide Links.Inv; hide Takes; hide TakesProperly;
    hide NoRoom; hide Links.Counts; hide Logs;
    LogsNothing(fs.I(), fs.bmapstart, fs.inodestart, fs.logged);
    if ip.None? || fs.inodes[ip.value].kind == T_DIR {
      return Failed;
    }
    ghost var s, v := NamesOn(fs), fs.V();
    CountNotNegative(s, ip.value);
    RaiseBack(s, ip.value);
    AddLinks(fs, ip.value, 1);
    ghost var m, l := fs.I(), fs.logged;
    if dp.None? {
      AddLinks(fs, ip.value, -1);
      r := Failed;
    } else {
      SameRoom(v, fs.V(), ip.value, dp.value, fs.Contents()[dp.value]);
      r := LinkInto(fs, ip.value, dp.value, name, s);
    }
    if !r.Panics? {
      LogsTwice(old(fs.I()), m, fs.I(), fs.bmapstart, fs.inodestart, l, fs.logged);
    }
  }

  /** The second half of link: the entry is made, or the count goes down again. */
  method LinkInto(fs: Fs, i: nat, d: nat, name: seq<byte>, ghost s: Links.Store) returns (r: CallResult)
    requires fs.Valid() && Regular(fs.inodes, fs.Contents()) && Links.Inv(s) && s.inflight == multiset{}
    requires 0 < i < |fs.inodes| == |s.nodes| && Links.Plain(s.nodes[i].kind) && s.nodes[i].nlink >= 0
    requires d < |fs.inodes| && fs.inodes[d].kind == T_DIR && NamesOn(fs) == Links.Raise(s, i, 1)
    modifies fs
    ensures r.Failed? <==> Key(name) in s.nodes[d].dir
    ensures r.Panics? <==> !r.Failed? && NoRoom(old(fs.V()), d, old(fs.Contents())[d])
    ensures r.Failed? ==> fs.Valid() && Regular(fs.inodes, fs.Contents()) && NamesOn(fs) == s
    ensures r.Failed? ==>
      && fs.inodes == old(fs.inodes)[i := WithLinks(old(fs.inodes)[i], old(fs.inodes)[i].nlink - 1)]
      && fs.Contents() == old(fs.Contents())
    ensures r.Succeeds? ==>
      && fs.Valid() && Regular(fs.inodes, fs.Contents()) && SameFiles(old(fs.Contents()), fs.Contents(), {d})
      && SameInodes(old(fs.inodes), fs.inodes, {d})
      && DirMap(fs.Contents()[d]) == DirMap(old(fs.Contents()[d]))[Key(name) := i]
      && Takes(s, LinkSteps(i, d, Key(name)), NamesOn(fs))
      && (Links.Counts(NamesOn(fs)) <==> s.nodes[d].nlink > 0)
      && (s.nodes[d].nlink > 0 ==>
            Links.Inv(NamesOn(fs)) && TakesProperly(s, LinkSteps(i, d, Key(name)), NamesOn(fs)))
    ensures !r.Panics? ==> fs.LogsSince(old(fs.I()), old(fs.logged))
  {
    hide Volume.Ok; hide OnDisk; hide DirBytes; hide DirMap; hide Links.Inv; hide Takes; hide TakesProperly;
    hide NoRoom; hide Links.Counts; hide Logs;
    RaiseBack(s, i);
    var l := AddName(fs, d, name, i);
    match l {
      case Exists =>
        ghost var m, logged := fs.I(), fs.logged;
        AddLinks(fs, i, -1);
        LogsTwice(old(fs.I()), m, fs.I(), fs.bmapstart, fs.inodestart, logged, fs.logged);
        r := Failed;
      case Panic => r := Panics;
      case Linked =>
        LinkIsSteps(s, i, d, Key(name), NamesOn(fs));
        r := Succeeds;
    }
  }

  lemma RaiseBack(s: Links.Store, i: nat)
    requires i < |s.nodes|
    ensures |Links.Raise(s, i, 1).nodes| == |s.nodes| && Links.Raise(Links.Raise(s, i, 1), i, -1) == s
    ensures forall d :: 0 <= d < |s.nodes| ==> Links.Raise(s, i, 1).nodes[d].dir == s.nodes[d].dir
  {
  }

  /** A link count takes no room. */
  lemma SameRoom(v: Vol, w: Vol, i: nat, d: nat, c: seq<byte>)
    requires Ok(v, {}) && i < |v.inodes| && d < |v.inodes|
    requires exists n :: w == WithInode(v, i, WithLinks(v.inodes[i], n))
    ensures Sized(v) && Sized(w) && (NoRoom(v, d, c) <==> NoRoom(w, d, c))
  {
    hide Entries; hide Bit; hide Owned; hide Mapped; hide NoHoles;
    assert Free(w) == Free(v);
  }

  lemma LinkIsSteps(s: Links.Store, i: nat, d: nat, k: seq<byte>, t: Links.Store)
    requires Links.Inv(s) && s.inflight == multiset{} && i < |s.nodes| && Links.Plain(s.nodes[i].kind)
    requires Links.IsDir(s, d) && k !in s.nodes[d].dir && t == Links.Enter(Links.Raise(s, i, 1), d, k, i)
    ensures Takes(s, LinkSteps(i, d, k), t) && (Links.Counts(t) <==> s.nodes[d].nlink > 0)
    ensures s.nodes[d].nlink > 0 ==> TakesProperly(s, LinkSteps(i, d, k), t) && Links.Inv(t)
  {
    hide Links.Inv; hide Takes; hide TakesProperly; hide Links.Counts;
    Links.DoKeepsInv(s, Links.LinkBegin(i));
    Links.CountsRightIffLinked(Links.Do(s, Links.LinkBegin(i)), Links.LinkEnd(i, d, k));
    TakesTwo(s, Links.LinkBegin(i), Links.LinkEnd(i, d, k));
    assert t == Links.Do(Links.Do(s, Links.LinkBegin(i)), Links.LinkEnd(i, d, k));
    if s.nodes[d].nlink > 0 {
      StepsKeepInv(s, LinkSteps(i, d, k), t);
    }
  }

  // ------------------------------------------------------------------ unlink

  /** unlink: takes a name out of the directory of the path, unless there is none, or the name is a dot name, is not
      there, or names a directory with something in it. The two panics in the code are never reached. */
  method Unlink(fs: Fs, parent: Option<nat>, name: seq<byte>) returns (r: CallResult)
    requires Sound(fs) && (parent.Some? ==> parent.value < |fs.inodes| && fs.inodes[parent.value].kind == T_DIR)
    modifies fs
    ensures !r.Panics? && Sound(fs)
    ensures r.Succeeds? <==> parent.Some? && Links.CanUnlink(old(NamesOn(fs)), parent.value, Key(name))
    ensures r.Failed? ==> fs.inodes == old(fs.inodes) && fs.Contents() == old(fs.Contents())
    ensures r.Succeeds? ==>
      && SameFiles(old(fs.Contents()), fs.Contents(), {parent.value}) && SameInodes(old(fs.inodes), fs.inodes, {})
      && DirMap(fs.Contents()[parent.value]) == DirMap(old(fs.Contents()[parent.value])) - {Key(name)}
    ensures r.Succeeds? ==>
      TakesProperly(old(NamesOn(fs)), [Links.Unlink(parent.value, Key(name))], NamesOn(fs))
    ensures fs.LogsSince(old(fs.I()), old(fs.logged))
  {
    hide Volume.Ok; hide OnDisk; hide DirBytes; hide DirMap; hide Links.Inv; hide TakesProperly; hide Takes;
    hide Entries; hide Dotted; hide Logs;
    LogsNothing(fs.I(), fs.bmapstart, fs.inodestart, fs.logged);
    if parent.None? {
      return Failed;
    }
    var dp := parent.value;
    DotKeys();
    var a := Namecmp(name, DOT);
    var b := Namecmp(name, DOTDOT);
    if a == 0 || b == 0 {
      return Failed;
    }
    ghost var s, k := NamesOn(fs), Key(name);
    OpenDir(fs, dp);
    var ip, e := Dirlookup(fs, dp, name);
    if ip == 0 {
      return Failed;
    }
    Links.NamedInode(s, dp, k);
    if fs.inodes[ip].nlink < 1 {
      return Panics;
    }
    var may := MayGo(fs, ip);
    if !may {
      return Failed;
    }
    TakeAway(fs, dp, e, ip, k);
    TakesOne(s, Links.Unlink(dp, k));
    StepsKeepInv(s, [Links.Unlink(dp, k)], NamesOn(fs));
    r := Succeeds;
  }

  /** A directory may be unlinked only if it is empty. */
  method MayGo(fs: Fs, ip: nat) returns (ok: bool)
    requires fs.Valid() && Regular(fs.inodes, fs.Contents()) && ip < |fs.inodes|
    modifies fs
    ensures fs.V() == old(fs.V()) && fs.iblocks == old(fs.iblocks) && fs.logged == old(fs.logged)
    ensures fs.Valid() && fs.Contents() == old(fs.Contents())
    ensures ok <==> (Links.IsDir(NamesOn(fs), ip) ==> Links.Empty(NamesOn(fs).nodes[ip]))
  {
    hide Volume.Ok; hide OnDisk; hide DirBytes; hide DirMap; hide Entries; hide Dotted;
    ok := true;
    if fs.inodes[ip].kind == T_DIR {
      OpenDir(fs, ip);
      EmptyIs(fs.Contents()[ip]);
      ok := Isdirempty(fs, ip);
    }
  }

  /** The end of unlink: the entry is cleared, and the counts go down. */
  method TakeAway(fs: Fs, dp: nat, e: nat, ip: nat, ghost k: seq<byte>)
    requires fs.Valid() && Regular(fs.inodes, fs.Contents()) && Links.Inv(NamesOn(fs)) && dp < |fs.inodes|
    requires Links.Allowed(NamesOn(fs), Links.Unlink(dp, k)) && NamesOn(fs).nodes[dp].dir[k] == ip
    requires var es := Entries(fs.Contents()[dp]); e < |es| && es[e] == Entry(ip, k) && ip > 0
    modifies fs
    ensures fs.Valid() && Regular(fs.inodes, fs.Contents())
    ensures NamesOn(fs) == Links.Do(old(NamesOn(fs)), Links.Unlink(dp, k))
    ensures SameFiles(old(fs.Contents()), fs.Contents(), {dp}) && SameInodes(old(fs.inodes), fs.inodes, {})
    ensures DirMap(fs.Contents()[dp]) == DirMap(old(fs.Contents()[dp])) - {k}
    ensures fs.LogsSince(old(fs.I()), old(fs.logged))
  {
    hide Volume.Ok; hide OnDisk; hide DirBytes; hide DirMap; hide Links.Inv; hide Entries; hide Dotted; hide Logs;
    ghost var s := NamesOn(fs);
    Links.NamedInode(s, dp, k);
    CountNotNegative(s, dp);
    DropName(fs, dp, e, k);
    ghost var m, l := fs.I(), fs.logged;
    if fs.inodes[ip].kind == T_DIR {
      AddLinks(fs, dp, -1);
      LogsTwice(old(fs.I()), m, fs.I(), fs.bmapstart, fs.inodestart, l, fs.logged);
      m, l := fs.I(), fs.logged;
    }
    AddLinks(fs, ip, -1);
    LogsTwice(old(fs.I()), m, fs.I(), fs.bmapstart, fs.inodestart, l, fs.logged);
  }

  /** A directory of a sound volume, for the directory code. */
  lemma OpenDir(fs: Fs, d: nat)
    requires fs.Valid() && Regular(fs.inodes, fs.Contents()) && d < |fs.inodes| && fs.inodes[d].kind == T_DIR
    ensures IsDir(fs, d) && Dotted(Entries(fs.Contents()[d]))
  {
    hide Volume.Ok; hide OnDisk; hide Unique;
    assert DirBytes(fs.Contents()[d]);
  }

  lemma EmptyIs(c: seq<byte>)
    requires Dotted(Entries(c)) && Unique(Entries(c))
    ensures DirMap(c).Keys == {DOT, DOTDOT} <==> forall k :: k in DirMap(c) ==> Links.Dots(k)
  {
    hide Unique; hide EntryAt;
    var es := Entries(c);
    MapHas(es, |es|, 0);
    MapHas(es, |es|, 1);
  }

  // ------------------------------------------------------------------ create

  datatype CreateResult = Made(inum: nat) | Opened(inum: nat) | Refused | OutOfSpace

  lemma NewNodeIs(inodes: seq<Inode>, files: seq<seq<byte>>, i: nat, ip: Inode, c: seq<byte>, d: nat)
    requires |files| == |inodes| && i < |inodes| && ip.nlink == 1
    requires ip.kind == T_DIR ==> DirMap(c) == map[DOT := i, DOTDOT := d]
    ensures var s := StoreOf(inodes, files);
      StoreOf(inodes[i := ip], files[i := c]) == s.(nodes := s.nodes[i := Links.NewNode(KindOf(ip.kind), i, d)])
  {
    hide DirMap;
    var s := StoreOf(inodes, files);
    assert StoreOf(inodes[i := ip], files[i := c]).nodes == s.nodes[i := Links.NewNode(KindOf(ip.kind), i, d)];
  }

  /** The names after a new inode was made for directory d, but not yet entered there. */
  function WithNew(s: Links.Store, d: nat, i: nat, kind: Links.Kind): (r: Links.Store)
    requires i < |s.nodes| && d < |s.nodes|
  {
    var t := s.(nodes := s.nodes[i := Links.NewNode(kind, i, d)]);
    if kind == Links.Dir then Links.Raise(t, d, 1) else t
  }

  /** The first part of create: an inode with one link and, for a directory, its dot names. None is the kernel's
      panic. */
  method MakeInode(fs: Fs, dp: nat, kind: nat) returns (r: Option<nat>)
    requires fs.Valid() && Regular(fs.inodes, fs.Contents()) && 0 < kind < 0x1_0000
    requires dp < |fs.inodes| && fs.inodes[dp].kind == T_DIR && 0 <= fs.inodes[dp].nlink < 0x7fff
    modifies fs
    ensures r.None? ==> fs.Full() || forall j :: 1 <= j < |old(fs.inodes)| ==> old(fs.inodes)[j].kind != 0
    ensures r.Some? ==>
      && fs.Valid() && Regular(fs.inodes, fs.Contents()) && |fs.inodes| == |old(fs.inodes)|
      && 0 < r.value < |fs.inodes| && r.value != dp && old(fs.inodes)[r.value].kind == 0
      && NamesOn(fs) == WithNew(old(NamesOn(fs)), dp, r.value, KindOf(kind))
      && fs.inodes[dp].kind == T_DIR && |fs.Contents()[dp]| == |old(fs.Contents()[dp])|
      && SameFiles(old(fs.Contents()), fs.Contents(), {r.value})
      && SameInodes(old(fs.inodes), fs.inodes, {r.value})
      && fs.inodes[r.value].kind == kind && (kind != T_DIR ==> fs.Contents()[r.value] == [])
      && fs.LogsSince(old(fs.I()), old(fs.logged))
  {
    hide Volume.Ok; hide OnDisk; hide DirBytes; hide DirMap; hide Entries; hide Dotted; hide FreeOwnNothing; hide Logs;
    ghost var inodes, files := fs.inodes, fs.Contents();
    r := fs.Ialloc(kind);
    if r.None? {
      return;
    }
    var i := r.value;
    ghost var m, l := fs.I(), fs.logged;
    fs.SetLinks(i, 1);
    LogsTwice(old(fs.I()), m, fs.I(), fs.bmapstart, fs.inodestart, l, fs.logged);
    m, l := fs.I(), fs.logged;
    ghost var made := inodes[i := WithLinks(Cleared(kind), 1)];
    if kind != T_DIR {
      NewNodeIs(inodes, files, i, fs.inodes[i], files[i], dp);
      StaysRegular(inodes, files, i, fs.inodes[i], files[i]);
      assert files[i := files[i]] == files && fs.inodes == made;
      return;
    }
    var ok := MakeDirectory(fs, i, dp, inodes, files);
    if !ok {
      return None;
    }
    LogsTwice(old(fs.I()), m, fs.I(), fs.bmapstart, fs.inodestart, l, fs.logged);
  }

  /** The dot names of a new directory, and the parent's count. */
  method MakeDirectory(fs: Fs, i: nat, dp: nat, ghost inodes: seq<Inode>, ghost files: seq<seq<byte>>)
    returns (ok: bool)
    requires fs.Valid() && Regular(inodes, files) && 0 < i < |inodes| && dp < |inodes| && i != dp
    requires inodes[dp].kind == T_DIR && 0 <= inodes[dp].nlink < 0x7fff
    requires fs.Contents() == files && fs.inodes == inodes[i := WithLinks(Cleared(T_DIR), 1)]
    modifies fs
    ensures !ok ==> fs.Full()
    ensures ok ==>
      && fs.Valid() && Regular(fs.inodes, fs.Contents()) && |fs.inodes| == |inodes| && fs.inodes[dp].kind == T_DIR
      && NamesOn(fs) == WithNew(StoreOf(inodes, files), dp, i, Links.Dir)
      && SameFiles(files, fs.Contents(), {i}) && SameInodes(inodes, fs.inodes, {i}) && fs.inodes[i].kind == T_DIR
      && fs.LogsSince(old(fs.I()), old(fs.logged))
  {
    hide Volume.Ok; hide OnDisk; hide DirBytes; hide DirMap; hide Entries; hide Dotted; hide FreeOwnNothing; hide Logs;
    fs.SetLinks(dp, fs.inodes[dp].nlink + 1);
    ghost var im, l := fs.I(), fs.logged;
    NewIsDir(fs, i);
    var m := MakeDots(fs, i, dp);
    if !m.Linked? {
      return false;
    }
    LogsTwice(old(fs.I()), im, fs.I(), fs.bmapstart, fs.inodestart, l, fs.logged);
    ghost var raised := inodes[dp := WithLinks(inodes[dp], inodes[dp].nlink + 1)];
    ghost var c := fs.Contents()[i];
    assert fs.inodes == raised[i := fs.inodes[i]] && fs.Contents() == files[i := c];
    FreshDir(inodes, files, dp, i, fs.inodes[i], c);
    DirIsBytes(fs, i);
    StaysRegular(inodes, files, dp, raised[dp], files[dp]);
    assert files[dp := files[dp]] == files;
    StaysRegular(raised, files, i, fs.inodes[i], c);
    return true;
  }

  lemma DirIsBytes(fs: Fs, d: nat)
    requires IsDir(fs, d) && Dotted(Entries(fs.Contents()[d]))
    ensures DirBytes(fs.Contents()[d])
  {
  }

  lemma NewIsDir(fs: Fs, i: nat)
    requires fs.Valid() && i < |fs.inodes| && fs.inodes[i].kind == T_DIR && fs.inodes[i].size == 0
    ensures IsDir(fs, i) && fs.Contents()[i] == []
  {
    hide Volume.Ok; hide OnDisk;
    assert |fs.Contents()[i]| == 0;
  }

  lemma FreshDir(inodes: seq<Inode>, files: seq<seq<byte>>, d: nat, i: nat, ip: Inode, c: seq<byte>)
    requires |files| == |inodes| && i < |inodes| && d < |inodes| && i != d && ip.kind == T_DIR && ip.nlink == 1
    requires DirMap(c) == map[DOT := i, DOTDOT := d]
    ensures var raised := inodes[d := WithLinks(inodes[d], inodes[d].nlink + 1)];
      StoreOf(raised[i := ip], files[i := c]) == WithNew(StoreOf(inodes, files), d, i, Links.Dir)
  {
    hide DirMap;
    var raised := inodes[d := WithLinks(inodes[d], inodes[d].nlink + 1)];
    RaiseIs(inodes, files, d, 1);
    NewNodeIs(raised, files, i, ip, c, d);
    assert StoreOf(raised[i := ip], files[i := c]).nodes == WithNew(StoreOf(inodes, files), d, i, Links.Dir).nodes;
  }

  /** create and mkdir: opens a plain file that is there, or makes an inode and its names. It gives up only if there is
      no directory, no inode, no block, or the directory is as long as a file can be. */
  method Create(fs: Fs, parent: Option<nat>, name: seq<byte>, kind: nat) returns (r: CreateResult)
    requires Sound(fs) && 0 < kind < 0x1_0000
    requires parent.Some? ==> parent.value < |fs.inodes| && fs.inodes[parent.value].kind == T_DIR
    requires parent.Some? ==> fs.inodes[parent.value].nlink < 0x7fff
    modifies fs
    ensures r.Opened? || r.Refused? <==> parent.None? || Key(name) in old(NamesOn(fs)).nodes[parent.value].dir
    ensures r.Opened? || r.Refused? ==> Sound(fs) && fs.V() == old(fs.V())
    ensures parent.Some? && Key(name) in old(NamesOn(fs)).nodes[parent.value].dir ==>
      var i := old(NamesOn(fs)).nodes[parent.value].dir[Key(name)];
      && i < |old(fs.inodes)|
      && r == if kind == T_FILE && old(fs.inodes)[i].kind == T_FILE then Opened(i) else Refused
    ensures r.OutOfSpace? ==>
      || fs.Full() || |old(fs.Contents())[parent.value]| == MAXBYTES
      || forall j :: 1 <= j < |old(fs.inodes)| ==> old(fs.inodes)[j].kind != 0
    ensures r.Made? ==>
      && fs.Valid() && Regular(fs.inodes, fs.Contents())
      && SameFiles(old(fs.Contents()), fs.Contents(), {r.inum, parent.value})
      && SameInodes(old(fs.inodes), fs.inodes, {r.inum, parent.value}) && |fs.inodes| == |old(fs.inodes)|
      && r.inum < |fs.inodes| && r.inum != parent.value && old(fs.inodes)[r.inum].kind == 0
      && fs.inodes[r.inum].kind == kind && (kind != T_DIR ==> fs.Contents()[r.inum] == [])
      && DirMap(fs.Contents()[parent.value]) == DirMap(old(fs.Contents()[parent.value]))[Key(name) := r.inum]
    ensures r.Made? ==>
      && Takes(old(NamesOn(fs)), [Links.Create(parent.value, Key(name), r.inum, KindOf(kind))], NamesOn(fs))
      && (Links.Counts(NamesOn(fs)) <==> old(fs.inodes)[parent.value].nlink > 0)
    ensures r.Made? && old(fs.inodes)[parent.value].nlink > 0 ==>
      && Sound(fs)
      && TakesProperly(old(NamesOn(fs)), [Links.Create(parent.value, Key(name), r.inum, KindOf(kind))], NamesOn(fs))
    ensures !r.OutOfSpace? ==> fs.LogsSince(old(fs.I()), old(fs.logged))
  {
    hide Volume.Ok; hide OnDisk; hide DirBytes; hide DirMap; hide Links.Inv; hide TakesProperly; hide Takes;
    hide Entries; hide Dotted; hide NoRoom; hide Links.Counts; hide Logs; hide SameFiles; hide SameInodes;
    LogsNothing(fs.I(), fs.bmapstart, fs.inodestart, fs.logged);
    if parent.None? {
      return Refused;
    }
    var dp := parent.value;
    ghost var s, k := NamesOn(fs), Key(name);
    OpenDir(fs, dp);
    var ip, _ := Dirlookup(fs, dp, name);
    if ip != 0 {
      InRange(s, dp, k);
      return if kind == T_FILE && fs.inodes[ip].kind == T_FILE then Opened(ip) else Refused;
    }
    CountNotNegative(s, dp);
    var i := MakeInode(fs, dp, kind);
    if i.None? {
      return OutOfSpace;
    }
    ghost var m, logged := fs.I(), fs.logged;
    ghost var mid, kept := fs.inodes, fs.Contents();
    var l := AddName(fs, dp, name, i.value);
    if !l.Linked? {
      return OutOfSpace;
    }
    SameThen(old(fs.inodes), old(fs.Contents()), i.value, mid, kept, dp, fs.inodes, fs.Contents());
    LogsTwice(old(fs.I()), m, fs.I(), fs.bmapstart, fs.inodestart, logged, fs.logged);
    ghost var a := Links.Create(dp, k, i.value, KindOf(kind));
    TakesOne(s, a);
    assert NamesOn(fs) == Links.Do(s, a);
    Links.CountsRightIffLinked(s, a);
    if s.nodes[dp].nlink > 0 {
      StepsKeepInv(s, [a], NamesOn(fs));
    }
    return Made(i.value);
  }

  lemma InRange(s: Links.Store, d: nat, k: seq<byte>)
    requires Links.Inv(s) && Links.IsDir(s, d) && k in s.nodes[d].dir
    ensures s.nodes[d].dir[k] < |s.nodes|
  {
    assert Links.DirAt(s, d);
  }

  // ------------------------------------------------------------------ the last iput, and writing

  /** The last reference to an inode without names. */
  method Release(fs: Fs, i: nat)
    requires Sound(fs) && i < |fs.inodes| && fs.inodes[i].kind != 0 && fs.inodes[i].nlink == 0
    modifies fs
    ensures Sound(fs) && TakesProperly(old(NamesOn(fs)), [Links.Release(i)], NamesOn(fs))
    ensures fs.inodes == old(fs.inodes)[i := Cleared(0)] && fs.Contents() == old(fs.Contents())[i := []]
    ensures fs.LogsSince(old(fs.I()), old(fs.logged))
  {
    hide Volume.Ok; hide OnDisk; hide DirBytes; hide DirMap; hide Links.Inv; hide TakesProperly; hide Bit; hide Logs;
    ghost var inodes, files := fs.inodes, fs.Contents();
    ghost var s := NamesOn(fs);
    var _ := fs.Iput(i, true, 1);
    StaysRegular(inodes, files, i, Cleared(0), []);
    assert NamesOn(fs).nodes == Links.Do(s, Links.Release(i)).nodes;
    TakesOne(s, Links.Release(i));
    StepsKeepInv(s, [Links.Release(i)], NamesOn(fs));
  }

  /** Writing into a file that is no directory changes no name. */
  method Write(fs: Fs, i: nat, src: seq<byte>, off: nat) returns (r: Outcome)
    requires Sound(fs) && i < |fs.inodes| && fs.inodes[i].kind != 0 && fs.inodes[i].kind != T_DIR
    requires off < UINT && |src| < UINT
    modifies fs
    ensures !r.Panic? ==> Sound(fs) && NamesOn(fs) == old(NamesOn(fs))
    ensures !r.Panic? ==> fs.LogsSince(old(fs.I()), old(fs.logged))
    ensures r.Error? ==> fs.V() == old(fs.V())
    ensures r.Done? ==> r.count == |src| && fs.Contents() == old(fs.Contents())[i := fs.Contents()[i]]
    ensures r.Done? ==>
      && |fs.inodes| == |old(fs.inodes)| && fs.inodes == old(fs.inodes)[i := fs.inodes[i]]
      && fs.inodes[i].kind == old(fs.inodes)[i].kind && fs.inodes[i].nlink == old(fs.inodes)[i].nlink
    ensures r.Done? ==>
      off <= |old(fs.Contents()[i])| && fs.Contents()[i] == Overwrite(old(fs.Contents()[i]), off, src)
  {
    hide Volume.Ok; hide OnDisk; hide DirBytes; hide DirMap; hide Links.Inv; hide Overwrite; hide BlocksFor; hide Logs;
    LogsNothing(fs.I(), fs.bmapstart, fs.inodestart, fs.logged);
    ghost var inodes, files := fs.inodes, fs.Contents();
    ghost var s := NamesOn(fs);
    r := fs.Writei(i, src, off);
    if r.Done? {
      StaysRegular(inodes, files, i, fs.inodes[i], fs.Contents()[i]);
      assert NamesOn(fs).nodes == s.nodes;
    }
  }

  // ------------------------------------------------------------------ a new disk

  /** A new disk with its root directory, as mkfs makes it, is sound. It needs a second inode and a block. */
  method Format(meta: nat, size: nat, ninodes: nat, istart: nat, bstart: nat) returns (fs: Fs, ok: bool)
    requires 0 < meta <= size < UINT && ninodes <= 0x1_0000
    ensures fs.Valid() || !ok
    ensures ok <==> meta < size && ninodes > 1
    ensures ok ==> Sound(fs) && |fs.inodes| == ninodes
  {
    hide Volume.Ok; hide OnDisk; hide DirBytes; hide DirMap; hide Entries; hide Dotted; hide Links.Inv;
    fs := new Fs(meta, size, ninodes, istart, bstart);
    assert ninodes > 1 ==> fs.inodes[1].kind == 0;
    var r := fs.Ialloc(T_DIR);
    if r.None? {
      return fs, false;
    }
    fs.SetLinks(1, 1);
    NewIsDir(fs, 1);
    FirstBlock(fs, meta, size);
    var m := MakeDots(fs, 1, 1);
    if !m.Linked? {
      return fs, false;
    }
    DirIsBytes(fs, 1);
    assert Links.Inv(NamesOn(fs)) by {
      Links.FreshInv(NamesOn(fs));
    }
    ok := true;
  }

  lemma FirstBlock(fs: Fs, meta: nat, size: nat)
    requires fs.Valid() && |fs.disk| == size && forall b :: 0 <= b < size ==> (Bit(fs.bitmap, b) <==> b < meta)
    ensures Sized(fs.V()) && (Free(fs.V()) == {} <==> size <= meta)
  {
    hide Owned; hide Mapped; hide NoHoles; hide OnDisk; hide Bit;
    assert meta < size ==> meta in Free(fs.V());
  }
}
