/** Directories: files of 16-byte entries, as finite maps from names to inode numbers. */
module Directory {
  import opened Blocks
  import opened Volume
  import opened Dinodes
  import opened Files
  import opened Names

  const DIRENT: nat := 16     // bytes in an entry: a two-byte inode number, then the name
  const T_DIR: nat := 1

  datatype Entry = Entry(inum: nat, key: seq<byte>)

  // ------------------------------------------------------------------ entries as a finite map

  /** No two live entries have the same name. */
  ghost predicate Unique(es: seq<Entry>) {
    forall j, k {:trigger es[j], es[k]} :: 0 <= j < k < |es| && es[j].inum != 0 && es[k].inum != 0 ==>
      es[j].key != es[k].key
  }

  function MapUpTo(es: seq<Entry>, n: nat): (r: map<seq<byte>, nat>)
    requires n <= |es|
  {
    if n == 0 then map[]
    else
      var m := MapUpTo(es, n - 1);
      if es[n - 1].inum == 0 then m else m[es[n - 1].key := es[n - 1].inum]
  }

  function MapOf(es: seq<Entry>): (r: map<seq<byte>, nat>) {
    MapUpTo(es, |es|)
  }

  /** A name is in the map when some live entry has it. */
  lemma {:induction false} MapHas(es: seq<Entry>, n: nat, k: nat)
    requires k < n <= |es| && es[k].inum != 0
    ensures es[k].key in MapUpTo(es, n)
    ensures Unique(es) ==> MapUpTo(es, n)[es[k].key] == es[k].inum
  {
    if k < n - 1 {
      MapHas(es, n - 1, k);
    }
  }

  lemma {:induction false} MapHasNot(es: seq<Entry>, n: nat, key: seq<byte>)
    requires n <= |es| && forall k :: 0 <= k < n && es[k].inum != 0 ==> es[k].key != key
    ensures key !in MapUpTo(es, n)
  {
    if n > 0 {
      MapHasNot(es, n - 1, key);
    }
  }

  lemma NotInMap(es: seq<Entry>, key: seq<byte>)
    requires key !in MapOf(es)
    ensures forall k :: 0 <= k < |es| && es[k].inum != 0 ==> es[k].key != key
  {
    forall k | 0 <= k < |es| && es[k].inum != 0 ensures es[k].key != key {
      MapHas(es, |es|, k);
    }
  }

  lemma {:induction false} MapPrefix(es: seq<Entry>, fs: seq<Entry>, n: nat)
    requires n <= |es| && n <= |fs| && forall k :: 0 <= k < n ==> es[k] == fs[k]
    ensures MapUpTo(es, n) == MapUpTo(fs, n)
  {
    if n > 0 {
      MapPrefix(es, fs, n - 1);
    }
  }

  /** Entry k, or a new last entry, replaced. */
  function Put(es: seq<Entry>, k: nat, e: Entry): (r: seq<Entry>)
    requires k <= |es|
  {
    if k < |es| then es[k := e] else es + [e]
  }

  lemma {:induction false} AddedUpTo(es: seq<Entry>, k: nat, e: Entry, n: nat)
    requires k < |es| && es[k].inum == 0 && e.inum != 0 && e.key !in MapOf(es) && k < n <= |es|
    ensures MapUpTo(es[k := e], n) == MapUpTo(es, n)[e.key := e.inum]
  {
    NotInMap(es, e.key);
    if n == k + 1 {
      MapPrefix(es, es[k := e], k);
    } else {
      AddedUpTo(es, k, e, n - 1);
    }
  }

  /** Writing a new name over a dead entry, or at the end, adds it to the map. */
  lemma Adds(es: seq<Entry>, k: nat, e: Entry)
    requires Unique(es) && k <= |es| && (k < |es| ==> es[k].inum == 0) && e.inum != 0 && e.key !in MapOf(es)
    ensures Unique(Put(es, k, e)) && MapOf(Put(es, k, e)) == MapOf(es)[e.key := e.inum]
  {
    NotInMap(es, e.key);
    if k < |es| {
      AddedUpTo(es, k, e, |es|);
    } else {
      MapPrefix(es, es + [e], |es|);
    }
  }

  lemma {:induction false} RemovedUpTo(es: seq<Entry>, k: nat, e: Entry, n: nat)
    requires Unique(es) && k < n <= |es| && es[k].inum != 0 && e.inum == 0
    ensures MapUpTo(es[k := e], n) == MapUpTo(es, n) - {es[k].key}
  {
    if n == k + 1 {
      MapPrefix(es, es[k := e], k);
      MapHasNot(es, k, es[k].key);
    } else {
      RemovedUpTo(es, k, e, n - 1);
    }
  }

  /** Clearing a live entry takes its name out of the map, and nothing else. */
  lemma Removes(es: seq<Entry>, k: nat, e: Entry)
    requires Unique(es) && k < |es| && es[k].inum != 0 && e.inum == 0
    ensures Unique(Put(es, k, e)) && MapOf(Put(es, k, e)) == MapOf(es) - {es[k].key}
  {
    RemovedUpTo(es, k, e, |es|);
  }

  /** The dot names are in the first two entries. */
  predicate Dotted(es: seq<Entry>) {
    |es| >= 2 && es[0].inum != 0 && es[0].key == DOT && es[1].inum != 0 && es[1].key == DOTDOT
  }

  /** The first dead entry, or the end. */
  function FirstDead(es: seq<Entry>, from: nat): (r: nat)
    requires from <= |es|
    ensures from <= r <= |es| && (r < |es| ==> es[r].inum == 0) && forall j :: from <= j < r ==> es[j].inum != 0
    decreases |es| - from
  {
    if from < |es| && es[from].inum != 0 then FirstDead(es, from + 1) else from
  }

  lemma FirstDeadIs(es: seq<Entry>, k: nat)
    requires k <= |es| && (k < |es| ==> es[k].inum == 0) && forall j :: 0 <= j < k ==> es[j].inum != 0
    ensures FirstDead(es, 0) == k
  {
  }

  /** A new name leaves the dot names where they are, and so does clearing any other name. */
  lemma DotsStay(es: seq<Entry>, k: nat, e: Entry)
    requires Dotted(es) && k <= |es| && (k < |es| ==> es[k].inum == 0 || (es[k].key != DOT && es[k].key != DOTDOT))
    ensures Dotted(Put(es, k, e))
  {
    assert k != 0 && k != 1;
  }

  /** With the dot names in the first two entries, no live entry after them means no name but those two. */
  lemma OnlyDots(es: seq<Entry>)
    requires Dotted(es) && Unique(es)
    ensures (forall j :: 2 <= j < |es| ==> es[j].inum == 0) <==> MapOf(es).Keys == {DOT, DOTDOT}
  {
    MapHas(es, |es|, 0);
    MapHas(es, |es|, 1);
    if forall j :: 2 <= j < |es| ==> es[j].inum == 0 {
      forall key | key in MapOf(es) ensures key == DOT || key == DOTDOT {
        if key != DOT && key != DOTDOT {
          MapHasNot(es, |es|, key);
        }
      }
    } else {
      var j :| 2 <= j < |es| && es[j].inum != 0;
      MapHas(es, |es|, j);
      assert es[j].key != es[0].key && es[j].key != es[1].key;
    }
  }

  // ------------------------------------------------------------------ entries as bytes

  predicate DirOk(c: seq<byte>) {
    |c| % DIRENT == 0 && |c| <= MAXBYTES
  }

  function Decode(de: seq<byte>): (r: Entry)
    requires |de| == DIRENT
  {
    Entry(de[0] as int + 256 * de[1] as int, Key(de[2..]))
  }

  function Encode(inum: nat, name: seq<byte>): (r: seq<byte>)
    requires inum < 65536 && |name| == DIRSIZ
    ensures |r| == DIRENT && Decode(r) == Entry(inum, Key(name))
    ensures r[0] as int + 256 * r[1] as int == inum && r[2..] == name
  {
    var r := [inum % 256, inum / 256] + name;
    assert r[2..] == name;
    r
  }

  function EntryAt(c: seq<byte>, k: nat): (r: Entry)
    requires (k + 1) * DIRENT <= |c|
  {
    Decode(c[k * DIRENT..(k + 1) * DIRENT])
  }

  /** An entry is 16 bytes: the inode number, low byte first, and the name. */
  lemma EntryLayout(c: seq<byte>, k: nat)
    requires 16 * k + 16 <= |c|
    ensures EntryAt(c, k).inum == c[16 * k] as int + 256 * c[16 * k + 1] as int
    ensures EntryAt(c, k).key == Key(c[16 * k + 2..16 * k + 16])
  {
    assert c[k * DIRENT..(k + 1) * DIRENT][2..] == c[16 * k + 2..16 * k + 16];
  }

  function Entries(c: seq<byte>): (r: seq<Entry>)
    ensures |r| == |c| / DIRENT
  {
    seq(|c| / DIRENT, k requires 0 <= k < |c| / DIRENT => EntryAt(c, k))
  }

  /** A directory as a map from names to inode numbers. */
  function DirMap(c: seq<byte>): (r: map<seq<byte>, nat>) {
    MapOf(Entries(c))
  }

  lemma PutBytes(c: seq<byte>, k: nat, de: seq<byte>)
    requires DirOk(c) && k <= |c| / DIRENT && |de| == DIRENT
    ensures Entries(Overwrite(c, k * DIRENT, de)) == Put(Entries(c), k, Decode(de))
  {
    var r := Overwrite(c, k * DIRENT, de);
    forall j | 0 <= j < |r| / DIRENT ensures Entries(r)[j] == Put(Entries(c), k, Decode(de))[j] {
      PutBytesAt(c, k, de, j);
    }
  }

  lemma PutBytesAt(c: seq<byte>, k: nat, de: seq<byte>, j: nat)
    requires DirOk(c) && k <= |c| / DIRENT && |de| == DIRENT && j < |Overwrite(c, k * DIRENT, de)| / DIRENT
    ensures EntryAt(Overwrite(c, k * DIRENT, de), j) == if j == k then Decode(de) else EntryAt(c, j)
  {
    var r := Overwrite(c, k * DIRENT, de);
    assert r[j * DIRENT..(j + 1) * DIRENT] == if j == k then de else c[j * DIRENT..(j + 1) * DIRENT];
  }

  // ------------------------------------------------------------------ dirlookup, dirlink, and clearing an entry

  /** A directory inode with unique names. */
  ghost predicate IsDir(fs: Fs, dp: nat)
    reads fs
  {
    && fs.Valid() && dp < |fs.inodes| && fs.inodes[dp].kind == T_DIR
    && DirOk(fs.Contents()[dp]) && Unique(Entries(fs.Contents()[dp]))
  }

  /** One entry read from the file. */
  method ReadEntry(fs: Fs, dp: nat, k: nat) returns (e: Entry, name: seq<byte>)
    requires fs.Valid() && dp < |fs.inodes| && DirOk(fs.Contents()[dp]) && k < |Entries(fs.Contents()[dp])|
    modifies fs
    ensures fs.V() == old(fs.V()) && fs.iblocks == old(fs.iblocks) && fs.logged == old(fs.logged)
    ensures fs.Contents() == old(fs.Contents())
    ensures e == Entries(fs.Contents()[dp])[k] && e.key == Key(name)
  {
    hide Volume.Ok; hide OnDisk;
    hide Unique;
    ghost var c := fs.Contents()[dp];
    assert |c| == fs.inodes[dp].size;
    var de := fs.Readi(dp, k * DIRENT, DIRENT);
    assert de.value == c[k * DIRENT..(k + 1) * DIRENT];
    assert fs.Contents() == old(fs.Contents());
    return Decode(de.value), de.value[2..];
  }

  /** The inode number under a name, or 0; and the place of its entry. */
  method Dirlookup(fs: Fs, dp: nat, name: seq<byte>) returns (inum: nat, k: nat)
    requires IsDir(fs, dp)
    modifies fs
    ensures fs.V() == old(fs.V()) && fs.iblocks == old(fs.iblocks) && fs.logged == old(fs.logged)
    ensures IsDir(fs, dp) && fs.Contents() == old(fs.Contents())
    ensures inum == 0 <==> Key(name) !in DirMap(fs.Contents()[dp])
    ensures inum != 0 ==> DirMap(fs.Contents()[dp])[Key(name)] == inum
    ensures inum != 0 ==> k < |Entries(fs.Contents()[dp])| && Entries(fs.Contents()[dp])[k] == Entry(inum, Key(name))
  {
    hide Volume.Ok; hide OnDisk;
    hide Unique;
    hide EntryAt;
    ghost var es := Entries(fs.Contents()[dp]);
    assert fs.inodes[dp].size == |fs.Contents()[dp]|;
    k := 0;
    while k * DIRENT < fs.inodes[dp].size
      invariant fs.V() == old(fs.V()) && fs.iblocks == old(fs.iblocks) && fs.logged == old(fs.logged)
      invariant IsDir(fs, dp) && fs.Contents() == old(fs.Contents()) && es == Entries(fs.Contents()[dp])
      invariant k <= |es| && forall j :: 0 <= j < k && es[j].inum != 0 ==> es[j].key != Key(name)
      invariant fs.inodes[dp].size == |fs.Contents()[dp]|
      decreases |es| - k
    {
      var e, other := ReadEntry(fs, dp, k);
      if e.inum != 0 {
        var d := Namecmp(name, other);
        if d == 0 {
          MapHas(es, |es|, k);
          return e.inum, k;
        }
      }
      k := k + 1;
    }
    MapHasNot(es, |es|, Key(name));
    return 0, k;
  }

  /** Panic: no free block, or the directory is as long as a file can be. */
  datatype LinkResult = Exists | Linked | Panic

  /** The file can have n bytes: they are not too many, and the blocks it lacks for them are free. */
  ghost predicate MayGrow(v: Vol, i: nat, n: nat)
    requires Sized(v) && i < |v.inodes|
  {
    n <= MAXBYTES && Lacks(v, i, BlocksFor(n)) <= |Free(v)|
  }

  /** Every entry is live, and the directory cannot have one more. */
  ghost predicate NoRoom(v: Vol, dp: nat, c: seq<byte>)
    requires Sized(v) && dp < |v.inodes|
  {
    (forall k :: 0 <= k < |Entries(c)| ==> Entries(c)[k].inum != 0) && !MayGrow(v, dp, |c| + DIRENT)
  }

  /** Adds a name, or fails because it is there. Writing into a dead entry needs no block. */
  method Dirlink(fs: Fs, dp: nat, name: seq<byte>, inum: nat) returns (r: LinkResult)
    requires IsDir(fs, dp) && 0 < inum < 65536
    modifies fs
    ensures r.Exists? <==> Key(name) in DirMap(old(fs.Contents()[dp]))
    ensures r.Exists? ==> fs.V() == old(fs.V()) && fs.iblocks == old(fs.iblocks)
    ensures r.Panic? ==> fs.Full() || |old(fs.Contents()[dp])| == MAXBYTES
    ensures r.Panic? <==> !r.Exists? && NoRoom(old(fs.V()), dp, old(fs.Contents()[dp]))
    ensures r.Linked? ==>
      IsDir(fs, dp) && |fs.inodes| == |old(fs.inodes)| && fs.inodes == old(fs.inodes)[dp := fs.inodes[dp]]
    ensures r.Linked? ==> fs.inodes[dp].nlink == old(fs.inodes)[dp].nlink
    ensures r.Linked? ==> DirMap(fs.Contents()[dp]) == DirMap(old(fs.Contents()[dp]))[Key(name) := inum]
    ensures r.Linked? ==> fs.Contents() == old(fs.Contents())[dp := fs.Contents()[dp]]
    ensures r.Linked? ==> var es := Entries(old(fs.Contents()[dp]));
      Entries(fs.Contents()[dp]) == Put(es, FirstDead(es, 0), Entry(inum, Key(name)))
    ensures r.Linked? && Dotted(Entries(old(fs.Contents()[dp]))) ==> Dotted(Entries(fs.Contents()[dp]))
    ensures !r.Panic? ==> fs.LogsSince(old(fs.I()), old(fs.logged))
  {
    hide Volume.Ok; hide OnDisk; hide Logs;
    LogsNothing(fs.I(), fs.bmapstart, fs.inodestart, fs.logged);
    hide EntryAt;
    hide MapOf;
    var found, _ := Dirlookup(fs, dp, name);
    if found != 0 {
      return Exists;
    }
    var k := FindDead(fs, dp);
    var de := Strncpy(name);
    FirstDeadIs(Entries(fs.Contents()[dp]), k);
    r := WriteEntry(fs, dp, k, Encode(inum, de), inum, Key(name));
  }

  /** The first dead entry, or the end. */
  method FindDead(fs: Fs, dp: nat) returns (k: nat)
    requires IsDir(fs, dp)
    modifies fs
    ensures fs.V() == old(fs.V()) && fs.iblocks == old(fs.iblocks) && fs.logged == old(fs.logged)
    ensures IsDir(fs, dp) && fs.Contents() == old(fs.Contents())
    ensures k <= |Entries(fs.Contents()[dp])| && (k < |Entries(fs.Contents()[dp])| ==>
          Entries(fs.Contents()[dp])[k].inum == 0)
    ensures forall j :: 0 <= j < k ==> Entries(fs.Contents()[dp])[j].inum != 0
  {
    hide Volume.Ok; hide OnDisk;
    hide Unique;
    hide EntryAt;
    ghost var es := Entries(fs.Contents()[dp]);
    assert fs.inodes[dp].size == |fs.Contents()[dp]|;
    k := 0;
    while k * DIRENT < fs.inodes[dp].size
      invariant fs.V() == old(fs.V()) && fs.iblocks == old(fs.iblocks) && fs.logged == old(fs.logged)
      invariant IsDir(fs, dp) && fs.Contents() == old(fs.Contents()) && es == Entries(fs.Contents()[dp])
      invariant k <= |es| && forall j :: 0 <= j < k ==> es[j].inum != 0
      invariant fs.inodes[dp].size == |fs.Contents()[dp]|
      decreases |es| - k
    {
      var e, _ := ReadEntry(fs, dp, k);
      if e.inum == 0 {
        return;
      }
      k := k + 1;
    }
  }

  /** The directory after an entry was written at place k, dead until then. */
  lemma EntryWritten(c: seq<byte>, k: nat, de: seq<byte>, inum: nat, key: seq<byte>)
    requires DirOk(c) && Unique(Entries(c)) && k <= |Entries(c)| && (k < |Entries(c)| ==> Entries(c)[k].inum == 0)
    requires |de| == DIRENT && Decode(de) == Entry(inum, key) && inum != 0 && key !in DirMap(c)
    ensures var r := Overwrite(c, k * DIRENT, de);
      && Entries(r) == Put(Entries(c), k, Entry(inum, key)) && Unique(Entries(r)) && |r| % DIRENT == 0
      && DirMap(r) == DirMap(c)[key := inum] && (Dotted(Entries(c)) ==> Dotted(Entries(r)))
  {
    hide Unique; hide EntryAt; hide MapOf; hide Decode; hide Dotted;
    PutBytes(c, k, de);
    Adds(Entries(c), k, Entry(inum, key));
    if Dotted(Entries(c)) {
      DotsStay(Entries(c), k, Entry(inum, key));
    }
  }

  method WriteEntry(fs: Fs, dp: nat, k: nat, de: seq<byte>, ghost inum: nat, ghost key: seq<byte>)
    returns (r: LinkResult)
    requires IsDir(fs, dp) && |de| == DIRENT && Decode(de) == Entry(inum, key) && inum != 0
    requires key !in DirMap(fs.Contents()[dp])
    requires k <= |Entries(fs.Contents()[dp])|
    requires k < |Entries(fs.Contents()[dp])| ==> Entries(fs.Contents()[dp])[k].inum == 0
    modifies fs
    ensures !r.Exists? && (r.Panic? ==> fs.Full() || |old(fs.Contents()[dp])| == MAXBYTES)
    ensures r.Panic? <==>
      k == |Entries(old(fs.Contents()[dp]))| && !MayGrow(old(fs.V()), dp, |old(fs.Contents()[dp])| + DIRENT)
    ensures r.Linked? ==>
      IsDir(fs, dp) && |fs.inodes| == |old(fs.inodes)| && fs.inodes == old(fs.inodes)[dp := fs.inodes[dp]]
    ensures r.Linked? ==> fs.inodes[dp].nlink == old(fs.inodes)[dp].nlink
    ensures r.Linked? ==> DirMap(fs.Contents()[dp]) == DirMap(old(fs.Contents()[dp]))[key := inum]
    ensures r.Linked? ==> fs.Contents() == old(fs.Contents())[dp := fs.Contents()[dp]]
    ensures r.Linked? ==> Entries(fs.Contents()[dp]) == Put(Entries(old(fs.Contents()[dp])), k, Entry(inum, key))
    ensures r.Linked? && Dotted(Entries(old(fs.Contents()[dp]))) ==> Dotted(Entries(fs.Contents()[dp]))
    ensures r.Linked? ==> fs.LogsSince(old(fs.I()), old(fs.logged))
  {
    hide Volume.Ok; hide OnDisk; hide Logs;
    hide Unique;
    hide EntryAt;
    hide MapOf;
    hide Decode;
    hide Dotted;
    hide Put;
    ghost var c := fs.Contents()[dp];
    assert fs.inodes[dp].size == |c|;
    var w := fs.Writei(dp, de, k * DIRENT);
    if !w.Done? {
      return LinkResult.Panic;
    }
    EntryWritten(c, k, de, inum, key);
    return Linked;
  }

  /** unlink's write of a zeroed entry. It overwrites bytes the file has, so it cannot run out of blocks, and the
      panic that guards it is never reached. */
  method ClearEntry(fs: Fs, dp: nat, k: nat) returns (r: LinkResult)
    requires IsDir(fs, dp) && k < |Entries(fs.Contents()[dp])| && Entries(fs.Contents()[dp])[k].inum != 0
    modifies fs
    ensures r.Linked?
    ensures IsDir(fs, dp) && fs.inodes == old(fs.inodes)
    ensures DirMap(fs.Contents()[dp]) == DirMap(old(fs.Contents()[dp])) - {Entries(old(fs.Contents()[dp]))[k].key}
    ensures fs.Contents() == old(fs.Contents())[dp := fs.Contents()[dp]]
    ensures var es := Entries(old(fs.Contents()[dp]));
      Dotted(es) && es[k].key != DOT && es[k].key != DOTDOT ==> Dotted(Entries(fs.Contents()[dp]))
    ensures fs.LogsSince(old(fs.I()), old(fs.logged))
  {
    hide Volume.Ok; hide OnDisk; hide Logs;
    hide Unique;
    hide EntryAt;
    hide MapOf;
    ghost var c := fs.Contents()[dp];
    assert fs.inodes[dp].size == |c|;
    var de := seq(DIRENT, i => 0);
    var w := fs.Writei(dp, de, k * DIRENT);
    if !w.Done? {
      return LinkResult.Panic;
    }
    PutBytes(c, k, de);
    Removes(Entries(c), k, Decode(de));
    ghost var es := Entries(c);
    if Dotted(es) && es[k].key != DOT && es[k].key != DOTDOT {
      DotsStay(es, k, Decode(de));
    }
    return Linked;
  }

  /** The dot names of a new directory: "." and then "..". */
  method MakeDots(fs: Fs, ip: nat, dp: nat) returns (r: LinkResult)
    requires IsDir(fs, ip) && fs.Contents()[ip] == [] && 0 < ip < 65536 && 0 < dp < 65536
    modifies fs
    ensures !r.Exists? && (r.Panic? ==> fs.Full()) && (r.Panic? <==> Free(old(fs.V())) == {})
    ensures r.Linked? ==>
      IsDir(fs, ip) && |fs.inodes| == |old(fs.inodes)| && fs.inodes == old(fs.inodes)[ip := fs.inodes[ip]]
    ensures r.Linked? ==> fs.inodes[ip].nlink == old(fs.inodes)[ip].nlink
    ensures r.Linked? ==> fs.Contents() == old(fs.Contents())[ip := fs.Contents()[ip]]
    ensures r.Linked? ==>
      Dotted(Entries(fs.Contents()[ip])) && DirMap(fs.Contents()[ip]) == map[DOT := ip, DOTDOT := dp]
    ensures r.Linked? ==> fs.LogsSince(old(fs.I()), old(fs.logged))
  {
    hide Volume.Ok; hide OnDisk; hide Unique; hide EntryAt; hide NoRoom; hide Logs;
    DotKeys();
    assert Entries(fs.Contents()[ip]) == [];
    RoomForDots(fs, ip);
    r := Dirlink(fs, ip, DOT, ip);
    if r.Linked? {
      assert Entries(fs.Contents()[ip]) == [Entry(ip, DOT)];
      RoomForDots(fs, ip);
      ghost var m, l := fs.I(), fs.logged;
      r := Dirlink(fs, ip, DOTDOT, dp);
      if r.Linked? {
        LogsTwice(old(fs.I()), m, fs.I(), fs.bmapstart, fs.inodestart, l, fs.logged);
      }
    }
  }

  /** The first entry of a directory needs a block, the second does not. */
  lemma RoomForDots(fs: Fs, d: nat)
    requires fs.Valid() && d < |fs.inodes|
    ensures fs.Contents()[d] == [] ==> (NoRoom(fs.V(), d, []) <==> Free(fs.V()) == {})
    ensures |fs.Contents()[d]| == DIRENT ==> !NoRoom(fs.V(), d, fs.Contents()[d])
  {
    hide Owned; hide Mapped; hide NoHoles; hide OnDisk; hide Free; hide EntryAt;
    assert |fs.Contents()[d]| == fs.inodes[d].size;
  }

  lemma DotKeys()
    ensures Key(DOT) == DOT && Key(DOTDOT) == DOTDOT && DOT != DOTDOT
  {
  }

  /** Nothing but "." and ".." is left. */
  method Isdirempty(fs: Fs, dp: nat) returns (r: bool)
    requires IsDir(fs, dp)
    modifies fs
    ensures fs.V() == old(fs.V()) && fs.iblocks == old(fs.iblocks) && fs.logged == old(fs.logged)
    ensures IsDir(fs, dp) && fs.Contents() == old(fs.Contents())
    ensures r <==> forall j :: 2 <= j < |Entries(fs.Contents()[dp])| ==> Entries(fs.Contents()[dp])[j].inum == 0
    ensures Dotted(Entries(fs.Contents()[dp])) ==> (r <==> DirMap(fs.Contents()[dp]).Keys == {DOT, DOTDOT})
  {
    hide Volume.Ok; hide OnDisk;
    hide Unique;
    hide EntryAt;
    ghost var es := Entries(fs.Contents()[dp]);
    assert fs.inodes[dp].size == |fs.Contents()[dp]|;
    if Dotted(es) {
      OnlyDots(es);
    }
    var k := 2;
    while k * DIRENT < fs.inodes[dp].size
      invariant fs.V() == old(fs.V()) && fs.iblocks == old(fs.iblocks) && fs.logged == old(fs.logged)
      invariant IsDir(fs, dp) && fs.Contents() == old(fs.Contents()) && es == Entries(fs.Contents()[dp])
      invariant 2 <= k && forall j :: 2 <= j < k && j < |es| ==> es[j].inum == 0
      invariant fs.inodes[dp].size == |fs.Contents()[dp]|
      decreases |es| - k
    {
      var e, _ := ReadEntry(fs, dp, k);
      if e.inum != 0 {
        return false;
      }
      k := k + 1;
    }
    return true;
  }
}
