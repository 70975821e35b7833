module Recovery {
  // Crash safety of the file system as a whole: what a disk says when its blocks are read as inodes, free map,
  // indirect blocks and directories, and that a crash at any moment leaves a disk that says something sound.

  import opened Blocks
  import opened Volume
  import opened Dinodes
  import opened Files
  import opened Directory
  import Links
  import opened Syscalls
  import LogDisk
  import LogSystem

  /** The super block, and where the metadata ends. */
  datatype Super = Super(log: LogDisk.Layout, inodestart: nat, ninodes: nat, bmapstart: nat, nbitmap: nat, nmeta: nat)

  function InodeBlocks(sb: Super): (r: nat) {
    (sb.ninodes + IPB - 1) / IPB
  }

  /** The log, then the inode blocks, then the free map, then the files. */
  predicate Laid(sb: Super, n: nat) {
    && sb.log.start + sb.log.size <= sb.inodestart
    && sb.inodestart + InodeBlocks(sb) <= sb.bmapstart && sb.bmapstart + sb.nbitmap <= sb.nmeta <= n
  }

  // ------------------------------------------------------------------ reading a disk

  function Shift(k: nat): (r: nat)
    ensures r > 0
  {
    if k == 0 then 1 else if k == 1 then 256 else if k == 2 then 65536 else 16777216
  }

  /** Byte k of a block of little-endian words. */
  function ByteAt(b: LogDisk.Block, k: nat): (r: byte)
    requires k < BSIZE
  {
    b[k / 4] / Shift(k % 4) % 256
  }

  function BytesOf(b: LogDisk.Block): (r: Block) {
    seq(BSIZE, k requires 0 <= k < BSIZE => ByteAt(b, k))
  }

  function BitsOf(b: LogDisk.Block): (r: BitBlock) {
    seq(BSIZE, k requires 0 <= k < BSIZE => ByteAt(b, k) as bv8)
  }

  function DiskBytes(d: LogDisk.Disk): (r: seq<Block>)
    ensures |r| == |d| && forall b :: 0 <= b < |d| ==> r[b] == BytesOf(d[b])
  {
    seq(|d|, b requires 0 <= b < |d| => BytesOf(d[b]))
  }

  /** The free map in the n blocks from block `start` on. */
  function BitsFrom(d: LogDisk.Disk, start: nat, n: nat): (r: Bitmap)
    requires start + n <= |d|
    ensures |r| == n && forall k :: 0 <= k < n ==> r[k] == BitsOf(d[start + k])
  {
    if n == 0 then [] else BitsFrom(d, start, n - 1) + [BitsOf(d[start + n - 1])]
  }

  function BitmapOf(sb: Super, d: LogDisk.Disk): (r: Bitmap)
    requires Laid(sb, |d|)
  {
    BitsFrom(d, sb.bmapstart, sb.nbitmap)
  }

  function InodeAt(sb: Super, d: LogDisk.Disk, i: nat): (r: Inode)
    requires Laid(sb, |d|) && i < sb.ninodes
  {
    GetInode(BytesOf(d[sb.inodestart + i / IPB]), i % IPB)
  }

  lemma FourBytes(b: LogDisk.Block, j: nat)
    requires j < NINDIRECT
    ensures BytesOf(b)[4 * j] == b[j] % 256 && BytesOf(b)[4 * j + 1] == b[j] / 256 % 256
    ensures BytesOf(b)[4 * j + 2] == b[j] / 65536 % 256 && BytesOf(b)[4 * j + 3] == b[j] / 16777216 % 256
  {
    assert (4 * j) / 4 == j && (4 * j + 1) / 4 == j && (4 * j + 2) / 4 == j && (4 * j + 3) / 4 == j;
    assert (4 * j) % 4 == 0 && (4 * j + 1) % 4 == 1 && (4 * j + 2) % 4 == 2 && (4 * j + 3) % 4 == 3;
  }

  lemma WordOnDisk(b: LogDisk.Block, j: nat)
    requires j < NINDIRECT && b[j] < UINT
    ensures Word(BytesOf(b), j) == b[j]
  {
    hide BytesOf;
    FourBytes(b, j);
    WordBytes(b[j]);
  }

  predicate FullWords(b: LogDisk.Block) {
    forall j :: 0 <= j < NINDIRECT ==> b[j] < UINT
  }

  /** The fields of an inode, as the sixteen words from o on: type in the low half of the first, links in the high half
      of the second, then size and addresses. */
  ghost predicate SpelledBy(ip: Inode, b: seq<nat>, o: nat)
    requires o + 16 <= |b|
  {
    && ip.kind == b[o] % 65536 && ip.size == b[o + 2]
    && -32768 <= ip.nlink < 32768 && ip.nlink + (if ip.nlink < 0 then 65536 else 0) == b[o + 1] / 65536
    && |ip.addrs| == 13 && forall j :: 0 <= j < 13 ==> ip.addrs[j] == b[o + 3 + j]
  }

  lemma InodeInBlock(b: LogDisk.Block, k: nat)
    requires FullWords(b) && k < 8
    ensures SpelledBy(GetInode(BytesOf(b), k), b, 16 * k)
  {
    hide BytesOf; hide Word;
    forall n | 16 * k <= n < 16 * k + 16 ensures Word(BytesOf(b), n) == b[n] {
      WordOnDisk(b, n);
    }
  }

  /** The bit of block b lies in block bmapstart + b / 4096, there in byte b % 4096 / 8, and there is worth
      1 << (b % 8). */
  lemma BitOnDisk(sb: Super, d: LogDisk.Disk, b: nat)
    requires Laid(sb, |d|) && b < sb.nbitmap * BPB && b / 4096 < sb.nbitmap
    ensures Bit(BitmapOf(sb, d), b) <==>
      (ByteAt(d[sb.bmapstart + b / 4096], b % 4096 / 8) as bv8 >> (b % 8)) % 2 == 1
  {
    hide ByteAt; hide GetBit; hide BitsFrom;
    var bits := BitsOf(d[sb.bmapstart + b / 4096]);
    assert BitmapOf(sb, d)[b / BPB] == bits;
    BitPlace(bits, b % BPB);
    assert b % BPB % 8 == b % 8;
  }

  /** Inode i lies in block inodestart + i / 8, as number i % 8. */
  lemma InodeOnDisk(sb: Super, d: LogDisk.Disk, i: nat)
    requires Laid(sb, |d|) && i < sb.ninodes && FullWords(d[sb.inodestart + i / 8])
    ensures SpelledBy(InodeAt(sb, d, i), d[sb.inodestart + i / 8], 16 * (i % 8))
  {
    hide GetInode;
    InodeInBlock(d[sb.inodestart + i / 8], i % 8);
  }

  function InodesOf(sb: Super, d: LogDisk.Disk): (r: seq<Inode>)
    requires Laid(sb, |d|)
    ensures |r| == sb.ninodes && forall i :: 0 <= i < sb.ninodes ==> r[i] == InodeAt(sb, d, i)
  {
    seq(sb.ninodes, i requires 0 <= i < sb.ninodes => InodeAt(sb, d, i))
  }

  ghost function VolOf(sb: Super, d: LogDisk.Disk, owner: map<nat, Own>, cnts: seq<nat>): (r: Vol)
    requires Laid(sb, |d|)
  {
    Vol(sb.nmeta, BitmapOf(sb, d), DiskBytes(d), InodesOf(sb, d), owner, cnts)
  }

  /** The files of a volume as byte sequences. */
  ghost function FilesOf(v: Vol): (r: seq<seq<byte>>)
    requires Ok(v, {})
    ensures |r| == |v.inodes| && forall i :: 0 <= i < |r| ==> r[i] == Bytes(v, i, v.inodes[i].size)
  {
    seq(|v.inodes|, i requires 0 <= i < |v.inodes| => Bytes(v, i, v.inodes[i].size))
  }

  /** Every block has one owner, the free map marks exactly the blocks of allocated inodes, files have the blocks their
      sizes ask for, and directories are directories. */
  ghost predicate Whole(v: Vol) {
    && Ok(v, {}) && FreeOwnNothing(v)
    && (forall i :: 0 <= i < |v.inodes| ==> v.cnts[i] == BlocksFor(v.inodes[i].size))
    && Regular(v.inodes, FilesOf(v))
  }

  /** And link counts are right, and the directories are a tree. */
  ghost predicate SoundVol(v: Vol) {
    Whole(v) && Links.Inv(StoreOf(v.inodes, FilesOf(v)))
  }

  /** What the system calls leave is sound in this sense. */
  lemma SoundFs(fs: Fs)
    requires Syscalls.Sound(fs)
    ensures SoundVol(fs.V())
  {
    hide Volume.Ok; hide OnDisk; hide DirBytes; hide DirMap; hide Links.Inv; hide FreeOwnNothing;
    assert FilesOf(fs.V()) == fs.Contents();
  }

  ghost predicate Sound(sb: Super, d: LogDisk.Disk) {
    Laid(sb, |d|) && exists owner, cnts :: SoundVol(VolOf(sb, d, owner, cnts))
  }

  // ------------------------------------------------------------------ only home blocks matter

  /** The volumes differ in blocks below the files only. */
  predicate SameFrom(v: Vol, w: Vol) {
    && w == Vol(v.nmeta, v.bitmap, w.disk, v.inodes, v.owner, v.cnts) && |w.disk| == |v.disk|
    && forall b :: v.nmeta <= b < |v.disk| ==> w.disk[b] == v.disk[b]
  }

  lemma SameFromOk(v: Vol, w: Vol)
    requires Ok(v, {}) && SameFrom(v, w)
    ensures Ok(w, {}) && forall i, k :: At(w, i, k) == At(v, i, k)
  {
    assert Sized(w);
    forall i, s | 0 <= i < |v.inodes| && SlotOk(s) ensures AddrOf(w, i, s) == AddrOf(v, i, s) {
      AddrInDisk(v, i, Ind);
    }
    forall k | 0 <= k < |v.disk| ensures Bit(w.bitmap, k) <==> k < v.nmeta || k in v.owner || k in {} {
      assert Bit(v.bitmap, k) <==> k < v.nmeta || k in v.owner || k in {};
    }
    SameFromAt(v, w);
  }

  lemma SameFromAt(v: Vol, w: Vol)
    requires Ok(v, {}) && SameFrom(v, w) && Ok(w, {})
    requires forall i, s :: 0 <= i < |v.inodes| && SlotOk(s) ==> AddrOf(w, i, s) == AddrOf(v, i, s)
    ensures forall i, k :: At(w, i, k) == At(v, i, k)
  {
    forall i: nat, k: nat ensures At(w, i, k) == At(v, i, k) {
      if InFile(v, i, k) {
        AddrInDisk(v, i, Data(k / BSIZE));
        assert AddrOf(v, i, Data(k / BSIZE)) != 0;
      }
    }
  }

  lemma SameFromSound(v: Vol, w: Vol)
    requires SoundVol(v) && SameFrom(v, w)
    ensures SoundVol(w)
  {
    hide Owned; hide Mapped; hide NoHoles; hide At; hide Regular; hide Links.Inv; hide StoreOf;
    SameFromOk(v, w);
    forall i | 0 <= i < |v.inodes| ensures FilesOf(w)[i] == FilesOf(v)[i] {
      var n := v.inodes[i].size;
      forall k | 0 <= k < n ensures Bytes(w, i, n)[k] == Bytes(v, i, n)[k] {
        assert At(w, i, k) == At(v, i, k);
      }
    }
    assert FilesOf(w) == FilesOf(v);
  }

  lemma SameHomesSame(sb: Super, d: LogDisk.Disk, e: LogDisk.Disk, owner: map<nat, Own>,
      cnts: seq<nat>)
    requires Laid(sb, |d|) && LogDisk.SameHome(sb.log, d, e)
    ensures Laid(sb, |e|) && SameFrom(VolOf(sb, d, owner, cnts), VolOf(sb, e, owner, cnts))
  {
    hide GetInode; hide BytesOf; hide BitsOf;
    forall i | 0 <= i < sb.ninodes ensures InodesOf(sb, e)[i] == InodesOf(sb, d)[i] {
      assert i / IPB < InodeBlocks(sb);
    }
    assert InodesOf(sb, e) == InodesOf(sb, d);
    assert BitmapOf(sb, e) == BitmapOf(sb, d);
  }

  lemma SoundIsOfHomes(sb: Super, d: LogDisk.Disk, e: LogDisk.Disk)
    requires LogDisk.SameHome(sb.log, d, e) && Sound(sb, d)
    ensures Sound(sb, e)
  {
    hide SoundVol; hide SameFrom;
    var owner, cnts :| SoundVol(VolOf(sb, d, owner, cnts));
    SameHomesSame(sb, d, e, owner, cnts);
    SameFromSound(VolOf(sb, d, owner, cnts), VolOf(sb, e, owner, cnts));
  }

  // ------------------------------------------------------------------ the theorem

  /** A disk that holds the bitmap, inode blocks and file blocks of a sound volume is sound. */
  lemma HeldIsSound(sb: Super, d: LogDisk.Disk, v: Vol, iblocks: seq<Block>)
    requires Laid(sb, |d|) && SoundVol(v) && OnDisk(iblocks, v.inodes)
    requires v.nmeta == sb.nmeta && |v.disk| == |d| && |v.inodes| == sb.ninodes && |iblocks| == InodeBlocks(sb)
    requires v.bitmap == BitmapOf(sb, d)
    requires forall b :: 0 <= b < |iblocks| ==> iblocks[b] == BytesOf(d[sb.inodestart + b])
    requires forall b :: sb.nmeta <= b < |d| ==> v.disk[b] == BytesOf(d[b])
    ensures Sound(sb, d)
  {
    hide GetInode; hide BytesOf; hide BitsOf; hide SoundVol;
    forall i | 0 <= i < sb.ninodes ensures InodesOf(sb, d)[i] == v.inodes[i] {
      assert i / IPB < InodeBlocks(sb);
    }
    assert InodesOf(sb, d) == v.inodes;
    SameFromSound(v, VolOf(sb, d, v.owner, v.cnts));
  }

  // ------------------------------------------------------------------ the calls of a burst

  /** The disk holds these blocks: free map, inode blocks and files. */
  ghost predicate Holds(sb: Super, d: LogDisk.Disk, a: Image) {
    && Laid(sb, |d|) && |a.bitmap| == sb.nbitmap && |a.iblocks| == InodeBlocks(sb) && |a.disk| == |d|
    && (forall k :: 0 <= k < |a.bitmap| ==> a.bitmap[k] == BitsOf(d[sb.bmapstart + k]))
    && (forall k :: 0 <= k < |a.iblocks| ==> a.iblocks[k] == BytesOf(d[sb.inodestart + k]))
    && (forall b :: sb.nmeta <= b < |d| ==> a.disk[b] == BytesOf(d[b]))
  }

  /** The blocks are those of the volume. */
  ghost predicate Images(sb: Super, a: Image, v: Vol) {
    && a.bitmap == v.bitmap && a.disk == v.disk && OnDisk(a.iblocks, v.inodes)
    && v.nmeta == sb.nmeta && |v.inodes| == sb.ninodes
  }

  /** Contents that read as block b of the image. */
  ghost predicate Spells(sb: Super, a: Image, b: nat, data: LogDisk.Block) {
    && (sb.bmapstart <= b < sb.bmapstart + |a.bitmap| ==> BitsOf(data) == a.bitmap[b - sb.bmapstart])
    && (sb.inodestart <= b < sb.inodestart + |a.iblocks| ==> BytesOf(data) == a.iblocks[b - sb.inodestart])
    && (sb.nmeta <= b < |a.disk| ==> BytesOf(data) == a.disk[b])
  }

  /** From moment m to moment n the calls wrote every block in `logged`, and left the contents of image c. */
  ghost predicate WritesOut(sb: Super, steps: seq<LogSystem.Step>, m: nat, n: nat, c: Image, logged: set<nat>)
    requires m <= n <= |steps|
  {
    forall b: nat {:trigger LogSystem.LastWrite(steps, m, n, b)} ::
      var w := LogSystem.LastWrite(steps, m, n, b);
      (b in logged ==> w.Some?) && (w.Some? ==> Spells(sb, c, b, w.value))
  }

  lemma BlockHeld(sb: Super, d: LogDisk.Disk, e: LogDisk.Disk, a: Image, c: Image, logged: set<nat>,
      steps: seq<LogSystem.Step>, m: nat, n: nat)
    requires Holds(sb, d, a) && Logs(a, c, sb.bmapstart, sb.inodestart, logged) && |e| == |d| && m <= n <= |steps|
    requires WritesOut(sb, steps, m, n, c, logged)
    requires forall b :: 0 <= b < |d| && !LogDisk.InLog(sb.log, b) ==>
      e[b] == var w := LogSystem.LastWrite(steps, m, n, b); if w.Some? then w.value else d[b]
    ensures Holds(sb, e, c)
  {
    hide BytesOf; hide BitsOf; hide LogSystem.LastWrite;
    forall k | 0 <= k < |c.bitmap| ensures c.bitmap[k] == BitsOf(e[sb.bmapstart + k]) {
      var w := LogSystem.LastWrite(steps, m, n, sb.bmapstart + k);
    }
    forall k | 0 <= k < |c.iblocks| ensures c.iblocks[k] == BytesOf(e[sb.inodestart + k]) {
      var w := LogSystem.LastWrite(steps, m, n, sb.inodestart + k);
    }
    forall b | sb.nmeta <= b < |e| ensures c.disk[b] == BytesOf(e[b]) {
      var w := LogSystem.LastWrite(steps, m, n, b);
    }
  }

  /** The names changed by steps of Links, new entries into linked directories, and the volume is whole again. */
  ghost predicate Moves(v: Vol, w: Vol, steps: seq<Links.Step>) {
    && Whole(v) && Whole(w)
    && TakesProperly(StoreOf(v.inodes, FilesOf(v)), steps, StoreOf(w.inodes, FilesOf(w)))
  }

  /** What a system call, or several one after the other, leave behind: the volume v with blocks a became w with
      blocks c, and every block that changed was logged. */
  datatype Call = Call(v: Vol, a: Image, w: Vol, c: Image, logged: set<nat>, names: seq<Links.Step>)

  ghost predicate IsCall(sb: Super, x: Call) {
    && Images(sb, x.a, x.v) && Images(sb, x.c, x.w) && Moves(x.v, x.w, x.names)
    && Logs(x.a, x.c, sb.bmapstart, sb.inodestart, x.logged)
  }

  /** The super block describes the file system. */
  ghost predicate On(sb: Super, fs: Fs)
    reads fs
  {
    && fs.nmeta == sb.nmeta && fs.bmapstart == sb.bmapstart && fs.inodestart == sb.inodestart
    && |fs.inodes| == sb.ninodes
  }

  /** Each of the system calls of Syscalls that succeeds is a call in this sense. */
  twostate lemma CallMade(sb: Super, fs: Fs, names: seq<Links.Step>, l: set<nat>)
    requires old(Syscalls.Sound(fs)) && Syscalls.Sound(fs) && old(On(sb, fs)) && On(sb, fs)
    requires TakesProperly(old(NamesOn(fs)), names, NamesOn(fs)) && fs.LogsSince(old(fs.I()), l)
    ensures IsCall(sb, Call(old(fs.V()), old(fs.I()), fs.V(), fs.I(), fs.logged, names))
  {
    hide Volume.Ok; hide OnDisk; hide DirBytes; hide DirMap; hide Links.Inv; hide FreeOwnNothing; hide Logs;
    hide TakesProperly; hide Regular;
    assert FilesOf(old(fs.V())) == old(fs.Contents());
    assert FilesOf(fs.V()) == fs.Contents();
  }

  /** From moment m to moment n of the run, the log was given what the call x logged. */
  ghost predicate Makes(sb: Super, states: seq<LogSystem.Sys>, steps: seq<LogSystem.Step>, m: nat, n: nat, x: Call)
    requires m <= n < |states| == |steps| + 1
  {
    && LogDisk.LogOk(sb.log, states[m].disk) && Holds(sb, LogSystem.Volatile(sb.log, states[m]), x.a)
    && IsCall(sb, x) && WritesOut(sb, steps, m, n, x.c, x.logged)
  }

  /** Two whole volumes with the same inodes and file blocks have the same files. */
  lemma SameFilesOf(v: Vol, w: Vol)
    requires Whole(v) && Whole(w) && v.inodes == w.inodes && v.nmeta == w.nmeta && |v.disk| == |w.disk|
    requires forall b :: v.nmeta <= b < |v.disk| ==> w.disk[b] == v.disk[b]
    ensures FilesOf(w) == FilesOf(v)
  {
    hide Mapped; hide Regular;
    assert w.cnts == v.cnts;
    forall i, s | 0 <= i < |v.inodes| && SlotOk(s) ensures AddrOf(w, i, s) == AddrOf(v, i, s) {
      AddrInDisk(v, i, Ind);
    }
    forall i: nat, k: nat ensures At(w, i, k) == At(v, i, k) {
      if InFile(v, i, k) {
        AddrInDisk(v, i, Data(k / BSIZE));
        assert AddrOf(v, i, Data(k / BSIZE)) != 0;
      }
    }
    forall i | 0 <= i < |v.inodes| ensures FilesOf(w)[i] == FilesOf(v)[i] {
      var n := v.inodes[i].size;
      forall k | 0 <= k < n ensures Bytes(w, i, n)[k] == Bytes(v, i, n)[k] {
        assert At(w, i, k) == At(v, i, k);
      }
    }
  }

  /** A sound disk that holds a whole volume holds a sound one. */
  lemma HeldWasSound(sb: Super, d: LogDisk.Disk, a: Image, v: Vol)
    requires Sound(sb, d) && Holds(sb, d, a) && Images(sb, a, v) && Whole(v)
    ensures SoundVol(v)
  {
    hide Volume.Ok; hide Regular; hide Links.Inv; hide StoreOf; hide BytesOf; hide BitsOf; hide GetInode; hide OnDisk;
    hide FreeOwnNothing;
    var owner, cnts :| SoundVol(VolOf(sb, d, owner, cnts));
    var u := VolOf(sb, d, owner, cnts);
    HeldInodes(sb, d, a, v);
    SameFilesOf(u, v);
  }

  lemma HeldInodes(sb: Super, d: LogDisk.Disk, a: Image, v: Vol)
    requires Holds(sb, d, a) && Images(sb, a, v)
    ensures InodesOf(sb, d) == v.inodes && BitmapOf(sb, d) == v.bitmap
  {
    hide GetInode; hide BytesOf; hide BitsOf;
    forall i | 0 <= i < sb.ninodes ensures InodesOf(sb, d)[i] == v.inodes[i] {
      assert i / IPB < InodeBlocks(sb);
    }
  }

  lemma CallKeepsSound(sb: Super, states: seq<LogSystem.Sys>, steps: seq<LogSystem.Step>, m: nat, n: nat, x: Call)
    requires LogSystem.IsRun(sb.log, states, steps) && m <= n < |states| == |steps| + 1
    requires !LogSystem.AnyCrash(steps, m, n) && Makes(sb, states, steps, m, n, x)
    requires Sound(sb, LogSystem.Volatile(sb.log, states[m]))
    ensures LogDisk.LogOk(sb.log, states[n].disk) && Sound(sb, LogSystem.Volatile(sb.log, states[n]))
  {
    hide Sound; hide LogSystem.IsRun; hide LogSystem.Volatile; hide LogDisk.LogOk; hide LogSystem.AnyCrash; hide Whole;
    hide Holds; hide Images; hide WritesOut; hide Logs; hide Links.Inv; hide StoreOf; hide TakesProperly;
    hide LogSystem.LastWrite; hide SoundVol;
    LogSystem.StretchWrites(sb.log, states, steps, m, n, 0);
    var d, e := LogSystem.Volatile(sb.log, states[m]), LogSystem.Volatile(sb.log, states[n]);
    forall b | 0 <= b < |d| && !LogDisk.InLog(sb.log, b)
      ensures e[b] == var w := LogSystem.LastWrite(steps, m, n, b); if w.Some? then w.value else d[b]
    {
      LogSystem.StretchWrites(sb.log, states, steps, m, n, b);
    }
    BlockHeld(sb, d, e, x.a, x.c, x.logged, steps, m, n);
    HeldWasSound(sb, d, x.a, x.v);
    MovedIsSound(x.v, x.w, x.names);
    HeldByImage(sb, e, x.c, x.w);
  }

  lemma MovedIsSound(v: Vol, w: Vol, steps: seq<Links.Step>)
    requires SoundVol(v) && Moves(v, w, steps)
    ensures SoundVol(w)
  {
    hide Volume.Ok; hide Regular; hide Links.Inv; hide StoreOf; hide TakesProperly;
    StepsKeepInv(StoreOf(v.inodes, FilesOf(v)), steps, StoreOf(w.inodes, FilesOf(w)));
  }

  lemma HeldByImage(sb: Super, d: LogDisk.Disk, a: Image, v: Vol)
    requires Holds(sb, d, a) && Images(sb, a, v) && SoundVol(v)
    ensures Sound(sb, d)
  {
    hide SoundVol; hide BytesOf; hide BitsOf; hide OnDisk;
    HeldInodes(sb, d, a, v);
    HeldIsSound(sb, d, v, a.iblocks);
  }

  // ------------------------------------------------------------------ crashes

  /** Between two moments without calls and without a crash, the log was given what system calls log. */
  ghost predicate BurstsAreCalls(sb: Super, states: seq<LogSystem.Sys>, steps: seq<LogSystem.Step>)
    requires |states| == |steps| + 1
  {
    forall m: nat, n: nat {:trigger LogSystem.Burst(states, m, n)} ::
      LogSystem.Burst(states, m, n) && !LogSystem.AnyCrash(steps, m, n) ==>
        exists x :: Makes(sb, states, steps, m, n, x)
  }

  /** If each burst of calls logs what system calls log, then after any number of crashes at any moments recovery
      gives a sound volume. */
  lemma CrashesLeaveSound(sb: Super, states: seq<LogSystem.Sys>, steps: seq<LogSystem.Step>, i: nat)
    requires LogSystem.IsRun(sb.log, states, steps) && i < |states| && Sound(sb, states[0].disk)
    requires BurstsAreCalls(sb, states, steps)
    ensures LogDisk.LogOk(sb.log, states[i].disk) && Sound(sb, LogSystem.Durable(sb.log, states[i]))
  {
    hide Sound; hide LogSystem.IsRun; hide LogSystem.CallsKeep; hide LogSystem.Durable; hide LogSystem.Volatile;
    hide Makes; hide LogSystem.AnyCrash;
    assert |states| == |steps| + 1 by { LogSystem.RunLength(sb.log, states, steps); }
    var P: LogDisk.Disk -> bool := d => Sound(sb, d);
    forall d, e | LogDisk.SameHome(sb.log, d, e) ensures P(d) <==> P(e) {
      if Sound(sb, d) {
        SoundIsOfHomes(sb, d, e);
      }
      if Sound(sb, e) {
        SoundIsOfHomes(sb, e, d);
      }
    }
    forall m: nat, n: nat | LogSystem.Burst(states, m, n) && !LogSystem.AnyCrash(steps, m, n)
      && LogSystem.Sees(sb.log, states[m], P)
      ensures LogSystem.Sees(sb.log, states[n], P)
    {
      var x :| Makes(sb, states, steps, m, n, x);
      CallKeepsSound(sb, states, steps, m, n, x);
    }
    LogSystem.BurstsAreEnough(sb.log, states, steps, P);
    LogSystem.CrashesKeep(sb.log, states, steps, P, i);
  }
}
