/** Inode operations: allocating blocks, mapping file blocks, reading, writing, truncating. */
module Files {
  import opened Blocks
  import opened Volume
  import opened Sets
  import opened Options
  import opened Params
  import opened Dinodes

  const MAXBYTES: nat := 71680      // MAXFILE * BSIZE

  function Min(a: nat, b: nat): nat {
    if a < b then a else b
  }

  function BlocksFor(n: nat): (r: nat) {
    (n + 511) / 512
  }

  /** The n numbers from start on. */
  function Range(start: nat, n: nat): (r: set<nat>)
    ensures |r| == n && forall x: nat :: x in r <==> start <= x < start + n
  {
    if n == 0 then {} else Range(start, n - 1) + {start + n - 1}
  }

  lemma WritingStart(v: Vol, i: nat, off: nat)
    requires Ok(v, {}) && i < |v.inodes| && BlocksFor(off) <= v.cnts[i]
    ensures Writing(v, v, i, off, [])
  {
  }

  /** Where a chunk within one block goes, in blocks and bytes. */
  lemma ChunkPlace(o: nat, m: nat, k: nat)
    requires 0 < m && o % 512 + m <= 512
    ensures BlocksFor(o + m) == o / 512 + 1 && BlocksFor(o) <= o / 512 + 1
    ensures o <= k < o + m <==> k / 512 == o / 512 && o % 512 <= k % 512 < o % 512 + m
    ensures o <= k < o + m ==> k % 512 - o % 512 == k - o
  {
  }

  lemma ReachedAt(w: Vol, x: Vol, i: nat, bn: nat, j: nat, k: nat)
    requires Reached(w, x, i, bn) && (InFile(w, j, k) || j != i)
    ensures At(x, j, k) == At(w, j, k)
  {
    if !InFile(w, j, k) {
      assert !InFile(x, j, k);
    }
  }

  lemma ReachedOk(w: Vol, x: Vol, i: nat, bn: nat)
    requires Reached(w, x, i, bn)
    ensures Sized(w) && Ok(x, {}) && Sized(x) && i < |w.cnts| && i < |x.inodes|
    ensures AddrOf(x, i, Data(bn)) < |x.disk| && KeepsSlack(w, x, i, bn + 1)
  {
    AddrInDisk(x, i, Data(bn));
  }

  lemma StoredSlack(w: Vol, x: Vol, i: nat, n: nat, a: nat, data: Block)
    requires Sized(w) && Sized(x) && i < |w.inodes| && i < |x.inodes| && KeepsSlack(w, x, i, n) && a < |x.disk|
    ensures Sized(Stored(x, a, data)) && KeepsSlack(w, Stored(x, a, data), i, n)
  {
    hide Bit;
    var y := Stored(x, a, data);
    assert Free(y) == Free(x);
    forall m | n <= m ensures Slack(y, i, m) == Slack(w, i, m) {
      assert Slack(x, i, m) == Slack(w, i, m);
    }
  }

  /** One byte of one file after a chunk was stored. */
  lemma ChunkStored(x: Vol, i: nat, o: nat, chunk: seq<byte>, j: nat, k: nat)
    requires Ok(x, {}) && InFile(x, i, o) && |chunk| > 0 && o % BSIZE + |chunk| <= BSIZE
    ensures var a := AddrOf(x, i, Data(o / BSIZE));
      && a < |x.disk|
      && var y := Stored(x, a, Patch(x.disk[a], o % BSIZE, chunk));
         && Ok(y, {})
         && At(y, j, k) == if j == i && o <= k < o + |chunk| then chunk[k - o] else At(x, j, k)
  {
    var s := Data(o / BSIZE);
    var a := AddrOf(x, i, s);
    AddrInDisk(x, i, s);
    assert a in x.owner && x.owner[a] == Own(i, s);
    var data := Patch(x.disk[a], o % BSIZE, chunk);
    StoredOk(x, {}, a, data);
    StoredAt(x, a, data, j, k);
    ChunkPlace(o, |chunk|, k);
    if InFile(x, j, k) {
      AddrInDisk(x, j, Data(k / BSIZE));
    }
  }

  /** The next block of a write is one the file has, or the next one. */
  lemma WritingRoom(v: Vol, w: Vol, i: nat, off: nat, done: seq<byte>)
    requires Writing(v, w, i, off, done) && off + |done| < MAXBYTES
    ensures i < |w.inodes| && (off + |done|) / BSIZE < MAXFILE && (off + |done|) / BSIZE <= w.cnts[i]
    ensures BlocksFor(off + |done|) <= w.cnts[i]
  {
  }

  lemma WritingAhead(o: nat, end: nat)
    requires o < end
    ensures o / BSIZE < BlocksFor(end)
  {
  }

  /** What has been written lacks no block. */
  lemma WritingLacks(v: Vol, w: Vol, i: nat, off: nat, done: seq<byte>)
    requires Writing(v, w, i, off, done)
    ensures Sized(w) && i < |w.inodes| && Slack(w, i, BlocksFor(off + |done|)) >= 0
  {
  }

  lemma WritingStep(v: Vol, w: Vol, x: Vol, i: nat, off: nat, o: nat, a: nat, done: seq<byte>,
      chunk: seq<byte>)
    requires Sized(w) && Sized(x) && i < |w.cnts| && i < |x.inodes|
    requires Writing(v, w, i, off, done) && |chunk| > 0 && o == off + |done|
    requires o % BSIZE + |chunk| <= BSIZE && o / BSIZE < MAXFILE
    requires Reached(w, x, i, o / BSIZE) && (o / BSIZE < w.cnts[i] ==> x == w)
    requires a == AddrOf(x, i, Data(o / BSIZE))
    ensures a < |x.disk|
    ensures Ok(Stored(x, a, Patch(x.disk[a], o % BSIZE, chunk)), {})
    ensures Writing(v, Stored(x, a, Patch(x.disk[a], o % BSIZE, chunk)), i, off, done + chunk)
  {
    hide Owned; hide Mapped; hide At;
    ChunkPlace(o, |chunk|, o);
    assert InFile(x, i, o);
    ChunkStored(x, i, o, chunk, i, o);
    var y := Stored(x, a, Patch(x.disk[a], o % BSIZE, chunk));
    forall j: nat, k: nat | j != i ensures At(y, j, k) == At(v, j, k) {
      ChunkStored(x, i, o, chunk, j, k);
      ReachedAt(w, x, i, o / BSIZE, j, k);
    }
    forall k: nat | off <= k < o + |chunk| ensures At(y, i, k) == (done + chunk)[k - off] {
      ChunkStored(x, i, o, chunk, i, k);
      if k < o {
        ReachedAt(w, x, i, o / BSIZE, i, k);
      }
    }
    forall k: nat | InFile(v, i, k) && !(off <= k < o + |chunk|) ensures At(y, i, k) == At(v, i, k) {
      ChunkStored(x, i, o, chunk, i, k);
      ReachedAt(w, x, i, o / BSIZE, i, k);
    }
  }

  lemma {:induction false} FileBlocksKept(v: Vol, w: Vol, i: nat, from: nat, to: nat)
    requires Ok(v, {}) && Ok(w, {}) && i < |v.inodes| && i < |w.inodes| && SameAddrs(v, w, i)
    requires to <= v.cnts[i] <= w.cnts[i]
    ensures FileBlocks(v, i, from, to) == FileBlocks(w, i, from, to)
  {
    if from < to {
      FileBlocksKept(v, w, i, from, to - 1);
      assert AddrOf(w, i, Data(to - 1)) == AddrOf(v, i, Data(to - 1));
    }
  }

  lemma StoredAddrs(x: Vol, i: nat, bn: nat, data: Block)
    requires Ok(x, {}) && i < |x.inodes| && bn < x.cnts[i] <= MAXFILE
    ensures var a := AddrOf(x, i, Data(bn));
      && a < |x.disk|
      && var y := Stored(x, a, data);
         Ok(y, {}) && SameAddrs(x, y, i)
  {
    hide At; hide Mapped;
    var a := AddrOf(x, i, Data(bn));
    AddrInDisk(x, i, Data(bn));
    assert a in x.owner && x.owner[a] == Own(i, Data(bn));
    StoredOk(x, {}, a, data);
    var y := Stored(x, a, data);
    forall k | 0 <= k < x.cnts[i] && k < MAXFILE ensures AddrOf(y, i, Data(k)) == AddrOf(x, i, Data(k)) {
      StoredAddr(x, {}, a, data, i, Data(k));
    }
  }

  /** What has been logged stays within bounds as the write reaches the next block and stores into it. */
  lemma {:induction false} LoggedStep(w: Vol, x: Vol, i: nat, from: nat, o: nat, m: nat, data: Block)
    requires Ok(w, {}) && Reached(w, x, i, o / BSIZE) && 0 < m && o % BSIZE + m <= BSIZE && BlocksFor(o) <= w.cnts[i]
    requires from <= o / BSIZE
    ensures var a := AddrOf(x, i, Data(o / BSIZE));
      && a < |x.disk|
      && var y := Stored(x, a, data);
         && Ok(y, {}) && |x.bitmap| == |w.bitmap|
         && IndBlock(w.inodes[i]) <= IndBlock(y.inodes[i])
         && FileBlocks(w, i, from, BlocksFor(o)) + {a} <= FileBlocks(y, i, from, BlocksFor(o + m))
  {
    hide At; hide Mapped; hide Owned;
    var bn := o / BSIZE;
    ChunkPlace(o, m, o);
    StoredAddrs(x, i, bn, data);
    var a := AddrOf(x, i, Data(bn));
    var y := Stored(x, a, data);
    FileBlocksKept(w, x, i, from, BlocksFor(o));
    FileBlocksKept(x, y, i, from, BlocksFor(o));
    assert AddrOf(y, i, Data(bn)) == a;
    assert a in FileBlocks(y, i, from, bn + 1);
  }

  /** The first n bytes of a file's blocks. */
  ghost function Bytes(v: Vol, i: nat, n: nat): (r: seq<byte>)
    requires Ok(v, {})
    ensures |r| == n && forall k :: 0 <= k < n ==> r[k] == At(v, i, k)
  {
    seq(n, k requires 0 <= k < n => At(v, i, k))
  }

  lemma ReadChunk(v: Vol, i: nat, n: nat, o: nat, m: nat)
    requires Ok(v, {}) && InFile(v, i, o) && o % BSIZE + m <= BSIZE && o + m <= n
    ensures AddrOf(v, i, Data(o / BSIZE)) < |v.disk|
    ensures Bytes(v, i, n)[o..o + m] == v.disk[AddrOf(v, i, Data(o / BSIZE))][o % BSIZE..o % BSIZE + m]
  {
    hide At; hide Owned; hide Mapped;
    ChunkBytes(v, i, o, m);
    var all, b := Bytes(v, i, n), v.disk[AddrOf(v, i, Data(o / BSIZE))];
    forall k | o <= k < o + m ensures all[k] == b[k - o + o % BSIZE] {
      assert all[k] == At(v, i, k);
    }
  }

  lemma WrittenBytes(v: Vol, w: Vol, i: nat, off: nat, src: seq<byte>, size: nat)
    requires Writing(v, w, i, off, src) && off <= size && BlocksFor(size) <= v.cnts[i]
    ensures Bytes(w, i, if off + |src| <= size then size else off + |src|) == Overwrite(Bytes(v, i, size), off, src)
  {
    hide At; hide Owned; hide Mapped;
    var n := if off + |src| <= size then size else off + |src|;
    var a, b := Bytes(w, i, n), Overwrite(Bytes(v, i, size), off, src);
    forall k | 0 <= k < n ensures a[k] == b[k] {
      assert a[k] == At(w, i, k);
      if k < size {
        assert k / 512 < BlocksFor(size);
        assert InFile(v, i, k);
      }
    }
  }

  lemma WrittenOthers(v: Vol, w: Vol, i: nat, off: nat, src: seq<byte>)
    requires Writing(v, w, i, off, src)
    ensures forall j, n :: 0 <= j && 0 <= n && j != i ==> Bytes(w, j, n) == Bytes(v, j, n)
  {
    hide At; hide Owned; hide Mapped;
    forall j, n | 0 <= j && 0 <= n && j != i ensures Bytes(w, j, n) == Bytes(v, j, n) {
      forall k | 0 <= k < n ensures Bytes(w, j, n)[k] == Bytes(v, j, n)[k] {
        assert At(w, j, k) == At(v, j, k);
      }
    }
  }

  /** What a finished write means for the number of blocks and the in-memory inode. */
  lemma WrittenShape(v: Vol, w: Vol, i: nat, off: nat, src: seq<byte>, size: nat)
    requires Writing(v, w, i, off, src) && off <= size && size == v.inodes[i].size && v.cnts[i] == BlocksFor(size)
    ensures |w.inodes| == |v.inodes| && |w.cnts| == |v.cnts| && |w.bitmap| == |v.bitmap|
    ensures off + |src| <= size ==> w.inodes == v.inodes && w.cnts == v.cnts
    ensures off + |src| > size ==> w.cnts == v.cnts[i := BlocksFor(off + |src|)]
    ensures forall j :: 0 <= j < |v.inodes| && j != i ==> w.inodes[j] == v.inodes[j]
    ensures w.inodes[i].size == size && w.inodes[i].kind == v.inodes[i].kind && w.inodes[i].nlink == v.inodes[i].nlink
  {
    hide At; hide Owned; hide Mapped; hide InFile;
    assert off + |src| <= size ==> BlocksFor(off + |src|) <= BlocksFor(size);
    assert off + |src| >= size ==> BlocksFor(off + |src|) >= BlocksFor(size);
  }

  /** Writing to an allocated inode, and then changing its size, gives blocks to no other inode. */
  lemma WrittenLive(v: Vol, w: Vol, i: nat, off: nat, src: seq<byte>, o: nat)
    requires Writing(v, w, i, off, src) && FreeOwnNothing(v) && v.inodes[i].kind != 0
    ensures i < |w.inodes| && FreeOwnNothing(w) && FreeOwnNothing(Resized(w, i, o))
  {
    hide Ok; hide At; hide InFile; hide BlocksFor;
  }

  lemma ResizedSlack(v: Vol, w: Vol, i: nat, n: nat, o: nat)
    requires Sized(v) && Sized(w) && i < |v.inodes| && i < |w.inodes| && KeepsSlack(v, w, i, n)
    ensures Sized(Resized(w, i, o)) && KeepsSlack(v, Resized(w, i, o), i, n)
  {
    hide Bit;
    var y := Resized(w, i, o);
    assert Free(y) == Free(w);
    forall m | n <= m ensures Slack(y, i, m) == Slack(v, i, m) {
      assert Slack(w, i, m) == Slack(v, i, m);
    }
  }

  /** An inode that a write has changed fits on the disk. */
  lemma GrownFits(v: Vol, w: Vol, i: nat, off: nat, src: seq<byte>, blocks: seq<Block>)
    requires Writing(v, w, i, off, src) && OnDisk(blocks, v.inodes) && off + |src| <= MAXBYTES
    ensures i < |w.inodes| && Fits(Inode(w.inodes[i].kind, w.inodes[i].nlink, off + |src|, w.inodes[i].addrs))
  {
    hide Owned; hide Mapped; hide NoHoles; hide At; hide InFile; hide BlocksFor; hide OnDisk;
    OnDiskFits(blocks, v.inodes, i);
    AddrsFit(w, {}, i);
  }

  /** A change of size alone changes no byte. */
  lemma ResizedBytes(v: Vol, i: nat, n: nat)
    requires Ok(v, {}) && i < |v.inodes| && Ok(Resized(v, i, n), {})
    requires forall j, k :: At(Resized(v, i, n), j, k) == At(v, j, k)
    ensures forall j, m :: 0 <= j && 0 <= m ==> Bytes(Resized(v, i, n), j, m) == Bytes(v, j, m)
  {
    hide At;
    forall j, m | 0 <= j && 0 <= m ensures Bytes(Resized(v, i, n), j, m) == Bytes(v, j, m) {
      forall k | 0 <= k < m ensures Bytes(Resized(v, i, n), j, m)[k] == Bytes(v, j, m)[k] {
        assert At(Resized(v, i, n), j, k) == At(v, j, k);
      }
    }
  }

  function Resized(v: Vol, i: nat, n: nat): (r: Vol)
    requires i < |v.inodes|
  {
    var ip := v.inodes[i];
    Vol(v.nmeta, v.bitmap, v.disk, v.inodes[i := Inode(ip.kind, ip.nlink, n, ip.addrs)], v.owner, v.cnts)
  }

  lemma ResizedOk(v: Vol, i: nat, n: nat)
    requires Ok(v, {}) && i < |v.inodes|
    ensures Ok(Resized(v, i, n), {})
    ensures forall j, k :: At(Resized(v, i, n), j, k) == At(v, j, k)
    ensures SameAddrs(v, Resized(v, i, n), i)
  {
    var w := Resized(v, i, n);
    assert Sized(w);
    forall j, s | 0 <= j < |v.inodes| && SlotOk(s) ensures AddrOf(w, j, s) == AddrOf(v, j, s) {
    }
    forall k | 0 <= k < |v.disk| ensures Bit(w.bitmap, k) <==> k < v.nmeta || k in v.owner {
      assert Bit(v.bitmap, k) <==> k < v.nmeta || k in v.owner || k in {};
    }
  }

  lemma InSized(v: Vol, i: nat, o: nat)
    requires Ok(v, {}) && i < |v.inodes| && v.cnts[i] == BlocksFor(v.inodes[i].size) && o < v.inodes[i].size
    ensures InFile(v, i, o) && o / BSIZE < MAXFILE && o / BSIZE < v.cnts[i]
  {
  }

  /** What a write comes to; Panic is the kernel's panic when no block is free. */
  datatype Outcome = Error | Panic | Done(count: nat)

  /** A byte sequence with some bytes replaced, longer if they reach past its end. */
  function Overwrite(c: seq<byte>, off: nat, src: seq<byte>): (r: seq<byte>)
    requires off <= |c|
  {
    c[..off] + src + if off + |src| <= |c| then c[off + |src|..] else []
  }

  /** The bytes written are there, the bytes around them stay, and the file is as long as need be. */
  lemma OverwriteMeaning(c: seq<byte>, off: nat, src: seq<byte>, k: nat)
    requires off <= |c|
    ensures var r := Overwrite(c, off, src);
      && |r| == (if off + |src| <= |c| then |c| else off + |src|) && r[off..off + |src|] == src
      && (k < |r| && !(off <= k < off + |src|) ==> k < |c| && r[k] == c[k])
  {
  }

  function Patch(b: Block, o: nat, src: seq<byte>): (r: Block)
    requires o + |src| <= BSIZE
  {
    b[..o] + src + b[o + |src|..]
  }

  /** The indirect block, if there is one. */
  function IndBlock(ip: Inode): (r: set<nat>)
    requires |ip.addrs| > NDIRECT
  {
    if ip.addrs[NDIRECT] == 0 then {} else {ip.addrs[NDIRECT]}
  }

  /** The disk blocks of a file's blocks from `from` up to, not including, `to`. */
  ghost function FileBlocks(v: Vol, i: nat, from: nat, to: nat): (r: set<nat>)
    requires Ok(v, {}) && i < |v.inodes|
    ensures to <= v.cnts[i] ==> forall bn :: from <= bn < to ==> AddrOf(v, i, Data(bn)) in r
    ensures |r| <= if from < to then to - from else 0
  {
    if from < to <= v.cnts[i] then FileBlocks(v, i, from, to - 1) + {AddrOf(v, i, Data(to - 1))} else {}
  }

  /** A write in progress: `done` is in place at off, and all else is as it was. */
  ghost predicate Writing(v: Vol, w: Vol, i: nat, off: nat, done: seq<byte>) {
    && Ok(v, {}) && Ok(w, {}) && OnlyFile(v, w, i) && |w.bitmap| == |v.bitmap|
    && w.cnts[i] == (if BlocksFor(off + |done|) <= v.cnts[i] then v.cnts[i] else BlocksFor(off + |done|))
    && (w.cnts[i] == v.cnts[i] ==> w.inodes == v.inodes)
    && (forall j: nat, k: nat :: j != i ==> At(w, j, k) == At(v, j, k))
    && (forall k: nat {:trigger At(w, i, k)} :: off <= k < off + |done| ==> At(w, i, k) == done[k - off])
    && (forall k: nat {:trigger At(w, i, k)} :: InFile(v, i, k) && !(off <= k < off + |done|) ==>
          At(w, i, k) == At(v, i, k))
  }

  // ------------------------------------------------------------------ truncation

  /** Block b is one of the first k file blocks of file i. */
  predicate Among(v: Vol, i: nat, k: nat, b: nat) {
    b in v.owner && v.owner[b].inum == i && v.owner[b].slot.Data? && v.owner[b].slot.bn < k
  }

  /** The free map after the first k file blocks of file i were freed. */
  predicate Freeing(v: Vol, m: Bitmap, i: nat, k: nat) {
    && Sized(v) && |m| == |v.bitmap|
    && forall b {:trigger Bit(m, b)} :: 0 <= b < |v.disk| ==> (Bit(m, b) <==> Bit(v.bitmap, b) && !Among(v, i, k, b))
  }

  lemma FreeingSize(v: Vol, m: Bitmap, i: nat, k: nat)
    requires Freeing(v, m, i, k)
    ensures |m| == |v.bitmap|
  {
  }

  lemma FreeingNothing(v: Vol, i: nat)
    requires Sized(v)
    ensures Freeing(v, v.bitmap, i, 0)
  {
  }

  /** The next slot's block, if it holds one, is still marked, and freeing it is one more step. */
  lemma FreeingStep(v: Vol, m: Bitmap, i: nat, bn: nat)
    requires Ok(v, {}) && i < |v.inodes| && bn < MAXFILE && Freeing(v, m, i, bn)
    ensures var a := AddrOf(v, i, Data(bn));
      && a < |v.disk| && a / BPB < |m|
      && (a != 0 ==> Bit(m, a) && Freeing(v, Unmarked(m, a), i, bn + 1))
      && (a == 0 ==> Freeing(v, m, i, bn + 1))
  {
    var a := AddrOf(v, i, Data(bn));
    AddrInDisk(v, i, Data(bn));
    assert Bit(v.bitmap, a) <==> a < v.nmeta || a in v.owner;
    forall b | 0 <= b < |v.disk| ensures Among(v, i, bn + 1, b) <==> Among(v, i, bn, b) || (a != 0 && b == a) {
      if b in v.owner && v.owner[b] == Own(i, Data(bn)) {
        assert AddrOf(v, i, Data(bn)) == b;
      }
    }
    forall b | 0 <= b < |v.disk| ensures a != 0 ==> (Bit(Unmarked(m, a), b) <==> b != a && Bit(m, b)) {
      BitmapMeaning(m, a, b);
    }
  }

  predicate Unowned(v: Vol, m: Bitmap, i: nat) {
    && Sized(v) && |m| == |v.bitmap|
    && forall b {:trigger Bit(m, b)} :: 0 <= b < |v.disk| ==>
         (Bit(m, b) <==> Bit(v.bitmap, b) && !(b in v.owner && v.owner[b].inum == i))
  }

  lemma FreeingIndirect(v: Vol, m: Bitmap, i: nat)
    requires Ok(v, {}) && i < |v.inodes| && Freeing(v, m, i, MAXFILE) && v.inodes[i].addrs[NDIRECT] != 0
    ensures var a := v.inodes[i].addrs[NDIRECT];
      a < |v.disk| && a / BPB < |m| && Bit(m, a) && Unowned(v, Unmarked(m, a), i)
  {
    var a := AddrOf(v, i, Ind);
    AddrInDisk(v, i, Ind);
    assert a in v.owner && v.owner[a] == Own(i, Ind);
    assert Bit(v.bitmap, a) <==> a < v.nmeta || a in v.owner;
    forall b | 0 <= b < |v.disk| ensures (b in v.owner && v.owner[b].inum == i) <==> Among(v, i, MAXFILE, b) || b == a {
      if b in v.owner && v.owner[b] == Own(i, Ind) {
        assert AddrOf(v, i, Ind) == b;
      }
    }
    forall b | 0 <= b < |v.disk| ensures Bit(Unmarked(m, a), b) <==> b != a && Bit(m, b) {
      BitmapMeaning(m, a, b);
    }
  }

  lemma FreeingNoIndirect(v: Vol, m: Bitmap, i: nat)
    requires Ok(v, {}) && i < |v.inodes| && Freeing(v, m, i, NDIRECT) && v.inodes[i].addrs[NDIRECT] == 0
    ensures Unowned(v, m, i)
  {
    forall b | 0 <= b < |v.disk| ensures (b in v.owner && v.owner[b].inum == i) <==> Among(v, i, NDIRECT, b) {
      if b in v.owner && v.owner[b].inum == i {
        assert AddrOf(v, i, v.owner[b].slot) == b;
      }
    }
  }

  lemma TruncatedBytes(v: Vol, i: nat, m: Bitmap)
    requires Ok(v, {}) && i < |v.inodes| && Ok(Truncated(v, i, m), {})
    requires forall j, k :: j != i ==> At(Truncated(v, i, m), j, k) == At(v, j, k)
    ensures forall j, n :: 0 <= j && 0 <= n && j != i ==> Bytes(Truncated(v, i, m), j, n) == Bytes(v, j, n)
  {
    hide At;
    forall j, n | 0 <= j && 0 <= n && j != i ensures Bytes(Truncated(v, i, m), j, n) == Bytes(v, j, n) {
      forall k | 0 <= k < n ensures Bytes(Truncated(v, i, m), j, n)[k] == Bytes(v, j, n)[k] {
        assert At(Truncated(v, i, m), j, k) == At(v, j, k);
      }
    }
  }

  lemma OverwriteNothing(c: seq<byte>, off: nat)
    ensures off <= |c| ==> Overwrite(c, off, []) == c
  {
  }

  /** Two writes one after the other are one write. */
  lemma OverwriteTwice(c: seq<byte>, off: nat, a: seq<byte>, b: seq<byte>)
    ensures off <= |c| ==>
      && |c| <= |Overwrite(c, off, a)| && off + |a| <= |Overwrite(c, off, a)|
      && Overwrite(Overwrite(c, off, a), off + |a|, b) == Overwrite(c, off, a + b)
  {
    if off <= |c| {
      var x, y := Overwrite(Overwrite(c, off, a), off + |a|, b), Overwrite(c, off, a + b);
      assert |x| == |y|;
      forall k | 0 <= k < |x| ensures x[k] == y[k] {
      }
    }
  }

  /** A write of at most three blocks' worth of bytes logs at most seven blocks: one free-map block, the inode's,
      the indirect block, and four blocks of data. */
  lemma LoggedSize(v: Vol, m: Bitmap, i: nat, off: nat, n: nat, logged: set<nat>, bmapstart: nat,
      ib: nat)
    requires Ok(v, {}) && i < |v.inodes| && |m| == 1 && n <= 1536
    requires logged <=
      Range(bmapstart, |m|) + {ib} + IndBlock(v.inodes[i]) + FileBlocks(v, i, off / BSIZE, BlocksFor(off + n))
    ensures |logged| <= 7
  {
    hide Owned; hide Mapped; hide NoHoles; hide FileBlocks;
    var a, b, c, d := Range(bmapstart, |m|), {ib}, IndBlock(v.inodes[i]),
      FileBlocks(v, i, off / BSIZE, BlocksFor(off + n));
    assert BlocksFor(off + n) - off / BSIZE <= 4;
    assert |a + b| <= 2 && |a + b + c| <= 3 && |a + b + c + d| <= 7;
    SubsetSize(logged, a + b + c + d);
  }

  // ------------------------------------------------------------------ allocating and freeing inodes

  /** An inode after memset and the assignment of its type. */
  function Cleared(kind: nat): (r: Inode) {
    Inode(kind, 0, 0, seq(NDIRECT + 1, k => 0))
  }

  function WithInode(v: Vol, i: nat, ip: Inode): (r: Vol)
    requires i < |v.inodes|
  {
    Vol(v.nmeta, v.bitmap, v.disk, v.inodes[i := ip], v.owner, v.cnts)
  }

  /** An inode without blocks has no address to lose. */
  lemma ClearedOk(v: Vol, i: nat, kind: nat)
    requires Ok(v, {}) && i < |v.inodes| && v.cnts[i] == 0
    ensures Ok(WithInode(v, i, Cleared(kind)), {})
    ensures forall j, k :: At(WithInode(v, i, Cleared(kind)), j, k) == At(v, j, k)
  {
    var w := WithInode(v, i, Cleared(kind));
    assert Sized(w);
    assert AddrOf(v, i, Ind) == 0;
    forall j, s | 0 <= j < |v.inodes| && SlotOk(s) ensures AddrOf(w, j, s) == AddrOf(v, j, s) {
      assert j == i && s.Data? ==> (AddrOf(v, i, Data(s.bn)) != 0 <==> s.bn < v.cnts[i]);
    }
    forall k | 0 <= k < |v.disk| ensures Bit(w.bitmap, k) <==> k < v.nmeta || k in v.owner || k in {} {
      assert Bit(v.bitmap, k) <==> k < v.nmeta || k in v.owner || k in {};
    }
  }

  lemma ClearedBytes(v: Vol, i: nat, kind: nat)
    requires Ok(v, {}) && i < |v.inodes| && Ok(WithInode(v, i, Cleared(kind)), {})
    requires forall j, k :: At(WithInode(v, i, Cleared(kind)), j, k) == At(v, j, k)
    ensures forall j, m :: 0 <= j && 0 <= m ==> Bytes(WithInode(v, i, Cleared(kind)), j, m) == Bytes(v, j, m)
  {
    hide At;
    var w := WithInode(v, i, Cleared(kind));
    forall j, m | 0 <= j && 0 <= m ensures Bytes(w, j, m) == Bytes(v, j, m) {
      forall k | 0 <= k < m ensures Bytes(w, j, m)[k] == Bytes(v, j, m)[k] {
        assert At(w, j, k) == At(v, j, k);
      }
    }
  }

  function WithLinks(ip: Inode, n: int): (r: Inode) {
    Inode(ip.kind, n, ip.size, ip.addrs)
  }

  /** A link count alone changes no address and no byte. */
  lemma RelinkedOk(v: Vol, i: nat, n: int)
    requires Ok(v, {}) && i < |v.inodes|
    ensures Ok(WithInode(v, i, WithLinks(v.inodes[i], n)), {})
    ensures forall j, k :: At(WithInode(v, i, WithLinks(v.inodes[i], n)), j, k) == At(v, j, k)
  {
    var w := WithInode(v, i, WithLinks(v.inodes[i], n));
    assert Sized(w);
    forall j, s | 0 <= j < |v.inodes| && SlotOk(s) ensures AddrOf(w, j, s) == AddrOf(v, j, s) {
    }
    forall k | 0 <= k < |v.disk| ensures Bit(w.bitmap, k) <==> k < v.nmeta || k in v.owner || k in {} {
      assert Bit(v.bitmap, k) <==> k < v.nmeta || k in v.owner || k in {};
    }
  }

  lemma RelinkedBytes(v: Vol, i: nat, n: int)
    requires Ok(v, {}) && i < |v.inodes| && Ok(WithInode(v, i, WithLinks(v.inodes[i], n)), {})
    requires forall j, k :: At(WithInode(v, i, WithLinks(v.inodes[i], n)), j, k) == At(v, j, k)
    ensures var w := WithInode(v, i, WithLinks(v.inodes[i], n));
      forall j, m :: 0 <= j && 0 <= m ==> Bytes(w, j, m) == Bytes(v, j, m)
  {
    hide At;
    var w := WithInode(v, i, WithLinks(v.inodes[i], n));
    forall j, m | 0 <= j && 0 <= m ensures Bytes(w, j, m) == Bytes(v, j, m) {
      forall k | 0 <= k < m ensures Bytes(w, j, m)[k] == Bytes(v, j, m)[k] {
        assert At(w, j, k) == At(v, j, k);
      }
    }
  }

  /** The free map of a new disk: the first n bits of as many blocks as the disk needs. */
  method MarkFirst(size: nat, n: nat) returns (m: Bitmap)
    requires 0 < n <= size
    ensures |m| == (size + BPB - 1) / BPB && size <= |m| * BPB
    ensures forall b :: 0 <= b < size ==> (Bit(m, b) <==> b < n)
  {
    m := seq((size + BPB - 1) / BPB, i => ZeroBits());
    forall b | 0 <= b < size ensures !Bit(m, b) {
      ZeroBit(b % BPB);
    }
    for i := 0 to n
      invariant |m| == (size + BPB - 1) / BPB
      invariant forall b :: 0 <= b < size ==> (Bit(m, b) <==> b < i)
    {
      ghost var was := m;
      m := m[i / BPB := SetBit(m[i / BPB], i % BPB)];
      forall b | 0 <= b < size ensures Bit(m, b) <==> b < i + 1 {
        BitmapMeaning(was, i, b);
      }
    }
  }

  function ZeroBits(): (r: BitBlock) {
    seq(BSIZE, i => 0)
  }

  lemma ZeroBit(i: nat)
    requires i < BPB
    ensures !GetBit(ZeroBits(), i)
  {
  }

  lemma FreshOnDisk(blocks: seq<Block>, inodes: seq<Inode>)
    requires |blocks| == (|inodes| + IPB - 1) / IPB && forall b :: 0 <= b < |blocks| ==> blocks[b] == ZeroBlock()
    requires forall i :: 0 <= i < |inodes| ==> inodes[i] == Cleared(0)
    ensures OnDisk(blocks, inodes)
  {
    hide GetInode;
    forall i | 0 <= i < |inodes| ensures GetInode(blocks[i / IPB], i % IPB) == inodes[i] {
      ZeroInode(i % IPB);
    }
  }

  lemma ZeroInode(k: nat)
    requires k < IPB
    ensures GetInode(ZeroBlock(), k) == Cleared(0)
  {
    assert WordsFrom(ZeroBlock(), 16 * k + 3, NDIRECT + 1) == Cleared(0).addrs;
  }

  lemma FreshOk(v: Vol)
    requires Sized(v) && v.owner == map[]
    requires forall b :: 0 <= b < |v.disk| ==> (Bit(v.bitmap, b) <==> b < v.nmeta)
    requires forall i :: 0 <= i < |v.inodes| ==> v.cnts[i] == 0 && v.inodes[i] == Cleared(0)
    ensures Ok(v, {})
  {
    forall i, s | 0 <= i < |v.inodes| && SlotOk(s) ensures AddrOf(v, i, s) == 0 {
    }
  }

  // ------------------------------------------------------------------ running out of blocks

  lemma NoneFree(v: Vol)
    requires Sized(v) && forall b :: 0 <= b < |v.disk| ==> Bit(v.bitmap, b)
    ensures Free(v) == {}
  {
  }

  /** The end of bmap, when the indirect block is there and the file block had to be taken. */
  lemma BmapGrew(v: Vol, w: Vol, x: Vol, i: nat, bn: nat, r: Option<nat>)
    requires Ok(v, {}) && Ok(w, {}) && i < |v.inodes| == |w.inodes| && bn == v.cnts[i] == w.cnts[i] >= NDIRECT
    requires w == v || (w.inodes[i].addrs[NDIRECT] != 0 && Extended(v, w, i, Ind, w.inodes[i].addrs[NDIRECT]))
    requires if r.None? then x == w && Free(w) == {} else Extended(w, x, i, Data(bn), r.value)
    ensures r.None? ==> Short(v, i, bn + 1)
    ensures r.Some? ==>
      Reached(v, x, i, bn) && r.value == AddrOf(x, i, Data(bn)) < |x.disk| && x.disk[r.value] == ZeroBlock()
    ensures r.Some? ==>
      |x.bitmap| == |w.bitmap| && i < |x.inodes| && x.inodes[i].addrs[NDIRECT] == w.inodes[i].addrs[NDIRECT]
  {
    hide Owned; hide Mapped; hide NoHoles; hide At; hide Slack; hide Free; hide Reached;
    assert w != v ==> KeepsSlack(v, w, i, NDIRECT + 1);
    SlackSelf(v, i);
    if r.Some? {
      ReachedOne(w, x, i, bn, r.value);
      if w != v {
        ReachedTwo(v, w, x, i, bn, w.inodes[i].addrs[NDIRECT], r.value);
      }
    } else {
      OutOfBlocks(v, w, i, if w == v then 0 else NDIRECT + 1, bn + 1);
    }
  }

  /** Too few blocks for a chunk are too few for all. */
  lemma ChunkSlack(v: Vol, i: nat, m: nat, n: nat)
    requires Sized(v) && i < |v.inodes| && m <= n
    ensures BlocksFor(m) <= BlocksFor(n) && Slack(v, i, BlocksFor(n)) <= Slack(v, i, BlocksFor(m))
  {
    hide Free;
  }

  lemma WholeSlack(v: Vol, i: nat, was: seq<byte>, off: nat, src: seq<byte>)
    requires Sized(v) && i < |v.inodes| && v.cnts[i] == BlocksFor(v.inodes[i].size)
    requires off <= |was| && v.inodes[i].size == |Overwrite(was, off, src)|
    ensures Slack(v, i, BlocksFor(off + |src|)) >= 0
  {
  }

  // ------------------------------------------------------------------ what is logged

  /** The blocks as they are in the cache: free map, inode blocks, and the rest. */
  datatype Image = Image(bitmap: Bitmap, iblocks: seq<Block>, disk: seq<Block>)

  /** Every block that differs between a and b was passed to log_write. */
  ghost predicate Logs(a: Image, b: Image, bstart: nat, istart: nat, logged: set<nat>) {
    && |b.bitmap| == |a.bitmap| && |b.iblocks| == |a.iblocks| && |b.disk| == |a.disk|
    && (forall k {:trigger b.bitmap[k]} :: 0 <= k < |a.bitmap| && b.bitmap[k] != a.bitmap[k] ==> bstart + k in logged)
    && (forall k {:trigger b.iblocks[k]} :: 0 <= k < |a.iblocks| && b.iblocks[k] != a.iblocks[k] ==>
          istart + k in logged)
    && (forall k {:trigger b.disk[k]} :: 0 <= k < |a.disk| && b.disk[k] != a.disk[k] ==> k in logged)
  }

  lemma LogsTwice(a: Image, b: Image, c: Image, bstart: nat, istart: nat, l: set<nat>, m: set<nat>)
    requires Logs(a, b, bstart, istart, l) && Logs(b, c, bstart, istart, m) && l <= m
    ensures Logs(a, c, bstart, istart, m)
  {
  }

  lemma LogsNothing(a: Image, bstart: nat, istart: nat, l: set<nat>)
    ensures Logs(a, a, bstart, istart, l)
  {
  }

  lemma LogsBlock(a: Image, k: nat, data: Block, bstart: nat, istart: nat, l: set<nat>)
    requires k < |a.disk| && k in l
    ensures Logs(a, Image(a.bitmap, a.iblocks, a.disk[k := data]), bstart, istart, l)
  {
  }

  lemma LogsInode(a: Image, k: nat, data: Block, bstart: nat, istart: nat, l: set<nat>)
    requires k < |a.iblocks| && istart + k in l
    ensures Logs(a, Image(a.bitmap, a.iblocks[k := data], a.disk), bstart, istart, l)
  {
  }

  class Fs {
    const nmeta: nat
    const inodestart: nat
    const bmapstart: nat
    var bitmap: Bitmap
    var disk: seq<Block>
    var inodes: seq<Inode>          // the in-memory copies
    var iblocks: seq<Block>         // the inode blocks
    ghost var owner: map<nat, Own>
    ghost var cnts: seq<nat>
    ghost var logged: set<nat>      // blocks passed to log_write in the current transaction

    /** A disk as mkfs leaves it before it makes the root directory: the metadata blocks marked, no inode in use. */
    constructor (meta: nat, size: nat, ninodes: nat, istart: nat, bstart: nat)
      requires 0 < meta <= size < UINT
      ensures Valid() && nmeta == meta && |disk| == size && |inodes| == ninodes && inodestart == istart
      ensures bmapstart == bstart
      ensures forall i :: 0 <= i < ninodes ==> inodes[i] == Cleared(0)
      ensures forall b :: 0 <= b < size ==> (Bit(bitmap, b) <==> b < meta)
      ensures Contents() == seq(ninodes, i => [])
    {
      nmeta, inodestart, bmapstart := meta, istart, bstart;
      disk := seq(size, b => ZeroBlock());
      inodes := seq(ninodes, i => Cleared(0));
      iblocks := seq((ninodes + IPB - 1) / IPB, i => ZeroBlock());
      owner, cnts, logged := map[], seq(ninodes, i => 0), {};
      var m := MarkFirst(size, meta);
      bitmap := m;
      new;
      FreshOk(V());
      FreshOnDisk(iblocks, inodes);
    }

    ghost function V(): Vol
      reads this
    {
      Vol(nmeta, bitmap, disk, inodes, owner, cnts)
    }

    ghost function I(): (r: Image)
      reads this
    {
      Image(bitmap, iblocks, disk)
    }

    /** What has been logged since `a` covers every block that changed. */
    ghost predicate LogsSince(a: Image, l: set<nat>)
      reads this
    {
      l <= logged && Logs(a, I(), bmapstart, inodestart, logged)
    }

    /** Between operations: in-memory and on-disk inodes agree, a file has the blocks its size asks for, and an inode
        that is not allocated has none. */
    ghost predicate Valid()
      reads this
    {
      && Ok(V(), {})
      && OnDisk(iblocks, inodes)
      && (forall i :: 0 <= i < |inodes| ==> cnts[i] == BlocksFor(inodes[i].size))
      && FreeOwnNothing(V())
    }

    ghost predicate Full()
      reads this
    {
      |disk| <= |bitmap| * BPB && forall b :: 0 <= b < |disk| ==> Bit(bitmap, b)
    }

    function BitmapBlock(b: nat): nat {
      b / BPB + bmapstart
    }

    function InodeBlock(i: nat): nat {
      i / IPB + inodestart
    }

    /** Find, mark and zero the first free block; none is the kernel's panic. */
    method Balloc() returns (r: Option<nat>)
      requires Ok(V(), {})
      modifies this`bitmap, this`disk, this`logged
      ensures r.None? ==> V() == old(V()) && logged == old(logged) && Full()
      ensures r.Some? ==>
        && r.value < |old(disk)| && !Bit(old(bitmap), r.value) && (forall k :: 0 <= k < r.value ==> Bit(old(bitmap), k))
        && V() == Taken(old(V()), r.value)
        && logged == old(logged) + {BitmapBlock(r.value), r.value}
      ensures r.Some? ==> LogsSince(old(I()), old(logged))
    {
      hide Owned; hide Mapped; hide NoHoles; hide GetBit;
      var b := 0;
      while b < |disk|
        invariant b % BPB == 0
        invariant forall k :: 0 <= k < b && k < |disk| ==> Bit(bitmap, k)
        invariant I() == old(I()) && V() == old(V()) && logged == old(logged)
      {
        var bi := 0;
        while bi < BPB && b + bi < |disk|
          invariant 0 <= bi <= BPB
          invariant forall k :: 0 <= k < b + bi && k < |disk| ==> Bit(bitmap, k)
          invariant I() == old(I()) && V() == old(V()) && logged == old(logged)
        {
          assert (b + bi) / BPB == b / BPB < |bitmap| && (b + bi) % BPB == bi;
          if !GetBit(bitmap[b / BPB], bi) {
            bitmap := bitmap[b / BPB := SetBit(bitmap[b / BPB], bi)];
            logged := logged + {BitmapBlock(b)};
            disk := disk[b + bi := ZeroBlock()];
            logged := logged + {b + bi};
            return Some(b + bi);
          }
          bi := bi + 1;
        }
        b := b + BPB;
      }
      return None;
    }

    /** Free a block that is marked. */
    method Bfree(b: nat)
      requires |disk| <= |bitmap| * BPB && b < |disk| && Bit(bitmap, b)
      modifies this`bitmap, this`logged
      ensures b / BPB < |old(bitmap)| && bitmap == Unmarked(old(bitmap), b)
      ensures logged == old(logged) + {BitmapBlock(b)}
      ensures LogsSince(old(I()), old(logged))
    {
      var bi := b % BPB;
      bitmap := bitmap[b / BPB := ClearBit(bitmap[b / BPB], bi)];
      logged := logged + {BitmapBlock(b)};
    }

    /** Copy an in-memory inode to its place in its inode block. The other inodes there and the device numbers stay. */
    method Iupdate(i: nat, ghost was: seq<Inode>)
      requires OnDisk(iblocks, was) && i < |inodes| == |was| && Fits(inodes[i])
      modifies this`iblocks, this`logged
      ensures OnDisk(iblocks, was[i := inodes[i]]) && |iblocks| == |old(iblocks)|
      ensures forall j :: 0 <= j < |iblocks| && j != i / IPB ==> iblocks[j] == old(iblocks)[j]
      ensures Devices(iblocks[i / IPB], i % IPB) == Devices(old(iblocks)[i / IPB], i % IPB)
      ensures logged == old(logged) + {InodeBlock(i)}
      ensures LogsSince(old(I()), old(logged))
    {
      hide GetInode; hide PutInode; hide OnDisk;
      OnDiskFits(iblocks, was, i);
      var b, k := iblocks[i / IPB], i % IPB;
      var (major, minor) := Devices(b, k);
      UpdatedOnDisk(iblocks, was, i, inodes[i], major, minor);
      PutDevices(b, k, inodes[i], major, minor);
      iblocks := iblocks[i / IPB := PutInode(b, k, inodes[i], major, minor)];
      logged := logged + {InodeBlock(i)};
    }

    /** The free-map blocks. */
    ghost function BitmapBlocks(): set<nat>
      reads this
    {
      Range(bmapstart, |bitmap|)
    }

    /** An address goes into an indirect block, which is logged. */
    method PutAddr(a: nat, j: nat, b: nat, ghost was: Image, ghost l: set<nat>)
      requires a < |disk| && j < NINDIRECT && b < 0x1_0000_0000 && LogsSince(was, l)
      modifies this`disk, this`logged
      ensures disk == old(disk)[a := PutWord(old(disk)[a], j, b)] && logged == old(logged) + {a} && LogsSince(was, l)
    {
      hide Logs; hide PutWord;
      ghost var m, k := I(), logged;
      LogsBlock(m, a, PutWord(disk[a], j, b), bmapstart, inodestart, logged + {a});
      disk := disk[a := PutWord(disk[a], j, b)];
      logged := logged + {a};
      LogsTwice(was, m, I(), bmapstart, inodestart, k, logged);
    }

    /** Take a free block and put it into an inode's next slot. */
    method Grow(i: nat, s: Slot) returns (r: Option<nat>)
      requires Ok(V(), {}) && Sized(V()) && i < |inodes| && SlotOk(s) && NextSlot(V(), i, s)
      modifies this`bitmap, this`disk, this`inodes, this`owner, this`cnts, this`logged
      ensures r.None? ==> Full() && V() == old(V()) && Free(V()) == {}
      ensures r.Some? ==> Extended(old(V()), V(), i, s, r.value)
      ensures r.Some? ==> logged <= old(logged) + BitmapBlocks() + {r.value} + IndBlock(inodes[i])
      ensures r.Some? ==> LogsSince(old(I()), old(logged))
    {
      hide Ok; hide At; hide Extended; hide Free; hide GetBit; hide PutWord; hide Logs;
      ghost var v := V();
      assert Sized(v);
      r := Balloc();
      if r.None? {
        NoneFree(v);
        return;
      }
      var b := r.value;
      GrownMeaning(v, i, s, b);
      if s.Ind? {
        inodes := inodes[i := WithAddr(inodes[i], NDIRECT, b)];
      } else if s.bn < NDIRECT {
        inodes := inodes[i := WithAddr(inodes[i], s.bn, b)];
        cnts := cnts[i := cnts[i] + 1];
      } else {
        PutAddr(inodes[i].addrs[NDIRECT], s.bn - NDIRECT, b, old(I()), old(logged));
        cnts := cnts[i := cnts[i] + 1];
      }
      owner := owner[b := Own(i, s)];
      assert V() == Attached(Taken(v, b), i, s, b);
      assert BitmapBlock(b) in BitmapBlocks();
    }

    /** The disk block of file block bn, allocated if it is the next one; none is the kernel's panic. */
    method Bmap(i: nat, bn: nat) returns (r: Option<nat>)
      requires Ok(V(), {}) && i < |inodes| && bn < MAXFILE && bn <= cnts[i]
      modifies this`bitmap, this`disk, this`inodes, this`owner, this`cnts, this`logged
      ensures r.None? ==> Full() && Short(old(V()), i, bn + 1)
      ensures r.Some? ==> Reached(old(V()), V(), i, bn) && r.value == AddrOf(V(), i, Data(bn))
      ensures r.Some? && bn == old(cnts)[i] ==> disk[r.value] == ZeroBlock()
      ensures bn < old(cnts)[i] ==> r.Some? && V() == old(V()) && logged == old(logged)
      ensures r.Some? ==> logged <= old(logged) + BitmapBlocks() + {r.value} + IndBlock(inodes[i])
      ensures r.Some? ==> LogsSince(old(I()), old(logged))
    {
      hide Logs;
      LogsNothing(I(), bmapstart, inodestart, logged);
      hide Owned; hide Mapped; hide At; hide KeepsSlack; hide Short; hide Free; hide Extended; hide Reached;
      ghost var v := V();
      AddrInDisk(v, i, Data(bn));
      SlackSelf(v, i);
      assert AddrOf(v, i, Data(bn)) != 0 <==> bn < cnts[i];
      if bn < cnts[i] {
        ReachedSelf(v, i, bn);
      }
      if bn < NDIRECT {
        var addr := inodes[i].addrs[bn];
        if addr != 0 {
          return Some(addr);
        }
        r := Grow(i, Data(bn));
        if r.Some? {
          ReachedOne(v, V(), i, bn, r.value);
        } else {
          OutOfBlocks(v, v, i, 0, bn + 1);
        }
        return;
      }
      if inodes[i].addrs[NDIRECT] == 0 {
        assert AddrOf(v, i, Data(NDIRECT)) == 0;
        r := Grow(i, Ind);
        if r.None? {
          OutOfBlocks(v, v, i, 0, bn + 1);
          return;
        }
        ReachedInd(v, V(), i, r.value);
      }
      ghost var w, wi, wl := V(), I(), logged;
      assert AddrOf(w, i, Data(bn)) != 0 <==> bn < cnts[i];
      var addr := Word(disk[inodes[i].addrs[NDIRECT]], bn - NDIRECT);
      if addr != 0 {
        return Some(addr);
      }
      r := Grow(i, Data(bn));
      if r.Some? {
        LogsTwice(old(I()), wi, I(), bmapstart, inodestart, wl, logged);
      }
      BmapGrew(v, w, V(), i, bn, r);
    }

    /** One file as a sequence of bytes. */
    ghost function File(i: nat): (r: seq<byte>)
      requires Valid() && i < |inodes|
      reads this
    {
      Bytes(V(), i, inodes[i].size)
    }

    /** All files as sequences of bytes. */
    ghost function Contents(): (r: seq<seq<byte>>)
      requires Valid()
      reads this
      ensures |r| == |inodes| && forall i :: 0 <= i < |inodes| ==> r[i] == File(i)
    {
      seq(|inodes|, i requires 0 <= i < |inodes| && Valid() reads this => File(i))
    }

    /** Read up to n bytes from offset off; none is the error result. Reading changes nothing: the files have no
        holes, so no block is allocated on the way. */
    method Readi(i: nat, off: nat, n: nat) returns (r: Option<seq<byte>>)
      requires Valid() && i < |inodes| && off < UINT && n < UINT
      modifies this`bitmap, this`disk, this`inodes, this`owner, this`cnts, this`logged
      ensures V() == old(V()) && logged == old(logged)
      ensures r.None? <==> off > inodes[i].size || off + n >= UINT
      ensures r.Some? ==> r.value == File(i)[off..Min(off + n, inodes[i].size)]
    {
      hide Owned; hide Mapped; hide NoHoles; hide Reached; hide At; hide InFile; hide BlocksFor; hide OnDisk;
      if off > inodes[i].size || (off + n) % UINT < off {
        return None;
      }
      var want := if off + n > inodes[i].size then inodes[i].size - off else n;
      var dst := [];
      var o := off;
      ghost var all := File(i);
      while |dst| < want
        invariant V() == old(V()) && logged == old(logged)
        invariant |dst| <= want && o == off + |dst|
        invariant dst == all[off..o]
      {
        InSized(V(), i, o);
        var a := Bmap(i, o / BSIZE);
        var m := Min(want - |dst|, BSIZE - o % BSIZE);
        ReadChunk(V(), i, inodes[i].size, o, m);
        assert all[off..o + m] == all[off..o] + all[o..o + m];
        dst := dst + disk[a.value][o % BSIZE..o % BSIZE + m];
        o := o + m;
      }
      return Some(dst);
    }

    /** Everything a write of n bytes at off may pass to log_write: free-map blocks, the inode's block, the
        indirect block, and the file's blocks from the first byte to the last. */
    ghost function MayLog(i: nat, off: nat, n: nat): (r: set<nat>)
      requires Ok(V(), {}) && i < |inodes|
      reads this
    {
      BitmapBlocks() + {InodeBlock(i)} + IndBlock(inodes[i]) + FileBlocks(V(), i, off / BSIZE, BlocksFor(off + n))
    }

    /** One round of the write loop: map the block and copy as much of the source as fits into it. */
    method WriteChunk(i: nat, src: seq<byte>, off: nat, tot: nat, ghost v: Vol) returns (m: Option<nat>)
      requires Ok(V(), {}) && Sized(V()) && i < |inodes| && tot < |src| && off + |src| <= MAXBYTES
      requires Writing(v, V(), i, off, src[..tot])
      modifies this`bitmap, this`disk, this`inodes, this`owner, this`cnts, this`logged
      ensures m.None? ==> Full() && Short(old(V()), i, (off + tot) / BSIZE + 1)
      ensures m.Some? ==>
        && 0 < m.value && tot + m.value <= |src|
        && Ok(V(), {}) && Sized(V()) && i < |inodes| && |bitmap| == |old(bitmap)|
        && KeepsSlack(old(V()), V(), i, (off + tot) / BSIZE + 1) && LogsSince(old(I()), old(logged))
        && Writing(v, V(), i, off, src[..tot + m.value])
        && IndBlock(old(inodes)[i]) <= IndBlock(inodes[i])
        && (off / BSIZE <= (off + tot) / BSIZE ==>
              logged <= old(logged) + BitmapBlocks() + IndBlock(inodes[i])
                + FileBlocks(V(), i, off / BSIZE, BlocksFor(off + tot + m.value)))
        && (off / BSIZE <= (off + tot) / BSIZE ==>
              FileBlocks(old(V()), i, off / BSIZE, BlocksFor(off + tot))
              <= FileBlocks(V(), i, off / BSIZE, BlocksFor(off + tot + m.value)))
    {
      hide Ok; hide Reached; hide At; hide InFile; hide Writing; hide FileBlocks; hide IndBlock; hide BlocksFor;
      hide Patch; hide Bit; hide Short; hide KeepsSlack; hide Logs;
      ghost var w := V();
      var o := off + tot;
      WritingRoom(v, w, i, off, src[..tot]);
      var a := Bmap(i, o / BSIZE);
      if a.None? {
        return None;
      }
      ghost var x := V();
      ReachedOk(w, x, i, o / BSIZE);
      var n := Min(|src| - tot, BSIZE - o % BSIZE);
      var data := Patch(disk[a.value], o % BSIZE, src[tot..tot + n]);
      WritingStep(v, w, x, i, off, o, a.value, src[..tot], src[tot..tot + n]);
      if off / BSIZE <= o / BSIZE {
        LoggedStep(w, x, i, off / BSIZE, o, n, data);
      }
      LoggedStep(w, x, i, 0, o, n, data);
      assert src[..tot] + src[tot..tot + n] == src[..tot + n];
      ghost var xi, l := I(), logged;
      LogsBlock(xi, a.value, data, bmapstart, inodestart, logged + {a.value});
      disk := disk[a.value := data];
      logged := logged + {a.value};
      LogsTwice(old(I()), xi, I(), bmapstart, inodestart, l, logged);
      StoredSlack(w, x, i, o / BSIZE + 1, a.value, data);
      return Some(n);
    }

    /** The loop of a write: block by block, mapping each and copying into it. */
    method WriteBlocks(i: nat, src: seq<byte>, off: nat) returns (ok: bool)
      requires Ok(V(), {}) && Sized(V()) && i < |inodes| && Writing(V(), V(), i, off, []) && off + |src| <= MAXBYTES
      modifies this`bitmap, this`disk, this`inodes, this`owner, this`cnts, this`logged
      ensures !ok ==> Full()
      ensures ok <==> Slack(old(V()), i, BlocksFor(off + |src|)) >= 0
      ensures ok ==> Ok(V(), {}) && Sized(V()) && i < |inodes| && Writing(old(V()), V(), i, off, src)
      ensures ok ==> KeepsSlack(old(V()), V(), i, BlocksFor(off + |src|)) && LogsSince(old(I()), old(logged))
      ensures ok ==>
        logged <= old(logged) + BitmapBlocks() + IndBlock(inodes[i])
        + FileBlocks(V(), i, off / BSIZE, BlocksFor(off + |src|))
    {
      hide Ok; hide At; hide Writing; hide FileBlocks; hide IndBlock; hide BlocksFor; hide Bit; hide Slack; hide Logs;
      LogsNothing(I(), bmapstart, inodestart, logged);
      ghost var v := V();
      ghost var all := BlocksFor(off + |src|);
      var tot := 0;
      assert src[..0] == [];
      SlackSelf(v, i);
      while tot < |src|
        invariant tot <= |src| && |bitmap| == |old(bitmap)|
        invariant Ok(V(), {}) && Sized(V()) && i < |inodes|
        invariant Writing(v, V(), i, off, src[..tot])
        invariant KeepsSlack(v, V(), i, BlocksFor(off + |src|)) && LogsSince(old(I()), old(logged))
        invariant logged <= old(logged) + BitmapBlocks() + IndBlock(inodes[i])
          + FileBlocks(V(), i, off / BSIZE, BlocksFor(off + tot))
      {
        assert off / BSIZE <= (off + tot) / BSIZE;
        WritingAhead(off + tot, off + |src|);
        ghost var w, wi, wl := V(), I(), logged;
        var m := WriteChunk(i, src, off, tot, v);
        if m.None? {
          assert Slack(w, i, all) == Slack(v, i, all);
          return false;
        }
        SlackTwice(v, w, V(), i, all, (off + tot) / BSIZE + 1, all);
        LogsTwice(old(I()), wi, I(), bmapstart, inodestart, wl, logged);
        tot := tot + m.value;
      }
      assert src[..tot] == src;
      WritingLacks(v, V(), i, off, src);
      return true;
    }

    /** The end of a write: if the file grew, its size changes and the inode is written back. */
    method FinishWrite(i: nat, src: seq<byte>, off: nat, ghost v: Vol)
      requires Writing(v, V(), i, off, src) && OnDisk(iblocks, v.inodes) && FreeOwnNothing(v) && v.inodes[i].kind != 0
      requires off <= v.inodes[i].size && off + |src| <= MAXBYTES
      requires forall j :: 0 <= j < |v.inodes| ==> v.cnts[j] == BlocksFor(v.inodes[j].size)
      requires Ok(v, {}) && Ok(V(), {}) && i < |inodes| == |v.inodes| && KeepsSlack(v, V(), i, BlocksFor(off + |src|))
      modifies this`inodes, this`iblocks, this`logged
      ensures Valid() && |inodes| == |v.inodes| && |bitmap| == |v.bitmap|
      ensures KeepsSlack(v, V(), i, BlocksFor(off + |src|))
      ensures inodes == v.inodes[i := inodes[i]]
      ensures inodes[i].kind == v.inodes[i].kind && inodes[i].nlink == v.inodes[i].nlink
      ensures off + |src| <= v.inodes[i].size ==> inodes == v.inodes
      ensures File(i) == Overwrite(Bytes(v, i, v.inodes[i].size), off, src)
      ensures forall j :: 0 <= j < |inodes| && j != i ==> File(j) == Bytes(v, j, v.inodes[j].size)
      ensures logged <= old(logged) + {InodeBlock(i)} && IndBlock(inodes[i]) == IndBlock(old(inodes)[i])
      ensures LogsSince(old(I()), old(logged))
      ensures FileBlocks(V(), i, off / BSIZE, BlocksFor(off + |src|))
        == FileBlocks(old(V()), i, off / BSIZE, BlocksFor(off + |src|))
    {
      hide Owned; hide Mapped; hide NoHoles; hide At; hide Writing; hide FileBlocks; hide KeepsSlack;
      hide FreeOwnNothing; hide Bit; hide OnDisk; hide Fits; hide Overwrite; hide Logs;
      LogsNothing(I(), bmapstart, inodestart, logged);
      ghost var w := V();
      ghost var size := v.inodes[i].size;
      var o := off + |src|;
      WrittenBytes(v, w, i, off, src, size);
      WrittenOthers(v, w, i, off, src);
      WrittenShape(v, w, i, off, src, size);
      WrittenLive(v, w, i, off, src, o);
      if |src| > 0 && o > inodes[i].size {
        ResizedOk(w, i, o);
        ResizedBytes(w, i, o);
        ResizedSlack(v, w, i, BlocksFor(o), o);
        FileBlocksKept(w, Resized(w, i, o), i, off / BSIZE, BlocksFor(o));
        GrownFits(v, w, i, off, src, iblocks);
        inodes := inodes[i := Inode(inodes[i].kind, inodes[i].nlink, o, inodes[i].addrs)];
        Iupdate(i, v.inodes);
        assert inodes == v.inodes[i := inodes[i]];
      }
    }

    /** Write src at offset off. On success the file is the old one with those bytes in place, exactly as long
        as that makes it; no other file changes; and the inode on disk is the one in memory, although it is
        written back only when the file grew. It runs out of blocks exactly if fewer are free than the file lacks.
        The caller has locked the inode, which must be allocated for that. */
    method Writei(i: nat, src: seq<byte>, off: nat) returns (r: Outcome)
      requires Valid() && i < |inodes| && inodes[i].kind != 0 && off < UINT && |src| < UINT
      modifies this`bitmap, this`disk, this`inodes, this`iblocks, this`owner, this`cnts, this`logged
      ensures r.Error? <==> off > old(inodes)[i].size || off + |src| >= UINT || off + |src| > MAXBYTES
      ensures r.Error? ==> V() == old(V()) && iblocks == old(iblocks) && logged == old(logged)
      ensures r.Panic? ==> Full()
      ensures r.Panic? <==> !r.Error? && Lacks(old(V()), i, BlocksFor(off + |src|)) > |Free(old(V()))|
      ensures r.Done? ==> Valid() && |inodes| == |old(inodes)| && KeepsSlack(old(V()), V(), i, BlocksFor(off + |src|))
      ensures r.Done? ==>
        && Valid() && r.count == |src| && |inodes| == |old(inodes)| && |bitmap| == |old(bitmap)|
        && Contents() == old(Contents())[i := Overwrite(old(Contents())[i], off, src)]
        && inodes == old(inodes)[i := inodes[i]]
        && inodes[i].kind == old(inodes)[i].kind && inodes[i].nlink == old(inodes)[i].nlink
        && (off + |src| <= old(inodes)[i].size ==> inodes == old(inodes))
        && logged <= old(logged) + MayLog(i, off, |src|) && LogsSince(old(I()), old(logged))
    {
      hide Owned; hide Mapped; hide NoHoles; hide At; hide Writing; hide FileBlocks; hide KeepsSlack;
      hide FreeOwnNothing; hide Bit; hide OnDisk; hide Logs;
      if off > inodes[i].size || (off + |src|) % UINT < off {
        return Error;
      }
      if off + |src| > MAXBYTES {
        return Error;
      }
      ghost var v := V();
      WritingStart(v, i, off);
      var ok := WriteBlocks(i, src, off);
      if !ok {
        return Panic;
      }
      WrittenShape(v, V(), i, off, src, v.inodes[i].size);
      ghost var wi, wl := I(), logged;
      FinishWrite(i, src, off, v);
      LogsTwice(old(I()), wi, I(), bmapstart, inodestart, wl, logged);
      return Done(|src|);
    }

    /** Free one block of the inode being truncated, if the slot holds one. */
    method FreeSlot(i: nat, ghost v: Vol, bn: nat, a: nat)
      requires Ok(v, {}) && i < |v.inodes| && bn < MAXFILE && a == AddrOf(v, i, Data(bn))
      requires |disk| == |v.disk| && Freeing(v, bitmap, i, bn)
      modifies this`bitmap, this`logged
      ensures Freeing(v, bitmap, i, bn + 1) && LogsSince(old(I()), old(logged))
    {
      hide Logs;
      LogsNothing(I(), bmapstart, inodestart, logged);
      FreeingStep(v, bitmap, i, bn);
      if a != 0 {
        Bfree(a);
      }
    }

    /** Free the blocks the inode itself names. */
    method FreeDirect(i: nat, ghost v: Vol)
      requires Ok(v, {}) && i < |v.inodes| && inodes == v.inodes && disk == v.disk && bitmap == v.bitmap
      modifies this`bitmap, this`logged, this`inodes
      ensures Freeing(v, bitmap, i, NDIRECT)
      ensures |inodes| == |v.inodes| && inodes == v.inodes[i := inodes[i]]
      ensures inodes[i] == Inode(v.inodes[i].kind, v.inodes[i].nlink, v.inodes[i].size, inodes[i].addrs)
      ensures inodes[i].addrs == seq(NDIRECT, k => 0) + [v.inodes[i].addrs[NDIRECT]]
      ensures LogsSince(old(I()), old(logged))
    {
      hide Owned; hide Mapped; hide NoHoles; hide At; hide Freeing; hide Bit; hide Logs;
      LogsNothing(I(), bmapstart, inodestart, logged);
      FreeingNothing(v, i);
      for k := 0 to NDIRECT
        invariant Freeing(v, bitmap, i, k)
        invariant |inodes| == |v.inodes| && inodes == v.inodes[i := inodes[i]] && |inodes[i].addrs| == NDIRECT + 1
        invariant inodes[i] == Inode(v.inodes[i].kind, v.inodes[i].nlink, v.inodes[i].size, inodes[i].addrs)
        invariant forall j :: 0 <= j <= NDIRECT ==> inodes[i].addrs[j] == if j < k then 0 else v.inodes[i].addrs[j]
        invariant LogsSince(old(I()), old(logged))
      {
        ghost var m, l := I(), logged;
        FreeSlot(i, v, k, inodes[i].addrs[k]);
        LogsTwice(old(I()), m, I(), bmapstart, inodestart, l, logged);
        if inodes[i].addrs[k] != 0 {
          inodes := inodes[i := WithAddr(inodes[i], k, 0)];
        }
      }
    }

    /** Free the blocks the indirect block names, and then that block. */
    method FreeIndirect(i: nat, ghost v: Vol, ind: nat)
      requires Ok(v, {}) && i < |v.inodes| && ind == v.inodes[i].addrs[NDIRECT] != 0
      requires disk == v.disk && Freeing(v, bitmap, i, NDIRECT)
      modifies this`bitmap, this`logged
      ensures Unowned(v, bitmap, i) && LogsSince(old(I()), old(logged))
    {
      hide Owned; hide Mapped; hide NoHoles; hide At; hide Freeing; hide Bit; hide Word; hide Logs;
      LogsNothing(I(), bmapstart, inodestart, logged);
      var a := disk[ind];
      for j := 0 to NINDIRECT
        invariant Freeing(v, bitmap, i, NDIRECT + j) && LogsSince(old(I()), old(logged))
      {
        ghost var m, l := I(), logged;
        FreeSlot(i, v, NDIRECT + j, Word(a, j));
        LogsTwice(old(I()), m, I(), bmapstart, inodestart, l, logged);
      }
      FreeingIndirect(v, bitmap, i);
      FreeingSize(v, bitmap, i, MAXFILE);
      ghost var m, l := I(), logged;
      Bfree(ind);
      LogsTwice(old(I()), m, I(), bmapstart, inodestart, l, logged);
    }

    /** Discard a file's contents: exactly the blocks the inode owned become free, and no other file changes. */
    method Itrunc(i: nat)
      requires Valid() && i < |inodes|
      modifies this`bitmap, this`inodes, this`iblocks, this`owner, this`cnts, this`logged
      ensures Valid() && inodes == old(inodes)[i := Emptied(old(inodes)[i])]
      ensures |bitmap| == |old(bitmap)| && forall b :: 0 <= b < |disk| ==>
        (Bit(bitmap, b) <==> Bit(old(bitmap), b) && !(b in old(owner) && old(owner)[b].inum == i))
      ensures Contents() == old(Contents())[i := []]
      ensures LogsSince(old(I()), old(logged))
    {
      hide Owned; hide Mapped; hide NoHoles; hide At; hide Freeing; hide Bit; hide OnDisk; hide GetInode; hide Rest;
      hide Logs;
      ghost var v := V();
      FreeDirect(i, v);
      ghost var m, l := I(), logged;
      if inodes[i].addrs[NDIRECT] != 0 {
        FreeIndirect(i, v, inodes[i].addrs[NDIRECT]);
        LogsTwice(old(I()), m, I(), bmapstart, inodestart, l, logged);
        inodes := inodes[i := WithAddr(inodes[i], NDIRECT, 0)];
      } else {
        FreeingNoIndirect(v, bitmap, i);
      }
      inodes := inodes[i := Inode(inodes[i].kind, inodes[i].nlink, 0, inodes[i].addrs)];
      OnDiskFits(iblocks, v.inodes, i);
      m, l := I(), logged;
      Iupdate(i, v.inodes);
      LogsTwice(old(I()), m, I(), bmapstart, inodestart, l, logged);
      assert inodes[i].addrs == Emptied(v.inodes[i]).addrs;
      TruncatedOk(v, i, bitmap);
      TruncatedBytes(v, i, bitmap);
      owner, cnts := Rest(owner, i), cnts[i := 0];
      assert inodes == v.inodes[i := Emptied(v.inodes[i])];
      assert V() == Truncated(v, i, bitmap);
    }

    /** Change a link count and write the inode back. */
    method SetLinks(i: nat, n: int)
      requires Valid() && i < |inodes| && -0x8000 <= n < 0x8000
      modifies this`inodes, this`iblocks, this`logged
      ensures Valid() && Contents() == old(Contents()) && inodes == old(inodes)[i := WithLinks(old(inodes)[i], n)]
      ensures logged == old(logged) + {InodeBlock(i)} && LogsSince(old(I()), old(logged))
    {
      hide Owned; hide Mapped; hide NoHoles; hide At; hide Bit; hide OnDisk; hide GetInode; hide Logs;
      ghost var was := inodes;
      RelinkedOk(V(), i, n);
      RelinkedBytes(V(), i, n);
      OnDiskFits(iblocks, inodes, i);
      inodes := inodes[i := WithLinks(inodes[i], n)];
      Iupdate(i, was);
    }

    /** Allocate an inode: the first one not in use is cleared and given a kind. None is the kernel's panic. No block
        is lost by the clearing, since an inode that is not in use has none. */
    method Ialloc(kind: nat) returns (r: Option<nat>)
      requires Valid() && kind < 0x1_0000
      modifies this`inodes, this`iblocks, this`logged
      ensures Valid() && Contents() == old(Contents()) && |inodes| == |old(inodes)|
      ensures r.None? <==> forall j :: 1 <= j < |old(inodes)| ==> old(inodes)[j].kind != 0
      ensures r.None? ==> inodes == old(inodes) && logged == old(logged)
      ensures r.Some? ==>
        && 1 <= r.value < |inodes| && old(inodes)[r.value].kind == 0
        && (forall j :: 1 <= j < r.value ==> old(inodes)[j].kind != 0)
        && inodes == old(inodes)[r.value := Cleared(kind)] && logged == old(logged) + {InodeBlock(r.value)}
      ensures LogsSince(old(I()), old(logged))
    {
      LogsNothing(I(), bmapstart, inodestart, logged);
      hide Owned; hide Mapped; hide NoHoles; hide At; hide Bit; hide OnDisk; hide PutInode; hide GetInode;
      var inum := 1;
      while inum < |inodes|
        invariant V() == old(V()) && iblocks == old(iblocks) && logged == old(logged)
        invariant inum >= 1 && forall j :: 1 <= j < inum && j < |inodes| ==> inodes[j].kind != 0
      {
        OnDiskFits(iblocks, inodes, inum);
        var b, k := iblocks[inum / IPB], inum % IPB;
        if GetInode(b, k).kind == 0 {
          ClearedOk(V(), inum, kind);
          ClearedBytes(V(), inum, kind);
          UpdatedOnDisk(iblocks, inodes, inum, Cleared(kind), 0, 0);
          ghost var c := PutInode(b, k, Cleared(kind), 0, 0);
          LogsInode(I(), inum / IPB, c, bmapstart, inodestart, logged + {InodeBlock(inum)});
          iblocks := iblocks[inum / IPB := PutInode(b, k, Cleared(kind), 0, 0)];
          logged := logged + {InodeBlock(inum)};
          inodes := inodes[inum := Cleared(kind)];      // as ilock will read it
          return Some(inum);
        }
        inum := inum + 1;
      }
      return None;
    }

    /** Drop one of `ref` references to an inode that is, or is not, in memory. The last one to an inode without links
        frees it and exactly the blocks it owned. */
    method Iput(i: nat, valid: bool, ref: nat) returns (left: nat)
      requires Valid() && i < |inodes| && ref > 0
      modifies this`bitmap, this`inodes, this`iblocks, this`owner, this`cnts, this`logged
      ensures Valid() && left == ref - 1
      ensures !(valid && old(inodes)[i].nlink == 0 && ref == 1) ==> V() == old(V()) && logged == old(logged)
      ensures valid && old(inodes)[i].nlink == 0 && ref == 1 ==>
        && inodes == old(inodes)[i := Cleared(0)] && Contents() == old(Contents())[i := []] && |bitmap| == |old(bitmap)|
        && forall b :: 0 <= b < |disk| ==> (Bit(bitmap, b) <==>
              Bit(old(bitmap), b) && !(b in old(owner) && old(owner)[b].inum == i))
      ensures LogsSince(old(I()), old(logged))
    {
      hide Owned; hide Mapped; hide NoHoles; hide At; hide Bit; hide OnDisk; hide Logs;
      LogsNothing(I(), bmapstart, inodestart, logged);
      if valid && inodes[i].nlink == 0 && ref == 1 {
        Itrunc(i);
        ClearedOk(V(), i, 0);
        ClearedBytes(V(), i, 0);
        ghost var m, l := I(), logged;
        ghost var was := inodes;
        inodes := inodes[i := Inode(0, inodes[i].nlink, inodes[i].size, inodes[i].addrs)];
        Iupdate(i, was);
        LogsTwice(old(I()), m, I(), bmapstart, inodestart, l, logged);
        assert inodes[i] == Cleared(0);
      }
      return ref - 1;
    }

    /** One transaction of a file write. */
    method WriteTransaction(i: nat, src: seq<byte>, off: nat) returns (r: Outcome)
      requires Valid() && i < |inodes| && inodes[i].kind != 0 && off < UINT && |src| <= 1536 && |bitmap| == 1
      modifies this`bitmap, this`disk, this`inodes, this`iblocks, this`owner, this`cnts, this`logged
      ensures r.Error? <==> off > old(inodes)[i].size || off + |src| >= UINT || off + |src| > MAXBYTES
      ensures r.Error? ==> V() == old(V()) && iblocks == old(iblocks)
      ensures r.Panic? ==> Full()
      ensures r.Panic? <==> !r.Error? && Lacks(old(V()), i, BlocksFor(off + |src|)) > |Free(old(V()))|
      ensures r.Done? ==> Valid() && |inodes| == |old(inodes)| && KeepsSlack(old(V()), V(), i, BlocksFor(off + |src|))
      ensures r.Done? ==>
        && Valid() && |bitmap| == 1 && |inodes| == |old(inodes)| && |logged| <= 7
        && inodes[i].kind == old(inodes)[i].kind
        && Contents() == old(Contents())[i := Overwrite(old(Contents())[i], off, src)]
    {
      hide Ok; hide At; hide Bit; hide BlocksFor; hide FileBlocks; hide OnDisk;
      logged := {};
      r := Writei(i, src, off);
      if r.Done? {
        LoggedSize(V(), bitmap, i, off, |src|, logged, bmapstart, InodeBlock(i));
      }
    }

    /** Write through an open file, a few blocks per transaction. On success this is one write of all the bytes;
        on failure some leading chunks have been written. `txns` says how many blocks each transaction logged: on
        a disk with one free-map block, never more than a call may write. */
    method Filewrite(i: nat, src: seq<byte>, off: nat) returns (r: Outcome, newoff: nat, ghost txns: seq<nat>)
      requires Valid() && i < |inodes| && inodes[i].kind != 0 && off + |src| < UINT && |bitmap| == 1
      modifies this`bitmap, this`disk, this`inodes, this`iblocks, this`owner, this`cnts, this`logged
      ensures r.Panic? ==> Full() && Lacks(old(V()), i, BlocksFor(off + |src|)) > |Free(old(V()))|
      ensures r.Done? ==> |src| == 0 || Lacks(old(V()), i, BlocksFor(off + |src|)) <= |Free(old(V()))|
      ensures !r.Panic? ==> Valid() && |inodes| == |old(inodes)| && off <= newoff <= off + |src|
      ensures r.Done? <==> !r.Panic? && newoff == off + |src|
      ensures !r.Panic? ==> (r.Error? <==> |src| > 0 && (off > old(inodes)[i].size || off + |src| > MAXBYTES))
      ensures !r.Panic? && off <= old(inodes)[i].size ==>
        Contents() == old(Contents())[i := Overwrite(old(Contents())[i], off, src[..newoff - off])]
      ensures !r.Panic? && off > old(inodes)[i].size ==> Contents() == old(Contents())
      ensures forall t :: t in txns ==> t <= 7 <= MAXOPBLOCKS
    {
      hide Owned; hide Mapped; hide NoHoles; hide Sized; hide At; hide Bit; hide BlocksFor; hide Overwrite; hide OnDisk;
      var max := ((MAXOPBLOCKS - 1 - 1 - 2) / 2) * 512;
      var k := 0;
      newoff, txns := off, [];
      ghost var v, all := V(), BlocksFor(off + |src|);
      ghost var was := Contents()[i];
      assert inodes[i].size == |was|;
      OverwriteNothing(was, off);
      while k < |src|
        invariant k <= |src| && newoff == off + k
        invariant Valid() && |inodes| == |old(inodes)| && |bitmap| == 1 && inodes[i].kind != 0
        invariant Sized(V()) && Slack(V(), i, all) == Slack(v, i, all)
        invariant off <= |was| ==> Contents() == old(Contents())[i := Overwrite(was, off, src[..k])]
        invariant off > |was| ==> k == 0 && Contents() == old(Contents())
        invariant k > 0 ==> newoff <= MAXBYTES
        invariant forall t :: t in txns ==> t <= 7
      {
        var n := Min(|src| - k, max);
        OverwriteTwice(was, off, src[..k], src[k..k + n]);
        assert src[..k] + src[k..k + n] == src[..k + n];
        assert inodes[i].size == |Contents()[i]|;
        ChunkSlack(V(), i, newoff + n, off + |src|);
        r := WriteTransaction(i, src[k..k + n], newoff);
        if !r.Done? {
          return;
        }
        txns := txns + [|logged|];
        newoff, k := newoff + n, k + n;
      }
      assert src[..k] == src;
      if |src| > 0 {
        assert inodes[i].size == |Contents()[i]|;
        WholeSlack(V(), i, was, off, src);
      }
      r := Done(|src|);
    }
  }
}
