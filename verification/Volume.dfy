/** Inodes, the blocks they own and the free map, as one value; and what single updates do to it.

    The value holds, beside what is on the disk, which slot of which inode owns each block. That makes
    "every block has one owner" a pair of facts about two maps, and each update changes one place in each. */
module Volume {
  import opened Blocks

  const NDIRECT: nat := 12
  const MAXFILE: nat := 140         // NDIRECT + NINDIRECT

  datatype Inode = Inode(kind: nat, nlink: int, size: nat, addrs: seq<nat>)

  /** The places in an inode that can hold a block address: file block bn, or the indirect block. */
  datatype Slot = Data(bn: nat) | Ind

  datatype Own = Own(inum: nat, slot: Slot)

  /** Blocks below `nmeta` are boot block, super block, log, inodes and free map. `owner` and `cnts` are not on
      the disk: they name the slot that holds each block, and how many file blocks each inode has. */
  datatype Vol = Vol(
    nmeta: nat,
    bitmap: Bitmap,
    disk: seq<Block>,
    inodes: seq<Inode>,
    owner: map<nat, Own>,
    cnts: seq<nat>)

  predicate SlotOk(s: Slot) {
    s.Data? ==> s.bn < MAXFILE
  }

  predicate Sized(v: Vol) {
    && 0 < v.nmeta <= |v.disk| <= |v.bitmap| * BPB && |v.disk| < 0x1_0000_0000
    && |v.cnts| == |v.inodes|
    && (forall i :: 0 <= i < |v.inodes| ==> |v.inodes[i].addrs| == NDIRECT + 1 && v.inodes[i].addrs[NDIRECT] < |v.disk|)
  }

  /** The block a slot holds, or 0. */
  function AddrOf(v: Vol, i: nat, s: Slot): (r: nat)
    requires Sized(v) && i < |v.inodes| && SlotOk(s)
  {
    if s.Ind? then v.inodes[i].addrs[NDIRECT]
    else if s.bn < NDIRECT then v.inodes[i].addrs[s.bn]
    else if v.inodes[i].addrs[NDIRECT] == 0 then 0
    else Word(v.disk[v.inodes[i].addrs[NDIRECT]], s.bn - NDIRECT)
  }

  /** Every block has one owner: slots and owned blocks correspond one to one. */
  ghost predicate Owned(v: Vol)
    requires Sized(v)
  {
    && (forall i, s {:trigger AddrOf(v, i, s)} :: 0 <= i < |v.inodes| && SlotOk(s) && AddrOf(v, i, s) != 0 ==>
          AddrOf(v, i, s) in v.owner && v.owner[AddrOf(v, i, s)] == Own(i, s))
    && (forall b :: b in v.owner ==>
          && v.nmeta <= b < |v.disk| && v.owner[b].inum < |v.inodes| && SlotOk(v.owner[b].slot)
          && AddrOf(v, v.owner[b].inum, v.owner[b].slot) == b)
  }

  /** The free map marks the metadata, the owned blocks, and those just taken. */
  ghost predicate Mapped(v: Vol, taken: set<nat>)
    requires Sized(v)
  {
    && (forall b :: b in taken ==> v.nmeta <= b < |v.disk| && b !in v.owner)
    && (forall b {:trigger Bit(v.bitmap, b)} :: 0 <= b < |v.disk| ==>
          (Bit(v.bitmap, b) <==> b < v.nmeta || b in v.owner || b in taken))
  }

  /** An inode's file blocks are exactly the first `cnts`: files have no holes. */
  ghost predicate NoHoles(v: Vol)
    requires Sized(v)
  {
    forall i :: 0 <= i < |v.inodes| ==>
      && v.cnts[i] <= MAXFILE
      && (AddrOf(v, i, Ind) != 0 ==> v.cnts[i] >= NDIRECT)
      && (forall bn {:trigger AddrOf(v, i, Data(bn))} :: 0 <= bn < MAXFILE ==>
            (AddrOf(v, i, Data(bn)) != 0 <==> bn < v.cnts[i]))
  }

  ghost predicate Ok(v: Vol, taken: set<nat>) {
    Sized(v) && Owned(v) && Mapped(v, taken) && NoHoles(v)
  }

  /** An inode of kind 0 is not allocated, and has no blocks. */
  ghost predicate FreeOwnNothing(v: Vol) {
    forall i :: 0 <= i < |v.inodes| && i < |v.cnts| && v.inodes[i].kind == 0 ==> v.cnts[i] == 0
  }

  /** No block leaks: a block after the metadata is marked exactly if a slot of an allocated inode holds it. */
  lemma MarkedIsHeld(v: Vol, b: nat)
    requires Ok(v, {}) && FreeOwnNothing(v) && v.nmeta <= b < |v.disk|
    ensures Bit(v.bitmap, b) <==>
      exists i: nat, s :: i < |v.inodes| && SlotOk(s) && v.inodes[i].kind != 0 && AddrOf(v, i, s) == b
  {
    assert Bit(v.bitmap, b) <==> b in v.owner || b in {};
    if b in v.owner {
      var i, s := v.owner[b].inum, v.owner[b].slot;
      assert AddrOf(v, i, s) == b;
      assert s.Data? ==> (AddrOf(v, i, Data(s.bn)) != 0 <==> s.bn < v.cnts[i]);
      assert v.inodes[i].kind != 0;
    } else {
      forall i: nat, s | i < |v.inodes| && SlotOk(s) ensures AddrOf(v, i, s) != b {
        assert AddrOf(v, i, s) != 0 ==> AddrOf(v, i, s) in v.owner;
      }
    }
  }

  lemma AddrInDisk(v: Vol, i: nat, s: Slot)
    requires Sized(v) && Owned(v) && i < |v.inodes| && SlotOk(s)
    ensures AddrOf(v, i, s) < |v.disk|
    ensures AddrOf(v, i, s) != 0 ==> AddrOf(v, i, s) >= v.nmeta
  {
    if AddrOf(v, i, s) != 0 {
      assert AddrOf(v, i, s) in v.owner;
    }
  }

  // --------------------------------------------------------------- how many blocks are free, and how many a file lacks

  /** The blocks that are free to take. */
  ghost function Free(v: Vol): (r: set<nat>)
    requires Sized(v)
  {
    set b | 0 <= b < |v.disk| && !Bit(v.bitmap, b)
  }

  /** How many blocks must be taken for file i to have its first n blocks. */
  function Lacks(v: Vol, i: nat, n: nat): (r: nat)
    requires Sized(v) && i < |v.inodes|
  {
    if n <= v.cnts[i] then 0
    else n - v.cnts[i] + if n > NDIRECT && v.inodes[i].addrs[NDIRECT] == 0 then 1 else 0
  }

  /** The free blocks that would be left over; negative if there are too few. */
  ghost function Slack(v: Vol, i: nat, n: nat): (r: int)
    requires Sized(v) && i < |v.inodes|
  {
    |Free(v)| - Lacks(v, i, n)
  }

  /** Going from v to w took only blocks that a file with n blocks or more needs. */
  ghost predicate KeepsSlack(v: Vol, w: Vol, i: nat, n: nat)
    requires Sized(v) && Sized(w) && i < |v.inodes| && i < |w.inodes|
  {
    forall m {:trigger Slack(w, i, m)} :: n <= m ==> Slack(w, i, m) == Slack(v, i, m)
  }

  /** With n blocks or more, the file would need more blocks than are free. */
  ghost predicate Short(v: Vol, i: nat, n: nat)
    requires Sized(v) && i < |v.inodes|
  {
    forall m {:trigger Slack(v, i, m)} :: n <= m ==> Slack(v, i, m) < 0
  }

  lemma SlackSelf(v: Vol, i: nat)
    requires Sized(v) && i < |v.inodes|
    ensures KeepsSlack(v, v, i, 0)
  {
  }

  lemma SlackTwice(v: Vol, w: Vol, x: Vol, i: nat, a: nat, b: nat, n: nat)
    requires Sized(v) && Sized(w) && Sized(x) && i < |v.inodes| && i < |w.inodes| && i < |x.inodes|
    requires KeepsSlack(v, w, i, a) && KeepsSlack(w, x, i, b) && a <= n && b <= n
    ensures KeepsSlack(v, x, i, n)
  {
    hide Slack;
    forall m | n <= m ensures Slack(x, i, m) == Slack(v, i, m) {
      assert Slack(w, i, m) == Slack(v, i, m);
    }
  }

  /** When the last free block is gone and the file still lacks one, it lacked too many from the start. */
  lemma OutOfBlocks(v: Vol, w: Vol, i: nat, a: nat, n: nat)
    requires Sized(v) && Sized(w) && i < |v.inodes| && i < |w.inodes|
    requires KeepsSlack(v, w, i, a) && a <= n && Free(w) == {} && w.cnts[i] < n
    ensures Short(v, i, n)
  {
    forall m | n <= m ensures Slack(v, i, m) < 0 {
      assert Slack(w, i, m) < 0;
    }
  }

  lemma GrownSlack(v: Vol, taken: set<nat>, i: nat, s: Slot, b: nat, n: nat)
    requires Ok(v, taken) && b < |v.disk| && !Bit(v.bitmap, b) && i < |v.inodes| && SlotOk(s) && NextSlot(v, i, s)
    requires Sized(Taken(v, b)) && Sized(Attached(Taken(v, b), i, s, b))
    requires if s.Ind? then n > NDIRECT else n > s.bn
    ensures Slack(Attached(Taken(v, b), i, s, b), i, n) == Slack(v, i, n)
  {
    hide Owned; hide NoHoles; hide Bit; hide PutWord;
    var w := Attached(Taken(v, b), i, s, b);
    assert b > 0 by { assert Bit(v.bitmap, 0) <==> 0 < v.nmeta || 0 in v.owner || 0 in taken; }
    forall k | 0 <= k < |v.disk| ensures Bit(w.bitmap, k) <==> k == b || Bit(v.bitmap, k) {
      BitmapMeaning(v.bitmap, b, k);
    }
    assert Free(w) == Free(v) - {b} && b in Free(v);
  }

  // ------------------------------------------------------------------ taking a block

  /** A free block is marked and zeroed. */
  function Taken(v: Vol, b: nat): (r: Vol)
    requires Sized(v) && b < |v.disk|
  {
    Vol(v.nmeta, Marked(v.bitmap, b), v.disk[b := ZeroBlock()], v.inodes, v.owner, v.cnts)
  }

  lemma TakenAddr(v: Vol, taken: set<nat>, b: nat, i: nat, s: Slot)
    requires Ok(v, taken) && b < |v.disk| && !Bit(v.bitmap, b) && i < |v.inodes| && SlotOk(s)
    ensures Sized(Taken(v, b)) && AddrOf(Taken(v, b), i, s) == AddrOf(v, i, s) != b
  {
    assert AddrOf(v, i, s) != 0 ==> AddrOf(v, i, s) in v.owner;
    assert AddrOf(v, i, Ind) != 0 ==> AddrOf(v, i, Ind) in v.owner;
    assert b >= v.nmeta && b !in v.owner;
  }

  lemma TakenOk(v: Vol, taken: set<nat>, b: nat)
    requires Ok(v, taken) && b < |v.disk| && !Bit(v.bitmap, b)
    ensures Ok(Taken(v, b), taken + {b}) && b >= v.nmeta && b !in v.owner
  {
    var w := Taken(v, b);
    assert b >= v.nmeta && b !in v.owner;
    forall i, s | 0 <= i < |v.inodes| && SlotOk(s) ensures AddrOf(w, i, s) == AddrOf(v, i, s) {
      TakenAddr(v, taken, b, i, s);
    }
    forall k | 0 <= k < |v.disk| ensures Bit(w.bitmap, k) <==> k < v.nmeta || k in v.owner || k in taken + {b} {
      BitmapMeaning(v.bitmap, b, k);
    }
  }

  /** Of the disk itself that block alone changes: it is zeroed, and its bit is set. */
  lemma TakenBlock(v: Vol, b: nat, k: nat)
    requires Sized(v) && b < |v.disk| && k < |v.disk|
    ensures var w := Taken(v, b);
      && |w.disk| == |v.disk| <= |w.bitmap| * BPB && w.inodes == v.inodes
      && (Bit(w.bitmap, k) <==> k == b || Bit(v.bitmap, k))
      && (if k == b then forall j :: 0 <= j < 512 ==> w.disk[k][j] == 0 else w.disk[k] == v.disk[k])
  {
    BitmapMeaning(v.bitmap, b, k);
  }

  // ------------------------------------------------------------------ putting a taken block into a slot

  /** The slot that comes next: the indirect block when the direct slots are full, else the next file block. */
  predicate NextSlot(v: Vol, i: nat, s: Slot)
    requires Sized(v) && i < |v.inodes|
  {
    match s
    case Ind => v.cnts[i] == NDIRECT && v.inodes[i].addrs[NDIRECT] == 0
    case Data(bn) => bn == v.cnts[i] < MAXFILE && (bn >= NDIRECT ==> v.inodes[i].addrs[NDIRECT] != 0)
  }

  function WithAddr(ip: Inode, k: nat, b: nat): (r: Inode)
    requires k < |ip.addrs|
  {
    Inode(ip.kind, ip.nlink, ip.size, ip.addrs[k := b])
  }

  function Attached(v: Vol, i: nat, s: Slot, b: nat): (r: Vol)
    requires Sized(v) && i < |v.inodes| && SlotOk(s) && b < |v.disk|
  {
    var owner := v.owner[b := Own(i, s)];
    if s.Ind? then
      Vol(v.nmeta, v.bitmap, v.disk, v.inodes[i := WithAddr(v.inodes[i], NDIRECT, b)], owner, v.cnts)
    else if s.bn < NDIRECT then
      Vol(v.nmeta, v.bitmap, v.disk, v.inodes[i := WithAddr(v.inodes[i], s.bn, b)], owner, v.cnts[i := v.cnts[i] + 1])
    else
      var a := v.inodes[i].addrs[NDIRECT];
      var disk := v.disk[a := PutWord(v.disk[a], s.bn - NDIRECT, b)];
      Vol(v.nmeta, v.bitmap, disk, v.inodes, owner, v.cnts[i := v.cnts[i] + 1])
  }

  lemma ZeroWord(j: nat)
    requires j < NINDIRECT
    ensures Word(ZeroBlock(), j) == 0
  {
  }

  /** Only the slot itself changes. */
  lemma AttachedAddr(v: Vol, taken: set<nat>, i: nat, s: Slot, b: nat, j: nat, t: Slot)
    requires Ok(v, taken) && i < |v.inodes| && SlotOk(s) && b in taken && NextSlot(v, i, s)
    requires s.Ind? ==> v.disk[b] == ZeroBlock()
    requires j < |v.inodes| && SlotOk(t)
    ensures Sized(Attached(v, i, s, b))
    ensures AddrOf(Attached(v, i, s, b), j, t) == if j == i && t == s then b else AddrOf(v, j, t)
  {
    assert AddrOf(v, i, Ind) != 0 ==> AddrOf(v, i, Ind) in v.owner && v.owner[AddrOf(v, i, Ind)] == Own(i, Ind);
    assert AddrOf(v, j, Ind) != 0 ==> AddrOf(v, j, Ind) in v.owner && v.owner[AddrOf(v, j, Ind)] == Own(j, Ind);
    if s.Ind? && t.Data? && t.bn >= NDIRECT {
      ZeroWord(t.bn - NDIRECT);
      assert AddrOf(v, i, Data(t.bn)) == 0;
    } else if s.Data? && s.bn >= NDIRECT && t.Data? && t.bn >= NDIRECT {
      PutWordMeaning(v.disk[v.inodes[i].addrs[NDIRECT]], s.bn - NDIRECT, b, t.bn - NDIRECT);
    }
  }

  lemma AttachedOk(v: Vol, taken: set<nat>, i: nat, s: Slot, b: nat)
    requires Ok(v, taken) && i < |v.inodes| && SlotOk(s) && b in taken && NextSlot(v, i, s)
    requires s.Ind? ==> v.disk[b] == ZeroBlock()
    ensures Ok(Attached(v, i, s, b), taken - {b})
  {
    var w := Attached(v, i, s, b);
    forall j, t | 0 <= j < |v.inodes| && SlotOk(t)
      ensures Sized(w) && AddrOf(w, j, t) == if j == i && t == s then b else AddrOf(v, j, t)
    {
      AttachedAddr(v, taken, i, s, b, j, t);
    }
    AttachedAddr(v, taken, i, s, b, i, s);
    AttachedOwned(v, taken, i, s, b);
    AttachedNoHoles(v, taken, i, s, b);
  }

  lemma AttachedOwned(v: Vol, taken: set<nat>, i: nat, s: Slot, b: nat)
    requires Ok(v, taken) && i < |v.inodes| && SlotOk(s) && b in taken && Sized(Attached(v, i, s, b))
    requires AddrOf(v, i, s) == 0
    requires forall j, t :: 0 <= j < |v.inodes| && SlotOk(t) ==>
      AddrOf(Attached(v, i, s, b), j, t) == if j == i && t == s then b else AddrOf(v, j, t)
    ensures Owned(Attached(v, i, s, b)) && Mapped(Attached(v, i, s, b), taken - {b})
  {
    hide NoHoles; hide AddrOf; hide Bit;
    var w := Attached(v, i, s, b);
    forall k | 0 <= k < |v.disk| ensures Bit(w.bitmap, k) <==> k < v.nmeta || k in w.owner || k in taken - {b} {
      assert Bit(v.bitmap, k) <==> k < v.nmeta || k in v.owner || k in taken;
    }
  }

  lemma AttachedNoHoles(v: Vol, taken: set<nat>, i: nat, s: Slot, b: nat)
    requires Ok(v, taken) && i < |v.inodes| && SlotOk(s) && b in taken && Sized(Attached(v, i, s, b))
    requires NextSlot(v, i, s)
    requires forall j, t :: 0 <= j < |v.inodes| && SlotOk(t) ==>
      AddrOf(Attached(v, i, s, b), j, t) == if j == i && t == s then b else AddrOf(v, j, t)
    ensures NoHoles(Attached(v, i, s, b))
  {
    var w := Attached(v, i, s, b);
    forall j | 0 <= j < |v.inodes|
      ensures w.cnts[j] <= MAXFILE && (AddrOf(w, j, Ind) != 0 ==> w.cnts[j] >= NDIRECT)
      ensures forall bn :: 0 <= bn < MAXFILE ==> (AddrOf(w, j, Data(bn)) != 0 <==> bn < w.cnts[j])
    {
      forall bn | 0 <= bn < MAXFILE ensures AddrOf(w, j, Data(bn)) != 0 <==> bn < w.cnts[j] {
        assert AddrOf(v, j, Data(bn)) != 0 <==> bn < v.cnts[j];
      }
      assert AddrOf(v, j, Ind) != 0 ==> v.cnts[j] >= NDIRECT;
    }
  }

  // ------------------------------------------------------------------ writing into a file block

  /** New contents for a block that holds file data: no address changes, and no other file. */
  function Stored(v: Vol, b: nat, data: Block): (r: Vol)
    requires b < |v.disk|
  {
    Vol(v.nmeta, v.bitmap, v.disk[b := data], v.inodes, v.owner, v.cnts)
  }

  lemma StoredAddr(v: Vol, taken: set<nat>, b: nat, data: Block, i: nat, s: Slot)
    requires Ok(v, taken) && b in v.owner && v.owner[b].slot.Data? && i < |v.inodes| && SlotOk(s)
    ensures b < |v.disk| && Sized(Stored(v, b, data)) && AddrOf(Stored(v, b, data), i, s) == AddrOf(v, i, s)
  {
    assert AddrOf(v, i, Ind) != 0 ==> AddrOf(v, i, Ind) in v.owner && v.owner[AddrOf(v, i, Ind)] == Own(i, Ind);
  }

  lemma StoredOk(v: Vol, taken: set<nat>, b: nat, data: Block)
    requires Ok(v, taken) && b in v.owner && v.owner[b].slot.Data?
    ensures b < |v.disk| && Ok(Stored(v, b, data), taken)
  {
    var w := Stored(v, b, data);
    assert Sized(w);
    forall i, s | 0 <= i < |v.inodes| && SlotOk(s) ensures AddrOf(w, i, s) == AddrOf(v, i, s) {
      StoredAddr(v, taken, b, data, i, s);
    }
    forall k | 0 <= k < |v.disk| ensures Bit(w.bitmap, k) <==> k < v.nmeta || k in v.owner || k in taken {
      assert Bit(v.bitmap, k) <==> k < v.nmeta || k in v.owner || k in taken;
    }
  }

  // ------------------------------------------------------------------ file contents

  /** Byte k of file i lies in an allocated block. */
  predicate InFile(v: Vol, i: nat, k: nat)
    requires Sized(v)
  {
    i < |v.inodes| && k / BSIZE < v.cnts[i] <= MAXFILE
  }

  /** File contents as far as they are allocated are the same in w as in v. */
  ghost predicate SameFiles(v: Vol, w: Vol) {
    && Ok(v, {}) && Ok(w, {}) && |w.inodes| == |v.inodes| && |w.disk| == |v.disk| && w.nmeta == v.nmeta
    && |w.bitmap| == |v.bitmap|
    && (forall i :: 0 <= i < |v.inodes| ==> w.cnts[i] >= v.cnts[i])
    && (forall i, k :: InFile(v, i, k) ==> At(w, i, k) == At(v, i, k))
  }

  /** Byte k of file i, 0 where nothing is allocated. */
  ghost function At(v: Vol, i: nat, k: nat): (r: byte)
    requires Ok(v, {})
  {
    if InFile(v, i, k) then
      AddrInDisk(v, i, Data(k / BSIZE));
      v.disk[AddrOf(v, i, Data(k / BSIZE))][k % BSIZE]
    else 0
  }

  /** Bytes of a file that lie in one block. */
  lemma ChunkBytes(v: Vol, i: nat, o: nat, m: nat)
    requires Ok(v, {}) && InFile(v, i, o) && o % BSIZE + m <= BSIZE
    ensures AddrOf(v, i, Data(o / BSIZE)) < |v.disk|
    ensures forall x {:trigger At(v, i, x)} :: o <= x < o + m ==>
      At(v, i, x) == v.disk[AddrOf(v, i, Data(o / BSIZE))][x - o + o % BSIZE]
  {
    AddrInDisk(v, i, Data(o / BSIZE));
    forall x | o <= x < o + m ensures At(v, i, x) == v.disk[AddrOf(v, i, Data(o / BSIZE))][x - o + o % BSIZE] {
      assert x / BSIZE == o / BSIZE && x % BSIZE == x - o + o % BSIZE;
    }
  }

  lemma StoredAt(v: Vol, b: nat, data: Block, i: nat, k: nat)
    requires Ok(v, {}) && b in v.owner && v.owner[b].slot.Data?
    requires Ok(Stored(v, b, data), {})
    ensures At(Stored(v, b, data), i, k) ==
      if InFile(v, i, k) && v.owner[b] == Own(i, Data(k / BSIZE)) then data[k % BSIZE] else At(v, i, k)
  {
    if InFile(v, i, k) {
      StoredAddr(v, {}, b, data, i, Data(k / BSIZE));
      AddrInDisk(v, i, Data(k / BSIZE));
      assert AddrOf(v, i, Data(k / BSIZE)) != 0;
      assert AddrOf(v, i, Data(k / BSIZE)) in v.owner;
    }
  }

  /** Giving a file a further block changes nothing that was there, and the new block reads as zeros. */
  lemma GrownAt(v: Vol, i: nat, s: Slot, b: nat, j: nat, k: nat)
    requires Ok(v, {}) && b < |v.disk| && !Bit(v.bitmap, b) && i < |v.inodes| && SlotOk(s) && NextSlot(v, i, s)
    requires Ok(Taken(v, b), {b}) && Ok(Attached(Taken(v, b), i, s, b), {})
    requires InFile(v, j, k)
    ensures At(Attached(Taken(v, b), i, s, b), j, k) == At(v, j, k)
  {
    var w := Taken(v, b);
    var x := Attached(w, i, s, b);
    var t := Data(k / BSIZE);
    TakenAddr(v, {}, b, j, t);
    AttachedAddr(w, {b}, i, s, b, j, t);
    AddrInDisk(v, j, t);
    assert AddrOf(v, j, t) != 0;
    assert AddrOf(v, j, t) in v.owner && v.owner[AddrOf(v, j, t)] == Own(j, t);
    TakenAddr(v, {}, b, i, Ind);
    assert AddrOf(v, i, Ind) != 0 ==> v.owner[AddrOf(v, i, Ind)] == Own(i, Ind);
  }

  lemma GrownFiles(v: Vol, i: nat, s: Slot, b: nat)
    requires Ok(v, {}) && b < |v.disk| && !Bit(v.bitmap, b) && i < |v.inodes| && SlotOk(s) && NextSlot(v, i, s)
    ensures SameFiles(v, Attached(Taken(v, b), i, s, b))
  {
    TakenOk(v, {}, b);
    assert {} + {b} == {b} && {b} - {b} == {};
    AttachedOk(Taken(v, b), {b}, i, s, b);
    forall j, k | InFile(v, j, k) ensures At(Attached(Taken(v, b), i, s, b), j, k) == At(v, j, k) {
      GrownAt(v, i, s, b, j, k);
    }
  }

  /** Nothing about inodes differs but the block addresses and the number of blocks of inode i. */
  predicate OnlyFile(v: Vol, w: Vol, i: nat) {
    && |w.inodes| == |v.inodes| && |w.cnts| == |v.cnts| && i < |v.inodes| && i < |v.cnts|
    && (forall j :: 0 <= j < |v.inodes| && j != i ==> w.inodes[j] == v.inodes[j])
    && (forall j :: 0 <= j < |v.cnts| && j != i ==> w.cnts[j] == v.cnts[j])
    && w.inodes[i].kind == v.inodes[i].kind && w.inodes[i].nlink == v.inodes[i].nlink
    && w.inodes[i].size == v.inodes[i].size
  }

  /** Blocks a file has already stay where they are. */
  ghost predicate SameAddrs(v: Vol, w: Vol, i: nat)
    requires Sized(v) && Sized(w) && i < |v.inodes| && i < |w.inodes|
  {
    && (v.inodes[i].addrs[NDIRECT] != 0 ==> w.inodes[i].addrs[NDIRECT] == v.inodes[i].addrs[NDIRECT])
    && (forall bn {:trigger AddrOf(w, i, Data(bn))} :: 0 <= bn < v.cnts[i] && bn < MAXFILE ==>
          AddrOf(w, i, Data(bn)) == AddrOf(v, i, Data(bn)))
  }

  /** All there is to know about a file that got a further block. */
  ghost predicate Extended(v: Vol, w: Vol, i: nat, s: Slot, b: nat) {
    && SameFiles(v, w) && OnlyFile(v, w, i) && SameAddrs(v, w, i) && SlotOk(s)
    && b < |w.disk| && b == AddrOf(w, i, s) != 0
    && w.cnts[i] == v.cnts[i] + (if s.Data? then 1 else 0)
    && KeepsSlack(v, w, i, if s.Ind? then NDIRECT + 1 else s.bn + 1)
    && (s.Data? ==> w.disk[b] == ZeroBlock() && w.inodes[i].addrs[NDIRECT] == v.inodes[i].addrs[NDIRECT])
  }

  lemma GrownMeaning(v: Vol, i: nat, s: Slot, b: nat)
    requires Ok(v, {}) && b < |v.disk| && !Bit(v.bitmap, b) && i < |v.inodes| && SlotOk(s) && NextSlot(v, i, s)
    ensures Extended(v, Attached(Taken(v, b), i, s, b), i, s, b)
  {
    TakenOk(v, {}, b);
    assert {} + {b} == {b};
    GrownFiles(v, i, s, b);
    AttachedAddr(Taken(v, b), {b}, i, s, b, i, s);
    TakenAddr(v, {}, b, i, Ind);
    AttachedAddr(Taken(v, b), {b}, i, s, b, i, Ind);
    var w := Attached(Taken(v, b), i, s, b);
    forall bn | 0 <= bn < v.cnts[i] && bn < MAXFILE ensures AddrOf(w, i, Data(bn)) == AddrOf(v, i, Data(bn)) {
      TakenAddr(v, {}, b, i, Data(bn));
      AttachedAddr(Taken(v, b), {b}, i, s, b, i, Data(bn));
    }
    forall n | (if s.Ind? then NDIRECT + 1 else s.bn + 1) <= n ensures Slack(w, i, n) == Slack(v, i, n) {
      GrownSlack(v, {}, i, s, b, n);
    }
  }

  /** File block bn of file i is there, whether it was before or not, and nothing else differs. */
  ghost predicate Reached(v: Vol, w: Vol, i: nat, bn: nat) {
    && SameFiles(v, w) && OnlyFile(v, w, i) && SameAddrs(v, w, i) && bn < MAXFILE
    && AddrOf(w, i, Data(bn)) != 0
    && w.cnts[i] == (if bn < v.cnts[i] then v.cnts[i] else bn + 1)
    && KeepsSlack(v, w, i, bn + 1)
  }

  lemma SameFilesSelf(v: Vol)
    requires Ok(v, {})
    ensures SameFiles(v, v)
  {
  }

  lemma SameFilesTwice(v: Vol, w: Vol, x: Vol)
    requires SameFiles(v, w) && SameFiles(w, x)
    ensures SameFiles(v, x)
  {
    hide Owned; hide Mapped; hide At;
    forall i, k | InFile(v, i, k) ensures At(x, i, k) == At(v, i, k) {
      assert InFile(w, i, k);
    }
  }

  lemma ReachedSelf(v: Vol, i: nat, bn: nat)
    requires Ok(v, {}) && i < |v.inodes| && bn < v.cnts[i]
    ensures Reached(v, v, i, bn)
  {
    SameFilesSelf(v);
    SlackSelf(v, i);
    assert AddrOf(v, i, Data(bn)) != 0;
  }

  lemma ReachedOne(v: Vol, x: Vol, i: nat, bn: nat, b: nat)
    requires Extended(v, x, i, Data(bn), b) && bn == v.cnts[i]
    ensures Reached(v, x, i, bn) && |x.bitmap| == |v.bitmap|
    ensures b == AddrOf(x, i, Data(bn)) < |x.disk| && x.disk[b] == ZeroBlock()
    ensures IndOf(x, i) == IndOf(v, i)
  {
    hide Ok; hide At;
  }

  function IndOf(v: Vol, i: nat): (r: nat)
    requires Sized(v) && i < |v.inodes|
  {
    v.inodes[i].addrs[NDIRECT]
  }

  lemma ReachedInd(v: Vol, w: Vol, i: nat, b: nat)
    requires Extended(v, w, i, Ind, b)
    ensures Ok(w, {}) && Sized(w) && i < |v.inodes| == |w.inodes| && w.cnts[i] == v.cnts[i] && |w.bitmap| == |v.bitmap|
    ensures IndOf(w, i) == b != 0
  {
    hide At;
  }

  lemma ReachedTwo(v: Vol, w: Vol, x: Vol, i: nat, bn: nat, a: nat, b: nat)
    requires Extended(v, w, i, Ind, a) && Extended(w, x, i, Data(bn), b) && bn == v.cnts[i] >= NDIRECT
    ensures Reached(v, x, i, bn)
  {
    hide Owned; hide Mapped; hide NoHoles; hide At; hide Slack;
    SameFilesTwice(v, w, x);
    SlackTwice(v, w, x, i, NDIRECT + 1, bn + 1, bn + 1);
    assert OnlyFile(v, x, i);
  }

  // ------------------------------------------------------------------ giving everything back

  function Emptied(ip: Inode): (r: Inode) {
    Inode(ip.kind, ip.nlink, 0, seq(NDIRECT + 1, k => 0))
  }

  function Rest(owner: map<nat, Own>, i: nat): (r: map<nat, Own>) {
    map b | b in owner && owner[b].inum != i :: owner[b]
  }

  function Truncated(v: Vol, i: nat, m: Bitmap): (r: Vol)
    requires i < |v.inodes| == |v.cnts|
  {
    Vol(v.nmeta, m, v.disk, v.inodes[i := Emptied(v.inodes[i])], Rest(v.owner, i), v.cnts[i := 0])
  }

  lemma TruncatedOk(v: Vol, i: nat, m: Bitmap)
    requires Ok(v, {}) && i < |v.inodes| && |m| == |v.bitmap|
    requires forall b :: 0 <= b < |v.disk| ==> (Bit(m, b) <==>
          Bit(v.bitmap, b) && !(b in v.owner && v.owner[b].inum == i))
    ensures Ok(Truncated(v, i, m), {})
    ensures forall j, k :: j != i ==> At(Truncated(v, i, m), j, k) == At(v, j, k)
  {
    var w := Truncated(v, i, m);
    assert Sized(w);
    forall j, s | 0 <= j < |v.inodes| && SlotOk(s) ensures AddrOf(w, j, s) == if j == i then 0 else AddrOf(v, j, s) {
    }
    forall k | 0 <= k < |v.disk| ensures Bit(w.bitmap, k) <==> k < v.nmeta || k in w.owner || k in {} {
      assert Bit(v.bitmap, k) <==> k < v.nmeta || k in v.owner;
    }
  }
}
