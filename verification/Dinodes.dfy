/** Inodes as they lie in a disk block: eight to a block, sixteen words each. */
module Dinodes {
  import opened Blocks
  import opened Volume

  const IPB: nat := 8               // inodes per block
  const UINT: nat := 0x1_0000_0000

  // Word 0 of an inode holds its type and the major device number, word 1 the minor device number and the link count,
  // word 2 the size, and the rest the block addresses.

  /** The fields fit where the disk keeps them. */
  predicate Fits(ip: Inode) {
    && ip.kind < 0x1_0000 && -0x8000 <= ip.nlink < 0x8000 && ip.size < UINT && |ip.addrs| == NDIRECT + 1
    && forall k :: 0 <= k <= NDIRECT ==> ip.addrs[k] < UINT
  }

  /** A 16-bit field as a signed number. */
  function Signed(x: nat): (r: int) {
    if x < 0x8000 then x else x - 0x1_0000
  }

  function GetInode(b: Block, k: nat): (r: Inode)
    requires k < IPB
    ensures Fits(r)
  {
    Inode(Word(b, 16 * k) % 0x1_0000, Signed(Word(b, 16 * k + 1) / 0x1_0000), Word(b, 16 * k + 2),
          WordsFrom(b, 16 * k + 3, NDIRECT + 1))
  }

  /** Two bytes from o on, low byte first. */
  function TwoBytes(b: Block, o: nat): (r: nat)
    requires o + 1 < BSIZE
  {
    b[o] as int + 256 * b[o + 1] as int
  }

  lemma HalfWords(b: Block, j: nat)
    requires j < NINDIRECT
    ensures Word(b, j) % 0x1_0000 == TwoBytes(b, 4 * j) && Word(b, j) / 0x1_0000 == TwoBytes(b, 4 * j + 2)
    ensures Word(b, j) == TwoBytes(b, 4 * j) + 65536 * TwoBytes(b, 4 * j + 2)
  {
  }

  /** Where the fields lie in the 64 bytes of an inode: type, major, minor and nlink in two bytes each, then size and
      the addresses in four. */
  lemma InodeLayout(b: Block, k: nat, j: nat)
    requires k < IPB && j <= NDIRECT
    ensures var ip, o := GetInode(b, k), 64 * k;
      && ip.kind == TwoBytes(b, o) && Devices(b, k) == (TwoBytes(b, o + 2), TwoBytes(b, o + 4))
      && ip.nlink + (if ip.nlink < 0 then 65536 else 0) == TwoBytes(b, o + 6)
      && ip.size == TwoBytes(b, o + 8) + 65536 * TwoBytes(b, o + 10)
      && ip.addrs[j] == TwoBytes(b, o + 12 + 4 * j) + 65536 * TwoBytes(b, o + 14 + 4 * j)
  {
    hide Word; hide TwoBytes;
    HalfWords(b, 16 * k);
    HalfWords(b, 16 * k + 1);
    HalfWords(b, 16 * k + 2);
    HalfWords(b, 16 * k + 3 + j);
  }

  /** The n words of a block from word j on. */
  function WordsFrom(b: Block, j: nat, n: nat): (r: seq<nat>)
    requires j + n <= NINDIRECT
    ensures |r| == n && forall m :: 0 <= m < n ==> r[m] == Word(b, j + m)
  {
    if n == 0 then [] else WordsFrom(b, j, n - 1) + [Word(b, j + n - 1)]
  }

  function PutWords(b: Block, j: nat, ws: seq<nat>): (r: Block)
    requires j + |ws| <= NINDIRECT && forall k :: 0 <= k < |ws| ==> ws[k] < UINT
    decreases |ws|
  {
    if ws == [] then b else PutWords(PutWord(b, j, ws[0]), j + 1, ws[1..])
  }

  lemma {:induction false} PutWordsMeaning(b: Block, j: nat, ws: seq<nat>, n: nat)
    requires j + |ws| <= NINDIRECT && n < NINDIRECT && forall k :: 0 <= k < |ws| ==> ws[k] < UINT
    ensures Word(PutWords(b, j, ws), n) == if j <= n < j + |ws| then ws[n - j] else Word(b, n)
    decreases |ws|
  {
    hide Word; hide PutWord;
    if ws != [] {
      PutWordsMeaning(PutWord(b, j, ws[0]), j + 1, ws[1..], n);
      PutWordMeaning(b, j, ws[0], n);
    }
  }

  /** The sixteen words of an inode. */
  function InodeWords(ip: Inode, major: nat, minor: nat): (r: seq<nat>)
    requires Fits(ip) && major < 0x1_0000 && minor < 0x1_0000
    ensures |r| == 16 && forall k :: 0 <= k < 16 ==> r[k] < UINT
  {
    var links := if ip.nlink < 0 then ip.nlink + 0x1_0000 else ip.nlink;
    [ip.kind + 0x1_0000 * major, minor + 0x1_0000 * links, ip.size] + ip.addrs
  }

  /** The device numbers of an inode. */
  function Devices(b: Block, k: nat): (r: (nat, nat))
    requires k < IPB
    ensures r.0 < 0x1_0000 && r.1 < 0x1_0000
  {
    (Word(b, 16 * k) / 0x1_0000, Word(b, 16 * k + 1) % 0x1_0000)
  }

  function PutInode(b: Block, k: nat, ip: Inode, major: nat, minor: nat): (r: Block)
    requires k < IPB && Fits(ip) && major < 0x1_0000 && minor < 0x1_0000
  {
    PutWords(b, 16 * k, InodeWords(ip, major, minor))
  }

  /** An inode that is written is read back, and the other seven stay as they are. */
  lemma PutInodeMeaning(b: Block, k: nat, ip: Inode, major: nat, minor: nat, j: nat)
    requires k < IPB && Fits(ip) && major < 0x1_0000 && minor < 0x1_0000 && j < IPB
    ensures GetInode(PutInode(b, k, ip, major, minor), j) == if j == k then ip else GetInode(b, j)
  {
    hide Word; hide PutWords;
    var ws := InodeWords(ip, major, minor);
    var r := PutInode(b, k, ip, major, minor);
    forall n | 0 <= n < NINDIRECT
      ensures Word(r, n) == if 16 * k <= n < 16 * k + 16 then ws[n - 16 * k] else Word(b, n)
    {
      PutWordsMeaning(b, 16 * k, ws, n);
    }
    if j == k {
      assert ws[3..] == ip.addrs;
      assert WordsFrom(r, 16 * j + 3, NDIRECT + 1) == ip.addrs;
    } else {
      assert WordsFrom(r, 16 * j + 3, NDIRECT + 1) == WordsFrom(b, 16 * j + 3, NDIRECT + 1);
    }
  }

  lemma PutDevices(b: Block, k: nat, ip: Inode, major: nat, minor: nat)
    requires k < IPB && Fits(ip) && major < 0x1_0000 && minor < 0x1_0000
    ensures Devices(PutInode(b, k, ip, major, minor), k) == (major, minor)
  {
    hide Word; hide PutWords;
    PutWordsMeaning(b, 16 * k, InodeWords(ip, major, minor), 16 * k);
    PutWordsMeaning(b, 16 * k, InodeWords(ip, major, minor), 16 * k + 1);
  }

  /** The inode blocks hold these inodes. */
  ghost predicate OnDisk(blocks: seq<Block>, inodes: seq<Inode>) {
    && |inodes| <= |blocks| * IPB
    && forall i {:trigger inodes[i]} :: 0 <= i < |inodes| ==> GetInode(blocks[i / IPB], i % IPB) == inodes[i]
  }

  /** Writing one inode to its block makes the blocks hold the new inodes. */
  lemma UpdatedOnDisk(blocks: seq<Block>, inodes: seq<Inode>, i: nat, ip: Inode, major: nat,
      minor: nat)
    requires OnDisk(blocks, inodes) && i < |inodes| && Fits(ip) && major < 0x1_0000 && minor < 0x1_0000
    ensures i / IPB < |blocks|
    ensures OnDisk(blocks[i / IPB := PutInode(blocks[i / IPB], i % IPB, ip, major, minor)], inodes[i := ip])
  {
    hide GetInode; hide PutInode; hide Fits;
    var b := blocks[i / IPB := PutInode(blocks[i / IPB], i % IPB, ip, major, minor)];
    forall j | 0 <= j < |inodes| ensures GetInode(b[j / IPB], j % IPB) == inodes[i := ip][j] {
      assert GetInode(blocks[j / IPB], j % IPB) == inodes[j];
      PutInodeMeaning(blocks[i / IPB], i % IPB, ip, major, minor, j % IPB);
    }
  }

  lemma OnDiskFits(blocks: seq<Block>, inodes: seq<Inode>, i: nat)
    requires OnDisk(blocks, inodes) && i < |inodes|
    ensures i / IPB < |blocks| && Fits(inodes[i]) && GetInode(blocks[i / IPB], i % IPB) == inodes[i]
  {
    hide GetInode;
  }

  /** The addresses of a file's blocks fit. */
  lemma AddrsFit(v: Vol, taken: set<nat>, i: nat)
    requires Ok(v, taken) && i < |v.inodes|
    ensures forall k :: 0 <= k <= NDIRECT ==> v.inodes[i].addrs[k] < UINT
  {
    forall k | 0 <= k <= NDIRECT ensures v.inodes[i].addrs[k] < UINT {
      if k < NDIRECT {
        AddrInDisk(v, i, Data(k));
      }
    }
  }
}
