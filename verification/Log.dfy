/** The redo log in memory: recording writes, committing them, recovering after a crash. */
module Log {
  import opened LogDisk
  import opened BufferCache
  import opened Params
  import opened Sets

  // ------------------------------------------------------------------ the cache as the log sees it

  /** The blocks whose buffers are pinned. */
  function Pinned(c: Core): (r: set<nat>)
    requires CoreOk(c)
  {
    set b | b in c.place && c.bufs[c.place[b]].dirty
  }

  /** The logical disk. */
  function View(c: Core): (v: Disk)
    requires CoreOk(c)
    ensures |v| == |c.disk|
    ensures forall b :: 0 <= b < |v| ==> v[b] == ViewAt(c, b)
  {
    seq(|c.disk|, b requires 0 <= b < |c.disk| => ViewAt(c, b))
  }

  /** A block joins the transaction once, however often it is written. */
  function Absorb(homes: seq<nat>, b: nat): (r: seq<nat>) {
    if b in homes then homes else homes + [b]
  }

  lemma AbsorbElements(homes: seq<nat>, b: nat)
    ensures Elements(Absorb(homes, b)) == Elements(homes) + {b}
  {
  }

  lemma PinnedGrows(c: Core, i: nat)
    requires CoreOk(c) && i < |c.bufs| && c.bufs[i].valid
    ensures var d := With(c, i, c.bufs[i].(dirty := true));
      CoreOk(d) && Pinned(d) == Pinned(c) + {c.bufs[i].blockno} && View(d) == View(c)
  {
    WithView(c, i, c.bufs[i].(dirty := true));
  }

  // ------------------------------------------------------------------ buffers held, here and by other processes

  /** The buffers in `held` are locked by the log; other processes, such as readers of files, hold `ext[i]` references
      to buffer i, and may have it locked. Nobody is in the middle of changing a buffer. */
  predicate Used(c: Core, held: set<nat>, ext: seq<nat>) {
    && |ext| == |c.bufs|
    && forall i :: 0 <= i < |c.bufs| ==> UsedAt(c, held, ext, i)
  }

  predicate UsedAt(c: Core, held: set<nat>, ext: seq<nat>, i: nat)
    requires |ext| == |c.bufs| && i < |c.bufs|
  {
    && c.bufs[i].refcnt == ext[i] + (if i in held then 1 else 0)
    && (i in held ==> c.bufs[i].locked && c.bufs[i].valid)
    && (i !in held && c.bufs[i].valid && !c.bufs[i].dirty ==>
          c.bufs[i].blockno < |c.disk| && c.bufs[i].data == c.disk[c.bufs[i].blockno])
  }

  /** The buffers that cannot be recycled for the log: pinned, or referenced by others. */
  function Occupied(c: Core, ext: seq<nat>): (r: set<nat>)
    requires |ext| == |c.bufs|
    ensures forall i :: i in r <==> 0 <= i < |c.bufs| && (c.bufs[i].dirty || ext[i] > 0)
  {
    set i | i in Below(|c.bufs|) && (c.bufs[i].dirty || ext[i] > 0)
  }

  /** A buffer other processes reference, with one more reference, locked and read. */
  function Joined(u: Buf, data: Block): (r: Buf) {
    u.(refcnt := u.refcnt + 1, locked := true, valid := true, data := data)
  }

  lemma FetchedUsed(c: Core, held: set<nat>, ext: seq<nat>, i: nat, b: nat)
    requires CoreOk(c) && Serves(c, i, b) && !Locked(c, b) && Used(c, held, ext)
    ensures var d := Fetched(c, i, b);
      && CoreOk(d) && i !in held && Used(d, held + {i}, ext) && Pinned(d) == Pinned(c) && View(d) == View(c)
      && d.bufs[i].blockno == b && d.bufs[i].data == View(c)[b] && (d.bufs[i].dirty <==> b in Pinned(c))
      && (ext[i] > 0 ==> c.bufs[i].blockno == b && d.bufs[i] == Joined(c.bufs[i], View(c)[b]))
  {
    FetchedMeaning(c, i, b);
    var d := Fetched(c, i, b);
    assert UsedAt(c, held, ext, i);
    forall j | 0 <= j < |d.bufs| ensures UsedAt(d, held + {i}, ext, j) {
      assert UsedAt(c, held, ext, j);
    }
  }

  lemma ReleasedUsed(c: Core, held: set<nat>, ext: seq<nat>, i: nat)
    requires CoreOk(c) && i < |c.bufs| && i in held && Used(c, held, ext) && c.bufs[i].locked && Settled(c, i)
    ensures var d := Released(c, i);
      CoreOk(d) && Used(d, held - {i}, ext) && Pinned(d) == Pinned(c) && View(d) == View(c)
  {
    ReleasedKeepsView(c, i);
    var d := Released(c, i);
    assert BufOk(c.disk, c.bufs[i]);
    forall j | 0 <= j < |d.bufs| ensures UsedAt(d, held - {i}, ext, j) {
      assert UsedAt(c, held, ext, j);
    }
  }

  /** The cache after a held buffer was given new contents and written out. */
  function Overwritten(c: Core, i: nat, data: Block): (r: Core)
    requires i < |c.bufs| && c.bufs[i].blockno < |c.disk|
  {
    WriteOut(With(c, i, c.bufs[i].(data := data, dirty := true)), i)
  }

  lemma OverwrittenMeaning(c: Core, held: set<nat>, ext: seq<nat>, i: nat, data: Block)
    requires CoreOk(c) && i < |c.bufs| && i in held && Used(c, held, ext)
    ensures c.bufs[i].blockno < |c.disk| && c.bufs[i].locked && c.bufs[i].valid
    ensures var d := Overwritten(c, i, data); var b := c.bufs[i].blockno;
      && CoreOk(d) && Used(d, held, ext) && Pinned(d) == Pinned(c) - {b}
      && d.disk == c.disk[b := data]
      && View(d) == View(c)[b := data]
  {
    assert UsedAt(c, held, ext, i) && BufOk(c.disk, c.bufs[i]);
    var e := With(c, i, c.bufs[i].(data := data, dirty := true));
    WithView(c, i, e.bufs[i]);
    WriteOutKeepsView(e, i);
    var d := Overwritten(c, i, data);
    forall j | 0 <= j < |d.bufs| ensures UsedAt(d, held, ext, j) {
      assert UsedAt(c, held, ext, j) && BufOk(c.disk, c.bufs[j]);
    }
  }

  /** Enough room means that a buffer can be had. */
  lemma RoomLeft(c: Core, held: set<nat>, ext: seq<nat>, b: nat)
    requires Used(c, held, ext) && |Occupied(c, ext)| + |held| < |c.bufs|
    ensures !Exhausted(c, b)
  {
    if Exhausted(c, b) {
      var all := Below(|c.bufs|);
      forall i | i in all ensures i in Occupied(c, ext) + held {
        assert !Recyclable(c, i) && UsedAt(c, held, ext, i);
      }
      SubsetSize(all, Occupied(c, ext) + held);
    }
  }

  /** The buffers other processes hold and the log has not pinned. */
  function Readers(c: Core): (r: set<nat>)
    ensures forall i :: i in r <==> 0 <= i < |c.bufs| && c.bufs[i].refcnt > 0 && !c.bufs[i].dirty
  {
    set i | i in Below(|c.bufs|) && c.bufs[i].refcnt > 0 && !c.bufs[i].dirty
  }

  function Dirty(c: Core): (r: set<nat>)
    ensures forall i :: i in r <==> 0 <= i < |c.bufs| && c.bufs[i].dirty
  {
    set i | i in Below(|c.bufs|) && c.bufs[i].dirty
  }

  /** A pinned block has one buffer. */
  lemma DirtySize(c: Core)
    requires CoreOk(c)
    ensures |Dirty(c)| == |Pinned(c)|
  {
    InjectiveImageSize(Pinned(c), c.place);
    assert Dirty(c) == Image(Pinned(c), c.place) by {
      forall i | i in Dirty(c) ensures i in Image(Pinned(c), c.place) {
        assert BufOk(c.disk, c.bufs[i]);
        assert c.bufs[i].blockno in Pinned(c);
      }
    }
  }

  /** Nothing can be recycled exactly when pinned and referenced buffers are all there are. */
  lemma AllBusy(c: Core)
    ensures (forall i :: 0 <= i < |c.bufs| ==> !Recyclable(c, i)) <==> |Dirty(c)| + |Readers(c)| == |c.bufs|
  {
    var busy, all := Dirty(c) + Readers(c), Below(|c.bufs|);
    assert |busy| == |Dirty(c)| + |Readers(c)|;
    SubsetSize(busy, all);
    if |busy| == |c.bufs| {
      FullSubset(busy, all);
      forall i | 0 <= i < |c.bufs| ensures !Recyclable(c, i) {
        assert i in all;
      }
    }
    if forall i :: 0 <= i < |c.bufs| ==> !Recyclable(c, i) {
      forall i | i in all ensures i in busy {
        assert !Recyclable(c, i);
      }
      SubsetSize(all, busy);
    }
  }

  /** When commit asks for a log block that nobody references, the cache is exhausted exactly when the transaction's
      blocks and the buffers other processes hold are all the buffers there are. */
  lemma CommitExhaustsCache(c: Core, homes: seq<nat>, slot: nat)
    requires CoreOk(c) && Pinned(c) == Elements(homes) && slot !in homes
    requires forall i, j :: 0 <= i < j < |homes| ==> homes[i] != homes[j]
    requires slot in c.place ==> c.bufs[c.place[slot]].refcnt == 0
    ensures Exhausted(c, slot) <==> |homes| + |Readers(c)| == |c.bufs|
  {
    ElementsSize(homes);
    DirtySize(c);
    AllBusy(c);
    assert slot !in Pinned(c);
    assert slot in c.place ==> Recyclable(c, c.place[slot]);
  }

  /** The same count, for a commit: room is left for the log exactly when its blocks and the readers' buffers leave
      one. */
  lemma OccupiedSize(c: Core, ext: seq<nat>)
    requires CoreOk(c) && Used(c, {}, ext)
    ensures |Occupied(c, ext)| == |Pinned(c)| + |Readers(c)|
  {
    DirtySize(c);
    forall i | 0 <= i < |c.bufs| ensures c.bufs[i].refcnt == ext[i] {
      assert UsedAt(c, {}, ext, i);
    }
    assert Occupied(c, ext) == Dirty(c) + Readers(c);
  }

  // ------------------------------------------------------------------ one block write, with others about

  /** Other processes' buffers after one block write: only a buffer of that very block changes, as the block does. */
  predicate Spared(c: Core, d: Core, ext: seq<nat>, b: nat, data: Block) {
    && |ext| == |c.bufs| == |d.bufs|
    && forall i :: 0 <= i < |ext| && ext[i] > 0 ==>
         d.bufs[i] ==
           if c.bufs[i].blockno == b then c.bufs[i].(data := data, dirty := false, valid := true) else c.bufs[i]
  }

  /** The effect of one block write of the log. */
  predicate Wrote(c: Core, d: Core, b: nat, data: Block, ext: seq<nat>)
    requires CoreOk(c) && b < |c.disk|
  {
    && CoreOk(d) && |d.bufs| == |c.bufs|
    && Used(d, {}, ext)
    && Pinned(d) == Pinned(c) - {b}
    && d.disk == c.disk[b := data]
    && View(d) == View(c)[b := data]
    && Spared(c, d, ext, b, data)
    && Occupied(d, ext) <= Occupied(c, ext)
  }

  /** Two blocks read. */
  function Pair(c: Core, a: nat, slot: nat, b: nat, home: nat): (r: Core)
    requires CoreOk(c) && Serves(c, a, slot) && CoreOk(Fetched(c, a, slot)) && Serves(Fetched(c, a, slot), b, home)
  {
    Fetched(Fetched(c, a, slot), b, home)
  }

  predicate OffSlot(c: Core, ext: seq<nat>, slot: nat)
    requires |ext| == |c.bufs|
  {
    forall i :: 0 <= i < |c.bufs| && ext[i] > 0 ==> c.bufs[i].blockno != slot
  }

  lemma PairMeaning(c: Core, ext: seq<nat>, a: nat, slot: nat, b: nat, home: nat)
    requires CoreOk(c) && Used(c, {}, ext) && slot != home && slot !in Pinned(c) && !Locked(c, slot) && !Locked(c, home)
    requires OffSlot(c, ext, slot)
    requires Serves(c, a, slot) && CoreOk(Fetched(c, a, slot)) && Serves(Fetched(c, a, slot), b, home)
    ensures var d := Pair(c, a, slot, b, home);
      && CoreOk(d) && a != b && a < |c.bufs| && b < |c.bufs| && Used(d, {a, b}, ext)
      && Pinned(d) == Pinned(c) && View(d) == View(c) && d.disk == c.disk
      && |d.bufs| == |c.bufs| && (forall i :: 0 <= i < |c.bufs| && i != a && i != b ==> d.bufs[i] == c.bufs[i])
      && ext[a] == 0 && d.bufs[a].blockno == slot && !d.bufs[a].dirty && d.bufs[a].data == View(c)[slot]
      && d.bufs[b].blockno == home && d.bufs[b].data == View(c)[home] && (d.bufs[b].dirty <==> home in Pinned(c))
      && (ext[b] > 0 ==> c.bufs[b].blockno == home && d.bufs[b] == Joined(c.bufs[b], View(c)[home]))
      && Occupied(d, ext) == Occupied(c, ext)
  {
    hide View; hide Pinned; hide CoreOk; hide Fetched; hide UsedAt; hide Occupied;
    FetchedOccupied(c, ext, a, slot);
    FetchedOccupied(Fetched(c, a, slot), ext, b, home);
    FetchedUsed(c, {}, ext, a, slot);
    var e := Fetched(c, a, slot);
    FetchedOthers(c, a, slot);
    SecondUnlocked(c, ext, a, slot, home);
    assert {} + {a} == {a};
    FetchedUsed(e, {a}, ext, b, home);
    FetchedOthers(e, b, home);
    assert {a} + {b} == {a, b};
  }

  lemma FetchedOthers(c: Core, i: nat, b: nat)
    requires CoreOk(c) && Serves(c, i, b)
    ensures var d := Fetched(c, i, b);
      |d.bufs| == |c.bufs| && d.disk == c.disk && forall j :: 0 <= j < |c.bufs| && j != i ==> d.bufs[j] == c.bufs[j]
  {
  }

  /** Reading one block locks no other. */
  lemma SecondUnlocked(c: Core, ext: seq<nat>, a: nat, slot: nat, home: nat)
    requires CoreOk(c) && Used(c, {}, ext) && Serves(c, a, slot) && CoreOk(Fetched(c, a, slot)) && slot != home
    requires !Locked(c, home)
    ensures !Locked(Fetched(c, a, slot), home)
  {
  }

  /** A held buffer copied to another, the copy written out, both given back. */
  function Copied(c: Core, src: nat, dst: nat): (r: Core)
    requires src < |c.bufs| && dst < |c.bufs| && src != dst && c.bufs[dst].blockno < |c.disk|
    requires c.bufs[src].refcnt > 0 && c.bufs[dst].refcnt > 0
  {
    Released(Released(Overwritten(c, dst, c.bufs[src].data), src), dst)
  }

  lemma CopiedMeaning(c: Core, ext: seq<nat>, src: nat, dst: nat)
    requires CoreOk(c) && src < |c.bufs| && dst < |c.bufs| && src != dst && Used(c, {src, dst}, ext) && Settled(c, src)
    ensures c.bufs[dst].blockno < |c.disk| && c.bufs[src].refcnt > 0 && c.bufs[dst].refcnt > 0
    ensures c.bufs[src].locked && c.bufs[dst].locked && c.bufs[dst].valid
    ensures var d := Copied(c, src, dst); var b := c.bufs[dst].blockno; var data := c.bufs[src].data;
      && CoreOk(d) && Used(d, {}, ext) && Pinned(d) == Pinned(c) - {b} && d.disk == c.disk[b := data]
      && View(d) == View(c)[b := data] && |d.bufs| == |c.bufs|
      && (forall i :: 0 <= i < |c.bufs| && i != src && i != dst ==> d.bufs[i] == c.bufs[i])
      && d.bufs[src] == c.bufs[src].(locked := false, refcnt := c.bufs[src].refcnt - 1)
      && d.bufs[dst] ==
         c.bufs[dst].(locked := false, refcnt := c.bufs[dst].refcnt - 1, data := data, dirty := false, valid := true)
    ensures var e := Overwritten(c, dst, c.bufs[src].data);
      && CoreOk(e) && e.bufs[src].locked && Settled(e, src)
      && var f := Released(e, src); CoreOk(f) && f.bufs[dst].locked && Settled(f, dst)
  {
    hide View; hide Pinned; hide CoreOk; hide Used;
    var data := c.bufs[src].data;
    HeldApart(c, ext, src, dst);
    OverwrittenMeaning(c, {src, dst}, ext, dst, data);
    var e := Overwritten(c, dst, data);
    ReleasedUsed(e, {src, dst}, ext, src);
    var f := Released(e, src);
    assert {src, dst} - {src} == {dst};
    ReleasedUsed(f, {dst}, ext, dst);
    assert {dst} - {dst} == {};
  }

  lemma HeldApart(c: Core, ext: seq<nat>, src: nat, dst: nat)
    requires CoreOk(c) && src < |c.bufs| && dst < |c.bufs| && src != dst && Used(c, {src, dst}, ext)
    ensures c.bufs[src].blockno != c.bufs[dst].blockno
    ensures c.bufs[src].refcnt > 0 && c.bufs[dst].refcnt > 0 && c.bufs[src].locked && c.bufs[dst].locked
    ensures c.bufs[dst].valid
    ensures c.bufs[src].blockno < |c.disk| && c.bufs[dst].blockno < |c.disk|
  {
    assert UsedAt(c, {src, dst}, ext, src) && UsedAt(c, {src, dst}, ext, dst);
    assert BufOk(c.disk, c.bufs[src]) && BufOk(c.disk, c.bufs[dst]);
  }

  // ------------------------------------------------------------------ the header block

  /** The header block as `write_head` fills it in, word by word. */
  method FillHeader(b: Block, homes: seq<nat>) returns (r: Block)
    requires |homes| <= LOGSIZE
    ensures r == PutHeader(b, homes)
    ensures r[0] == |homes| && forall i :: 0 <= i < |homes| ==> r[1 + i] == homes[i]
  {
    r := b[0 := |homes|];
    for i := 0 to |homes|
      invariant |r| == WORDS && r[0] == |homes|
      invariant r[1..1 + i] == homes[..i]
      invariant r[1 + i..] == b[1 + i..]
    {
      r := r[1 + i := homes[i]];
      assert r[1..1 + i + 1] == r[1..1 + i] + [homes[i]];
    }
    assert r == [r[0]] + r[1..1 + |homes|] + r[1 + |homes|..];
  }

  /** The home block numbers as `read_head` copies them out. */
  method CopyHeader(b: Block) returns (homes: seq<nat>)
    requires HeaderFits(b)
    ensures homes == HeaderHomes(b)
    ensures |homes| == b[0] && forall i :: 0 <= i < |homes| ==> homes[i] == b[1 + i]
  {
    homes := [];
    for i := 0 to b[0]
      invariant homes == b[1..1 + i]
    {
      homes := homes + [b[1 + i]];
    }
  }

  // ------------------------------------------------------------------ the disks along the way

  /** The disks after each of the first k block writes of a commit. */
  function CommitTrace(L: Layout, homes: seq<nat>, data: seq<Block>, d: Disk, k: nat): (r: seq<Disk>)
    requires HomesOk(L, |d|, homes) && |data| == |homes| && k <= 2 * |homes| + 2
  {
    if k == 0 then [] else CommitTrace(L, homes, data, d, k - 1) + [CommitDisk(L, homes, data, d, k)]
  }

  /** The disks after each of the first k block writes of a recovery. */
  function RecoverTrace(L: Layout, homes: seq<nat>, d: Disk, k: nat): (r: seq<Disk>)
    requires HomesOk(L, |d|, homes) && k <= |homes| + 1
  {
    if k == 0 then [] else RecoverTrace(L, homes, d, k - 1) + [RecoverDisk(L, homes, d, k)]
  }

  /** Other processes reference no log block, and have no block of the transaction locked: only the log reads its
      region, and a lock that is taken is waited for before the buffer is used. */
  predicate Clear(L: Layout, homes: seq<nat>, c: Core, ext: seq<nat>) {
    && |ext| == |c.bufs|
    && forall i :: 0 <= i < |ext| && ext[i] > 0 ==>
         !InLog(L, c.bufs[i].blockno) && (c.bufs[i].locked ==> c.bufs[i].blockno !in homes)
  }

  /** Other processes' buffers since cache c0: those of other blocks are untouched, those of the transaction's blocks
      may have new contents. */
  predicate Others(c0: Core, c: Core, ext: seq<nat>, homes: seq<nat>) {
    && |ext| == |c0.bufs| == |c.bufs|
    && forall i :: 0 <= i < |ext| && ext[i] > 0 ==>
         var u, w := c0.bufs[i], c.bufs[i];
         && (u.valid ==> w.valid)
         && w == if u.blockno in homes then u.(data := w.data, dirty := w.dirty, valid := w.valid) else u
  }

  /** What stays true while the log works on these homes. */
  predicate Among(L: Layout, homes: seq<nat>, c0: Core, c: Core, ext: seq<nat>) {
    CoreOk(c) && Used(c, {}, ext) && Clear(L, homes, c, ext) && Others(c0, c, ext, homes)
  }

  lemma AmongStep(L: Layout, homes: seq<nat>, c0: Core, c: Core, d: Core, ext: seq<nat>, b: nat,
      data: Block)
    requires Among(L, homes, c0, c, ext) && b < |c.disk| && Wrote(c, d, b, data, ext) && (InLog(L, b) || b in homes)
    ensures Among(L, homes, c0, d, ext) && |Occupied(d, ext)| <= |Occupied(c, ext)| && |d.bufs| == |c.bufs|
  {
    hide CoreOk; hide Used; hide View; hide Pinned;
    SubsetSize(Occupied(d, ext), Occupied(c, ext));
  }

  /** The log's own blocks and the transaction's are not locked by others. */
  lemma ClearUnlocked(L: Layout, homes: seq<nat>, c: Core, ext: seq<nat>, b: nat)
    requires CoreOk(c) && Used(c, {}, ext) && Clear(L, homes, c, ext) && (InLog(L, b) || b in homes)
    ensures !Locked(c, b) && (InLog(L, b) ==> OffSlot(c, ext, b))
  {
    if b in c.place {
      assert BufOk(c.disk, c.bufs[c.place[b]]) && UsedAt(c, {}, ext, c.place[b]);
    }
  }

  /** The cache after k blocks of the transaction were copied to the log, from disk d and logical disk v. */
  predicate Filling(L: Layout, homes: seq<nat>, data: seq<Block>, d: Disk, v: Disk, c0: Core, c: Core, ext: seq<nat>,
      k: nat) {
    && HomesOk(L, |d|, homes) && |data| == |homes| && k <= |homes| && |v| == |d|
    && (forall i :: 0 <= i < |homes| ==> data[i] == v[homes[i]])
    && Among(L, homes, c0, c, ext) && |Occupied(c, ext)| < |c.bufs|
    && Pinned(c) == Elements(homes)
    && c.disk == CommitDisk(L, homes, data, d, k)
    && SameHome(L, View(c), v)
  }

  lemma FillingRoom(L: Layout, homes: seq<nat>, data: seq<Block>, d: Disk, v: Disk, c0: Core,
      c: Core, ext: seq<nat>, k: nat)
    requires Filling(L, homes, data, d, v, c0, c, ext, k) && k < |homes|
    ensures CoreOk(c) && Used(c, {}, ext) && |Occupied(c, ext)| < |c.bufs|
    ensures L.start + k + 1 < |c.disk| && homes[k] < |c.disk| && L.start + k + 1 != homes[k]
    ensures L.start + k + 1 !in Pinned(c) && homes[k] in Pinned(c)
    ensures !Locked(c, L.start + k + 1) && !Locked(c, homes[k]) && OffSlot(c, ext, L.start + k + 1)
    ensures data[k] == View(c)[homes[k]]
  {
    hide CoreOk; hide Used; hide View;
    assert InLog(L, L.start + k + 1);
    ClearUnlocked(L, homes, c, ext, L.start + k + 1);
    ClearUnlocked(L, homes, c, ext, homes[k]);
  }

  lemma FillingStep(L: Layout, homes: seq<nat>, data: seq<Block>, d: Disk, v: Disk, c0: Core,
      c: Core, c': Core, ext: seq<nat>, k: nat)
    requires Filling(L, homes, data, d, v, c0, c, ext, k) && k < |homes|
    requires L.start + k + 1 < |c.disk| && homes[k] < |c.disk| && Wrote(c, c', L.start + k + 1, View(c)[homes[k]], ext)
    ensures Filling(L, homes, data, d, v, c0, c', ext, k + 1)
  {
    hide CoreOk; hide Used; hide View; hide Pinned; hide Clear; hide Others; hide Spared;
    assert InLog(L, L.start + k + 1);
    AmongStep(L, homes, c0, c, c', ext, L.start + k + 1, View(c)[homes[k]]);
    FilledPins(L, homes, c, k);
  }

  lemma FilledPins(L: Layout, homes: seq<nat>, c: Core, k: nat)
    requires CoreOk(c) && HomesOk(L, |c.disk|, homes) && Pinned(c) == Elements(homes) && k < |homes|
    ensures Pinned(c) - {L.start + k + 1} == Pinned(c)
  {
    assert InLog(L, L.start + k + 1);
  }

  /** The cache after k blocks were installed from the log of disk d, the logical disk being v at the start. There are
      enough buffers: the homes are pinned already, or there is one more to spare. */
  predicate Installing(L: Layout, homes: seq<nat>, d: Disk, v: Disk, pins: set<nat>, c0: Core, c: Core, ext: seq<nat>,
      k: nat) {
    && HomesOk(L, |d|, homes) && k <= |homes| && |v| == |d|
    && (forall x :: x in pins ==> !InLog(L, x))
    && Among(L, homes, c0, c, ext)
    && |Occupied(c, ext)| + (if Elements(homes) <= pins then 0 else 1) < |c.bufs|
    && Pinned(c) == pins - Elements(homes[..k])
    && c.disk == RecoverDisk(L, homes, d, k)
    && (forall x :: 0 <= x < |d| && x !in homes[..k] ==> View(c)[x] == v[x])
    && (forall i :: 0 <= i < k ==> View(c)[homes[i]] == d[L.start + 1 + i])
  }

  lemma {:induction false} InstallingRoom(L: Layout, homes: seq<nat>, d: Disk, v: Disk, pins: set<nat>, c0: Core,
      c: Core, ext: seq<nat>, k: nat)
    requires Installing(L, homes, d, v, pins, c0, c, ext, k) && k < |homes|
    ensures CoreOk(c) && Used(c, {}, ext)
    ensures L.start + k + 1 < |c.disk| && homes[k] < |c.disk| && L.start + k + 1 != homes[k]
    ensures L.start + k + 1 !in Pinned(c) && c.disk == RecoverDisk(L, homes, d, k)
    ensures !Locked(c, L.start + k + 1) && !Locked(c, homes[k]) && OffSlot(c, ext, L.start + k + 1)
    ensures |Occupied(c, ext)| + (if homes[k] in Pinned(c) then 0 else 1) < |c.bufs|
    ensures c.disk[L.start + k + 1] == d[L.start + k + 1]
  {
    hide CoreOk; hide Used; hide View; hide Pinned;
    assert InLog(L, L.start + k + 1);
    InstallMeaning(L, homes, d, k);
    assert homes[k] !in Elements(homes[..k]);
    assert homes[k] in Elements(homes);
    ClearUnlocked(L, homes, c, ext, L.start + k + 1);
    ClearUnlocked(L, homes, c, ext, homes[k]);
  }

  lemma {:induction false} InstallingStep(L: Layout, homes: seq<nat>, d: Disk, v: Disk, pins: set<nat>, c0: Core,
      c: Core, c': Core, ext: seq<nat>, k: nat)
    requires Installing(L, homes, d, v, pins, c0, c, ext, k) && k < |homes|
    requires L.start + k + 1 < |c.disk| && c.disk[L.start + k + 1] == d[L.start + k + 1]
    requires homes[k] < |c.disk| && Wrote(c, c', homes[k], c.disk[L.start + k + 1], ext)
    ensures Installing(L, homes, d, v, pins, c0, c', ext, k + 1)
    ensures c'.disk == RecoverDisk(L, homes, d, k + 1)
  {
    hide CoreOk; hide Used; hide View; hide Pinned; hide Clear; hide Others; hide Spared; hide Occupied; hide Elements;
    AmongStep(L, homes, c0, c, c', ext, homes[k], c.disk[L.start + k + 1]);
    InstalledView(L, homes, d, v, View(c), View(c'), k);
    UnpinNext(homes, pins, k);
  }

  lemma UnpinNext(homes: seq<nat>, pins: set<nat>, k: nat)
    requires k < |homes|
    ensures pins - Elements(homes[..k + 1]) == pins - Elements(homes[..k]) - {homes[k]}
  {
    assert homes[..k + 1] == homes[..k] + [homes[k]];
  }

  lemma InstalledView(L: Layout, homes: seq<nat>, d: Disk, v: Disk, w: Disk, w': Disk, k: nat)
    requires HomesOk(L, |d|, homes) && k < |homes| && |v| == |w| == |d|
    requires forall x :: 0 <= x < |d| && x !in homes[..k] ==> w[x] == v[x]
    requires forall i :: 0 <= i < k ==> w[homes[i]] == d[L.start + 1 + i]
    requires w' == w[homes[k] := d[L.start + k + 1]]
    ensures forall x :: 0 <= x < |d| && x !in homes[..k + 1] ==> w'[x] == v[x]
    ensures forall i :: 0 <= i < k + 1 ==> w'[homes[i]] == d[L.start + 1 + i]
  {
    assert homes[..k + 1] == homes[..k] + [homes[k]];
  }

  /** While nobody changes a buffer, only the pinned blocks differ from the disk. */
  lemma QuietView(c: Core, ext: seq<nat>)
    requires CoreOk(c) && Used(c, {}, ext)
    ensures forall b :: 0 <= b < |c.disk| && b !in Pinned(c) ==> View(c)[b] == c.disk[b]
    ensures Pinned(c) == {} ==> View(c) == c.disk
  {
    forall b | 0 <= b < |c.disk| && b !in Pinned(c) ensures View(c)[b] == c.disk[b] {
      if b in c.place {
        assert UsedAt(c, {}, ext, c.place[b]);
      }
    }
  }

  /** The logical contents of the transaction's blocks. */
  function Gathered(v: Disk, homes: seq<nat>): (r: seq<Block>)
    requires forall i :: 0 <= i < |homes| ==> homes[i] < |v|
    ensures |r| == |homes| && forall i :: 0 <= i < |homes| ==> r[i] == v[homes[i]]
  {
    seq(|homes|, k requires 0 <= k < |homes| => v[homes[k]])
  }

  /** Putting the gathered contents at home makes the disk the logical disk, outside the log. */
  lemma GatheredIsView(L: Layout, homes: seq<nat>, c: Core, ext: seq<nat>, after: Disk)
    requires CoreOk(c) && Used(c, {}, ext) && HomesOk(L, |c.disk|, homes) && Pinned(c) == Elements(homes)
    requires Updated(L, c.disk, homes, Gathered(View(c), homes), after)
    ensures SameHome(L, after, View(c))
  {
    QuietView(c, ext);
    forall b | 0 <= b < |c.disk| && !InLog(L, b) ensures after[b] == View(c)[b] {
      if b in homes {
        var i :| 0 <= i < |homes| && homes[i] == b;
        assert after[homes[i]] == Gathered(View(c), homes)[i];
      } else {
        assert b !in Pinned(c);
      }
    }
  }

  /** The first header write: the log is full, and the header names the transaction. */
  lemma {:induction false} HeaderStep(L: Layout, homes: seq<nat>, data: seq<Block>, d: Disk, v: Disk, c0: Core, c: Core,
      c': Core, ext: seq<nat>)
    requires Filling(L, homes, data, d, v, c0, c, ext, |homes|)
    requires L.start < |c.disk| && Wrote(c, c', L.start, PutHeader(c.disk[L.start], homes), ext)
    ensures c'.disk == CommitDisk(L, homes, data, d, |homes| + 1)
    ensures Installing(L, homes, c'.disk, View(c'), Elements(homes), c0, c', ext, 0)
  {
    hide CoreOk; hide Used; hide Clear; hide Others; hide Spared; hide Occupied;
    assert InLog(L, L.start);
    assert L.start !in Elements(homes);
    LogFilled(L, homes, data, d, |homes|);
    AmongStep(L, homes, c0, c, c', ext, L.start, PutHeader(c.disk[L.start], homes));
  }

  lemma InstalledPins(L: Layout, homes: seq<nat>, d: Disk, v: Disk, pins: set<nat>, c0: Core,
      c: Core, ext: seq<nat>)
    requires Installing(L, homes, d, v, pins, c0, c, ext, |homes|) && pins <= Elements(homes)
    ensures CoreOk(c) && Used(c, {}, ext) && Pinned(c) == {} && |Occupied(c, ext)| < |c.bufs|
    ensures HomesOk(L, |d|, homes) && |c.disk| == |d| && L.start < |c.disk|
    ensures !Locked(c, L.start) && OffSlot(c, ext, L.start)
  {
    hide CoreOk; hide Used; hide View; hide Pinned;
    assert homes[..|homes|] == homes;
    assert InLog(L, L.start);
    ClearUnlocked(L, homes, c, ext, L.start);
  }

  /** Clearing the header ends the installs. */
  lemma {:induction false} ClearStep(L: Layout, homes: seq<nat>, d: Disk, v: Disk, pins: set<nat>, c0: Core, c: Core,
      c': Core, ext: seq<nat>)
    requires Installing(L, homes, d, v, pins, c0, c, ext, |homes|) && pins <= Elements(homes)
    requires L.start < |c.disk| && Wrote(c, c', L.start, PutHeader(c.disk[L.start], []), ext)
    ensures CoreOk(c') && Used(c', {}, ext) && Pinned(c') == {} && Others(c0, c', ext, homes)
    ensures c'.disk == RecoverDisk(L, homes, d, |homes| + 1) == View(c')
  {
    hide CoreOk; hide Used; hide View; hide Pinned; hide Clear; hide Others; hide Spared; hide Occupied;
    assert homes[..|homes|] == homes;
    assert InLog(L, L.start);
    AmongStep(L, homes, c0, c, c', ext, L.start, PutHeader(c.disk[L.start], []));
    QuietView(c', ext);
  }

  lemma FilledRoom(L: Layout, homes: seq<nat>, data: seq<Block>, d: Disk, v: Disk, c0: Core, c: Core,
      ext: seq<nat>)
    requires Filling(L, homes, data, d, v, c0, c, ext, |homes|)
    ensures CoreOk(c) && Used(c, {}, ext) && |Occupied(c, ext)| < |c.bufs|
    ensures L.start < |c.disk| && L.start !in Pinned(c) && !Locked(c, L.start) && OffSlot(c, ext, L.start)
  {
    hide CoreOk; hide Used; hide View;
    assert InLog(L, L.start);
    ClearUnlocked(L, homes, c, ext, L.start);
  }

  lemma {:induction false} TraceJoins(L: Layout, homes: seq<nat>, data: seq<Block>, d: Disk, k: nat)
    requires HomesOk(L, |d|, homes) && |data| == |homes| && k <= |homes| + 1
    ensures CommitTrace(L, homes, data, d, |homes| + 1 + k)
         == CommitTrace(L, homes, data, d, |homes| + 1)
            + RecoverTrace(L, homes, CommitDisk(L, homes, data, d, |homes| + 1), k)
  {
    if k > 0 {
      TraceJoins(L, homes, data, d, k - 1);
      CommitIsRecovery(L, homes, data, d, k);
    }
  }

  /** The disk after a commit; an empty transaction writes nothing. */
  function Committed(L: Layout, homes: seq<nat>, v: Disk, d: Disk): (r: Disk)
    requires HomesOk(L, |d|, homes) && |v| == |d|
  {
    if homes == [] then d else CommitDisk(L, homes, Gathered(v, homes), d, 2 * |homes| + 2)
  }

  /** What the block writes of a whole commit come to. */
  lemma {:induction false} CommitEnds(L: Layout, homes: seq<nat>, c: Core, ext: seq<nat>)
    requires CoreOk(c) && Used(c, {}, ext) && HomesOk(L, |c.disk|, homes) && Pinned(c) == Elements(homes)
    ensures var data := Gathered(View(c), homes); var n := |homes|;
      var mid := CommitDisk(L, homes, data, c.disk, n + 1);
      var end := RecoverDisk(L, homes, mid, n + 1);
      && LogOk(L, end) && Homes(L, end) == [] && SameHome(L, end, View(c))
      && end == CommitDisk(L, homes, data, c.disk, 2 * n + 2)
      && CommitTrace(L, homes, data, c.disk, 2 * n + 2)
         == CommitTrace(L, homes, data, c.disk, n + 1) + RecoverTrace(L, homes, mid, n + 1)
  {
    hide CommitDisk; hide RecoverDisk; hide CommitTrace; hide RecoverTrace; hide CoreOk; hide Used; hide View;
    var data := Gathered(View(c), homes);
    TraceJoins(L, homes, data, c.disk, |homes| + 1);
    CommitIsRecovery(L, homes, data, c.disk, |homes| + 1);
    CommitFinishes(L, homes, data, c.disk);
    GatheredIsView(L, homes, c, ext, CommitDisk(L, homes, data, c.disk, 2 * |homes| + 2));
  }

  lemma CommitOfNothing(L: Layout, c: Core, ext: seq<nat>)
    requires CoreOk(c) && Used(c, {}, ext)
    ensures Pinned(c) == {} ==> View(c) == c.disk
    ensures SameHome(L, View(c), View(c))
    ensures Elements<nat>([]) == {}
  {
    QuietView(c, ext);
  }

  /** Another process's buffers after a commit: the same block, lock, references and contents; only the pin is gone. */
  predicate Kept(c: Core, d: Core, ext: seq<nat>) {
    && |ext| == |c.bufs| == |d.bufs|
    && forall i :: 0 <= i < |ext| && ext[i] > 0 ==> d.bufs[i] == c.bufs[i].(dirty := false)
  }

  lemma DirtyIsPinned(c: Core, i: nat)
    requires CoreOk(c) && i < |c.bufs|
    ensures c.bufs[i].dirty ==> c.bufs[i].blockno in Pinned(c)
    ensures c.bufs[i].dev == ROOTDEV && c.bufs[i].blockno in Pinned(c) ==> c.bufs[i].dirty
  {
    assert BufOk(c.disk, c.bufs[i]);
  }

  lemma OthersKept(L: Layout, homes: seq<nat>, c: Core, d: Core, ext: seq<nat>)
    requires CoreOk(c) && CoreOk(d) && Used(c, {}, ext) && Others(c, d, ext, homes) && Clear(L, homes, c, ext)
    requires Pinned(c) == Elements(homes) && Pinned(d) == {} && SameHome(L, View(d), View(c))
    ensures Kept(c, d, ext)
  {
    forall i | 0 <= i < |ext| && ext[i] > 0 ensures d.bufs[i] == c.bufs[i].(dirty := false) {
      assert BufOk(c.disk, c.bufs[i]) && UsedAt(c, {}, ext, i);
      var b := c.bufs[i].blockno;
      DirtyIsPinned(c, i);
      DirtyIsPinned(d, i);
      if b in homes {
        assert View(d)[b] == View(c)[b];
      }
    }
  }

  // ------------------------------------------------------------------ the pieces of a block write

  /** Reading a block that others do not reference takes no room beyond the buffer itself. */
  lemma FetchedOccupied(c: Core, ext: seq<nat>, i: nat, b: nat)
    requires CoreOk(c) && Serves(c, i, b) && |ext| == |c.bufs|
    ensures |Fetched(c, i, b).bufs| == |c.bufs| && Occupied(Fetched(c, i, b), ext) == Occupied(c, ext)
  {
    var d := Fetched(c, i, b);
    assert forall j :: 0 <= j < |c.bufs| ==> d.bufs[j].dirty == c.bufs[j].dirty;
  }

  lemma HeadFetched(c: Core, ext: seq<nat>, i: nat, b: nat)
    requires CoreOk(c) && Used(c, {}, ext) && Serves(c, i, b) && !Locked(c, b) && b !in Pinned(c) && OffSlot(c, ext, b)
    ensures var d := Fetched(c, i, b);
      && CoreOk(d) && Used(d, {i}, ext) && ext[i] == 0 && |d.bufs| == |c.bufs| && d.disk == c.disk
      && d.bufs[i].blockno == b && d.bufs[i].locked && d.bufs[i].valid && !d.bufs[i].dirty
      && d.bufs[i].data == c.disk[b]
  {
    hide View; hide Pinned; hide CoreOk; hide Fetched;
    FetchedUsed(c, {}, ext, i, b);
    FetchedOthers(c, i, b);
    QuietView(c, ext);
    assert {} + {i} == {i};
    assert UsedAt(Fetched(c, i, b), {i}, ext, i);
  }

  lemma HeadRead(c: Core, ext: seq<nat>, i: nat, b: nat)
    requires CoreOk(c) && Used(c, {}, ext) && Serves(c, i, b) && !Locked(c, b) && b !in Pinned(c) && OffSlot(c, ext, b)
    ensures var e := Fetched(c, i, b);
      && CoreOk(e) && i < |e.bufs| && e.bufs[i].locked && e.bufs[i].refcnt > 0 && Settled(e, i)
      && var d := Released(e, i);
         && CoreOk(d) && Used(d, {}, ext) && d.disk == c.disk && |d.bufs| == |c.bufs|
         && Pinned(d) == Pinned(c) && View(d) == View(c)
         && (forall j :: 0 <= j < |ext| && ext[j] > 0 ==> d.bufs[j] == c.bufs[j])
         && Occupied(d, ext) <= Occupied(c, ext)
  {
    hide View; hide Pinned; hide CoreOk; hide Fetched; hide Used;
    HeadFetched(c, ext, i, b);
    FetchedUsed(c, {}, ext, i, b);
    FetchedOthers(c, i, b);
    FetchedOccupied(c, ext, i, b);
    var e := Fetched(c, i, b);
    assert {} + {i} == {i} && {i} - {i} == {};
    HeldFacts(e, {i}, ext, i);
    ReleasedUsed(e, {i}, ext, i);
  }

  /** One block read, overwritten, written out and given back. */
  lemma HeadWritten(c: Core, ext: seq<nat>, i: nat, b: nat, data: Block)
    requires CoreOk(c) && Used(c, {}, ext) && Serves(c, i, b) && !Locked(c, b) && b !in Pinned(c) && OffSlot(c, ext, b)
    ensures var e := Fetched(c, i, b);
      && i < |e.bufs| && e.bufs[i].blockno < |e.disk|
      && var f := Overwritten(e, i, data);
         && CoreOk(f) && i < |f.bufs| && f.bufs[i].locked && f.bufs[i].refcnt > 0 && Settled(f, i)
         && Wrote(c, Released(f, i), b, data, ext)
  {
    hide View; hide Pinned; hide CoreOk; hide Fetched; hide Used;
    HeadFetched(c, ext, i, b);
    FetchedUsed(c, {}, ext, i, b);
    FetchedOthers(c, i, b);
    FetchedOccupied(c, ext, i, b);
    var e := Fetched(c, i, b);
    assert {} + {i} == {i} && {i} - {i} == {};
    OverwrittenMeaning(e, {i}, ext, i, data);
    var f := Overwritten(e, i, data);
    HeldFacts(f, {i}, ext, i);
    ReleasedUsed(f, {i}, ext, i);
  }

  /** What another process's reference says of a buffer whose block nobody has locked. */
  lemma WaitedFor(c: Core, ext: seq<nat>, i: nat, b: nat)
    requires CoreOk(c) && Used(c, {}, ext) && i < |ext| && ext[i] > 0 && c.bufs[i].blockno == b < |c.disk|
    requires !Locked(c, b)
    ensures !c.bufs[i].locked && c.bufs[i].refcnt > 0
    ensures b in Pinned(c) ==> c.bufs[i].valid && c.bufs[i].data == View(c)[b]
  {
    assert BufOk(c.disk, c.bufs[i]) && UsedAt(c, {}, ext, i);
  }

  predicate PairReady(c: Core, ext: seq<nat>, a: nat, slot: nat, b: nat, home: nat) {
    && CoreOk(c) && Used(c, {}, ext) && slot != home && slot !in Pinned(c) && !Locked(c, slot) && !Locked(c, home)
    && OffSlot(c, ext, slot) && slot < |c.disk| && home < |c.disk|
    && Serves(c, a, slot) && CoreOk(Fetched(c, a, slot)) && Serves(Fetched(c, a, slot), b, home)
  }

  /** A home block copied to its log slot. */
  lemma CopiedToLog(c: Core, ext: seq<nat>, a: nat, slot: nat, b: nat, home: nat)
    requires PairReady(c, ext, a, slot, b, home) && home in Pinned(c)
    ensures var d := Pair(c, a, slot, b, home);
      && CoreOk(d) && a != b && a < |d.bufs| && b < |d.bufs| && Used(d, {b, a}, ext)
      && d.bufs[a].refcnt > 0 && d.bufs[b].refcnt > 0 && d.bufs[a].blockno < |d.disk|
      && Settled(d, b) && Wrote(c, Copied(d, b, a), slot, View(c)[home], ext)
  {
    hide View; hide Pinned; hide CoreOk; hide UsedAt; hide Copied; hide Pair; hide Fetched; hide Locked;
    PairMeaning(c, ext, a, slot, b, home);
    var d := Pair(c, a, slot, b, home);
    assert {b, a} == {a, b};
    CopiedMeaning(d, ext, b, a);
    if ext[b] > 0 {
      WaitedFor(c, ext, b, home);
    }
    assert Spared(c, Copied(d, b, a), ext, slot, View(c)[home]);
    assert Pinned(c) - {slot} == Pinned(d) - {slot};
  }

  /** A log slot copied to its home. */
  lemma CopiedHome(c: Core, ext: seq<nat>, a: nat, slot: nat, b: nat, home: nat)
    requires PairReady(c, ext, a, slot, b, home)
    ensures var d := Pair(c, a, slot, b, home);
      && CoreOk(d) && a != b && a < |d.bufs| && b < |d.bufs| && Used(d, {a, b}, ext)
      && d.bufs[a].refcnt > 0 && d.bufs[b].refcnt > 0 && d.bufs[b].blockno < |d.disk|
      && Settled(d, a) && Wrote(c, Copied(d, a, b), home, c.disk[slot], ext)
  {
    hide View; hide Pinned; hide CoreOk; hide UsedAt; hide Copied; hide Pair; hide Fetched; hide Locked;
    PairMeaning(c, ext, a, slot, b, home);
    QuietView(c, ext);
    var d := Pair(c, a, slot, b, home);
    CopiedMeaning(d, ext, a, b);
    if ext[b] > 0 {
      WaitedFor(c, ext, b, home);
    }
    forall i | 0 <= i < |ext| && ext[i] > 0 && i != b ensures c.bufs[i].blockno != home {
      OneBuffer(c, ext, a, slot, b, home, i);
    }
    assert Spared(c, Copied(d, a, b), ext, home, c.disk[slot]);
  }

  /** No other buffer stands for the home block. */
  lemma OneBuffer(c: Core, ext: seq<nat>, a: nat, slot: nat, b: nat, home: nat, i: nat)
    requires PairReady(c, ext, a, slot, b, home) && i < |ext| && ext[i] > 0 && i != b
    ensures c.bufs[i].blockno != home
  {
    assert UsedAt(c, {}, ext, i) && BufOk(c.disk, c.bufs[i]);
  }

  lemma WroteSize(c: Core, d: Core, b: nat, data: Block, ext: seq<nat>)
    requires CoreOk(c) && b < |c.disk| && Wrote(c, d, b, data, ext)
    ensures |d.bufs| == |c.bufs| && |d.disk| == |c.disk|
  {
    hide CoreOk; hide Used; hide View; hide Pinned; hide Spared;
  }

  lemma CommitStarts(L: Layout, homes: seq<nat>, c: Core, ext: seq<nat>)
    requires CoreOk(c) && Used(c, {}, ext) && Clear(L, homes, c, ext) && Pinned(c) == Elements(homes)
    requires HomesOk(L, |c.disk|, homes) && |homes| + |Readers(c)| < |c.bufs|
    ensures Among(L, homes, c, c, ext) && |Occupied(c, ext)| < |c.bufs|
  {
    hide CoreOk;
    OccupiedSize(c, ext);
    ElementsSize(homes);
  }

  lemma NothingKept(c: Core, ext: seq<nat>)
    requires CoreOk(c) && Used(c, {}, ext)
    ensures Pinned(c) == {} ==> Kept(c, c, ext)
  {
    if Pinned(c) == {} {
      forall i | 0 <= i < |ext| ensures !c.bufs[i].dirty {
        DirtyIsPinned(c, i);
      }
    }
  }

  lemma RecoveryStarts(L: Layout, homes: seq<nat>, d: Disk, c0: Core, c: Core, ext: seq<nat>)
    requires CoreOk(c0) && CoreOk(c) && Used(c, {}, ext) && Pinned(c) == {} && c.disk == d && LogOk(L, d)
    requires homes == Homes(L, d)
    requires |c0.bufs| == |c.bufs| && Clear(L, homes, c0, ext) && forall i :: 0 <= i < |ext| && ext[i] > 0 ==>
      c.bufs[i] == c0.bufs[i]
    requires |Occupied(c0, ext)| + 1 < |c.bufs| && Occupied(c, ext) <= Occupied(c0, ext)
    ensures Installing(L, homes, d, d, {}, c, c, ext, 0)
  {
    QuietView(c, ext);
    SubsetSize(Occupied(c, ext), Occupied(c0, ext));
    assert homes[..0] == [];
  }

  // ----------------------------------------------------------------- readers that come and go between two block writes

  /** Another process reads a block outside the log and the transaction. */
  lemma ReaderFetches(L: Layout, homes: seq<nat>, c: Core, ext: seq<nat>, i: nat, b: nat)
    requires Among(L, homes, c, c, ext) && Serves(c, i, b) && !Locked(c, b) && !InLog(L, b) && b !in homes
    ensures var d := Fetched(c, i, b); var more := ext[i := ext[i] + 1];
      && Among(L, homes, d, d, more) && d.disk == c.disk && |d.bufs| == |c.bufs|
      && Pinned(d) == Pinned(c) && View(d) == View(c)
  {
    hide View; hide Pinned;
    FetchedUsed(c, {}, ext, i, b);
    FetchedOthers(c, i, b);
    QuietView(c, ext);
    FetchedMeaning(c, i, b);
    var d, more := Fetched(c, i, b), ext[i := ext[i] + 1];
    forall j | 0 <= j < |d.bufs| ensures UsedAt(d, {}, more, j) {
      assert UsedAt(d, {} + {i}, ext, j);
    }
  }

  /** Another process gives a buffer back. */
  lemma ReaderReleases(L: Layout, homes: seq<nat>, c: Core, ext: seq<nat>, i: nat)
    requires Among(L, homes, c, c, ext) && i < |ext| && ext[i] > 0 && c.bufs[i].locked
    ensures c.bufs[i].refcnt > 0 && Settled(c, i)
    ensures var d := Released(c, i); var less := ext[i := ext[i] - 1];
      && Among(L, homes, d, d, less) && d.disk == c.disk && |d.bufs| == |c.bufs|
      && Pinned(d) == Pinned(c) && View(d) == View(c)
  {
    assert UsedAt(c, {}, ext, i) && BufOk(c.disk, c.bufs[i]);
    ReleasedKeepsView(c, i);
    var d, less := Released(c, i), ext[i := ext[i] - 1];
    forall j | 0 <= j < |d.bufs| ensures UsedAt(d, {}, less, j) {
      assert UsedAt(c, {}, ext, j);
    }
  }

  /** What a reader does to the cache. */
  datatype Reader = Takes(i: nat, b: nat) | Gives(i: nat)

  /** A reader asks for a block outside the log and the transaction that nobody has locked, or gives back its buffer. */
  predicate MayRead(L: Layout, homes: seq<nat>, c: Core, ext: seq<nat>, r: Reader) {
    match r
    case Takes(i, b) =>
      CoreOk(c) && |ext| == |c.bufs| && Serves(c, i, b) && !Locked(c, b) && !InLog(L, b) && b !in homes
    case Gives(i) => i < |ext| == |c.bufs| && ext[i] > 0 && c.bufs[i].locked && c.bufs[i].refcnt > 0
  }

  function Read(L: Layout, homes: seq<nat>, c: Core, ext: seq<nat>, r: Reader): (s: (Core, seq<nat>))
    requires MayRead(L, homes, c, ext, r)
  {
    match r
    case Takes(i, b) => (Fetched(c, i, b), ext[i := ext[i] + 1])
    case Gives(i) => (Released(c, i), ext[i := ext[i] - 1])
  }

  /** Readers one after the other take the cache from c to e. */
  ghost predicate Reads(L: Layout, homes: seq<nat>, c: Core, ext: seq<nat>, rs: seq<Reader>, e: Core, more: seq<nat>)
    decreases |rs|
  {
    if rs == [] then e == c && more == ext
    else
      && MayRead(L, homes, c, ext, rs[0])
      && var (d, now) := Read(L, homes, c, ext, rs[0]);
         Reads(L, homes, d, now, rs[1..], e, more)
  }

  lemma {:induction false} ReadersKeep(L: Layout, homes: seq<nat>, c: Core, ext: seq<nat>, rs: seq<Reader>, e: Core,
      more: seq<nat>)
    requires Among(L, homes, c, c, ext) && Reads(L, homes, c, ext, rs, e, more)
    ensures Among(L, homes, e, e, more) && e.disk == c.disk && |e.bufs| == |c.bufs|
    ensures Pinned(e) == Pinned(c) && View(e) == View(c)
    decreases |rs|
  {
    hide CoreOk; hide View; hide Pinned; hide Used; hide Clear; hide Others; hide Serves; hide Locked;
    if rs != [] {
      var (d, now) := Read(L, homes, c, ext, rs[0]);
      match rs[0] {
        case Takes(i, b) => ReaderFetches(L, homes, c, ext, i, b);
        case Gives(i) => ReaderReleases(L, homes, c, ext, i);
      }
      ReadersKeep(L, homes, d, now, rs[1..], e, more);
    }
  }

  /** A commit or recovery goes on as before after any number of readers came and went between two of its block writes,
      as long as they leave a buffer for it (and one more if it is a recovery, whose blocks are not in the cache). */
  lemma ReadersDuringCommit(L: Layout, homes: seq<nat>, data: seq<Block>, d: Disk, v: Disk, pins: set<nat>,
      c0: Core, c: Core, ext: seq<nat>, k: nat, rs: seq<Reader>, e: Core, more: seq<nat>)
    requires Among(L, homes, c0, c, ext) && Reads(L, homes, c, ext, rs, e, more)
    ensures Among(L, homes, e, e, more)
    ensures Filling(L, homes, data, d, v, c0, c, ext, k) ==> |Occupied(e, more)| < |e.bufs| ==>
      Filling(L, homes, data, d, v, e, e, more, k)
    ensures Installing(L, homes, d, v, pins, c0, c, ext, k) ==>
      |Occupied(e, more)| + (if Elements(homes) <= pins then 0 else 1) < |e.bufs| ==>
      Installing(L, homes, d, v, pins, e, e, more, k)
  {
    hide CoreOk; hide View; hide Pinned; hide Used; hide Reads;
    ReadersKeep(L, homes, c, ext, rs, e, more);
  }

  // ------------------------------------------------------------------ the log

  class Log {
    const cache: Cache
    const layout: Layout
    var lh: seq<nat>           // the blocks of the running transaction
    var outstanding: nat
    var committing: bool

    /** A fresh log over a disk that may hold a committed transaction. */
    constructor (c: Cache, L: Layout)
      ensures cache == c && layout == L && lh == [] && outstanding == 0 && !committing
    {
      cache, layout, lh, outstanding, committing := c, L, [], 0, false;
    }

    /** The pinned blocks are the transaction's, and the log on disk is empty. */
    ghost predicate Valid()
      reads this, cache
    {
      && cache.Valid()
      && LogOk(layout, cache.disk) && Homes(layout, cache.disk) == []
      && HomesOk(layout, |cache.disk|, lh)
      && Pinned(cache.State()) == Elements(lh)
    }

    /** Read a block that nobody has locked, when a buffer can be had for it. */
    method Fetch(b: nat, ghost held: set<nat>, ghost ext: seq<nat>) returns (i: nat)
      requires cache.Valid() && Used(cache.State(), held, ext)
      requires b < |cache.disk| && !Locked(cache.State(), b)
      requires b in Pinned(cache.State()) || |Occupied(cache.State(), ext)| + |held| < |cache.bufs|
      modifies cache
      ensures cache.Valid() && cache.history == old(cache.history)
      ensures Serves(old(cache.State()), i, b) && cache.State() == Fetched(old(cache.State()), i, b)
    {
      hide CoreOk; hide Forward; hide Backward;
      if b !in Pinned(cache.State()) {
        RoomLeft(cache.State(), held, ext, b);
      }
      var r := cache.Bread(ROOTDEV, b);
      i := r.buf;
    }

    /** Give a held buffer new contents and write them to the disk. */
    method Put(i: nat, data: Block)
      requires cache.Valid() && i < |cache.bufs| && cache.bufs[i].locked && cache.bufs[i].valid
      modifies cache
      ensures cache.Valid() && cache.history == old(cache.history) + [cache.disk]
      ensures old(cache.bufs[i].blockno) < |old(cache.disk)|
      ensures cache.State() == Overwritten(old(cache.State()), i, data)
    {
      assert BufOk(cache.disk, cache.bufs[i]);
      cache.Store(i, data);
      cache.Bwrite(i);
    }

    /** Read a log slot and a home block. */
    method FetchPair(slot: nat, home: nat, ghost ext: seq<nat>) returns (a: nat, b: nat)
      requires cache.Valid() && Used(cache.State(), {}, ext)
      requires slot < |cache.disk| && home < |cache.disk| && slot != home && slot !in Pinned(cache.State())
      requires !Locked(cache.State(), slot) && !Locked(cache.State(), home) && OffSlot(cache.State(), ext, slot)
      requires |Occupied(cache.State(), ext)| + (if home in Pinned(cache.State()) then 0 else 1) < |cache.bufs|
      modifies cache
      ensures cache.Valid() && cache.history == old(cache.history)
      ensures Serves(old(cache.State()), a, slot) && CoreOk(Fetched(old(cache.State()), a, slot))
      ensures Serves(Fetched(old(cache.State()), a, slot), b, home)
      ensures cache.State() == Pair(old(cache.State()), a, slot, b, home)
    {
      hide CoreOk; hide Forward; hide Backward; hide View; hide Pinned; hide Fetched; hide UsedAt;
      ghost var c := cache.State();
      a := Fetch(slot, {}, ext);
      FetchedUsed(c, {}, ext, a, slot);
      assert {} + {a} == {a};
      FetchedOccupied(c, ext, a, slot);
      SecondUnlocked(c, ext, a, slot, home);
      b := Fetch(home, {a}, ext);
    }

    /** Copy one held buffer to another, write the copy out, give both back. */
    method WriteBack(src: nat, dst: nat, ghost ext: seq<nat>)
      requires cache.Valid() && src != dst && src < |cache.bufs| && dst < |cache.bufs|
      requires Used(cache.State(), {src, dst}, ext) && Settled(cache.State(), src)
      modifies cache
      ensures cache.Valid() && cache.history == old(cache.history) + [cache.disk]
      ensures old(cache.bufs[dst].blockno) < |old(cache.disk)| && old(cache.bufs[src]).refcnt > 0
      ensures old(cache.bufs[dst]).refcnt > 0
      ensures cache.State() == Copied(old(cache.State()), src, dst)
    {
      hide CoreOk; hide Forward; hide Backward; hide View; hide Pinned; hide Used; hide Settled;
      CopiedMeaning(cache.State(), ext, src, dst);
      Put(dst, cache.bufs[src].data);
      cache.Brelse(src);
      cache.Brelse(dst);
    }

    /** Write the in-memory header to the header block. */
    method WriteHead(ghost ext: seq<nat>)
      requires cache.Valid() && Used(cache.State(), {}, ext) && |lh| <= LOGSIZE
      requires layout.start < |cache.disk| && layout.start !in Pinned(cache.State())
      requires !Locked(cache.State(), layout.start) && OffSlot(cache.State(), ext, layout.start)
      requires |Occupied(cache.State(), ext)| < |cache.bufs|
      modifies cache
      ensures cache.Valid() && cache.history == old(cache.history) + [cache.disk]
      ensures Wrote(old(cache.State()), cache.State(), layout.start, PutHeader(old(cache.disk[layout.start]), lh), ext)
    {
      hide CoreOk; hide Forward; hide Backward; hide View; hide Pinned; hide Used; hide Settled; hide Wrote;
      hide Fetched;
      hide Overwritten; hide Released; hide PutHeader; hide OverlayAt; hide ViewAt;
      ghost var c := cache.State();
      var i := Fetch(layout.start, {}, ext);
      HeadFetched(c, ext, i, layout.start);
      var b := FillHeader(cache.bufs[i].data, lh);
      HeadWritten(c, ext, i, layout.start, b);
      Put(i, b);
      cache.Brelse(i);
    }

    /** Read the header block into memory. */
    method ReadHead(ghost ext: seq<nat>)
      requires cache.Valid() && Used(cache.State(), {}, ext) && LogOk(layout, cache.disk)
      requires layout.start !in Pinned(cache.State()) && |Occupied(cache.State(), ext)| < |cache.bufs|
      requires !Locked(cache.State(), layout.start) && OffSlot(cache.State(), ext, layout.start)
      modifies this`lh, cache
      ensures cache.Valid() && Used(cache.State(), {}, ext) && cache.history == old(cache.history)
      ensures cache.disk == old(cache.disk) && |cache.bufs| == old(|cache.bufs|)
      ensures Pinned(cache.State()) == old(Pinned(cache.State()))
      ensures View(cache.State()) == old(View(cache.State()))
      ensures forall i :: 0 <= i < |ext| && ext[i] > 0 ==> cache.bufs[i] == old(cache.bufs)[i]
      ensures Occupied(cache.State(), ext) <= old(Occupied(cache.State(), ext))
      ensures lh == Homes(layout, cache.disk)
    {
      hide CoreOk; hide Forward; hide Backward; hide View; hide Pinned; hide Used; hide Settled; hide Fetched;
      hide Released;
      hide HeaderHomes; hide OverlayAt; hide ViewAt;
      ghost var c := cache.State();
      var i := Fetch(layout.start, {}, ext);
      HeadFetched(c, ext, i, layout.start);
      HeadRead(c, ext, i, layout.start);
      lh := CopyHeader(cache.bufs[i].data);
      cache.Brelse(i);
    }

    /** Copy a block from the cache to its log slot. */
    method CopyToLog(slot: nat, home: nat, ghost ext: seq<nat>)
      requires cache.Valid() && Used(cache.State(), {}, ext)
      requires slot < |cache.disk| && home < |cache.disk| && slot != home && slot !in Pinned(cache.State())
      requires !Locked(cache.State(), slot) && !Locked(cache.State(), home) && OffSlot(cache.State(), ext, slot)
      requires home in Pinned(cache.State()) && |Occupied(cache.State(), ext)| < |cache.bufs|
      modifies cache
      ensures cache.Valid() && cache.history == old(cache.history) + [cache.disk]
      ensures Wrote(old(cache.State()), cache.State(), slot, old(View(cache.State()))[home], ext)
    {
      hide CoreOk; hide Forward; hide Backward; hide View; hide Pinned; hide UsedAt; hide Fetched; hide Copied;
      hide Pair;
      hide Wrote; hide Locked; hide Settled;
      ghost var c := cache.State();
      var to, from := FetchPair(slot, home, ext);
      CopiedToLog(c, ext, to, slot, from, home);
      WriteBack(from, to, ext);
    }

    /** Copy a block from its log slot to its home. */
    method CopyHome(slot: nat, home: nat, ghost ext: seq<nat>)
      requires cache.Valid() && Used(cache.State(), {}, ext)
      requires slot < |cache.disk| && home < |cache.disk| && slot != home && slot !in Pinned(cache.State())
      requires !Locked(cache.State(), slot) && !Locked(cache.State(), home) && OffSlot(cache.State(), ext, slot)
      requires |Occupied(cache.State(), ext)| + (if home in Pinned(cache.State()) then 0 else 1) < |cache.bufs|
      modifies cache
      ensures cache.Valid() && cache.history == old(cache.history) + [cache.disk]
      ensures Wrote(old(cache.State()), cache.State(), home, old(cache.disk)[slot], ext)
    {
      hide CoreOk; hide Forward; hide Backward; hide View; hide Pinned; hide UsedAt; hide Fetched; hide Copied;
      hide Pair;
      hide Wrote; hide Locked; hide Settled;
      ghost var c := cache.State();
      var lbuf, dbuf := FetchPair(slot, home, ext);
      CopiedHome(c, ext, lbuf, slot, dbuf, home);
      WriteBack(lbuf, dbuf, ext);
    }

    /** Copy the transaction's blocks from the cache to the log. */
    method WriteLog(ghost data: seq<Block>, ghost c0: Core, ghost ext: seq<nat>)
      requires cache.Valid()
      requires Filling(layout, lh, data, cache.disk, View(cache.State()), c0, cache.State(), ext, 0)
      modifies cache
      ensures cache.Valid() && |cache.bufs| == old(|cache.bufs|)
      ensures Filling(layout, lh, data, old(cache.disk), old(View(cache.State())), c0, cache.State(), ext, |lh|)
      ensures cache.history == old(cache.history) + CommitTrace(layout, lh, data, old(cache.disk), |lh|)
    {
      hide CoreOk; hide Forward; hide Backward; hide SameHome; hide Used; hide Elements; hide View; hide Pinned;
      hide Among;
      hide Occupied; hide Locked; hide OffSlot; hide Wrote;
      ghost var d := cache.disk;
      ghost var v := View(cache.State());
      for tail := 0 to |lh|
        invariant cache.Valid() && |cache.bufs| == old(|cache.bufs|)
        invariant Filling(layout, lh, data, d, v, c0, cache.State(), ext, tail)
        invariant cache.history == old(cache.history) + CommitTrace(layout, lh, data, d, tail)
      {
        ghost var c := cache.State();
        FillingRoom(layout, lh, data, d, v, c0, c, ext, tail);
        CopyToLog(layout.start + tail + 1, lh[tail], ext);
        WroteSize(c, cache.State(), layout.start + tail + 1, View(c)[lh[tail]], ext);
        FillingStep(layout, lh, data, d, v, c0, c, cache.State(), ext, tail);
      }
    }

    /** Copy the logged blocks to their homes. */
    method InstallTrans(ghost v: Disk, ghost pins: set<nat>, ghost c0: Core, ghost ext: seq<nat>)
      requires cache.Valid() && HomesOk(layout, |cache.disk|, lh)
      requires Installing(layout, lh, cache.disk, v, pins, c0, cache.State(), ext, 0)
      modifies cache
      ensures cache.Valid() && |cache.bufs| == old(|cache.bufs|)
      ensures Installing(layout, lh, old(cache.disk), v, pins, c0, cache.State(), ext, |lh|)
      ensures cache.history == old(cache.history) + RecoverTrace(layout, lh, old(cache.disk), |lh|)
    {
      hide CoreOk; hide Forward; hide Backward; hide Used; hide Elements; hide View; hide Pinned; hide Occupied;
      hide Locked;
      hide OffSlot; hide Wrote; hide Installing;
      ghost var d := cache.disk;
      for tail := 0 to |lh|
        invariant cache.Valid() && |cache.bufs| == old(|cache.bufs|)
        invariant Installing(layout, lh, d, v, pins, c0, cache.State(), ext, tail)
        invariant cache.history == old(cache.history) + RecoverTrace(layout, lh, d, tail)
      {
        ghost var c := cache.State();
        InstallingRoom(layout, lh, d, v, pins, c0, c, ext, tail);
        CopyHome(layout.start + tail + 1, lh[tail], ext);
        WroteSize(c, cache.State(), lh[tail], c.disk[layout.start + tail + 1], ext);
        InstallingStep(layout, lh, d, v, pins, c0, c, cache.State(), ext, tail);
      }
    }

    /** Install what the log holds and clear it. */
    method InstallAndClear(ghost v: Disk, ghost pins: set<nat>, ghost c0: Core, ghost ext: seq<nat>)
      requires cache.Valid() && pins <= Elements(lh) && HomesOk(layout, |cache.disk|, lh)
      requires Installing(layout, lh, cache.disk, v, pins, c0, cache.State(), ext, 0)
      modifies this`lh, cache
      ensures cache.Valid() && lh == [] && Used(cache.State(), {}, ext) && |cache.bufs| == old(|cache.bufs|)
      ensures Pinned(cache.State()) == {} && Others(c0, cache.State(), ext, old(lh))
      ensures View(cache.State()) == cache.disk == RecoverDisk(layout, old(lh), old(cache.disk), |old(lh)| + 1)
      ensures cache.history == old(cache.history) + RecoverTrace(layout, old(lh), old(cache.disk), |old(lh)| + 1)
    {
      hide CoreOk; hide Forward; hide Backward; hide Used; hide View; hide Pinned; hide Elements; hide Installing;
      hide Occupied;
      hide Locked; hide OffSlot; hide Wrote; hide Others;
      ghost var d := cache.disk;
      ghost var homes := lh;
      InstallTrans(v, pins, c0, ext);
      ghost var c := cache.State();
      lh := [];
      InstalledPins(layout, homes, d, v, pins, c0, c, ext);
      WriteHead(ext);
      WroteSize(c, cache.State(), layout.start, PutHeader(c.disk[layout.start], lh), ext);
      ClearStep(layout, homes, d, v, pins, c0, c, cache.State(), ext);
    }

    /** Finish what a crash interrupted: the disks along the way are those of a recovery, and the cache ends up
        showing the recovered disk. */
    method RecoverFromLog(ghost ext: seq<nat>)
      requires cache.Valid() && Used(cache.State(), {}, ext) && Pinned(cache.State()) == {} && LogOk(layout, cache.disk)
      requires Clear(layout, Homes(layout, cache.disk), cache.State(), ext)
      requires |Occupied(cache.State(), ext)| + 1 < |cache.bufs|
      modifies this`lh, cache
      ensures Valid() && lh == [] && Used(cache.State(), {}, ext) && |cache.bufs| == old(|cache.bufs|)
      ensures View(cache.State()) == cache.disk == Recovered(layout, old(cache.disk))
      ensures cache.history == old(cache.history) +
        RecoverTrace(layout, Homes(layout, old(cache.disk)), old(cache.disk), |Homes(layout, old(cache.disk))| + 1)
    {
      hide CoreOk; hide Forward; hide Backward; hide Used; hide View; hide Pinned; hide Locked; hide OffSlot;
      hide Occupied;
      ghost var d := cache.disk;
      ghost var c := cache.State();
      assert InLog(layout, layout.start);
      ClearUnlocked(layout, Homes(layout, d), c, ext, layout.start);
      ReadHead(ext);
      RecoveryStarts(layout, lh, d, c, cache.State(), ext);
      InstallAndClear(d, {}, cache.State(), ext);
      RecoveredMeaning(layout, d);
    }

    /** Write the transaction to the log, and then the header: from here on it survives a crash. */
    method WriteTransaction(ghost v: Disk, ghost ext: seq<nat>)
      requires Valid() && Among(layout, lh, cache.State(), cache.State(), ext)
      requires |Occupied(cache.State(), ext)| < |cache.bufs| && v == View(cache.State())
      modifies cache
      ensures cache.Valid() && |cache.bufs| == old(|cache.bufs|)
      ensures cache.disk == CommitDisk(layout, lh, Gathered(v, lh), old(cache.disk), |lh| + 1)
      ensures Installing(
        layout, lh, cache.disk, View(cache.State()), Elements(lh), old(cache.State()), cache.State(), ext, 0)
      ensures cache.history == old(cache.history) + CommitTrace(layout, lh, Gathered(v, lh), old(cache.disk), |lh| + 1)
    {
      hide CoreOk; hide Forward; hide Backward; hide Used; hide View; hide Pinned; hide Elements; hide Among;
      hide Occupied;
      hide Locked; hide OffSlot; hide Wrote; hide Installing;
      ghost var d := cache.disk;
      ghost var c0 := cache.State();
      ghost var data := Gathered(v, lh);
      WriteLog(data, c0, ext);
      ghost var c := cache.State();
      FilledRoom(layout, lh, data, d, v, c0, c, ext);
      WriteHead(ext);
      WroteSize(c, cache.State(), layout.start, PutHeader(c.disk[layout.start], lh), ext);
      HeaderStep(layout, lh, data, d, v, c0, c, cache.State(), ext);
    }

    /** Commit the transaction while other processes hold buffers. Every disk along the way is the one `CommitDisk`
        names; at the end the logical disk is unchanged outside the log and is on the disk, and the others' buffers
        are as they were. There must be a buffer for the log: `CommitExhaustsCache` says when there is none. */
    method Commit(ghost ext: seq<nat>)
      requires Valid() && Used(cache.State(), {}, ext) && Clear(layout, lh, cache.State(), ext)
      requires lh == [] || |lh| + |Readers(cache.State())| < |cache.bufs|
      modifies this`lh, cache
      ensures Valid() && lh == [] && Used(cache.State(), {}, ext) && Kept(old(cache.State()), cache.State(), ext)
      ensures SameHome(layout, View(cache.State()), old(View(cache.State())))
      ensures View(cache.State()) == cache.disk
      ensures cache.disk == Committed(layout, old(lh), old(View(cache.State())), old(cache.disk))
      ensures cache.history == old(cache.history) + if old(lh) == [] then [] else
        CommitTrace(layout, old(lh), Gathered(old(View(cache.State())), old(lh)), old(cache.disk), 2 * |old(lh)| + 2)
    {
      hide CoreOk; hide Forward; hide Backward; hide Used; hide View; hide Pinned; hide Elements; hide Clear;
      hide Among;
      hide Installing; hide CommitDisk; hide RecoverDisk; hide CommitTrace; hide RecoverTrace; hide SameHome;
      hide Occupied;
      hide Readers; hide Kept; hide Others;
      ghost var c := cache.State();
      ghost var v := View(c);
      ghost var homes := lh;
      CommitOfNothing(layout, c, ext);
      if |lh| > 0 {
        CommitStarts(layout, homes, c, ext);
        WriteTransaction(v, ext);
        InstallAndClear(View(cache.State()), Elements(homes), c, ext);
        CommitEnds(layout, homes, c, ext);
        OthersKept(layout, homes, c, cache.State(), ext);
      } else {
        NothingKept(c, ext);
      }
    }

    /** Start of a file-system call: admitted unless a commit runs or the call might not fit in the log. A call that
        is not admitted sleeps and asks again. */
    method BeginOp() returns (admitted: bool)
      modifies this`outstanding
      ensures admitted <==> !committing && |lh| + (old(outstanding) + 1) * MAXOPBLOCKS <= LOGSIZE
      ensures outstanding == old(outstanding) + if admitted then 1 else 0
    {
      if committing {
        return false;
      } else if |lh| + (outstanding + 1) * MAXOPBLOCKS > LOGSIZE {
        return false;
      } else {
        outstanding := outstanding + 1;
        return true;
      }
    }

    /** Record a held, modified buffer in the transaction. No result stands for the kernel's panic. */
    method LogWrite(i: nat) returns (ok: bool)
      requires cache.Valid() && i < |cache.bufs| && cache.bufs[i].locked && cache.bufs[i].valid
      requires HomesOk(layout, |cache.disk|, lh) && Pinned(cache.State()) == Elements(lh)
      requires !InLog(layout, cache.bufs[i].blockno)
      modifies this`lh, cache`bufs
      ensures cache.Valid() && HomesOk(layout, |cache.disk|, lh) && Pinned(cache.State()) == Elements(lh)
      ensures ok <==> old(|lh|) < LOGSIZE && old(|lh|) < layout.size - 1 && outstanding >= 1
      ensures View(cache.State()) == old(View(cache.State()))
      ensures !ok ==> lh == old(lh) && cache.bufs == old(cache.bufs)
      ensures ok ==> cache.bufs == old(cache.bufs)[i := old(cache.bufs[i]).(dirty := true)]
      ensures ok ==> lh == Absorb(old(lh), cache.bufs[i].blockno)
    {
      if |lh| >= LOGSIZE || |lh| >= layout.size - 1 || outstanding < 1 {
        return false;
      }
      var b := cache.bufs[i].blockno;
      var k := 0;
      while k < |lh| && lh[k] != b
        invariant 0 <= k <= |lh|
        invariant b !in lh[..k]
      {
        k := k + 1;
      }
      if k == |lh| {
        lh := lh + [b];
      } else {
        lh := lh[k := b];
        assert lh == old(lh);
      }
      AbsorbElements(old(lh), b);
      PinnedGrows(cache.State(), i);
      cache.Pin(i);
      return true;
    }

    /** End of a file-system call; the last one commits. Calls that are not in a transaction, such as reads, may hold
        buffers meanwhile. */
    method EndOp(ghost ext: seq<nat>)
      requires Valid() && outstanding > 0 && !committing
      requires outstanding == 1 ==> Used(cache.State(), {}, ext) && Clear(layout, lh, cache.State(), ext)
      requires outstanding == 1 ==> lh == [] || |lh| + |Readers(cache.State())| < |cache.bufs|
      modifies this, cache
      ensures Valid() && outstanding == old(outstanding) - 1 && !committing
      ensures outstanding > 0 ==> lh == old(lh) && cache.State() == old(cache.State())
      ensures outstanding == 0 ==>
        lh == [] && View(cache.State()) == cache.disk && Kept(old(cache.State()), cache.State(), ext)
      ensures outstanding == 0 ==> Used(cache.State(), {}, ext)
      ensures outstanding == 0 ==>
        cache.disk == Committed(layout, old(lh), old(View(cache.State())), old(cache.disk))
      ensures cache.history == old(cache.history) + if outstanding > 0 || old(lh) == [] then [] else
        CommitTrace(layout, old(lh), Gathered(old(View(cache.State())), old(lh)), old(cache.disk), 2 * |old(lh)| + 2)
      ensures SameHome(layout, View(cache.State()), old(View(cache.State())))
    {
      hide CoreOk; hide Forward; hide Backward; hide Used; hide View; hide Pinned; hide Elements; hide Clear;
      hide CommitDisk; hide CommitTrace; hide Readers; hide Kept;
      outstanding := outstanding - 1;
      if outstanding == 0 {
        committing := true;
        Commit(ext);
        committing := false;
      }
    }
  }

  // ------------------------------------------------------------------ a reader that stops a commit

  function NoOthers(n: nat): (r: seq<nat>)
    ensures |r| == n && forall i :: 0 <= i < n ==> r[i] == 0
  {
    seq(n, i => 0)
  }

  /** Home blocks that fill all of a log region but one block, and one more for a reader. */
  predicate Crowd(L: Layout, d: Disk, hs: seq<nat>, reader: nat) {
    && LogOk(L, d) && Homes(L, d) == [] && L.size == LOGSIZE
    && |hs| == LOGSIZE - 1 && HomesOk(L, |d|, hs)
    && reader < |d| && !InLog(L, reader) && reader !in hs
  }

  /** After k writes: nobody holds a buffer, and the first k blocks are pinned. */
  predicate Crowded(c: Core, d: Disk, hs: seq<nat>, k: nat) {
    && k <= |hs| && CoreOk(c) && |c.bufs| == NBUF && c.disk == d
    && Used(c, {}, NoOthers(NBUF)) && Pinned(c) == Elements(hs[..k])
  }

  lemma FreshCrowd(c: Core, d: Disk, hs: seq<nat>)
    requires CoreOk(c) && |c.bufs| == NBUF && c.disk == d && c.place == map[]
    requires forall i :: 0 <= i < |c.bufs| ==> c.bufs[i].dev == 0 && !c.bufs[i].dirty && c.bufs[i].refcnt == 0
    ensures Crowded(c, d, hs, 0)
  {
    forall i | 0 <= i < |c.bufs| ensures UsedAt(c, {}, NoOthers(NBUF), i) {
      assert BufOk(c.disk, c.bufs[i]);
    }
  }

  lemma AbsorbNew(hs: seq<nat>, k: nat)
    requires k < |hs| && forall i, j :: 0 <= i < j < |hs| ==> hs[i] != hs[j]
    ensures Absorb(hs[..k], hs[k]) == hs[..k + 1]
  {
    assert hs[..k + 1] == hs[..k] + [hs[k]];
  }

  lemma CrowdedRoom(L: Layout, c: Core, d: Disk, hs: seq<nat>, k: nat)
    requires Crowded(c, d, hs, k) && HomesOk(L, |d|, hs)
    ensures |Occupied(c, NoOthers(NBUF))| == k && forall b :: !Locked(c, b)
  {
    ElementsSize(hs[..k]);
    OccupiedSize(c, NoOthers(NBUF));
    forall i | 0 <= i < |c.bufs| ensures c.bufs[i].refcnt == 0 {
      assert UsedAt(c, {}, NoOthers(NBUF), i) && BufOk(c.disk, c.bufs[i]);
    }
    assert Readers(c) == {};
  }

  /** One block read, logged and given back. */
  lemma CrowdedStep(L: Layout, c: Core, d: Disk, hs: seq<nat>, k: nat, i: nat)
    requires Crowded(c, d, hs, k) && HomesOk(L, |d|, hs) && k < |hs| && Serves(c, i, hs[k])
    ensures var e := Fetched(c, i, hs[k]);
      && CoreOk(e) && i < |e.bufs| && e.bufs[i].locked && e.bufs[i].valid && e.bufs[i].blockno == hs[k]
      && |e.bufs| == NBUF && e.disk == d && Pinned(e) == Elements(hs[..k])
      && var f := With(e, i, e.bufs[i].(dirty := true));
         && CoreOk(f) && Settled(f, i) && f.bufs[i].refcnt > 0 && Crowded(Released(f, i), d, hs, k + 1)
  {
    hide CoreOk; hide View; hide Pinned; hide Fetched; hide Elements; hide Occupied; hide Locked; hide NoOthers;
    hide Used;
    CrowdedRoom(L, c, d, hs, k);
    var zero := NoOthers(NBUF);
    var b := hs[k];
    FetchedUsed(c, {}, zero, i, b);
    FetchedOthers(c, i, b);
    var e := Fetched(c, i, b);
    assert {} + {i} == {i} && {i} - {i} == {};
    HeldFacts(e, {i}, zero, i);
    PinnedGrows(e, i);
    PinUsed(e, {i}, zero, i);
    ReleasedUsed(With(e, i, e.bufs[i].(dirty := true)), {i}, zero, i);
    NextElement(hs, k);
  }

  lemma NextElement(hs: seq<nat>, k: nat)
    requires k < |hs|
    ensures Elements(hs[..k + 1]) == Elements(hs[..k]) + {hs[k]}
  {
    assert hs[..k + 1] == hs[..k] + [hs[k]];
  }

  lemma HeldFacts(c: Core, held: set<nat>, ext: seq<nat>, i: nat)
    requires Used(c, held, ext) && i in held && i < |c.bufs|
    ensures c.bufs[i].refcnt > 0 && c.bufs[i].locked && c.bufs[i].valid
  {
    assert UsedAt(c, held, ext, i);
  }

  lemma PinUsed(c: Core, held: set<nat>, ext: seq<nat>, i: nat)
    requires Used(c, held, ext) && i in held && i < |c.bufs|
    ensures Used(With(c, i, c.bufs[i].(dirty := true)), held, ext)
  {
    var d := With(c, i, c.bufs[i].(dirty := true));
    forall j | 0 <= j < |d.bufs| ensures UsedAt(d, held, ext, j) {
      assert UsedAt(c, held, ext, j);
    }
  }

  /** All blocks pinned, and a reader holds the last buffer: none is left for the log. */
  lemma CrowdedOut(L: Layout, c: Core, d: Disk, hs: seq<nat>, reader: nat, i: nat)
    requires Crowd(L, d, hs, reader) && Crowded(c, d, hs, |hs|) && Serves(c, i, reader)
    ensures var e := Fetched(c, i, reader);
      && CoreOk(e) && |e.bufs| == NBUF && e.disk == d && Pinned(e) == Elements(hs)
      && |Readers(e)| == 1 && Exhausted(e, L.start + 1)
  {
    hide CoreOk; hide View; hide Pinned; hide Fetched; hide Elements; hide Occupied; hide NoOthers; hide Exhausted;
    CrowdedRoom(L, c, d, hs, |hs|);
    var zero := NoOthers(NBUF);
    assert hs[..|hs|] == hs;
    FetchedUsed(c, {}, zero, i, reader);
    FetchedOthers(c, i, reader);
    var e, slot := Fetched(c, i, reader), L.start + 1;
    assert InLog(L, slot);
    OneReader(e, zero, i, reader, slot);
    UnpinnedReader(e, hs, reader, i);
    CommitExhaustsCache(e, hs, slot);
  }

  lemma UnpinnedReader(e: Core, hs: seq<nat>, reader: nat, i: nat)
    requires CoreOk(e) && Pinned(e) == Elements(hs) && reader !in hs && i < |e.bufs| && e.bufs[i].blockno == reader
    requires Readers(e) == if e.bufs[i].dirty then {} else {i}
    ensures |Readers(e)| == 1
  {
    DirtyIsPinned(e, i);
  }

  lemma OneReader(e: Core, zero: seq<nat>, i: nat, reader: nat, slot: nat)
    requires CoreOk(e) && Used(e, {} + {i}, zero) && i < |e.bufs| && forall j :: 0 <= j < |zero| ==> zero[j] == 0
    requires e.bufs[i].blockno == reader != slot
    ensures Readers(e) == (if e.bufs[i].dirty then {} else {i}) && (slot in e.place ==>
          e.bufs[e.place[slot]].refcnt == 0)
  {
    forall j | 0 <= j < |e.bufs| ensures e.bufs[j].refcnt == if j == i then 1 else 0 {
      assert UsedAt(e, {} + {i}, zero, j);
    }
  }

  /** Three calls begin, and fill the transaction. */
  method FillTransaction(d: Disk, L: Layout, hs: seq<nat>, ghost reader: nat) returns (log: Log)
    requires Crowd(L, d, hs, reader)
    ensures fresh(log) && fresh(log.cache) && log.cache.Valid() && log.layout == L
    ensures Crowded(log.cache.State(), d, hs, |hs|) && log.lh == hs && log.outstanding == 3 && !log.committing
  {
    hide CoreOk; hide Forward; hide Backward; hide Used; hide View; hide Pinned; hide Elements; hide Fetched;
    hide Locked;
    hide Occupied; hide Settled; hide Serves; hide Absorb;
    var cache := new Cache(d, NBUF);
    log := new Log(cache, L);
    FreshCrowd(cache.State(), d, hs);
    var a0 := log.BeginOp();
    var a1 := log.BeginOp();
    var a2 := log.BeginOp();
    for k := 0 to |hs|
      invariant cache.Valid() && log.cache == cache && log.layout == L
      invariant Crowded(cache.State(), d, hs, k) && log.lh == hs[..k] && log.outstanding == 3 && !log.committing
    {
      ghost var c := cache.State();
      CrowdedRoom(L, c, d, hs, k);
      var i := log.Fetch(hs[k], {}, NoOthers(NBUF));
      CrowdedStep(L, c, d, hs, k, i);
      PrefixOk(L, |d|, hs, k);
      var ok := log.LogWrite(i);
      cache.Brelse(i);
      AbsorbNew(hs, k);
    }
    assert hs[..|hs|] == hs;
  }

  lemma PrefixOk(L: Layout, len: nat, hs: seq<nat>, k: nat)
    requires HomesOk(L, len, hs) && k < |hs|
    ensures HomesOk(L, len, hs[..k]) && hs[k] < len && !InLog(L, hs[k])
  {
  }

  /** On a log region of LOGSIZE blocks, as mkfs makes it, with NBUF buffers: three calls fill the transaction, a
      reader outside any call takes the last buffer, and when the last call ends its commit finds no buffer for the
      first log block, although the transaction is smaller than the cache. */
  method ReaderStopsCommit(d: Disk, L: Layout, hs: seq<nat>, reader: nat) returns (log: Log, r: ReadResult)
    requires Crowd(L, d, hs, reader)
    ensures log.Valid() && log.lh == hs && |log.lh| < |log.cache.bufs| == NBUF && log.outstanding == 1
    ensures !log.committing
    ensures r == NoBuffers && |Readers(log.cache.State())| == 1
  {
    hide CoreOk; hide Forward; hide Backward; hide Used; hide View; hide Pinned; hide Elements; hide Fetched;
    hide Locked;
    hide Occupied; hide Readers; hide Exhausted; hide Settled; hide Serves;
    log := FillTransaction(d, L, hs, reader);
    var cache := log.cache;
    ghost var c := cache.State();
    CrowdedRoom(L, c, d, hs, |hs|);
    var i := log.Fetch(reader, {}, NoOthers(NBUF));
    CrowdedOut(L, c, d, hs, reader, i);
    log.EndOp(NoOthers(NBUF));
    log.EndOp(NoOthers(NBUF));
    r := cache.Bread(ROOTDEV, L.start + 1);
  }
}
