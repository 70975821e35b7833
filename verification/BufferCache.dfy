/** The buffer cache: a fixed pool of buffers on a doubly linked list in order of use.

    What matters to the rest of the kernel is the disk as seen through the cache. Every operation is shown
    to leave that view alone, except where a holder of a buffer stores into it. */
module BufferCache {
  import opened LogDisk
  import opened Options

  const ROOTDEV: nat := 1

  datatype Buf = Buf(dev: nat, blockno: nat, valid: bool, dirty: bool, locked: bool, refcnt: nat, data: Block)

  const NEVER_USED: Buf := Buf(0, 0, false, false, false, 0, seq(WORDS, j => 0))

  // ------------------------------------------------------------------ the list

  function After(order: seq<nat>, head: nat, k: nat): nat {
    if k + 1 < |order| then order[k + 1] else head
  }

  function Before(order: seq<nat>, head: nat, k: nat): nat {
    if 0 < k <= |order| then order[k - 1] else head
  }

  predicate Nodes(order: seq<nat>, head: nat) {
    && (forall k :: 0 <= k < |order| ==> order[k] < head)
    && (forall j, k :: 0 <= j < k < |order| ==> order[j] != order[k])
  }

  /** `next` runs through `order` and back to `head`. */
  predicate Forward(next: seq<nat>, head: nat, order: seq<nat>) {
    && |next| == head + 1
    && Nodes(order, head)
    && next[head] == (if order == [] then head else order[0])
    && (forall k {:trigger next[order[k]]} :: 0 <= k < |order| ==> next[order[k]] == After(order, head, k))
  }

  /** `prev` runs through `order` from its end and back to `head`. */
  predicate Backward(prev: seq<nat>, head: nat, order: seq<nat>) {
    && |prev| == head + 1
    && Nodes(order, head)
    && prev[head] == Before(order, head, |order|)
    && (forall k {:trigger prev[order[k]]} :: 0 <= k < |order| ==> prev[order[k]] == Before(order, head, k))
  }

  function Without(order: seq<nat>, k: nat): (r: seq<nat>)
    requires k < |order|
  {
    order[..k] + order[k + 1..]
  }

  lemma WithoutNodes(order: seq<nat>, head: nat, k: nat)
    requires Nodes(order, head) && k < |order|
    ensures Nodes(Without(order, k), head)
  {
  }

  lemma WithoutMembers(order: seq<nat>, head: nat, k: nat)
    requires Nodes(order, head) && k < |order|
    ensures forall x :: x in Without(order, k) <==> x in order && x != order[k]
  {
    forall x | x in order && x != order[k] ensures x in Without(order, k) {
      var i :| 0 <= i < |order| && order[i] == x;
      assert x == Without(order, k)[if i < k then i else i - 1];
    }
  }

  /** Joining a node's neighbours takes it out of the forward chain. */
  lemma UnlinkForward(next: seq<nat>, head: nat, order: seq<nat>, k: nat)
    requires Forward(next, head, order) && k < |order|
    ensures Forward(next[Before(order, head, k) := After(order, head, k)], head, Without(order, k))
  {
    var next' := next[Before(order, head, k) := After(order, head, k)];
    var rest := Without(order, k);
    WithoutNodes(order, head, k);
    forall j | 0 <= j < |rest| ensures next'[rest[j]] == After(rest, head, j) {
      var o := if j < k then j else j + 1;
      assert rest[j] == order[o];
      assert next[order[o]] == After(order, head, o);
    }
  }

  lemma UnlinkBackward(prev: seq<nat>, head: nat, order: seq<nat>, k: nat)
    requires Backward(prev, head, order) && k < |order|
    ensures Backward(prev[After(order, head, k) := Before(order, head, k)], head, Without(order, k))
  {
    var gap := After(order, head, k);
    var prev' := prev[gap := Before(order, head, k)];
    var rest := Without(order, k);
    WithoutNodes(order, head, k);
    assert prev[head] == Before(order, head, |order|);
    forall j | 0 <= j < |rest| ensures prev'[rest[j]] == Before(rest, head, j) {
      if j < k {
        assert rest[j] == order[j] != gap;
        assert prev[order[j]] == Before(order, head, j) == Before(rest, head, j);
      } else if j == k {
        assert rest[j] == order[k + 1] == gap;
        assert Before(rest, head, k) == Before(order, head, k);
      } else {
        assert rest[j] == order[j + 1] != gap;
        assert prev[order[j + 1]] == Before(order, head, j + 1) == order[j] == rest[j - 1];
      }
    }
    assert prev'[head] == Before(rest, head, |rest|);
  }

  /** Putting a node in right after the head. */
  lemma PushForward(next: seq<nat>, head: nat, order: seq<nat>, b: nat)
    requires Forward(next, head, order) && b < head && b !in order
    ensures next[head] <= head
    ensures Forward(next[b := next[head]][head := b], head, [b] + order)
  {
    var next' := next[b := next[head]][head := b];
    var order' := [b] + order;
    forall j | 0 <= j < |order'| ensures next'[order'[j]] == After(order', head, j) {
      if j > 0 {
        assert next[order[j - 1]] == After(order, head, j - 1);
      }
    }
  }

  lemma PushBackward(prev: seq<nat>, head: nat, order: seq<nat>, b: nat, first: nat)
    requires Backward(prev, head, order) && b < head && b !in order
    requires first == if order == [] then head else order[0]
    ensures Backward(prev[b := head][first := b], head, [b] + order)
  {
    var prev' := prev[b := head][first := b];
    var order' := [b] + order;
    forall j | 0 <= j < |order'| ensures prev'[order'[j]] == Before(order', head, j) {
      if j == 0 {
        assert prev'[b] == head;
      } else if j == 1 {
        assert order'[1] == first;
      } else {
        assert order'[j] == order[j - 1] && order'[j - 1] == order[j - 2];
        assert order[j - 1] != first && order[j - 1] != b;
        assert prev[order[j - 1]] == Before(order, head, j - 1);
      }
    }
    assert prev'[head] == if order == [] then b else prev[head];
  }

  // ------------------------------------------------------------------ what the cache holds

  /** The disk, the buffers, and which buffer holds which block of the root device. */
  datatype Core = Core(disk: Disk, bufs: seq<Buf>, place: map<nat, nat>)

  /** What is true of one buffer. A buffer with device 0 is one that was never used. */
  predicate BufOk(disk: Disk, u: Buf) {
    && (u.dev == ROOTDEV || (u.dev == 0 && !u.valid && u.refcnt == 0))
    && (u.dev == ROOTDEV ==> u.blockno < |disk|)
    && (u.valid ==> u.dev == ROOTDEV)
    && (u.dirty ==> u.valid)
    && (u.locked ==> u.refcnt > 0)
    && (u.valid && !u.dirty && !u.locked ==> u.data == disk[u.blockno])
  }

  /** `place` is a bijection between the cached blocks and the buffers in use: no block has two buffers. */
  predicate Placed(c: Core) {
    && (forall i :: 0 <= i < |c.bufs| && c.bufs[i].dev == ROOTDEV ==>
          c.bufs[i].blockno in c.place && c.place[c.bufs[i].blockno] == i)
    && (forall b :: b in c.place ==>
          c.place[b] < |c.bufs| && c.bufs[c.place[b]].dev == ROOTDEV && c.bufs[c.place[b]].blockno == b)
  }

  predicate CoreOk(c: Core) {
    && (forall i :: 0 <= i < |c.bufs| ==> BufOk(c.disk, c.bufs[i]))
    && Placed(c)
  }

  /** The logical contents of a block: the cached contents if there are any. */
  function ViewAt(c: Core, b: nat): (r: Block)
    requires CoreOk(c) && b < |c.disk|
  {
    if b in c.place && c.bufs[c.place[b]].valid then c.bufs[c.place[b]].data else c.disk[b]
  }

  /** The block on disk overlaid with its logged, not yet installed contents. */
  function OverlayAt(c: Core, b: nat): (r: Block)
    requires CoreOk(c) && b < |c.disk|
  {
    if b in c.place && c.bufs[c.place[b]].dirty then c.bufs[c.place[b]].data else c.disk[b]
  }

  predicate SameView(c: Core, d: Core)
    requires CoreOk(c) && CoreOk(d)
  {
    && |c.disk| == |d.disk|
    && forall b :: 0 <= b < |c.disk| ==> ViewAt(c, b) == ViewAt(d, b) && OverlayAt(c, b) == OverlayAt(d, b)
  }

  predicate Locked(c: Core, b: nat)
    requires CoreOk(c)
  {
    b in c.place && c.bufs[c.place[b]].locked
  }

  predicate Recyclable(c: Core, i: nat)
    requires i < |c.bufs|
  {
    c.bufs[i].refcnt == 0 && !c.bufs[i].dirty
  }

  /** There is no buffer for the block: it is not cached, and every buffer is referenced or dirty. */
  predicate Exhausted(c: Core, b: nat) {
    b !in c.place && forall i :: 0 <= i < |c.bufs| ==> !Recyclable(c, i)
  }

  function With(c: Core, i: nat, u: Buf): (r: Core)
    requires i < |c.bufs|
  {
    c.(bufs := c.bufs[i := u])
  }

  function Recycle(c: Core, i: nat, b: nat): (r: Core)
    requires i < |c.bufs|
  {
    Core(c.disk,
         c.bufs[i := c.bufs[i].(dev := ROOTDEV, blockno := b, valid := false, dirty := false, refcnt := 1)],
         (map x | x in c.place && c.place[x] != i :: c.place[x])[b := i])
  }

  /** Recycling drops no contents: an unused clean buffer only repeats the disk. */
  lemma RecycleKeepsView(c: Core, i: nat, b: nat)
    requires CoreOk(c) && i < |c.bufs| && Recyclable(c, i)
    requires b < |c.disk| && b !in c.place
    ensures CoreOk(Recycle(c, i, b)) && SameView(c, Recycle(c, i, b))
  {
  }

  /** Changing one buffer, its block staying the same, changes the view of at most that block. */
  lemma WithView(c: Core, i: nat, u: Buf)
    requires CoreOk(c) && i < |c.bufs| && BufOk(c.disk, u)
    requires u.dev == c.bufs[i].dev == ROOTDEV && u.blockno == c.bufs[i].blockno
    ensures var d := With(c, i, u);
      && CoreOk(d)
      && (forall b :: 0 <= b < |c.disk| && b != u.blockno ==>
            ViewAt(c, b) == ViewAt(d, b) && OverlayAt(c, b) == OverlayAt(d, b))
      && ViewAt(d, u.blockno) == (if u.valid then u.data else c.disk[u.blockno])
      && OverlayAt(d, u.blockno) == (if u.dirty then u.data else c.disk[u.blockno])
  {
  }

  function WriteOut(c: Core, i: nat): (r: Core)
    requires i < |c.bufs| && c.bufs[i].blockno < |c.disk|
  {
    var u := c.bufs[i];
    Core(c.disk[u.blockno := u.data], c.bufs[i := u.(dirty := false, valid := true)], c.place)
  }

  /** Writing a buffer out changes nothing a reader sees. */
  lemma WriteOutKeepsView(c: Core, i: nat)
    requires CoreOk(c) && i < |c.bufs| && c.bufs[i].valid
    ensures CoreOk(WriteOut(c, i))
    ensures forall b :: 0 <= b < |c.disk| ==> ViewAt(c, b) == ViewAt(WriteOut(c, i), b)
  {
    var d := WriteOut(c, i);
    forall j | 0 <= j < |c.bufs| ensures BufOk(d.disk, d.bufs[j]) {
      assert BufOk(c.disk, c.bufs[j]);
    }
  }

  /** Where nobody holds the block's lock, readers see the disk overlaid with the latest logged contents. */
  lemma UnlockedViewIsOverlay(c: Core, b: nat)
    requires CoreOk(c) && b < |c.disk| && !Locked(c, b)
    ensures ViewAt(c, b) == OverlayAt(c, b)
  {
    if b in c.place {
      assert BufOk(c.disk, c.bufs[c.place[b]]);
    }
  }

  /** Buffer i as it serves block b: the one already holding it, or one that may be recycled. */
  predicate Serves(c: Core, i: nat, b: nat)
    requires CoreOk(c)
  {
    && i < |c.bufs| && b < |c.disk|
    && (if b in c.place then c.place[b] == i else Recyclable(c, i))
  }

  /** The cache after buffer i was found or recycled for block b. */
  function Referenced(c: Core, i: nat, b: nat): (r: Core)
    requires CoreOk(c) && Serves(c, i, b)
  {
    if b in c.place then With(c, i, c.bufs[i].(refcnt := c.bufs[i].refcnt + 1)) else Recycle(c, i, b)
  }

  /** The cache after buffer i was read and locked for block b. */
  function Fetched(c: Core, i: nat, b: nat): (r: Core)
    requires CoreOk(c) && Serves(c, i, b)
  {
    var d := Referenced(c, i, b);
    With(d, i, d.bufs[i].(valid := true, locked := true, data := ViewAt(c, b)))
  }

  lemma ReferencedKeepsView(c: Core, i: nat, b: nat)
    requires CoreOk(c) && Serves(c, i, b)
    ensures CoreOk(Referenced(c, i, b)) && SameView(c, Referenced(c, i, b))
  {
    if b in c.place {
      WithView(c, i, Referenced(c, i, b).bufs[i]);
    } else {
      RecycleKeepsView(c, i, b);
    }
  }

  /** Reading a block changes nothing anyone sees, and hands out the latest logged contents of the block. */
  lemma FetchedMeaning(c: Core, i: nat, b: nat)
    requires CoreOk(c) && Serves(c, i, b) && !Locked(c, b)
    ensures var d := Fetched(c, i, b);
      && CoreOk(d) && SameView(c, d)
      && d.bufs[i].data == ViewAt(c, b) == OverlayAt(c, b)
  {
    UnlockedViewIsOverlay(c, b);
    ReferencedKeepsView(c, i, b);
    WithView(Referenced(c, i, b), i, Fetched(c, i, b).bufs[i]);
  }

  function Released(c: Core, i: nat): (r: Core)
    requires i < |c.bufs| && c.bufs[i].refcnt > 0
  {
    With(c, i, c.bufs[i].(locked := false, refcnt := c.bufs[i].refcnt - 1))
  }

  /** The contents of a buffer have been logged or written, or were never changed. */
  predicate Settled(c: Core, i: nat)
    requires CoreOk(c) && i < |c.bufs|
  {
    assert BufOk(c.disk, c.bufs[i]);
    c.bufs[i].valid && !c.bufs[i].dirty ==> c.bufs[i].data == c.disk[c.bufs[i].blockno]
  }

  /** Giving a buffer back changes nothing anyone sees, provided its contents are settled. */
  lemma ReleasedKeepsView(c: Core, i: nat)
    requires CoreOk(c) && i < |c.bufs| && c.bufs[i].locked && Settled(c, i)
    ensures CoreOk(Released(c, i)) && SameView(c, Released(c, i))
  {
    WithView(c, i, Released(c, i).bufs[i]);
  }

  lemma ReleasedIffSettled(c: Core, i: nat)
    requires CoreOk(c) && i < |c.bufs| && c.bufs[i].locked
    ensures CoreOk(Released(c, i)) <==> Settled(c, i)
  {
    var d := Released(c, i);
    if Settled(c, i) {
      ReleasedKeepsView(c, i);
    } else {
      assert !BufOk(d.disk, d.bufs[i]);
    }
  }

  lemma SameViewTwice(c: Core, d: Core, e: Core)
    requires CoreOk(c) && CoreOk(d) && CoreOk(e) && SameView(c, d) && SameView(d, e)
    ensures SameView(c, e)
  {
    hide CoreOk;
  }

  /** Finding a buffer takes no lock. */
  lemma ReferencedLock(c: Core, i: nat, b: nat)
    requires CoreOk(c) && Serves(c, i, b)
    ensures var d := Referenced(c, i, b); CoreOk(d) && d.bufs[i].refcnt > 0 && (d.bufs[i].locked <==> Locked(c, b))
  {
    ReferencedKeepsView(c, i, b);
    assert BufOk(c.disk, c.bufs[i]);
  }

  // ------------------------------------------------------------------ the cache

  /** What reading a block comes to: the buffer; or its lock is taken and the caller waits; or the kernel's panic. */
  datatype ReadResult = Ready(buf: nat) | Waiting(buf: nat) | NoBuffers

  /** The buffer closest to the least recently used end that may be recycled. */
  predicate LastUnused(c: Core, order: seq<nat>, i: nat) {
    && i < |c.bufs| && Recyclable(c, i)
    && exists k :: 0 <= k < |order| && order[k] == i &&
         forall j :: k < j < |order| && order[j] < |c.bufs| ==> !Recyclable(c, order[j])
  }

  /** i is first, and the others keep their order. */
  predicate MovedFirst(before: seq<nat>, after: seq<nat>, i: nat) {
    exists k :: 0 <= k < |before| && before[k] == i && after == [i] + Without(before, k)
  }

  // ------------------------------------------------------------------ least recently used

  predicate Sooner(order: seq<nat>, x: nat, y: nat) {
    exists k, l :: 0 <= k < l < |order| && order[k] == x && order[l] == y
  }

  predicate Distinct(order: seq<nat>) {
    forall k, l :: 0 <= k < l < |order| ==> order[k] != order[l]
  }

  /** When x was last moved to the front, or -1. */
  function LastMove(moves: seq<nat>, x: nat): (r: int)
    ensures -1 <= r < |moves| && (r >= 0 ==> moves[r] == x) && forall k :: r < k < |moves| ==> moves[k] != x
  {
    if moves == [] then -1
    else if moves[|moves| - 1] == x then |moves| - 1
    else LastMove(moves[..|moves| - 1], x)
  }

  lemma SoonerAt(order: seq<nat>, k: nat, l: nat)
    requires Distinct(order) && k < |order| && l < |order|
    ensures Sooner(order, order[k], order[l]) <==> k < l
  {
  }

  /** Where place k of the list is after place m was moved to the front. */
  function NewPlace(m: nat, k: nat): (r: nat) {
    if k < m then k + 1 else if k == m then 0 else k
  }

  lemma MovedPlaces(before: seq<nat>, after: seq<nat>, m: nat)
    requires Distinct(before) && m < |before| && after == [before[m]] + Without(before, m)
    ensures |after| == |before| && Distinct(after)
    ensures forall k :: 0 <= k < |before| ==> NewPlace(m, k) < |after| && after[NewPlace(m, k)] == before[k]
  {
  }

  lemma MovedOrder(before: seq<nat>, after: seq<nat>, i: nat, x: nat, y: nat)
    requires Distinct(before) && MovedFirst(before, after, i) && x in before && y in before && x != y
    ensures Distinct(after) && x in after && y in after
    ensures Sooner(after, x, y) <==> x == i || (y != i && Sooner(before, x, y))
  {
    hide Sooner; hide Distinct;
    var m :| 0 <= m < |before| && before[m] == i && after == [i] + Without(before, m);
    var k :| 0 <= k < |before| && before[k] == x;
    var l :| 0 <= l < |before| && before[l] == y;
    MovedPlaces(before, after, m);
    SoonerAt(before, k, l);
    SoonerAt(after, NewPlace(m, k), NewPlace(m, l));
    assert x == i <==> k == m by { SamePlace(before, k, m); }
    assert y == i <==> l == m by { SamePlace(before, l, m); }
  }

  lemma SamePlace(order: seq<nat>, k: nat, l: nat)
    requires Distinct(order) && k < |order| && l < |order|
    ensures order[k] == order[l] <==> k == l
  {
  }

  /** Moves, each of one buffer to the front. */
  ghost predicate Moves(orders: seq<seq<nat>>, moves: seq<nat>) {
    && |orders| == |moves| + 1 && Distinct(orders[0])
    && forall n {:trigger moves[n]} :: 0 <= n < |moves| ==> MovedFirst(orders[n], orders[n + 1], moves[n])
  }

  /** However often buffers are given back, the list has them by how long ago that was. */
  lemma {:induction false} ListIsByRecency(orders: seq<seq<nat>>, moves: seq<nat>, n: nat, x: nat, y: nat)
    requires Moves(orders, moves) && n <= |moves| && x in orders[0] && y in orders[0] && x != y
    ensures Distinct(orders[n]) && x in orders[n] && y in orders[n]
    ensures var a, b := LastMove(moves[..n], x), LastMove(moves[..n], y);
      Sooner(orders[n], x, y) <==> a > b || (a == b == -1 && Sooner(orders[0], x, y))
  {
    if n > 0 {
      ListIsByRecency(orders, moves, n - 1, x, y);
      assert moves[..n][..n - 1] == moves[..n - 1] && moves[..n][n - 1] == moves[n - 1];
      MovedOrder(orders[n - 1], orders[n], moves[n - 1], x, y);
    }
  }

  /** The buffer that is recycled was given back longer ago than any other that could be, or neither ever was. */
  lemma RecycledIsOldest(c: Core, orders: seq<seq<nat>>, moves: seq<nat>, i: nat, j: nat)
    requires Moves(orders, moves) && LastUnused(c, orders[|moves|], i)
    requires i in orders[0] && j in orders[0] && i != j && j < |c.bufs| && Recyclable(c, j)
    ensures LastMove(moves, i) < LastMove(moves, j) || LastMove(moves, i) == LastMove(moves, j) == -1
  {
    ListIsByRecency(orders, moves, |moves|, i, j);
    assert moves[..|moves|] == moves;
    var last := orders[|moves|];
    var k :| 0 <= k < |last| && last[k] == i &&
      forall m :: k < m < |last| && last[m] < |c.bufs| ==> !Recyclable(c, last[m]);
    assert !Sooner(last, i, j);
  }

  /** A block that is read and given back again has the references it had, and everything else is as it was. */
  lemma FetchedAndReleased(c: Core, i: nat, b: nat, j: nat)
    requires CoreOk(c) && Serves(c, i, b) && j < |c.bufs|
    ensures var d := Fetched(c, i, b);
      && d.bufs[i].locked && d.bufs[i].valid && d.bufs[i].blockno == b && d.bufs[i].data == ViewAt(c, b)
      && d.bufs[i].refcnt == (if b in c.place then c.bufs[i].refcnt else 0) + 1
      && var e := Released(d, i);
         && e.disk == c.disk && b in e.place && e.place[b] == i && !e.bufs[i].locked
         && e.bufs[i].refcnt == (if b in c.place then c.bufs[i].refcnt else 0)
         && (j != i ==> e.bufs[j] == c.bufs[j])
  {
  }

  class Cache {
    var disk: Disk
    var bufs: seq<Buf>
    var next: seq<nat>               // node |bufs| is the list head
    var prev: seq<nat>
    ghost var order: seq<nat>        // the list, most recently used first
    ghost var place: map<nat, nat>   // block of the root device -> its buffer
    ghost var history: seq<Disk>     // the disk after every block write

    ghost function State(): Core
      reads this
    {
      Core(disk, bufs, place)
    }

    ghost predicate Listed()
      reads this
    {
      && Forward(next, |bufs|, order)
      && Backward(prev, |bufs|, order)
      && (forall i :: 0 <= i < |bufs| ==> i in order)
    }

    ghost predicate Valid()
      reads this
    {
      Listed() && CoreOk(State())
    }

    constructor (d: Disk, nbuf: nat)
      ensures Valid()
      ensures disk == d && |bufs| == nbuf && history == [] && place == map[]
      ensures forall i :: 0 <= i < nbuf ==> bufs[i].dev == 0 && !bufs[i].dirty && bufs[i].refcnt == 0
    {
      disk, history, place, order := d, [], map[], [];
      bufs := seq(nbuf, i => NEVER_USED);
      next := seq(nbuf + 1, i => nbuf);
      prev := seq(nbuf + 1, i => nbuf);
      new;
      var b := 0;
      while b < nbuf
        invariant 0 <= b <= nbuf == |bufs|
        invariant Forward(next, nbuf, order) && Backward(prev, nbuf, order)
        invariant forall i :: i in order <==> 0 <= i < b
        invariant disk == d && history == [] && place == map[]
        invariant forall i :: 0 <= i < nbuf ==> bufs[i] == NEVER_USED
      {
        PushFront(b);
        b := b + 1;
      }
    }

    /** The search from the most recently used end for a cached block. */
    method FindCached(dev: nat, blockno: nat) returns (r: Option<nat>)
      requires Valid() && dev == ROOTDEV
      ensures r == if blockno in place then Some(place[blockno]) else None
    {
      var b := next[|bufs|];
      ghost var k := 0;
      while b != |bufs|
        invariant 0 <= k <= |order|
        invariant b == if k < |order| then order[k] else |bufs|
        invariant forall j :: 0 <= j < k ==> !(bufs[order[j]].dev == dev && bufs[order[j]].blockno == blockno)
        decreases |order| - k
      {
        if bufs[b].dev == dev && bufs[b].blockno == blockno {
          return Some(b);
        }
        b, k := next[b], k + 1;
      }
      forall i | 0 <= i < |bufs| ensures !(bufs[i].dev == dev && bufs[i].blockno == blockno) {
        assert i in order;
      }
      return None;
    }

    /** The search from the least recently used end for a buffer that may be recycled. */
    method FindUnused() returns (r: Option<nat>)
      requires Valid()
      ensures r.Some? ==> LastUnused(State(), order, r.value)
      ensures r.None? ==> forall i :: 0 <= i < |bufs| ==> !Recyclable(State(), i)
    {
      var b := prev[|bufs|];
      ghost var k := |order|;
      while b != |bufs|
        invariant 0 <= k <= |order|
        invariant b == Before(order, |bufs|, k)
        invariant forall j :: k <= j < |order| ==> !Recyclable(State(), order[j])
        decreases k
      {
        if bufs[b].refcnt == 0 && !bufs[b].dirty {
          assert order[k - 1] == b;
          return Some(b);
        }
        b, k := prev[b], k - 1;
      }
      forall i | 0 <= i < |bufs| ensures !Recyclable(State(), i) {
        assert i in order;
        var j :| 0 <= j < |order| && order[j] == i;
        assert !Recyclable(State(), order[j]);
      }
      return None;
    }

    /** The part of bget under the cache's lock: find the block's buffer or recycle one, and count the reference.
        There is no result exactly when the block is not cached and every buffer is referenced or dirty. Nothing seen
        through the cache changes. */
    method Reference(dev: nat, blockno: nat) returns (r: Option<nat>)
      requires Valid() && dev == ROOTDEV && blockno < |disk|
      modifies this`bufs, this`place
      ensures Valid() && SameView(old(State()), State())
      ensures r.None? <==> old(Exhausted(State(), blockno))
      ensures r.None? ==> State() == old(State())
      ensures r.Some? ==>
        Serves(old(State()), r.value, blockno) && State() == Referenced(old(State()), r.value, blockno)
      ensures r.Some? && old(blockno !in place) ==> LastUnused(old(State()), order, r.value)
    {
      r := FindCached(dev, blockno);
      if r.Some? {
        ReferencedKeepsView(State(), r.value, blockno);
        bufs := bufs[r.value := bufs[r.value].(refcnt := bufs[r.value].refcnt + 1)];
        return;
      }
      r := FindUnused();
      if r.Some? {
        ReferencedKeepsView(State(), r.value, blockno);
        place := (map x | x in place && place[x] != r.value :: place[x])[blockno := r.value];
        bufs := bufs[r.value :=
          bufs[r.value].(dev := dev, blockno := blockno, valid := false, dirty := false, refcnt := 1)];
      }
    }

    /** The sleep lock of a referenced buffer, once it is free. */
    method AcquireLock(i: nat)
      requires Valid() && i < |bufs| && bufs[i].refcnt > 0 && !bufs[i].locked
      modifies this`bufs
      ensures Valid() && State() == With(old(State()), i, old(bufs[i]).(locked := true))
      ensures SameView(old(State()), State())
    {
      bufs := bufs[i := bufs[i].(locked := true)];
      WithView(old(State()), i, bufs[i]);
    }

    /** The synchronous disk: write a dirty buffer, or fill one that is not valid. */
    method Iderw(i: nat)
      requires Valid() && i < |bufs| && bufs[i].locked
      requires !(bufs[i].valid && !bufs[i].dirty)
      modifies this`bufs, this`disk, this`history
      ensures Valid()
      ensures old(bufs[i].dirty) ==> State() == WriteOut(old(State()), i) && history == old(history) + [disk]
      ensures !old(bufs[i].dirty) ==>
        && bufs == old(bufs)[i := old(bufs[i]).(valid := true, data := old(disk)[old(bufs[i]).blockno])]
        && disk == old(disk) && history == old(history)
    {
      var u := bufs[i];
      if u.dirty {
        WriteOutKeepsView(State(), i);
        disk := disk[u.blockno := u.data];
        history := history + [disk];
        bufs := bufs[i := u.(dirty := false, valid := true)];
      } else {
        bufs := bufs[i := u.(valid := true, data := disk[u.blockno])];
        WithView(old(State()), i, bufs[i]);
      }
    }

    /** A referenced and locked buffer for a block. When another process has the buffer locked the caller has its
        reference and waits for the lock; when the cache is exhausted the kernel panics. */
    method Bget(dev: nat, blockno: nat) returns (r: ReadResult)
      requires Valid() && dev == ROOTDEV && blockno < |disk|
      modifies this`bufs, this`place
      ensures Valid() && SameView(old(State()), State())
      ensures r.NoBuffers? <==> old(Exhausted(State(), blockno))
      ensures r.NoBuffers? ==> State() == old(State())
      ensures r.Waiting? <==> old(Locked(State(), blockno))
      ensures !r.NoBuffers? ==> Serves(old(State()), r.buf, blockno)
      ensures r.Waiting? ==> State() == Referenced(old(State()), r.buf, blockno)
      ensures r.Ready? ==> var d := Referenced(old(State()), r.buf, blockno);
        State() == With(d, r.buf, d.bufs[r.buf].(locked := true))
      ensures !r.NoBuffers? && old(blockno !in place) ==> LastUnused(old(State()), order, r.buf)
    {
      hide LastUnused;
      hide SameView;
      hide BufOk;
      hide Placed;
      hide Forward;
      hide Backward;
      var i := Reference(dev, blockno);
      if i.None? {
        return NoBuffers;
      }
      ReferencedLock(old(State()), i.value, blockno);
      if bufs[i.value].locked {
        return Waiting(i.value);
      }
      ghost var d := State();
      AcquireLock(i.value);
      SameViewTwice(old(State()), d, State());
      return Ready(i.value);
    }

    /** A locked buffer with the block's logical contents; or the caller waits, or the cache is exhausted. */
    method Bread(dev: nat, blockno: nat) returns (r: ReadResult)
      requires Valid() && dev == ROOTDEV && blockno < |disk|
      modifies this`bufs, this`place, this`disk, this`history
      ensures Valid() && history == old(history)
      ensures r.NoBuffers? <==> old(Exhausted(State(), blockno))
      ensures r.NoBuffers? ==> State() == old(State())
      ensures r.Waiting? <==> old(Locked(State(), blockno))
      ensures !r.NoBuffers? ==> Serves(old(State()), r.buf, blockno)
      ensures r.Waiting? ==> State() == Referenced(old(State()), r.buf, blockno)
      ensures r.Ready? ==> State() == Fetched(old(State()), r.buf, blockno)
    {
      hide LastUnused;
      r := Bget(dev, blockno);
      if r.Ready? {
        FetchedMeaning(old(State()), r.buf, blockno);
        if !bufs[r.buf].valid {
          Iderw(r.buf);
        }
      }
    }

    /** What bread does for a caller that waited, once the lock is free: the buffer then holds the latest logged
        contents. */
    method FinishBread(i: nat)
      requires Valid() && i < |bufs| && bufs[i].refcnt > 0 && !bufs[i].locked
      modifies this`bufs, this`disk, this`history
      ensures Valid() && history == old(history) && disk == old(disk)
      ensures bufs[i].blockno < |disk|
      ensures bufs ==
        old(bufs)[i := old(bufs[i]).(locked := true, valid := true, data := ViewAt(old(State()), bufs[i].blockno))]
      ensures ViewAt(old(State()), bufs[i].blockno) == OverlayAt(old(State()), bufs[i].blockno)
    {
      assert BufOk(disk, bufs[i]);
      UnlockedViewIsOverlay(State(), bufs[i].blockno);
      AcquireLock(i);
      if !bufs[i].valid {
        Iderw(i);
      }
    }

    /** The holder of a buffer copies new contents into it. */
    method Store(i: nat, data: Block)
      requires Valid() && i < |bufs| && bufs[i].locked && bufs[i].valid
      modifies this`bufs
      ensures Valid() && bufs == old(bufs)[i := old(bufs[i]).(data := data)]
      ensures forall b :: 0 <= b < |disk| ==>
        ViewAt(State(), b) == if b == bufs[i].blockno then data else ViewAt(old(State()), b)
    {
      bufs := bufs[i := bufs[i].(data := data)];
      WithView(old(State()), i, bufs[i]);
    }

    /** Write a held buffer to the disk. */
    method Bwrite(i: nat)
      requires Valid() && i < |bufs| && bufs[i].locked && bufs[i].valid
      modifies this`bufs, this`disk, this`history
      ensures Valid()
      ensures bufs == old(bufs)[i := old(bufs[i]).(dirty := false)]
      ensures disk == old(disk)[old(bufs[i]).blockno := old(bufs[i]).data]
      ensures history == old(history) + [disk]
      ensures forall b :: 0 <= b < |disk| ==> ViewAt(State(), b) == ViewAt(old(State()), b)
    {
      bufs := bufs[i := bufs[i].(dirty := true)];
      WithView(old(State()), i, bufs[i]);
      WriteOutKeepsView(State(), i);
      Iderw(i);
    }

    /** Mark a held buffer as holding logged contents, which keeps it from being recycled. */
    method Pin(i: nat)
      requires Valid() && i < |bufs| && bufs[i].locked && bufs[i].valid
      modifies this`bufs
      ensures Valid() && bufs == old(bufs)[i := old(bufs[i]).(dirty := true)]
      ensures forall b :: 0 <= b < |disk| ==> ViewAt(State(), b) == ViewAt(old(State()), b)
    {
      bufs := bufs[i := bufs[i].(dirty := true)];
      WithView(old(State()), i, bufs[i]);
    }

    /** Take a node out of the list. */
    method Unlink(i: nat)
      requires Forward(next, |bufs|, order) && Backward(prev, |bufs|, order) && i in order
      modifies this`next, this`prev, this`order
      ensures Forward(next, |bufs|, order) && Backward(prev, |bufs|, order)
      ensures forall x :: x in order <==> x in old(order) && x != i
      ensures exists k :: 0 <= k < |old(order)| && old(order)[k] == i && order == Without(old(order), k)
    {
      ghost var k :| 0 <= k < |order| && order[k] == i;
      UnlinkForward(next, |bufs|, order, k);
      UnlinkBackward(prev, |bufs|, order, k);
      WithoutMembers(order, |bufs|, k);
      prev := prev[next[i] := prev[i]];
      next := next[prev[i] := next[i]];
      order := Without(order, k);
    }

    /** Put a node that is not on the list at its front. */
    method PushFront(i: nat)
      requires Forward(next, |bufs|, order) && Backward(prev, |bufs|, order) && i < |bufs| && i !in order
      modifies this`next, this`prev, this`order
      ensures Forward(next, |bufs|, order) && Backward(prev, |bufs|, order)
      ensures order == [i] + old(order)
    {
      PushForward(next, |bufs|, order, i);
      PushBackward(prev, |bufs|, order, i, next[|bufs|]);
      var first := next[|bufs|];
      next := next[i := first];
      prev := prev[i := |bufs|];
      prev := prev[first := i];
      next := next[|bufs| := i];
      order := [i] + order;
    }

    /** Move a buffer to the most recently used end. */
    method Touch(i: nat)
      requires Listed() && i < |bufs|
      modifies this`next, this`prev, this`order
      ensures Listed() && MovedFirst(old(order), order, i)
    {
      assert i in order;
      Unlink(i);
      PushFront(i);
    }

    /** Give a held buffer back. The cache stays consistent exactly if contents it was given have been logged or written
        by then. */
    method Brelse(i: nat)
      requires Valid() && i < |bufs| && bufs[i].locked
      modifies this`bufs, this`next, this`prev, this`order
      ensures Listed() && State() == Released(old(State()), i)
      ensures Valid() <==> old(Settled(State(), i))
      ensures old(bufs[i]).refcnt > 1 ==> order == old(order)
      ensures old(bufs[i]).refcnt == 1 ==> MovedFirst(old(order), order, i)
    {
      ReleasedIffSettled(State(), i);
      bufs := bufs[i := bufs[i].(locked := false)];
      bufs := bufs[i := bufs[i].(refcnt := bufs[i].refcnt - 1)];
      assert bufs == Released(old(State()), i).bufs;
      if bufs[i].refcnt == 0 {
        Touch(i);
      }
    }
  }
}
