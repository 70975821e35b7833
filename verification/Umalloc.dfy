/** The user-level allocator: a circular free list in address order, searched next-fit, coalescing on free. */
module Umalloc {
  // Memory is counted in header-sized cells. A cell's contents read as a header are a list pointer and a
  // block size; cell BASE is the static list head and lies below everything obtained from the kernel.

  import opened Sums
  import opened Options

  const NULL: nat := 0
  const BASE: nat := 1
  const HEADER_BYTES: nat := 8
  const MORECORE_UNITS: nat := 4096

  datatype Header = Header(ptr: nat, size: nat)
  datatype Blk = Blk(addr: nat, size: nat)

  type Memory = map<nat, Header>

  // ------------------------------------------------------------------ the free list

  function End(b: Blk): nat {
    b.addr + b.size
  }

  /** The list as a sequence starting at the base: ascending and disjoint. */
  predicate Ordered(fl: seq<Blk>) {
    && |fl| > 0 && fl[0] == Blk(BASE, 0)
    && (forall i :: 0 < i < |fl| ==> fl[i].size > 0 && fl[i].addr > BASE)
    && (forall i, j :: 0 <= i < j < |fl| ==> End(fl[i]) <= fl[j].addr)
  }

  predicate Touch(fl: seq<Blk>, i: nat) {
    i + 1 < |fl| && End(fl[i]) == fl[i + 1].addr
  }

  /** No two neighbours touch. */
  predicate Coalesced(fl: seq<Blk>) {
    Ordered(fl) && forall i :: 0 <= i < |fl| ==> !Touch(fl, i)
  }

  function Succ(fl: seq<Blk>, i: nat): nat
    requires |fl| > 0
  {
    if i + 1 < |fl| then fl[i + 1].addr else fl[0].addr
  }

  predicate LinkAt(mem: Memory, fl: seq<Blk>, i: nat)
    requires i < |fl|
  {
    fl[i].addr in mem && mem[fl[i].addr] == Header(Succ(fl, i), fl[i].size)
  }

  /** The headers in memory link the sequence into a cycle. */
  predicate Linked(mem: Memory, fl: seq<Blk>) {
    |fl| > 0 && forall i :: 0 <= i < |fl| ==> LinkAt(mem, fl, i)
  }

  /** The units in the first k blocks. */
  function Total(fl: seq<Blk>, k: nat): (r: nat)
    requires k <= |fl|
  {
    if k == 0 then 0 else Total(fl, k - 1) + fl[k - 1].size
  }

  // ------------------------------------------------------------------ inserting and merging blocks

  /** Block b lies right after list element t. */
  predicate Between(fl: seq<Blk>, t: nat, b: Blk) {
    && t < |fl| && b.size > 0
    && End(fl[t]) <= b.addr && BASE < b.addr
    && (t + 1 < |fl| ==> End(b) <= fl[t + 1].addr)
  }

  function InsertAt(fl: seq<Blk>, t: nat, b: Blk): (r: seq<Blk>)
    requires t < |fl|
  {
    seq(|fl| + 1, i requires 0 <= i < |fl| + 1 => if i <= t then fl[i] else if i == t + 1 then b else fl[i - 1])
  }

  function MergeAt(fl: seq<Blk>, t: nat): (r: seq<Blk>)
    requires t + 1 < |fl|
  {
    seq(|fl| - 1, i requires 0 <= i < |fl| - 1 =>
      if i < t then fl[i] else if i == t then Blk(fl[t].addr, fl[t].size + fl[t + 1].size) else fl[i + 1])
  }

  function InsertHeaders(mem: Memory, fl: seq<Blk>, t: nat, b: Blk): (r: Memory)
    requires t < |fl|
  {
    mem[b.addr := Header(Succ(fl, t), b.size)][fl[t].addr := Header(b.addr, fl[t].size)]
  }

  function MergeHeaders(mem: Memory, fl: seq<Blk>, t: nat): (r: Memory)
    requires t + 1 < |fl|
  {
    mem[fl[t].addr := Header(Succ(fl, t + 1), fl[t].size + fl[t + 1].size)]
  }

  lemma InsertOrdered(fl: seq<Blk>, t: nat, b: Blk)
    requires Ordered(fl) && Between(fl, t, b)
    ensures Ordered(InsertAt(fl, t, b))
  {
    var fl' := InsertAt(fl, t, b);
    forall i, j | 0 <= i < j < |fl'| ensures End(fl'[i]) <= fl'[j].addr {
      if i == t + 1 && j > t + 2 {
        assert End(fl[t + 1]) <= fl[j - 1].addr;
      }
      if j == t + 1 && i < t {
        assert End(fl[i]) <= fl[t].addr;
      }
    }
  }

  lemma InsertTouch(fl: seq<Blk>, t: nat, b: Blk, i: nat)
    requires t < |fl| && i <= |fl| && Touch(InsertAt(fl, t, b), i) && i != t && i != t + 1
    ensures Touch(fl, if i < t then i else i - 1)
  {
  }

  lemma MergeOrdered(fl: seq<Blk>, t: nat)
    requires Ordered(fl) && Touch(fl, t) && t > 0
    ensures Ordered(MergeAt(fl, t))
  {
    var fl' := MergeAt(fl, t);
    forall i, j | 0 <= i < j < |fl'| ensures End(fl'[i]) <= fl'[j].addr {
      var i' := if i <= t then i else i + 1;
      var j' := if j <= t then j else j + 1;
      assert End(fl[i']) <= fl[j'].addr;
      if i == t {
        assert End(fl[t + 1]) <= fl[j'].addr;
      }
    }
  }

  lemma MergeTouch(fl: seq<Blk>, t: nat, i: nat)
    requires Touch(fl, t) && i < |fl| && Touch(MergeAt(fl, t), i)
    ensures Touch(fl, if i < t then i else i + 1)
  {
  }

  lemma InsertLinked(mem: Memory, fl: seq<Blk>, t: nat, b: Blk)
    requires Ordered(fl) && Linked(mem, fl) && Between(fl, t, b)
    ensures Linked(InsertHeaders(mem, fl, t, b), InsertAt(fl, t, b))
  {
    var fl' := InsertAt(fl, t, b);
    var mem' := InsertHeaders(mem, fl, t, b);
    forall i | 0 <= i < |fl'| ensures LinkAt(mem', fl', i) {
      assert LinkAt(mem, fl, t);
      if i < t {
        assert LinkAt(mem, fl, i) && fl'[i] == fl[i];
        assert fl[i].addr != fl[t].addr;
      } else if i > t + 1 {
        assert LinkAt(mem, fl, i - 1) && fl'[i] == fl[i - 1];
        assert fl[i - 1].addr != fl[t].addr;
      }
    }
  }

  lemma MergeLinked(mem: Memory, fl: seq<Blk>, t: nat)
    requires Ordered(fl) && Linked(mem, fl) && Touch(fl, t) && t > 0
    ensures Linked(MergeHeaders(mem, fl, t), MergeAt(fl, t))
  {
    var fl' := MergeAt(fl, t);
    var mem' := MergeHeaders(mem, fl, t);
    forall i | 0 <= i < |fl'| ensures LinkAt(mem', fl', i) {
      assert LinkAt(mem, fl, t);
      if i < t {
        assert LinkAt(mem, fl, i) && fl'[i] == fl[i];
        assert fl[i].addr != fl[t].addr;
      } else if i > t {
        assert LinkAt(mem, fl, i + 1) && fl'[i] == fl[i + 1];
        assert fl[i + 1].addr != fl[t].addr;
      }
    }
  }

  lemma {:induction false} InsertTotal(fl: seq<Blk>, t: nat, b: Blk, k: nat)
    requires t < |fl| && k <= |fl| + 1
    ensures Total(InsertAt(fl, t, b), k) == if k <= t + 1 then Total(fl, k) else Total(fl, k - 1) + b.size
  {
    if k > 0 {
      InsertTotal(fl, t, b, k - 1);
    }
  }

  lemma {:induction false} MergeTotal(fl: seq<Blk>, t: nat, k: nat)
    requires t + 1 < |fl| && k < |fl|
    ensures Total(MergeAt(fl, t), k) == if k <= t then Total(fl, k) else Total(fl, k + 1)
  {
    if k > 0 {
      MergeTotal(fl, t, k - 1);
    }
  }

  // ------------------------------------------------------------------ the heap

  /** Memory together with the list threaded through it. */
  datatype Heap = Heap(mem: Memory, fl: seq<Blk>)

  predicate Apart(a: nat, n: nat, b: nat, m: nat) {
    a + n <= b || b + m <= a
  }

  /** The cells of a block exist and lie below the top of the heap. */
  predicate Present(cells: set<nat>, top: nat, a: nat, n: nat) {
    a > BASE && n > 0 && a + n <= top && forall c :: a <= c < a + n ==> c in cells
  }

  predicate FreePresent(fl: seq<Blk>, cells: set<nat>, top: nat) {
    forall i :: 0 < i < |fl| ==> Present(cells, top, fl[i].addr, fl[i].size)
  }

  /** Live blocks have their sizes in their headers and are pairwise disjoint. */
  predicate LiveOk(mem: Memory, live: map<nat, nat>, top: nat) {
    && (forall a :: a in live ==> Present(mem.Keys, top, a, live[a]) && mem[a].size == live[a])
    && (forall a, b :: a in live && b in live && a != b ==> Apart(a, live[a], b, live[b]))
  }

  /** No live block overlaps a free one. */
  predicate Separate(fl: seq<Blk>, live: map<nat, nat>) {
    forall a, i :: a in live && 0 < i < |fl| ==> Apart(a, live[a], fl[i].addr, fl[i].size)
  }

  /** The blocks make up everything there is, apart from the base. */
  ghost predicate Accounted(h: Heap, live: map<nat, nat>, top: nat) {
    && |h.mem| == 1 + Total(h.fl, |h.fl|) + Sum(live)
    && BASE < top && (forall c :: c in h.mem ==> BASE <= c < top)
  }

  ghost predicate Parts(h: Heap, live: map<nat, nat>, top: nat) {
    && Ordered(h.fl) && Linked(h.mem, h.fl)
    && FreePresent(h.fl, h.mem.Keys, top)
    && LiveOk(h.mem, live, top)
    && Separate(h.fl, live)
    && Accounted(h, live, top)
  }

  /** The cells of every block in `live` are as they were. */
  predicate Kept(mem: Memory, mem': Memory, live: map<nat, nat>) {
    forall a, c :: a in live && a <= c < a + live[a] ==> c in mem && c in mem' && mem'[c] == mem[c]
  }

  /** Two memories that differ only in one list header and perhaps in one further cell outside the live blocks. */
  lemma HeaderWrite(h: Heap, mem': Memory, live: map<nat, nat>, top: nat, t: nat, x: nat)
    requires Ordered(h.fl) && LiveOk(h.mem, live, top) && Separate(h.fl, live) && t < |h.fl|
    requires mem'.Keys == h.mem.Keys
    requires forall c :: c in h.mem && c != h.fl[t].addr && c != x ==> mem'[c] == h.mem[c]
    requires x != h.fl[t].addr ==> forall a :: a in live ==> Apart(a, live[a], x, 1)
    ensures LiveOk(mem', live, top) && Kept(h.mem, mem', live)
  {
    forall a, c | a in live && a <= c < a + live[a] ensures c in h.mem && c in mem' && mem'[c] == h.mem[c] {
      assert Present(h.mem.Keys, top, a, live[a]);
      if t > 0 {
        assert Apart(a, live[a], h.fl[t].addr, h.fl[t].size);
      }
      assert c != h.fl[t].addr;
    }
    forall a | a in live ensures Present(mem'.Keys, top, a, live[a]) && mem'[a].size == live[a] {
      assert a <= a < a + live[a];
    }
  }

  function Inserted(h: Heap, t: nat, b: Blk): (r: Heap)
    requires t < |h.fl|
  {
    Heap(InsertHeaders(h.mem, h.fl, t, b), InsertAt(h.fl, t, b))
  }

  function MergedAt(h: Heap, t: nat): (r: Heap)
    requires t + 1 < |h.fl|
  {
    Heap(MergeHeaders(h.mem, h.fl, t), MergeAt(h.fl, t))
  }

  lemma InsertBlocks(h: Heap, live: map<nat, nat>, top: nat, t: nat, a: nat)
    requires Parts(h, live, top) && a in live && Between(h.fl, t, Blk(a, live[a]))
    ensures FreePresent(InsertAt(h.fl, t, Blk(a, live[a])), h.mem.Keys, top)
    ensures Separate(InsertAt(h.fl, t, Blk(a, live[a])), live - {a})
  {
    var fl' := InsertAt(h.fl, t, Blk(a, live[a]));
    forall i | 0 < i < |fl'|
      ensures Present(h.mem.Keys, top, fl'[i].addr, fl'[i].size)
      ensures forall x :: x in live - {a} ==> Apart(x, live[x], fl'[i].addr, fl'[i].size)
    {
      if i <= t {
        assert fl'[i] == h.fl[i];
      } else if i > t + 1 {
        assert fl'[i] == h.fl[i - 1];
      }
    }
  }

  lemma InsertKeys(h: Heap, live: map<nat, nat>, top: nat, t: nat, a: nat)
    requires Linked(h.mem, h.fl) && LiveOk(h.mem, live, top) && t < |h.fl| && a in live
    ensures Inserted(h, t, Blk(a, live[a])).mem.Keys == h.mem.Keys
    ensures |InsertAt(h.fl, t, Blk(a, live[a]))| == |h.fl| + 1
  {
    assert LinkAt(h.mem, h.fl, t);
    assert Present(h.mem.Keys, top, a, live[a]);
  }

  lemma LessLive(h: Heap, live: map<nat, nat>, top: nat, a: nat)
    requires LiveOk(h.mem, live, top) && Separate(h.fl, live) && a in live
    ensures LiveOk(h.mem, live - {a}, top) && Separate(h.fl, live - {a})
    ensures forall x :: x in live - {a} ==> Apart(x, live[x], a, 1)
  {
    forall x | x in live - {a} ensures Apart(x, live[x], a, 1) {
      assert Apart(x, live[x], a, live[a]);
      assert Present(h.mem.Keys, top, a, live[a]);
    }
  }

  lemma InsertParts(h: Heap, live: map<nat, nat>, top: nat, t: nat, a: nat)
    requires Parts(h, live, top) && a in live && Between(h.fl, t, Blk(a, live[a]))
    ensures Parts(Inserted(h, t, Blk(a, live[a])), live - {a}, top)
    ensures Kept(h.mem, Inserted(h, t, Blk(a, live[a])).mem, live - {a})
  {
    hide LiveOk; hide Separate; hide FreePresent; hide Linked; hide InsertAt;
    var b := Blk(a, live[a]);
    var g := Inserted(h, t, b);
    LessLive(h, live, top, a);
    InsertBlocks(h, live, top, t, a);
    InsertOrdered(h.fl, t, b);
    InsertLinked(h.mem, h.fl, t, b);
    InsertTotal(h.fl, t, b, |h.fl| + 1);
    SumWithout(live, a);
    InsertKeys(h, live, top, t, a);
    HeaderWrite(h, g.mem, live - {a}, top, t, a);
  }

  lemma MergeBlocks(h: Heap, live: map<nat, nat>, top: nat, t: nat)
    requires Parts(h, live, top) && Touch(h.fl, t) && t > 0
    ensures FreePresent(MergeAt(h.fl, t), h.mem.Keys, top)
    ensures Separate(MergeAt(h.fl, t), live)
  {
    var fl' := MergeAt(h.fl, t);
    forall i | 0 < i < |fl'|
      ensures Present(h.mem.Keys, top, fl'[i].addr, fl'[i].size)
      ensures forall x :: x in live ==> Apart(x, live[x], fl'[i].addr, fl'[i].size)
    {
      if i < t {
        assert fl'[i] == h.fl[i];
      } else if i > t {
        assert fl'[i] == h.fl[i + 1];
      } else {
        assert Present(h.mem.Keys, top, h.fl[t].addr, h.fl[t].size);
        assert Present(h.mem.Keys, top, h.fl[t + 1].addr, h.fl[t + 1].size);
        forall x | x in live ensures Apart(x, live[x], fl'[i].addr, fl'[i].size) {
          assert Apart(x, live[x], h.fl[t].addr, h.fl[t].size);
          assert Apart(x, live[x], h.fl[t + 1].addr, h.fl[t + 1].size);
        }
      }
    }
  }

  lemma MergeParts(h: Heap, live: map<nat, nat>, top: nat, t: nat)
    requires Parts(h, live, top) && Touch(h.fl, t)
    ensures t > 0 && Parts(MergedAt(h, t), live, top)
    ensures Kept(h.mem, MergedAt(h, t).mem, live)
  {
    var g := MergedAt(h, t);
    MergeBlocks(h, live, top, t);
    MergeOrdered(h.fl, t);
    MergeLinked(h.mem, h.fl, t);
    MergeTotal(h.fl, t, |h.fl| - 1);
    assert LinkAt(h.mem, h.fl, t);
    assert g.mem.Keys == h.mem.Keys;
    HeaderWrite(h, g.mem, live, top, t, h.fl[t].addr);
  }

  // ------------------------------------------------------------------ freeing a block

  function MergedIf(h: Heap, t: nat): (r: Heap) {
    if Touch(h.fl, t) then MergedAt(h, t) else h
  }

  /** The block is put in its place after element t, then merged upwards, then downwards. */
  function Freed(h: Heap, t: nat, b: Blk): (r: Heap)
    requires t < |h.fl|
  {
    MergedIf(MergedIf(Inserted(h, t, b), t + 1), t)
  }

  lemma MergedIfParts(h: Heap, live: map<nat, nat>, top: nat, t: nat)
    requires Parts(h, live, top)
    ensures Parts(MergedIf(h, t), live, top) && Kept(h.mem, MergedIf(h, t).mem, live)
  {
    if Touch(h.fl, t) {
      MergeParts(h, live, top, t);
    } else {
      forall a, c | a in live && a <= c < a + live[a] ensures c in h.mem {
        assert Present(h.mem.Keys, top, a, live[a]);
      }
    }
  }

  /** Only the new neighbours can touch, and the two merges take care of them. */
  lemma FreedCoalesced(h: Heap, t: nat, b: Blk)
    requires Coalesced(h.fl) && Between(h.fl, t, b)
    requires Ordered(Freed(h, t, b).fl)
    ensures Coalesced(Freed(h, t, b).fl)
  {
    var h1 := Inserted(h, t, b);
    var h2 := MergedIf(h1, t + 1);
    var h3 := MergedIf(h2, t);
    forall i | 0 <= i < |h3.fl| ensures !Touch(h3.fl, i) {
      if Touch(h3.fl, i) {
        var j := if Touch(h2.fl, t) && i >= t then i + 1 else i;
        if Touch(h2.fl, t) {
          MergeTouch(h2.fl, t, i);
        }
        assert Touch(h2.fl, j) && j != t;
        var k := if Touch(h1.fl, t + 1) && j > t then j + 1 else j;
        if Touch(h1.fl, t + 1) {
          MergeTouch(h1.fl, t + 1, j);
        }
        assert Touch(h1.fl, k) && k != t && k != t + 1;
        InsertTouch(h.fl, t, b, k);
      }
    }
  }

  /** A freed block leaves the list ordered and coalesced, touches no other live block, and is found in the list
      inside a block at least as large, next to the element it was put after. */
  lemma FreedOk(h: Heap, live: map<nat, nat>, top: nat, t: nat, a: nat) returns (g: nat)
    requires Parts(h, live, top) && Coalesced(h.fl) && a in live && Between(h.fl, t, Blk(a, live[a]))
    ensures var f := Freed(h, t, Blk(a, live[a]));
      && Parts(f, live - {a}, top) && Coalesced(f.fl) && Kept(h.mem, f.mem, live - {a})
      && t < |f.fl| && f.fl[t].addr == h.fl[t].addr
      && g < |f.fl| && f.fl[g].size >= live[a]
  {
    var b := Blk(a, live[a]);
    FreedParts(h, live, top, t, a);
    FreedCoalesced(h, t, b);
    g := FreedShape(h, t, b);
  }

  lemma FreedParts(h: Heap, live: map<nat, nat>, top: nat, t: nat, a: nat)
    requires Parts(h, live, top) && a in live && Between(h.fl, t, Blk(a, live[a]))
    ensures var f := Freed(h, t, Blk(a, live[a]));
      Parts(f, live - {a}, top) && Kept(h.mem, f.mem, live - {a})
  {
    hide Parts; hide Kept; hide Inserted; hide MergedIf;
    var b := Blk(a, live[a]);
    var h1 := Inserted(h, t, b);
    var h2 := MergedIf(h1, t + 1);
    var h3 := MergedIf(h2, t);
    InsertParts(h, live, top, t, a);
    MergedIfParts(h1, live - {a}, top, t + 1);
    MergedIfParts(h2, live - {a}, top, t);
    KeptTwice(h.mem, h1.mem, h2.mem, live - {a});
    KeptTwice(h.mem, h2.mem, h3.mem, live - {a});
  }

  lemma KeptTwice(m1: Memory, m2: Memory, m3: Memory, live: map<nat, nat>)
    requires Kept(m1, m2, live) && Kept(m2, m3, live)
    ensures Kept(m1, m3, live)
  {
  }

  lemma FreedShape(h: Heap, t: nat, b: Blk) returns (g: nat)
    requires t < |h.fl|
    ensures var f := Freed(h, t, b);
      && t < |f.fl| && f.fl[t].addr == h.fl[t].addr
      && g < |f.fl| && f.fl[g].size >= b.size
  {
    var h1 := Inserted(h, t, b);
    var h2 := MergedIf(h1, t + 1);
    assert h2.fl[t] == h.fl[t] && h2.fl[t + 1].size >= b.size;
    g := if Touch(h2.fl, t) then t else t + 1;
  }

  /** The header `free` gives the block itself: it swallows the block above if they touch. */
  function FreedHeader(mem: Memory, next: nat, bp: nat): (r: Header)
    requires bp in mem && next in mem
  {
    if bp + mem[bp].size == next then Header(mem[next].ptr, mem[bp].size + mem[next].size)
    else Header(next, mem[bp].size)
  }

  /** The header writes of `free`, in its order. */
  function FreedHeaders(mem: Memory, p: nat, bp: nat): (r: Memory)
    requires p in mem && bp in mem && mem[p].ptr in mem && p != bp
  {
    var h := FreedHeader(mem, mem[p].ptr, bp);
    var q := if p + mem[p].size == bp then Header(h.ptr, mem[p].size + h.size) else Header(bp, mem[p].size);
    mem[bp := h][p := q]
  }

  lemma MergedUp(h: Heap, t: nat, b: Blk)
    requires Ordered(h.fl) && Linked(h.mem, h.fl) && Between(h.fl, t, b)
    requires b.addr in h.mem && h.mem[b.addr].size == b.size
    ensures h.fl[t].addr in h.mem && h.mem[h.fl[t].addr] == Header(Succ(h.fl, t), h.fl[t].size)
    ensures Succ(h.fl, t) in h.mem && h.fl[t].addr != b.addr
    ensures var g := MergedIf(Inserted(h, t, b), t + 1); var hdr := FreedHeader(h.mem, Succ(h.fl, t), b.addr);
      && t + 1 < |g.fl| && g.fl[t] == h.fl[t] && g.fl[t + 1] == Blk(b.addr, hdr.size) && Succ(g.fl, t + 1) == hdr.ptr
      && g.mem == h.mem[b.addr := hdr][h.fl[t].addr := Header(b.addr, h.fl[t].size)]
  {
    var fl := h.fl;
    assert LinkAt(h.mem, fl, t);
    var u := if t + 1 < |fl| then t + 1 else 0;
    assert LinkAt(h.mem, fl, u);
    var h1 := Inserted(h, t, b);
    assert h1.fl[t] == fl[t] && h1.fl[t + 1] == b;
    assert t + 1 < |fl| ==> h1.fl[t + 2] == fl[t + 1];
    if Touch(h1.fl, t + 1) {
      assert Succ(h1.fl, t + 2) == Succ(fl, t + 1);
    }
  }

  lemma FreedHeadersAre(h: Heap, t: nat, b: Blk)
    requires Ordered(h.fl) && Linked(h.mem, h.fl) && Between(h.fl, t, b)
    requires b.addr in h.mem && h.mem[b.addr].size == b.size
    ensures h.fl[t].addr in h.mem && h.mem[h.fl[t].addr].ptr in h.mem && h.fl[t].addr != b.addr
    ensures FreedHeaders(h.mem, h.fl[t].addr, b.addr) == Freed(h, t, b).mem
    ensures Freed(h, t, b).mem.Keys == h.mem.Keys
  {
    hide Ordered; hide Linked; hide Between; hide Inserted; hide FreedHeader;
    MergedUp(h, t, b);
  }

  // ------------------------------------------------------------------ carving out a block

  function RemoveAt(fl: seq<Blk>, i: nat): (r: seq<Blk>)
    requires i < |fl|
  {
    seq(|fl| - 1, k requires 0 <= k < |fl| - 1 => if k < i then fl[k] else fl[k + 1])
  }

  /** `malloc` takes an element whole if it fits exactly, and otherwise its upper end. */
  function CarvedList(fl: seq<Blk>, i: nat, n: nat): (r: seq<Blk>)
    requires i < |fl| && n <= fl[i].size
  {
    if fl[i].size == n then RemoveAt(fl, i) else fl[i := Blk(fl[i].addr, fl[i].size - n)]
  }

  function CarvedHeaders(mem: Memory, fl: seq<Blk>, i: nat, n: nat): (r: Memory)
    requires 0 < i < |fl| && n <= fl[i].size && End(fl[i]) - n in mem
  {
    if fl[i].size == n then mem[fl[i - 1].addr := Header(Succ(fl, i), fl[i - 1].size)]
    else
      var q := End(fl[i]) - n;
      mem[fl[i].addr := Header(Succ(fl, i), fl[i].size - n)][q := Header(mem[q].ptr, n)]
  }

  lemma CarvedOrdered(fl: seq<Blk>, i: nat, n: nat)
    requires Coalesced(fl) && 0 < i < |fl| && 0 < n <= fl[i].size
    ensures Coalesced(CarvedList(fl, i, n))
  {
    var fl' := CarvedList(fl, i, n);
    if fl[i].size == n {
      forall k | 0 <= k < |fl'| ensures !Touch(fl', k) {
        assert !Touch(fl, k) && !Touch(fl, k + 1);
        if k == i - 1 && k + 1 < |fl'| {
          assert End(fl[i - 1]) <= fl[i].addr < End(fl[i]) <= fl[i + 1].addr;
        }
      }
    } else {
      forall k | 0 <= k < |fl'| ensures !Touch(fl', k) {
        assert !Touch(fl, k);
      }
    }
  }

  lemma CarvedLinked(mem: Memory, fl: seq<Blk>, i: nat, n: nat)
    requires Ordered(fl) && Linked(mem, fl) && 0 < i < |fl| && 0 < n <= fl[i].size && End(fl[i]) - n in mem
    ensures Linked(CarvedHeaders(mem, fl, i, n), CarvedList(fl, i, n))
  {
    var fl' := CarvedList(fl, i, n);
    var mem' := CarvedHeaders(mem, fl, i, n);
    assert LinkAt(mem, fl, i) && LinkAt(mem, fl, i - 1);
    forall k | 0 <= k < |fl'| ensures LinkAt(mem', fl', k) {
      var o := if fl[i].size == n && k >= i then k + 1 else k;
      assert LinkAt(mem, fl, o);
      assert o != i - 1 ==> fl[o].addr != fl[i - 1].addr;
      assert o != i ==> fl[o].addr != fl[i].addr;
      if fl[i].size != n && o != i {
        assert fl[o].addr != End(fl[i]) - n by {
          if o < i { assert End(fl[o]) <= fl[i].addr; } else { assert End(fl[i]) <= fl[o].addr; }
        }
      }
    }
  }

  lemma {:induction false} CarvedTotal(fl: seq<Blk>, i: nat, n: nat, k: nat)
    requires i < |fl| && n <= fl[i].size && k <= |CarvedList(fl, i, n)|
    ensures k <= i ==> Total(CarvedList(fl, i, n), k) == Total(fl, k)
    ensures k > i && fl[i].size != n ==> Total(CarvedList(fl, i, n), k) == Total(fl, k) - n
    ensures k >= i && fl[i].size == n ==> Total(CarvedList(fl, i, n), k) == Total(fl, k + 1) - n
  {
    if k > 0 {
      CarvedTotal(fl, i, n, k - 1);
    }
  }

  lemma CarvedBlocks(h: Heap, live: map<nat, nat>, top: nat, i: nat, n: nat)
    requires Parts(h, live, top) && 0 < i < |h.fl| && 0 < n <= h.fl[i].size
    ensures var q := End(h.fl[i]) - n;
      && FreePresent(CarvedList(h.fl, i, n), h.mem.Keys, top)
      && Separate(CarvedList(h.fl, i, n), live[q := n])
      && Present(h.mem.Keys, top, q, n)
      && (forall a :: a in live ==> Apart(a, live[a], q, n))
  {
    var fl, q := h.fl, End(h.fl[i]) - n;
    var fl' := CarvedList(fl, i, n);
    assert Present(h.mem.Keys, top, fl[i].addr, fl[i].size);
    forall a | a in live ensures Apart(a, live[a], q, n) {
      assert Apart(a, live[a], fl[i].addr, fl[i].size);
    }
    forall k | 0 < k < |fl'|
      ensures Present(h.mem.Keys, top, fl'[k].addr, fl'[k].size)
      ensures Apart(q, n, fl'[k].addr, fl'[k].size)
      ensures forall a :: a in live ==> Apart(a, live[a], fl'[k].addr, fl'[k].size)
    {
      var o := if fl[i].size == n && k >= i then k + 1 else k;
      assert Present(h.mem.Keys, top, fl[o].addr, fl[o].size);
      if o < i {
        assert End(fl[o]) <= fl[i].addr;
      } else if o > i {
        assert End(fl[i]) <= fl[o].addr;
      }
      forall a | a in live ensures Apart(a, live[a], fl'[k].addr, fl'[k].size) {
        assert Apart(a, live[a], fl[o].addr, fl[o].size);
      }
    }
  }

  lemma CarvedLive(h: Heap, live: map<nat, nat>, top: nat, i: nat, n: nat)
    requires Parts(h, live, top) && 0 < i < |h.fl| && 0 < n <= h.fl[i].size && End(h.fl[i]) - n in h.mem
    requires forall a :: a in live ==> Apart(a, live[a], End(h.fl[i]) - n, n)
    ensures var mem' := CarvedHeaders(h.mem, h.fl, i, n);
      && mem'.Keys == h.mem.Keys && mem'[End(h.fl[i]) - n].size == n
      && LiveOk(mem', live, top) && Kept(h.mem, mem', live)
  {
    var mem' := CarvedHeaders(h.mem, h.fl, i, n);
    var q := End(h.fl[i]) - n;
    assert LinkAt(h.mem, h.fl, i) && LinkAt(h.mem, h.fl, i - 1);
    assert mem'.Keys == h.mem.Keys;
    assert h.fl[i - 1].addr != h.fl[i].addr;
    forall a | a in live ensures Apart(a, live[a], q, 1) {
      assert Apart(a, live[a], q, n);
    }
    HeaderWrite(h, mem', live, top, if h.fl[i].size == n then i - 1 else i, q);
  }

  lemma MoreLive(mem: Memory, live: map<nat, nat>, top: nat, q: nat, n: nat)
    requires LiveOk(mem, live, top) && Present(mem.Keys, top, q, n) && mem[q].size == n
    requires forall a :: a in live ==> Apart(a, live[a], q, n)
    ensures q !in live && LiveOk(mem, live[q := n], top) && Sum(live[q := n]) == Sum(live) + n
  {
    forall a | a in live ensures a != q {
      assert Apart(a, live[a], q, n) && Present(mem.Keys, top, a, live[a]);
    }
    SumWithout(live[q := n], q);
    assert live[q := n] - {q} == live;
  }

  /** The block handed out is new, lies apart from every live block, and leaves them and the list intact. */
  lemma CarvedOk(h: Heap, live: map<nat, nat>, top: nat, i: nat, n: nat)
    requires Parts(h, live, top) && Coalesced(h.fl) && 0 < i < |h.fl| && 0 < n <= h.fl[i].size
    ensures var q := End(h.fl[i]) - n;
      && q > BASE && q in h.mem && q !in live
      && (forall a :: a in live ==> Apart(a, live[a], q, n))
      && var g := Heap(CarvedHeaders(h.mem, h.fl, i, n), CarvedList(h.fl, i, n));
         Parts(g, live[q := n], top) && Coalesced(g.fl) && Kept(h.mem, g.mem, live)
  {
    hide LiveOk; hide Separate; hide FreePresent; hide Linked; hide CarvedHeaders; hide Kept;
    var q := End(h.fl[i]) - n;
    CarvedBlocks(h, live, top, i, n);
    assert q <= q < q + n;
    CarvedOrdered(h.fl, i, n);
    CarvedLinked(h.mem, h.fl, i, n);
    CarvedTotal(h.fl, i, n, |CarvedList(h.fl, i, n)|);
    CarvedLive(h, live, top, i, n);
    MoreLive(CarvedHeaders(h.mem, h.fl, i, n), live, top, q, n);
  }

  // ------------------------------------------------------------------ going round the list

  function Next(i: nat, n: nat): (r: nat)
    requires i < n
    ensures r < n
  {
    if i + 1 < n then i + 1 else 0
  }

  /** Steps from list position i to position j. */
  function Dist(i: nat, j: nat, n: nat): (r: nat)
    requires i < n && j < n
    ensures r < n
    ensures r == 0 <==> i == j
  {
    if i <= j then j - i else j - i + n
  }

  lemma DistNext(i: nat, j: nat, n: nat)
    requires i < n && j < n
    ensures Dist(Next(i, n), j, n) == if i == j then n - 1 else Dist(i, j, n) - 1
  {
  }

  /** The last list element below address a. */
  function Place(fl: seq<Blk>, a: nat): (t: nat)
    requires Ordered(fl) && a > BASE
    ensures t < |fl| && fl[t].addr < a
    ensures forall i :: t < i < |fl| ==> fl[i].addr >= a
  {
    PlaceBelow(fl, a, |fl|)
  }

  function PlaceBelow(fl: seq<Blk>, a: nat, k: nat): (t: nat)
    requires Ordered(fl) && a > BASE && 0 < k <= |fl|
    requires forall i :: k <= i < |fl| ==> fl[i].addr >= a
    ensures t < |fl| && fl[t].addr < a
    ensures forall i :: t < i < |fl| ==> fl[i].addr >= a
  {
    if fl[k - 1].addr < a then k - 1 else PlaceBelow(fl, a, k - 1)
  }

  lemma PlaceIsBetween(h: Heap, live: map<nat, nat>, top: nat, a: nat)
    requires Parts(h, live, top) && a in live
    ensures Ordered(h.fl) && Linked(h.mem, h.fl) && a > BASE && a in h.mem && h.mem[a].size == live[a]
    ensures Between(h.fl, Place(h.fl, a), Blk(a, live[a]))
  {
    assert Present(h.mem.Keys, top, a, live[a]);
    var t := Place(h.fl, a);
    if t > 0 {
      assert Apart(a, live[a], h.fl[t].addr, h.fl[t].size);
    }
    if t + 1 < |h.fl| {
      assert Apart(a, live[a], h.fl[t + 1].addr, h.fl[t + 1].size);
    }
  }

  // ------------------------------------------------------------------ memory from the kernel

  function Units(nu: nat): (r: nat) {
    if nu < MORECORE_UNITS then MORECORE_UNITS else nu
  }

  /** Memory with n zeroed cells added from hp on. */
  function Zeroed(mem: Memory, hp: nat, n: nat): (r: Memory)
    ensures forall c :: c in r <==> c in mem || hp <= c < hp + n
    ensures forall c :: c in mem && c < hp ==> r[c] == mem[c]
    ensures (forall c :: c in mem ==> c < hp) ==> |r| == |mem| + n
  {
    if n == 0 then mem else Zeroed(mem, hp, n - 1)[hp + n - 1 := Header(NULL, 0)]
  }

  /** Fresh memory with a header for all of it. */
  function Grown(mem: Memory, hp: nat, n: nat): (r: Memory)
    requires n > 0
  {
    Zeroed(mem, hp, n)[hp := Header(NULL, n)]
  }

  lemma GrownMemory(mem: Memory, hp: nat, n: nat)
    requires (forall c :: c in mem ==> c < hp) && n > 0
    ensures var r := Grown(mem, hp, n);
      && (forall c :: c in mem ==> c in r && r[c] == mem[c])
      && (forall c :: c in r <==> c in mem || hp <= c < hp + n)
      && r[hp] == Header(NULL, n) && |r| == |mem| + n
  {
    assert Grown(mem, hp, n).Keys == Zeroed(mem, hp, n).Keys;
  }

  /** Fresh memory, seen as one live block, joins the heap without touching anything in it. */
  lemma GrownParts(h: Heap, live: map<nat, nat>, top: nat, hp: nat, n: nat)
    requires Parts(h, live, top) && hp >= top && n > 0
    ensures hp !in live
    ensures Parts(Heap(Grown(h.mem, hp, n), h.fl), live[hp := n], hp + n)
    ensures Kept(h.mem, Grown(h.mem, hp, n), live) && |Grown(h.mem, hp, n)| == |h.mem| + n
    ensures live[hp := n] - {hp} == live
  {
    hide Grown; hide Total; hide Sum;
    var mem' := Grown(h.mem, hp, n);
    GrownMemory(h.mem, hp, n);
    forall a | a in live
      ensures Present(mem'.Keys, hp + n, a, live[a]) && mem'[a].size == live[a] && Apart(a, live[a], hp, n)
    {
      assert Present(h.mem.Keys, top, a, live[a]);
      assert a <= a < a + live[a];
    }
    forall i | 0 <= i < |h.fl| ensures LinkAt(mem', h.fl, i) {
      assert LinkAt(h.mem, h.fl, i);
    }
    forall i | 0 < i < |h.fl|
      ensures Present(mem'.Keys, hp + n, h.fl[i].addr, h.fl[i].size) && Apart(hp, n, h.fl[i].addr, h.fl[i].size)
    {
      assert Present(h.mem.Keys, top, h.fl[i].addr, h.fl[i].size);
    }
    assert Present(mem'.Keys, hp + n, hp, n);
    MoreLive(mem', live, hp + n, hp, n);
    GrownKeeps(h.mem, live, top, hp, n);
  }

  lemma GrownKeeps(mem: Memory, live: map<nat, nat>, top: nat, hp: nat, n: nat)
    requires LiveOk(mem, live, top) && (forall c :: c in mem ==> c < hp) && n > 0
    ensures Kept(mem, Grown(mem, hp, n), live)
  {
    GrownMemory(mem, hp, n);
    forall a, c | a in live && a <= c < a + live[a] ensures c in mem {
      assert Present(mem.Keys, top, a, live[a]);
    }
  }

  /** Header-sized units for a request: its bytes rounded up, and the header. */
  function UnitsFor(nbytes: nat): (r: nat)
    ensures r > 0 && nbytes <= HEADER_BYTES * (r - 1) < nbytes + HEADER_BYTES
  {
    (nbytes + HEADER_BYTES - 1) / HEADER_BYTES + 1
  }

  /** Everything from just after the rover up to, not including, position i is too small. */
  predicate Scanned(fl: seq<Blk>, rover: nat, i: nat, n: nat)
    requires rover < |fl| && i < |fl|
  {
    var start := Next(rover, |fl|);
    forall k :: 0 <= k < |fl| && Dist(start, k, |fl|) < Dist(start, i, |fl|) ==> fl[k].size < n
  }

  lemma ScannedNone(fl: seq<Blk>, rover: nat, n: nat)
    requires rover < |fl|
    ensures Scanned(fl, rover, Next(rover, |fl|), n)
  {
  }

  lemma ScannedMore(fl: seq<Blk>, rover: nat, i: nat, n: nat)
    requires rover < |fl| && i < |fl| && i != rover && Scanned(fl, rover, i, n) && fl[i].size < n
    ensures Scanned(fl, rover, Next(i, |fl|), n)
  {
  }

  lemma ScannedAll(fl: seq<Blk>, rover: nat, n: nat)
    requires rover < |fl| && Scanned(fl, rover, rover, n) && fl[rover].size < n
    ensures forall k :: 0 <= k < |fl| ==> fl[k].size < n
  {
    var start := Next(rover, |fl|);
    forall k | 0 <= k < |fl| ensures fl[k].size < n {
      assert k != rover ==> Dist(start, k, |fl|) < Dist(start, rover, |fl|);
    }
  }

  lemma ListAt(h: Heap, live: map<nat, nat>, top: nat, i: nat)
    requires Parts(h, live, top) && i < |h.fl|
    ensures LinkAt(h.mem, h.fl, i) && h.fl[0].size == 0
    ensures forall j :: 0 <= j < |h.fl| && h.fl[j].addr == h.fl[i].addr ==> j == i
  {
  }

  /** A program may write anything into the payload of its blocks: no header is there. */
  lemma PayloadWrite(h: Heap, live: map<nat, nat>, top: nat, a: nat, c: nat, v: Header)
    requires Parts(h, live, top) && a in live && a < c < a + live[a]
    ensures Parts(Heap(h.mem[c := v], h.fl), live, top)
    ensures Kept(h.mem, h.mem[c := v], live - {a})
  {
    hide Total; hide Sum;
    var mem' := h.mem[c := v];
    assert Present(h.mem.Keys, top, a, live[a]);
    assert mem'.Keys == h.mem.Keys;
    forall i | 0 <= i < |h.fl| ensures LinkAt(mem', h.fl, i) {
      assert LinkAt(h.mem, h.fl, i);
      assert i > 0 ==> Apart(a, live[a], h.fl[i].addr, h.fl[i].size);
    }
    forall b | b in live ensures b != c {
      assert b != a ==> Apart(a, live[a], b, live[b]);
      assert Present(h.mem.Keys, top, b, live[b]);
    }
    forall b, x | b in live - {a} && b <= x < b + live[b] ensures x in h.mem && x != c {
      assert Apart(a, live[a], b, live[b]);
      assert Present(h.mem.Keys, top, b, live[b]);
    }
  }

  // ------------------------------------------------------------------ the allocator

  class Allocator {
    var mem: Memory
    var freep: nat                  // NULL until the first malloc
    ghost var fl: seq<Blk>          // the free list from the base on
    ghost var live: map<nat, nat>   // header address -> units, of the blocks handed out and not yet freed
    ghost var top: nat              // everything obtained so far lies below
    ghost var rover: nat            // the position of freep in the list

    ghost predicate Valid()
      reads this
    {
      && Parts(Heap(mem, fl), live, top) && Coalesced(fl)
      && rover < |fl| && freep == fl[rover].addr
    }

    /** Before the first call to malloc. */
    ghost predicate Fresh()
      reads this
    {
      freep == NULL && mem.Keys == {BASE} && fl == [] && live == map[] && top == BASE + 1
    }

    constructor ()
      ensures Fresh()
    {
      mem, freep, fl, live, top, rover := map[BASE := Header(NULL, 0)], NULL, [], map[], BASE + 1, 0;
    }

    /** Give a block back. */
    method Free(ap: nat)
      requires Valid() && ap > 0 && ap - 1 in live
      modifies this`mem, this`freep, this`fl, this`live, this`rover
      ensures Valid() && live == old(live) - {ap - 1}
      ensures Kept(old(mem), mem, live) && mem.Keys == old(mem.Keys)
      ensures exists g :: 0 <= g < |fl| && fl[g].size >= old(live)[ap - 1]
    {
      hide Parts; hide Coalesced; hide Kept; hide Freed;
      var bp := ap - 1;
      PlaceIsBetween(Heap(mem, fl), live, top, bp);
      ghost var b := Blk(bp, live[bp]);
      ghost var t := Place(fl, bp);
      var p := FindPlace(bp);
      ghost var g := FreedOk(Heap(mem, fl), live, top, t, bp);
      FreedHeadersAre(Heap(mem, fl), t, b);
      ghost var was := Heap(mem, fl);
      var next := mem[p].ptr;
      if bp + mem[bp].size == next {
        mem := mem[bp := Header(mem[next].ptr, mem[bp].size + mem[next].size)];
      } else {
        mem := mem[bp := Header(next, mem[bp].size)];
      }
      if p + mem[p].size == bp {
        mem := mem[p := Header(mem[bp].ptr, mem[p].size + mem[bp].size)];
      } else {
        mem := mem[p := Header(bp, mem[p].size)];
      }
      freep := p;
      fl := Freed(was, t, b).fl;
      live := live - {bp};
      rover := t;
    }

    /** The search of `free`: from the rover around to the element the block belongs after. */
    method FindPlace(bp: nat) returns (p: nat)
      requires Valid() && bp > BASE && bp in live
      ensures p == fl[Place(fl, bp)].addr
    {
      ghost var t := Place(fl, bp);
      ghost var i: nat := rover;
      p := freep;
      while !(bp > p && bp < mem[p].ptr)
        invariant i < |fl| && p == fl[i].addr && LinkAt(mem, fl, i)
        decreases Dist(i, t, |fl|)
      {
        if p >= mem[p].ptr && (bp > p || bp < mem[p].ptr) {
          break;
        }
        DistNext(i, t, |fl|);
        p := mem[p].ptr;
        i := Next(i, |fl|);
        assert LinkAt(mem, fl, i);
      }
    }

    /** Get at least nu units from the kernel, if it has them, and put them on the free list. `core` is what sbrk
        answers: the first cell of fresh memory above all earlier memory, or nothing. */
    method Morecore(nu: nat, core: Option<nat>) returns (ok: bool)
      requires Valid() && (core.Some? ==> core.value >= top)
      modifies this
      ensures Valid() && live == old(live) && (ok <==> core.Some?)
      ensures !ok ==> mem == old(mem) && fl == old(fl) && freep == old(freep) && rover == old(rover) && top == old(top)
      ensures ok ==> |mem| == old(|mem|) + Units(nu) && Kept(old(mem), mem, live)
      ensures ok ==> exists g :: 0 <= g < |fl| && fl[g].size >= nu
    {
      hide Parts; hide Coalesced; hide Kept; hide Grown; hide Apart;
      var n := if nu < MORECORE_UNITS then MORECORE_UNITS else nu;
      if core.None? {
        return false;
      }
      var hp := core.value;
      GrownParts(Heap(mem, fl), live, top, hp, n);
      mem := Grown(mem, hp, n);
      live := live[hp := n];
      top := hp + n;
      label grown:
      assert |mem| == old(|mem|) + n;
      Free(hp + 1);
      KeptTwice(old(mem), old@grown(mem), mem, old(live));
      return true;
    }

    /** Hand out the block found at position i. */
    method Take(p: nat, prevp: nat, n: nat, ghost i: nat) returns (q: nat)
      requires Valid() && 0 < i < |fl| && p == fl[i].addr && prevp == fl[i - 1].addr && 0 < n <= fl[i].size
      modifies this`mem, this`fl, this`live, this`freep, this`rover
      ensures Valid() && q > BASE && q !in old(live) && live == old(live)[q := n]
      ensures forall a :: a in old(live) ==> Apart(a, live[a], q, n)
      ensures Kept(old(mem), mem, old(live)) && |mem| == old(|mem|)
    {
      hide LiveOk; hide Separate; hide FreePresent; hide Kept; hide Coalesced; hide Total; hide Sum; hide Apart;
      CarvedOk(Heap(mem, fl), live, top, i, n);
      assert LinkAt(mem, fl, i) && LinkAt(mem, fl, i - 1);
      ghost var fl' := CarvedList(fl, i, n);
      ghost var mem' := CarvedHeaders(mem, fl, i, n);
      q := p;
      if mem[p].size == n {
        mem := mem[prevp := Header(mem[p].ptr, mem[prevp].size)];
      } else {
        mem := mem[p := Header(mem[p].ptr, mem[p].size - n)];
        q := p + mem[p].size;
        mem := mem[q := Header(mem[q].ptr, n)];
      }
      freep := prevp;
      assert mem == mem';
      fl, live, rover := fl', live[q := n], i - 1;
    }

    /** Some free block has at least n units. */
    ghost predicate HasRoom(n: nat)
      reads this
    {
      exists i :: 0 <= i < |fl| && fl[i].size >= n
    }

    /** The first call sets up the list with nothing but the base on it. */
    method SetUp(ghost n: nat)
      requires (Fresh() || Valid()) && n > 0
      modifies this
      ensures Valid() && live == old(live) && top == old(top) && |mem| == old(|mem|)
      ensures HasRoom(n) <==> old(HasRoom(n))
      ensures Kept(old(mem), mem, live)
    {
      if freep == NULL {
        assert Fresh();
        mem := mem[BASE := Header(BASE, 0)];
        freep := BASE;
        fl, rover := [Blk(BASE, 0)], 0;
        assert LinkAt(mem, fl, 0);
        assert mem.Keys == {BASE};
        assert |mem| == |mem.Keys|;
      }
    }

    /** A block for nbytes, or NULL. There is no block exactly when no free block is large enough and the kernel has
        no more memory; the kernel is asked at most once, and only when it has to be. */
    method Malloc(nbytes: nat, core: Option<nat>) returns (r: nat)
      requires (Fresh() || Valid()) && (core.Some? ==> core.value >= top)
      modifies this
      ensures Valid()
      ensures r == NULL <==> core.None? && !old(HasRoom(UnitsFor(nbytes)))
      ensures r == NULL ==> live == old(live) && Kept(old(mem), mem, live) && |mem| == old(|mem|)
      ensures r != NULL ==>
        && r > BASE + 1 && r - 1 !in old(live) && live == old(live)[r - 1 := UnitsFor(nbytes)]
        && (forall a :: a in old(live) ==> Apart(a, live[a], r - 1, UnitsFor(nbytes)))
        && Kept(old(mem), mem, old(live))
        && |mem| == old(|mem|) + if old(HasRoom(UnitsFor(nbytes))) then 0 else Units(UnitsFor(nbytes))
    {
      hide Parts; hide Coalesced; hide Kept; hide Scanned; hide Apart; hide Fresh; hide Dist;
      var nunits := (nbytes + HEADER_BYTES - 1) / HEADER_BYTES + 1;
      SetUp(nunits);
      ghost var room := HasRoom(nunits);
      ghost var size := |mem|;
      var prevp := freep;
      ListAt(Heap(mem, fl), live, top, rover);
      var p := mem[prevp].ptr;
      ghost var j: nat, i: nat := rover, Next(rover, |fl|);
      ghost var grown, g: nat := false, 0;
      ScannedNone(fl, rover, nunits);
      while true
        invariant Valid() && live == old(live) && Kept(old(mem), mem, live)
        invariant j < |fl| && i == Next(j, |fl|) && p == fl[i].addr && prevp == fl[j].addr
        invariant !grown ==> |mem| == size && (room <==> HasRoom(nunits)) && top == old(top)
        invariant !grown ==> Scanned(fl, rover, i, nunits)
        invariant grown ==> !room && core.Some? && |mem| == size + Units(nunits)
        invariant grown ==> g < |fl| && fl[g].size >= nunits && Dist(i, g, |fl|) <= Dist(i, rover, |fl|)
        decreases !grown, Dist(i, rover, |fl|)
      {
        ListAt(Heap(mem, fl), live, top, i);
        if mem[p].size >= nunits {
          ghost var before := mem;
          p := Take(p, prevp, nunits, i);
          KeptTwice(old(mem), before, mem, old(live));
          return p + 1;
        }
        if p == freep {
          assert i == rover && !grown;
          ScannedAll(fl, rover, nunits);
          ghost var before := mem;
          var ok := Morecore(nunits, core);
          if !ok {
            return NULL;
          }
          KeptTwice(old(mem), before, mem, old(live));
          p := freep;
          grown, i := true, rover;
          g :| 0 <= g < |fl| && fl[g].size >= nunits;
          ListAt(Heap(mem, fl), live, top, i);
        } else if !grown {
          ScannedMore(fl, rover, i, nunits);
        }
        DistNext(i, rover, |fl|);
        if grown {
          DistNext(i, g, |fl|);
        }
        prevp, j := p, i;
        p, i := mem[p].ptr, Next(i, |fl|);
      }
    }

    /** A program writes into a block it holds. */
    method Store(a: nat, c: nat, v: Header)
      requires Valid() && a in live && a < c < a + live[a]
      modifies this`mem
      ensures Valid() && mem == old(mem)[c := v] && Kept(old(mem), mem, live - {a})
    {
      PayloadWrite(Heap(mem, fl), live, top, a, c, v);
      mem := mem[c := v];
    }
  }
}
