/** The frame allocator and the page-table code, working in place on physical memory. */
module VirtualMemory {
  import opened Paging
  import opened AddressSpace
  import opened Sets

  const PGSIZE: nat := 4096
  const WORDS: nat := 0x1_0000_0000    // one past the largest 32-bit address
  const KERNBASE: nat := 0x8000_0000
  const EXTPAGE: nat := 256            // EXTMEM / PGSIZE
  const PHYSPAGE: nat := 57344         // PHYSTOP / PGSIZE
  const DEVPAGE: nat := 1040384        // DEVSPACE / PGSIZE

  /** What kfree fills a page with: every byte is 1. */
  function Junk(): (r: Page) {
    seq(ENTRIES, i => 0x0101_0101)
  }

  function RoundUp(x: nat): (r: nat)
    ensures r * PGSIZE >= x && (r == 0 || (r - 1) * PGSIZE < x)
  {
    (x + PGSIZE - 1) / PGSIZE
  }

  /** How many pages the bytes [va, va + size) touch. */
  function Span(va: nat, size: nat): (r: nat)
    requires 0 < size
    ensures r > 0 && (va / PGSIZE + r - 1) * PGSIZE < va + size <= (va / PGSIZE + r) * PGSIZE
  {
    (va + size - 1) / PGSIZE - va / PGSIZE + 1
  }

  /** Page n mapped to frame f, whose contents are those it has in v. */
  function MappedAs(v: Vm, n: nat, f: nat, perm: nat): (r: Mapping)
    requires perm < 4096
  {
    Mapped(f, FlagsOf(Entry(f, perm)), if n < KERNPAGE && f < |v.mem| then v.mem[f] else ZeroPage())
  }

  /** Pages n, n+1, ... are mapped to frames f, f+1, ...; k of them, and nothing else changes. */
  ghost predicate RangeAt(v: Vm, w: Vm, d: nat, n: nat, k: nat, f: nat, perm: nat) {
    && perm < 4096 && d < |v.mem| && d < |w.mem|
    && forall m {:trigger At(w, d, m)} :: 0 <= m < PAGES ==>
         At(w, d, m) == if n <= m < n + k then MappedAs(v, m, f + m - n, perm) else At(v, d, m)
  }

  ghost predicate FreeRange(v: Vm, d: nat, n: nat, k: nat) {
    && d < |v.mem| && n + k <= PAGES
    && forall m {:trigger At(v, d, m)} :: n <= m < n + k ==> At(v, d, m) == Unmapped
  }

  /** Frames f, f+1, ... are held by the caller. */
  ghost predicate Held(v: Vm, f: nat, k: nat) {
    forall g {:trigger g in v.owner} :: f <= g < f + k ==> g in v.owner && v.owner[g] == Misc && g < |v.mem|
  }

  function Interval(f: nat, k: nat): (r: set<nat>)
    ensures forall g :: g in r <==> f <= g < f + k
  {
    if k == 0 then {} else Interval(f, k - 1) + {f + k - 1}
  }

  /** The frames a mapping of k pages at n hands over: none for kernel pages. */
  function Handed(n: nat, f: nat, k: nat): (r: set<nat>) {
    if n < KERNPAGE then Interval(f, k) else {}
  }

  lemma StepWiden(v: Vm, w: Vm, d: nat, x: set<nat>, y: set<nat>)
    requires Step(v, w, d, x) && x <= y
    ensures Step(v, w, d, y)
  {
    hide Ok;
    hide Frames;
  }

  lemma StepRefl(v: Vm, d: nat)
    requires Ok(v) && IsDir(v, d)
    ensures Step(v, v, d, {}) && SameAt(v, v, d)
  {
  }

  lemma PartitionOf(v: Vm, f: nat)
    requires Ok(v) && f in v.owner
    ensures Partition(v) && f < |v.mem|
  {
  }

  lemma StepSize(v: Vm, w: Vm, d: nat, x: set<nat>)
    requires Step(v, w, d, x)
    ensures |w.mem| == |v.mem| && Ok(w)
  {
    hide Ok;
  }

  lemma RangeExtends(u: Vm, v: Vm, w: Vm, d: nat, n: nat, k: nat, f: nat, perm: nat)
    requires RangeAt(u, v, d, n, k, f, perm) && n + k < PAGES
    requires OnlyAt(v, w, d, n + k, MappedAs(v, n + k, f + k, perm)) && |v.mem| == |u.mem|
    requires n + k < KERNPAGE && f + k < |u.mem| ==> v.mem[f + k] == u.mem[f + k]
    ensures RangeAt(u, w, d, n, k + 1, f, perm)
  {
  }

  lemma MapStarts(v: Vm, d: nat, n: nat, f: nat, perm: nat)
    requires Ok(v) && IsDir(v, d) && perm < 4096
    ensures Step(v, v, d, Handed(n, f, 0)) && RangeAt(v, v, d, n, 0, f, perm)
  {
  }

  /** The next page is still unmapped, and the next frame still held. */
  lemma MapNext(u: Vm, v: Vm, d: nat, n: nat, done: nat, k: nat, f: nat, perm: nat)
    requires done < k && FreeRange(u, d, n, k) && Step(u, v, d, Handed(n, f, done)) && IsDir(v, d) && IsDir(u, d)
    requires RangeAt(u, v, d, n, done, f, perm)
    requires KERNPAGE <= n || (n + k <= KERNPAGE && Held(u, f, k))
    ensures Ok(v) && n + done < PAGES && At(v, d, n + done) == Unmapped
    ensures n < KERNPAGE ==> f + done in v.owner && v.owner[f + done] == Misc
    ensures n < KERNPAGE ==> f + done < |u.mem| && |v.mem| == |u.mem| && v.mem[f + done] == u.mem[f + done]
  {
    hide Ok;
    hide Frames;
    if n < KERNPAGE {
      assert f + done in u.owner;
      assert f + done !in Handed(n, f, done);
    }
  }

  lemma MapTurn(u: Vm, v: Vm, w: Vm, d: nat, n: nat, done: nat, k: nat, f: nat, perm: nat)
    requires done < k && FreeRange(u, d, n, k) && Step(u, v, d, Handed(n, f, done)) && IsDir(v, d) && IsDir(u, d)
    requires RangeAt(u, v, d, n, done, f, perm)
    requires KERNPAGE <= n || (n + k <= KERNPAGE && Held(u, f, k))
    requires Step(v, w, d, Handed(n + done, f + done, 1)) && IsDir(w, d)
    requires OnlyAt(v, w, d, n + done, MappedAs(v, n + done, f + done, perm))
    ensures Ok(w) && Step(u, w, d, Handed(n, f, done + 1)) && RangeAt(u, w, d, n, done + 1, f, perm)
  {
    hide Ok;
    hide Frames;
    hide Held;
    hide Elsewhere;
    hide KeepsTables;
    MapNext(u, v, d, n, done, k, f, perm);
    assert |v.mem| == |u.mem| by {
      StepSize(u, v, d, Handed(n, f, done));
    }
    StepWiden(u, v, d, Handed(n, f, done), Handed(n, f, done + 1));
    StepWiden(v, w, d, Handed(n + done, f + done, 1), Handed(n, f, done + 1));
    StepTrans(u, v, w, d, Handed(n, f, done + 1));
    RangeExtends(u, v, w, d, n, done, f, perm);
  }

  /** The pages from lo up to n, below hi, are unmapped, and nothing else changes. */
  ghost predicate ClearedAt(v: Vm, w: Vm, d: nat, lo: nat, n: nat, hi: nat) {
    && d < |v.mem| && d < |w.mem|
    && forall m {:trigger At(w, d, m)} :: 0 <= m < PAGES ==>
         At(w, d, m) == if lo <= m < n && m < hi then Unmapped else At(v, d, m)
  }

  /** Nothing is mapped where there is no page table. */
  lemma NoTable(v: Vm, d: nat, n: nat, m: nat)
    requires d < |v.mem| && n <= m < PAGES && !Present(Pde(v, d, n / ENTRIES)) && m < (n / ENTRIES + 1) * ENTRIES
    ensures At(v, d, m) == Unmapped
  {
    assert m / ENTRIES == n / ENTRIES;
  }

  /** Jumping over an absent page table clears as much as visiting each of its pages. */
  lemma JumpClears(u: Vm, v: Vm, d: nat, lo: nat, n: nat, hi: nat)
    requires ClearedAt(u, v, d, lo, n, hi) && lo <= n < PAGES && !Present(Pde(v, d, n / ENTRIES))
    ensures ClearedAt(u, v, d, lo, (n / ENTRIES + 1) * ENTRIES, hi)
  {
    forall m | n <= m < (n / ENTRIES + 1) * ENTRIES && m < PAGES ensures At(v, d, m) == Unmapped {
      NoTable(v, d, n, m);
    }
  }

  lemma ClearTurn(u: Vm, v: Vm, w: Vm, d: nat, lo: nat, n: nat, hi: nat)
    requires ClearedAt(u, v, d, lo, n, hi) && lo <= n < hi <= PAGES
    requires if w == v then At(v, d, n) == Unmapped else OnlyAt(v, w, d, n, Unmapped)
    ensures ClearedAt(u, w, d, lo, n + 1, hi)
  {
    hide At;
  }

  /** kfree and then clearing the entry is: clear the entry, junk the frame, free it. */
  lemma FreePageStep(v: Vm, w: Vm, d: nat, n: nat)
    requires Ok(v) && IsDir(v, d) && n < KERNPAGE && HasTable(v, d, n) && Present(Look(v, d, n))
    requires FrameOf(Look(v, d, n)) < |v.mem|
    requires var f := FrameOf(Look(v, d, n)); w == Given(Filled(Remapped(v, d, n, 0, f, Misc), f, Junk()), f)
    ensures Step(v, w, d, {}) && IsDir(w, d) && OnlyAt(v, w, d, n, Unmapped)
  {
    hide Ok;
    hide Frames;
    hide Elsewhere;
    hide KeepsTables;
    hide Look;
    UnmapStep(v, d, n);
    var f := FrameOf(Look(v, d, n));
    var v1 := Remapped(v, d, n, 0, f, Misc);
    StepSize(v, v1, d, {f});
    FilledStep(v1, d, f, Junk());
    var v2 := Filled(v1, f, Junk());
    StepSize(v1, v2, d, {f});
    GivenStep(v2, d, f);
    StepTrans(v, v1, v2, d, {f});
    StepTrans(v, v2, w, d, {f});
    StepClose(v, w, d, f);
  }

  /** The pages from lo up to n are mapped to zeroed pages the user may write, and nothing else changes. */
  ghost predicate GrownAt(v: Vm, w: Vm, d: nat, lo: nat, n: nat) {
    && d < |v.mem| && d < |w.mem|
    && forall m {:trigger At(w, d, m)} :: 0 <= m < PAGES ==>
         if lo <= m < n then
           At(w, d, m).Mapped? && At(w, d, m).flags == PTE_P + PTE_W + PTE_U && At(w, d, m).page == ZeroPage()
         else At(w, d, m) == At(v, d, m)
  }

  lemma GrowTurn(u: Vm, v: Vm, w: Vm, d: nat, lo: nat, n: nat, f: nat)
    requires GrownAt(u, v, d, lo, n) && lo <= n < KERNPAGE
    requires OnlyAt(v, w, d, n, Mapped(f, FlagsOf(Entry(f, PTE_W + PTE_U)), ZeroPage()))
    ensures GrownAt(u, w, d, lo, n + 1)
  {
    hide At;
    hide ZeroPage;
  }

  /** Unmapping what was mapped gives the old map back. */
  lemma UndoGrow(u: Vm, v: Vm, w: Vm, d: nat, lo: nat, n: nat, hi: nat)
    requires lo <= n <= hi <= PAGES && FreeRange(u, d, lo, hi - lo)
    requires GrownAt(u, v, d, lo, n) && ClearedAt(v, w, d, lo, hi, hi)
    ensures SameAt(u, w, d)
  {
    hide At;
  }

  /** A held frame given back. */
  lemma GiveBack(v: Vm, w: Vm, d: nat, f: nat)
    requires Ok(v) && IsDir(v, d) && f in v.owner && v.owner[f] == Misc && f < |v.mem|
    requires w == Given(Filled(v, f, Junk()), f)
    ensures Step(v, w, d, {f}) && IsDir(w, d) && SameAt(v, w, d)
  {
    hide Ok;
    hide Frames;
    hide Elsewhere;
    hide KeepsTables;
    hide At;
    FilledStep(v, d, f, Junk());
    StepSize(v, Filled(v, f, Junk()), d, {f});
    GivenStep(Filled(v, f, Junk()), d, f);
    StepTrans(v, Filled(v, f, Junk()), w, d, {f});
  }

  /** A held frame stays held. */
  lemma StaysHeld(v: Vm, w: Vm, d: nat, f: nat)
    requires Step(v, w, d, {}) && IsDir(v, d) && f in v.owner && v.owner[f] == Misc
    ensures f in w.owner && w.owner[f] == Misc && f < |w.mem| && f < |v.mem| && w.mem[f] == v.mem[f]
  {
    hide Ok;
    hide Frames;
    assert f != d;
  }

  lemma GrowOneDone(u: Vm, v: Vm, w: Vm, d: nat, n: nat, f: nat, perm: nat, done: nat)
    requires Step(u, v, d, {f}) && IsDir(v, d) && SameAt(u, v, d) && f !in u.owner && f in v.owner && v.owner[f] == Misc
    requires n < KERNPAGE && done <= 1 && Step(v, w, d, Handed(n, f, done)) && IsDir(w, d)
    requires RangeAt(v, w, d, n, done, f, perm)
    ensures Step(u, w, d, {f})
    ensures done == 1 ==>
      Step(u, w, d, {}) && f < |v.mem| && OnlyAt(u, w, d, n, Mapped(f, FlagsOf(Entry(f, perm)), v.mem[f]))
    ensures done == 0 ==> SameAt(u, w, d) && f in w.owner && w.owner[f] == Misc
  {
    hide Frames;
    hide Tables;
    StepWiden(v, w, d, Handed(n, f, done), {f});
    StepTrans(u, v, w, d, {f});
    if done == 1 {
      assert At(w, d, n) == MappedAs(v, n, f, perm);
      assert FrameOf(Look(w, d, n)) == f;
      assert w.owner[f] == User(d, n);
      StepClose(u, w, d, f);
    }
  }

  /** Every old frame keeps its role, and the new ones are page tables of d that map nothing. */
  ghost predicate OnlyEmptyTables(v: Vm, w: Vm, d: nat) {
    && (forall f :: f in v.owner ==> f in w.owner && w.owner[f] == v.owner[f])
    && (forall f :: f in w.owner && f !in v.owner ==>
          && f < |w.mem| && w.owner[f].Table? && w.owner[f].dir == d
          && forall i :: 0 <= i < ENTRIES ==> !Present(w.mem[f][i]))
  }

  lemma OldFramesStay(v: Vm, w: Vm, d: nat, f: nat)
    requires Step(v, w, d, {}) && IsDir(v, d) && IsDir(w, d) && SameAt(v, w, d) && f in v.owner
    ensures f in w.owner && w.owner[f] == v.owner[f]
  {
    hide Frames;
    hide Partition;
    if v.owner[f].User? && v.owner[f].dir == d {
      var n := v.owner[f].vpn;
      assert Present(Look(v, d, n)) && FrameOf(Look(v, d, n)) == f;
      assert At(w, d, n) == At(v, d, n);
    }
  }

  lemma NewFramesAreEmptyTables(v: Vm, w: Vm, d: nat, f: nat)
    requires Step(v, w, d, {}) && IsDir(v, d) && IsDir(w, d) && SameAt(v, w, d) && f in w.owner && f !in v.owner
    ensures f < |w.mem| && w.owner[f].Table? && w.owner[f].dir == d
    ensures forall i :: 0 <= i < ENTRIES ==> !Present(w.mem[f][i])
  {
    hide Frames;
    forall n | 0 <= n < KERNPAGE && Present(Look(w, d, n)) ensures FrameOf(Look(w, d, n)) in v.owner {
      assert At(w, d, n) == At(v, d, n);
    }
    if w.owner[f].Table? {
      forall i | 0 <= i < ENTRIES ensures !Present(w.mem[f][i]) {
        NewEntryIsEmpty(v, w, d, f, i);
      }
    }
  }

  lemma NewEntryIsEmpty(v: Vm, w: Vm, d: nat, f: nat, i: nat)
    requires Step(v, w, d, {}) && IsDir(v, d) && IsDir(w, d) && SameAt(v, w, d) && i < ENTRIES
    requires f in w.owner && f !in v.owner && f < |w.mem| && w.owner[f].Table? && w.owner[f].dir == d
    ensures !Present(w.mem[f][i])
  {
    hide Frames;
    hide Users;
    var p := w.owner[f].pdx;
    var n := p * ENTRIES + i;
    assert n / ENTRIES == p && n % ENTRIES == i;
    assert At(w, d, n) == At(v, d, n);
    assert Look(w, d, n) == w.mem[f][i];
    var e := Pde(v, d, p);
    if Present(e) {
      assert FrameOf(e) in v.owner && v.owner[FrameOf(e)] == Table(d, p);
      assert FrameOf(e) in w.owner && w.owner[FrameOf(e)] == Table(d, p);
    }
  }

  lemma GrowsOnlyTables(v: Vm, w: Vm, d: nat)
    requires Step(v, w, d, {}) && IsDir(v, d) && IsDir(w, d) && SameAt(v, w, d)
    ensures OnlyEmptyTables(v, w, d)
  {
    hide Step;
    hide SameAt;
    forall f | f in v.owner ensures f in w.owner && w.owner[f] == v.owner[f] {
      OldFramesStay(v, w, d, f);
    }
    forall f | f in w.owner && f !in v.owner
      ensures f < |w.mem| && w.owner[f].Table? && w.owner[f].dir == d
      ensures forall i :: 0 <= i < ENTRIES ==> !Present(w.mem[f][i])
    {
      NewFramesAreEmptyTables(v, w, d, f);
    }
  }

  // ------------------------------------------------------------------ a whole address space freed or made

  /** The frames that are left when d and its first i page tables are gone. */
  function Rest(v: Vm, d: nat, i: nat): (r: map<nat, Role>) {
    map f | f in v.owner && !(v.owner[f].Table? && v.owner[f].dir == d && v.owner[f].pdx < i) :: Dropped(v, d).owner[f]
  }

  ghost predicate Freeing(v: Vm, w: Vm, d: nat, i: nat) {
    && |w.mem| == |v.mem| && w.owner == Rest(v, d, i)
    && forall f :: f in w.owner && 0 <= f < |v.mem| ==> w.mem[f] == v.mem[f]
  }

  ghost predicate UserFree(v: Vm, d: nat) {
    && d < |v.mem|
    && forall n {:trigger At(v, d, n)} :: 0 <= n < KERNPAGE ==> At(v, d, n) == Unmapped
  }

  lemma FreeingStarts(v: Vm, d: nat)
    requires Ok(v) && IsDir(v, d) && UserFree(v, d)
    ensures Ok(Dropped(v, d)) && Frames(Dropped(v, d)) == Frames(v) && Freeing(v, Dropped(v, d), d, 0)
  {
    forall n | 0 <= n < KERNPAGE ensures !Present(Look(v, d, n)) {
      assert At(v, d, n) == Unmapped;
    }
    DroppedOk(v, d);
    assert Dropped(v, d).owner == Rest(v, d, 0);
  }

  /** What entry i of the directory says about the frames still held. */
  lemma FreeingNext(v: Vm, w: Vm, d: nat, i: nat)
    requires Ok(v) && IsDir(v, d) && Freeing(v, w, d, i) && i < ENTRIES
    ensures d in w.owner && w.owner[d] == Misc && w.mem[d] == v.mem[d]
    ensures var e := Pde(v, d, i); Present(e) ==>
      FrameOf(e) in w.owner && w.owner[FrameOf(e)] == Misc && FrameOf(e) != d
    ensures var e := Pde(v, d, i);
      Rest(v, d, i + 1) == if Present(e) then Rest(v, d, i) - {FrameOf(e)} else Rest(v, d, i)
  {
    var e := Pde(v, d, i);
    if Present(e) {
      assert v.owner[FrameOf(e)] == Table(d, i);
      assert Rest(v, d, i + 1) == Rest(v, d, i) - {FrameOf(e)};
    } else {
      assert Rest(v, d, i + 1) == Rest(v, d, i);
    }
  }

  lemma FreeingTurn(v: Vm, u: Vm, w: Vm, d: nat, i: nat)
    requires Ok(v) && IsDir(v, d) && Freeing(v, u, d, i) && i < ENTRIES && Ok(u) && d < |v.mem|
    requires Present(Pde(v, d, i)) && FrameOf(Pde(v, d, i)) < |u.mem|
    requires w == Given(Filled(u, FrameOf(Pde(v, d, i)), Junk()), FrameOf(Pde(v, d, i)))
    ensures Ok(w) && Frames(w) == Frames(u) && Freeing(v, w, d, i + 1)
  {
    var f := FrameOf(Pde(v, d, i));
    FreeingNext(v, u, d, i);
    FilledOk(u, f, Junk());
    GivenOk(Filled(u, f, Junk()), f);
  }

  lemma FreeingLeavesDir(v: Vm, w: Vm, d: nat)
    requires IsDir(v, d) && Freeing(v, w, d, ENTRIES)
    ensures d in w.owner && w.owner[d] == Misc
  {
  }

  /** d and everything in its address space is free; every other frame is as it was. */
  ghost predicate Freed(v: Vm, w: Vm, d: nat) {
    && Ok(w) && Frames(w) == Frames(v) && |w.mem| == |v.mem|
    && w.owner == (map f | f in v.owner && f != d && !Of(v.owner[f], d) :: v.owner[f])
    && forall f :: f in w.owner && 0 <= f < |v.mem| ==> w.mem[f] == v.mem[f]
  }

  lemma RestAtEnd(v: Vm, d: nat)
    requires Ok(v) && IsDir(v, d) && UserFree(v, d)
    ensures Rest(v, d, ENTRIES) - {d} == (map f | f in v.owner && f != d && !Of(v.owner[f], d) :: v.owner[f])
  {
    hide Frames;
    hide Partition;
    forall f | f in v.owner && v.owner[f].User? ensures v.owner[f].dir != d {
      assert At(v, v.owner[f].dir, v.owner[f].vpn).Mapped?;
    }
    forall f | f in v.owner && v.owner[f].Table? && v.owner[f].dir == d ensures v.owner[f].pdx < ENTRIES {
    }
  }

  lemma FreeingEnds(v: Vm, u: Vm, w: Vm, d: nat)
    requires Ok(v) && IsDir(v, d) && UserFree(v, d) && Freeing(v, u, d, ENTRIES) && Ok(u) && Frames(u) == Frames(v)
    requires d < |u.mem| && w == Given(Filled(u, d, Junk()), d)
    ensures Freed(v, w, d)
  {
    hide Ok;
    hide Frames;
    hide Rest;
    hide Of;
    FreeingLeavesDir(v, u, d);
    FilledOk(u, d, Junk());
    GivenOk(Filled(u, d, Junk()), d);
    RestAtEnd(v, d);
  }

  /** Exactly the frames and contents there were before. */
  ghost predicate Restored(v: Vm, w: Vm) {
    && Ok(w) && Frames(w) == Frames(v) && |w.mem| == |v.mem| && w.owner == v.owner
    && forall f :: f in w.owner && 0 <= f < |v.mem| ==> w.mem[f] == v.mem[f]
  }

  /** Making an address space and freeing it is net zero. */
  lemma NetZero(v: Vm, u: Vm, w: Vm, d: nat)
    requires Step(v, u, d, {}) && d !in v.owner && Freed(u, w, d)
    ensures Restored(v, w)
  {
    forall f | f in v.owner ensures !Of(v.owner[f], d) {
    }
    assert w.owner == v.owner;
  }

  lemma FreedAfter(v: Vm, u: Vm, w: Vm, d: nat)
    requires Step(v, u, d, {}) && IsDir(v, d) && Freed(u, w, d)
    ensures Freed(v, w, d)
  {
    hide Ok;
    assert w.owner == (map f | f in v.owner && f != d && !Of(v.owner[f], d) :: v.owner[f]);
  }

  // ------------------------------------------------------------------ the kernel's part of every address space

  /** Bytes start up to end of physical memory, mapped at virt. */
  datatype Region = Region(virt: nat, start: nat, end: nat, perm: nat)

  /** The linker puts the kernel's data, which begins with page `data`, after at least a page of text. */
  predicate Layout(data: nat) {
    KERNPAGE + EXTPAGE < data < KERNPAGE + PHYSPAGE
  }

  function Kmap(data: nat): (r: seq<Region>)
    requires Layout(data)
    ensures |r| == 4
  {
    var text := EXTPAGE * PGSIZE;
    var rw := (data - KERNPAGE) * PGSIZE;
    [Region(KERNBASE, 0, text, PTE_W), Region(KERNBASE + text, text, rw, 0),
     Region(data * PGSIZE, rw, PHYSPAGE * PGSIZE, PTE_W), Region(DEVPAGE * PGSIZE, DEVPAGE * PGSIZE, 0, PTE_W)]
  }

  /** phys_end - phys_start in 32 bits: the last region ends at the top of the address space. */
  function Size(r: Region): (n: nat) {
    (r.end - r.start) % WORDS
  }

  /** What the first k regions map page m to. */
  function KernelMap(data: nat, k: nat, m: nat): (r: Mapping)
    requires Layout(data) && k <= 4
  {
    if k == 0 then Unmapped
    else
      var g := Kmap(data)[k - 1];
      if Size(g) > 0 && g.virt / PGSIZE <= m < g.virt / PGSIZE + Span(g.virt, Size(g))
      then Mapped(g.start / PGSIZE + m - g.virt / PGSIZE, g.perm + PTE_P, ZeroPage())
      else KernelMap(data, k - 1, m)
  }

  /** Physical memory appears once, at KERNBASE, with the text read-only; and device space appears at its own
      addresses. */
  lemma {:induction false} KernelMapMeaning(data: nat, m: nat)
    requires Layout(data) && m < PAGES
    ensures KernelMap(data, 4, m) ==
      if KERNPAGE <= m < KERNPAGE + PHYSPAGE then
        Mapped(m - KERNPAGE, if KERNPAGE + EXTPAGE <= m < data then PTE_P else PTE_P + PTE_W, ZeroPage())
      else if DEVPAGE <= m then Mapped(m, PTE_P + PTE_W, ZeroPage())
      else Unmapped
  {
    KernelMapUnrolled(data, m);
  }

  /** In addresses: memory up to 224 megabytes lies at 0x80000000, the devices from 0xFE000000 on, nothing else. */
  lemma KernelAddresses(data: nat, va: nat)
    requires Layout(data) && va < 0x1_0000_0000
    ensures var m := KernelMap(data, 4, va / 4096);
      if 0x8000_0000 <= va < 0x8E00_0000 then m.Mapped? && m.frame == (va - 0x8000_0000) / 4096
      else if 0xFE00_0000 <= va then m.Mapped? && m.frame == va / 4096
      else m == Unmapped
  {
    KernelMapMeaning(data, va / 4096);
  }

  /** Bits 0, 1 and 2 of an entry are present, writable and user: no kernel page is the user's, and only the kernel's
      text is read-only. */
  lemma KernelFlags(v: Vm, d: nat, data: nat, m: nat)
    requires KernelAt(v, d, data, 4) && m < PAGES && At(v, d, m).Mapped?
    ensures var x := At(v, d, m).flags;
      x % 2 == 1 && x / 4 == 0 && (x / 2 % 2 == 0 <==> KERNPAGE + EXTPAGE <= m < data)
  {
    KernelMapMeaning(data, m);
    assert At(v, d, m) == KernelMap(data, 4, m);
  }

  /** The pages a process gets are present, writable and the user's. */
  lemma UserFlags(v: Vm, w: Vm, d: nat, lo: nat, n: nat, m: nat)
    requires GrownAt(v, w, d, lo, n) && lo <= m < n && m < PAGES
    ensures At(w, d, m).Mapped? && At(w, d, m).flags == 7
  {
    assert At(w, d, m).Mapped?;
  }

  lemma {:induction false} KernelMapUnrolled(data: nat, m: nat)
    requires Layout(data) && m < PAGES
    ensures KernelMap(data, 4, m) ==
      if DEVPAGE <= m then Mapped(m, PTE_P + PTE_W, ZeroPage()) else KernelMap(data, 3, m)
    ensures KernelMap(data, 3, m) ==
      if data <= m < KERNPAGE + PHYSPAGE then Mapped(m - KERNPAGE, PTE_P + PTE_W, ZeroPage()) else KernelMap(data, 2, m)
    ensures KernelMap(data, 2, m) ==
      if KERNPAGE + EXTPAGE <= m < data then Mapped(m - KERNPAGE, PTE_P, ZeroPage()) else KernelMap(data, 1, m)
    ensures KernelMap(data, 1, m) ==
      if KERNPAGE <= m < KERNPAGE + EXTPAGE then Mapped(m - KERNPAGE, PTE_P + PTE_W, ZeroPage()) else Unmapped
  {
  }

  /** Each region can be mapped: it is aligned, not empty, in kernel space, and off the earlier ones. */
  lemma {:induction false} RegionFits(data: nat, k: nat, m: nat)
    requires Layout(data) && k < 4
    ensures var g := Kmap(data)[k];
      && 0 < Size(g) && KERNBASE <= g.virt && g.virt + Size(g) <= WORDS && g.start % PGSIZE == 0 && g.perm < 4096
      && FlagsOf(Entry(g.start / PGSIZE + m, g.perm)) == g.perm + PTE_P
      && (g.virt / PGSIZE <= m < g.virt / PGSIZE + Span(g.virt, Size(g)) && m < PAGES ==>
            KernelMap(data, k, m) == Unmapped)
  {
    if m < PAGES {
      KernelMapUnrolled(data, m);
    }
  }

  ghost predicate KernelAt(v: Vm, d: nat, data: nat, k: nat) {
    && Layout(data) && k <= 4 && d < |v.mem|
    && forall m {:trigger At(v, d, m)} :: 0 <= m < PAGES ==> At(v, d, m) == KernelMap(data, k, m)
  }

  lemma RegionNext(v: Vm, d: nat, data: nat, k: nat)
    requires KernelAt(v, d, data, k) && k < 4
    ensures var g := Kmap(data)[k];
      && 0 < Size(g) && KERNBASE <= g.virt && g.virt + Size(g) <= WORDS && g.start % PGSIZE == 0 && g.perm < 4096
      && FreeRange(v, d, g.virt / PGSIZE, Span(g.virt, Size(g)))
  {
    var g := Kmap(data)[k];
    RegionFits(data, k, 0);
    forall m | g.virt / PGSIZE <= m < g.virt / PGSIZE + Span(g.virt, Size(g)) ensures At(v, d, m) == Unmapped {
      RegionFits(data, k, m);
    }
  }

  lemma RegionMapped(v: Vm, w: Vm, d: nat, data: nat, k: nat)
    requires KernelAt(v, d, data, k) && k < 4
    requires var g := Kmap(data)[k];
      0 < Size(g) && RangeAt(v, w, d, g.virt / PGSIZE, Span(g.virt, Size(g)), g.start / PGSIZE, g.perm)
    ensures KernelAt(w, d, data, k + 1)
  {
    hide At;
    var g := Kmap(data)[k];
    RegionFits(data, k, 0);
    forall m | 0 <= m < PAGES ensures At(w, d, m) == KernelMap(data, k + 1, m) {
      var n := g.virt / PGSIZE;
      if n <= m {
        RegionFits(data, k, m - n);
      }
    }
  }

  /** A held, zeroed frame becomes an empty directory. */
  lemma NewDirStep(v: Vm, d: nat)
    requires Ok(v) && d in v.owner && v.owner[d] == Misc && v.mem[d] == ZeroPage()
    ensures Step(v, MadeDir(v, d), d, {}) && IsDir(MadeDir(v, d), d)
    ensures forall m {:trigger At(MadeDir(v, d), d, m)} :: 0 <= m < PAGES ==> At(MadeDir(v, d), d, m) == Unmapped
  {
    hide Users;
    MadeDirOk(v, d);
  }

  lemma StepSelf(v: Vm, w: Vm, d: nat)
    requires Step(v, w, d, {d})
    ensures Step(v, w, d, {})
  {
    hide Ok;
    hide Frames;
  }

  /** c maps what d maps below n, to frames of its own with equal flags and contents; above that, only the kernel. */
  ghost predicate CopiedAt(v: Vm, w: Vm, d: nat, c: nat, n: nat, data: nat) {
    && Layout(data) && d < |v.mem| && c < |w.mem| && n <= KERNPAGE
    && (forall m {:trigger At(w, c, m)} :: 0 <= m < n ==>
          && At(v, d, m).Mapped? && At(w, c, m).Mapped?
          && At(w, c, m).flags == At(v, d, m).flags && At(w, c, m).page == At(v, d, m).page)
    && (forall m {:trigger At(w, c, m)} :: n <= m < PAGES ==> At(w, c, m) == KernelMap(data, 4, m))
  }

  /** A frame that was free during the copy was free before it, or belonged to no one else. */
  lemma FreshFrame(v: Vm, u: Vm, c: nat, f: nat)
    requires Step(v, u, c, {}) && c !in v.owner && f !in u.owner
    ensures f !in v.owner
  {
    hide Frames;
    hide Users;
    forall g | g in v.owner ensures !Of(v.owner[g], c) {
      if v.owner[g].User? {
        OwnerOfUser(v, g);
      }
    }
  }

  lemma OwnerOfUser(v: Vm, g: nat)
    requires Ok(v) && g in v.owner && v.owner[g].User?
    ensures IsDir(v, v.owner[g].dir)
  {
  }

  lemma CopyStarts(v: Vm, w: Vm, d: nat, c: nat, data: nat)
    requires d < |v.mem| && KernelAt(w, c, data, 4)
    ensures CopiedAt(v, w, d, c, 0, data)
  {
    hide At;
  }

  /** The next page of the child is not mapped yet. */
  lemma CopyNext(v: Vm, w: Vm, d: nat, c: nat, n: nat, data: nat)
    requires CopiedAt(v, w, d, c, n, data) && n < KERNPAGE
    ensures At(w, c, n) == Unmapped
  {
    KernelMapMeaning(data, n);
  }

  lemma CopyTurn(v: Vm, u: Vm, w: Vm, d: nat, c: nat, n: nat, data: nat, f: nat, perm: nat)
    requires CopiedAt(v, u, d, c, n, data) && n < KERNPAGE && At(v, d, n).Mapped? && perm == At(v, d, n).flags
    requires perm < 4096
    requires OnlyAt(u, w, c, n, Mapped(f, FlagsOf(Entry(f, perm)), At(v, d, n).page))
    ensures CopiedAt(v, w, d, c, n + 1, data)
  {
    hide At;
    hide KernelMap;
    hide FlagsOf;
    hide Entry;
    FlagsPresent(v, d, n);
    EntryFlags(f, perm);
    assert At(w, c, n) == Mapped(f, perm, At(v, d, n).page);
    forall m | 0 <= m < n ensures At(w, c, m) == At(u, c, m) && At(v, d, m).Mapped? {
    }
    forall m | n < m < PAGES ensures At(w, c, m) == KernelMap(data, 4, m) {
      assert At(u, c, m) == KernelMap(data, 4, m);
    }
  }

  lemma EntryFlags(f: nat, perm: nat)
    requires perm < 4096 && Present(perm)
    ensures FlagsOf(Entry(f, perm)) == perm
  {
  }

  lemma FlagsPresent(v: Vm, d: nat, n: nat)
    requires d < |v.mem| && n < PAGES && At(v, d, n).Mapped?
    ensures Present(At(v, d, n).flags) && At(v, d, n).flags < 4096
  {
    var e := Look(v, d, n);
    assert e % 4096 % 2 == e % 2;
  }

  /** The parent's entry, read in the middle of the copy. */
  lemma ParentEntry(v: Vm, w: Vm, d: nat, c: nat, n: nat)
    requires Step(v, w, c, {}) && IsDir(v, d) && c !in v.owner && n < KERNPAGE && At(v, d, n).Mapped?
    ensures IsDir(w, d) && At(w, d, n) == At(v, d, n)
    ensures var e := Look(w, d, n);
      && HasTable(w, d, n) && e == w.mem[TableFor(w, d, n)][n % ENTRIES] && Present(e) && FrameOf(e) < |w.mem|
      && FlagsOf(e) == At(v, d, n).flags && w.mem[FrameOf(e)] == At(v, d, n).page
  {
    StepIsolates(v, w, c, {}, d);
    assert At(w, d, n) == At(v, d, n);
    assert Present(Look(w, d, n));
  }

  // ------------------------------------------------------------------ how many frames an operation takes

  /** The page tables that pages n to m - 1 of d need and do not have. */
  ghost function Absent(v: Vm, d: nat, n: nat, m: nat): (r: set<nat>)
    requires d < |v.mem|
  {
    set p | 0 <= p < ENTRIES && n < m && n / ENTRIES <= p <= (m - 1) / ENTRIES && !Present(Pde(v, d, p))
  }

  /** Going from v to w took a frame for each of the page tables ps of d, and k more. */
  ghost predicate Spent(v: Vm, w: Vm, d: nat, ps: set<nat>, k: nat) {
    && d < |v.mem| && d < |w.mem| && |v.free| == |w.free| + |ps| + k
    && forall p {:trigger Pde(w, d, p)} :: 0 <= p < ENTRIES ==>
         (Present(Pde(w, d, p)) <==> Present(Pde(v, d, p)) || p in ps)
  }

  lemma AbsentOne(v: Vm, d: nat, n: nat)
    requires d < |v.mem| && n < PAGES
    ensures Absent(v, d, n, n + 1) == if Present(Pde(v, d, n / ENTRIES)) then {} else {n / ENTRIES}
  {
  }

  /** The tables for one page more. */
  lemma AbsentMore(u: Vm, v: Vm, d: nat, a: nat, n: nat, k: nat)
    requires d < |u.mem| && Spent(u, v, d, Absent(u, d, a, n), k) && a <= n < PAGES
    ensures Absent(u, d, a, n) !! Absent(v, d, n, n + 1)
    ensures Absent(u, d, a, n + 1) == Absent(u, d, a, n) + Absent(v, d, n, n + 1)
  {
    AbsentOne(v, d, n);
    forall p | 0 <= p < ENTRIES
      ensures p in Absent(u, d, a, n + 1) <==> p in Absent(u, d, a, n) || p in Absent(v, d, n, n + 1)
    {
      assert Present(Pde(v, d, p)) <==> Present(Pde(u, d, p)) || p in Absent(u, d, a, n);
    }
  }

  lemma SpentMore(u: Vm, v: Vm, w: Vm, d: nat, a: nat, n: nat, k: nat, j: nat)
    requires d < |u.mem| && Spent(u, v, d, Absent(u, d, a, n), k) && a <= n < PAGES
    requires Spent(v, w, d, Absent(v, d, n, n + 1), j)
    ensures Spent(u, w, d, Absent(u, d, a, n + 1), k + j)
  {
    hide Absent;
    AbsentMore(u, v, d, a, n, k);
    forall p | 0 <= p < ENTRIES
      ensures Present(Pde(w, d, p)) <==> Present(Pde(u, d, p)) || p in Absent(u, d, a, n + 1)
    {
      assert Present(Pde(v, d, p)) <==> Present(Pde(u, d, p)) || p in Absent(u, d, a, n);
    }
  }

  /** When the frames left are too few for the next page, those at the start were too few for all pages. */
  lemma SpentShort(u: Vm, v: Vm, d: nat, a: nat, n: nat, b: nat, k: nat, j: nat)
    requires d < |u.mem| && Spent(u, v, d, Absent(u, d, a, n), k) && a <= n < b <= PAGES
    requires |v.free| < |Absent(v, d, n, n + 1)| + j
    ensures |u.free| < |Absent(u, d, a, b)| + k + j
  {
    AbsentMore(u, v, d, a, n, k);
    assert Absent(u, d, a, n + 1) <= Absent(u, d, a, b);
    SubsetSize(Absent(u, d, a, n + 1), Absent(u, d, a, b));
  }

  lemma SpentStays(u: Vm, v: Vm, w: Vm, d: nat, ps: set<nat>, k: nat)
    requires Spent(u, v, d, ps, k) && d < |w.mem| && w.free == v.free && w.mem[d] == v.mem[d]
    ensures Spent(u, w, d, ps, k)
  {
    forall p | 0 <= p < ENTRIES ensures Present(Pde(w, d, p)) <==> Present(Pde(u, d, p)) || p in ps {
      assert Present(Pde(v, d, p)) <==> Present(Pde(u, d, p)) || p in ps;
    }
  }

  lemma SpentNothing(v: Vm, d: nat, n: nat)
    requires d < |v.mem|
    ensures Spent(v, v, d, Absent(v, d, n, n), 0)
  {
  }

  /** The page tables that pages n to n + k - 1 lie in. */
  function TablesOf(n: nat, k: nat): (r: set<nat>)
    requires n + k <= PAGES
  {
    if k == 0 then {} else Interval(n / ENTRIES, (n + k - 1) / ENTRIES - n / ENTRIES + 1)
  }

  /** The page tables of the first k kernel regions. */
  function KernelTables(data: nat, k: nat): (r: set<nat>)
    requires Layout(data) && k <= 4
  {
    if k == 0 then {}
    else
      var g := Kmap(data)[k - 1];
      RegionFits(data, k - 1, 0);
      KernelTables(data, k - 1) + TablesOf(g.virt / PGSIZE, Span(g.virt, Size(g)))
  }

  /** Frames for the kernel part of an address space: the directory, 56 tables for physical memory and 8 for devices. */
  const KERNFRAMES: nat := 65

  lemma KernelTablesNone(data: nat)
    requires Layout(data)
    ensures KernelTables(data, 0) == {}
  {
  }

  lemma {:induction false} IntervalSize(f: nat, k: nat)
    ensures |Interval(f, k)| == k
  {
    if k > 0 {
      IntervalSize(f, k - 1);
    }
  }

  lemma {:induction false} KernelTablesSize(data: nat)
    requires Layout(data)
    ensures KernelTables(data, 4) == Interval(512, 56) + Interval(1016, 8)
    ensures 1 + |KernelTables(data, 4)| == KERNFRAMES
  {
    hide Interval;
    RegionTables(data);
    assert KernelTables(data, 1) == {512} && KernelTables(data, 4) == KernelTables(data, 3) + Interval(1016, 8);
    forall p | 0 <= p < ENTRIES ensures p in KernelTables(data, 3) <==> p in Interval(512, 56) {
    }
    assert KernelTables(data, 3) == Interval(512, 56);
    IntervalSize(512, 56);
    IntervalSize(1016, 8);
    assert Interval(512, 56) !! Interval(1016, 8);
  }

  lemma {:induction false} RegionTables(data: nat)
    requires Layout(data)
    ensures KernelTables(data, 1) == {512}
    ensures KernelTables(data, 2) == KernelTables(data, 1) + Interval(512, (data - 1) / ENTRIES - 511)
    ensures KernelTables(data, 3) == KernelTables(data, 2) + Interval(data / ENTRIES, 568 - data / ENTRIES)
    ensures KernelTables(data, 4) == KernelTables(data, 3) + Interval(1016, 8)
  {
    hide Interval;
    assert KernelTables(data, 0) == {};
    var k := Kmap(data);
    assert k[0].virt / PGSIZE == 524288 && Span(k[0].virt, Size(k[0])) == 256;
    assert k[1].virt / PGSIZE == 524544 && Span(k[1].virt, Size(k[1])) == data - 524544;
    assert k[2].virt / PGSIZE == data && Span(k[2].virt, Size(k[2])) == 581632 - data;
    assert k[3].virt / PGSIZE == 1040384 && Span(k[3].virt, Size(k[3])) == 8192;
  }

  /** One region more. */
  lemma RegionSpent(e: Vm, v: Vm, w: Vm, d: nat, data: nat, k: nat)
    requires Layout(data) && k < 4 && Spent(e, v, d, KernelTables(data, k), 0)
    requires forall p :: 0 <= p < ENTRIES ==> !Present(Pde(e, d, p))
    requires var g := Kmap(data)[k];
      && 0 < Size(g)
      && Spent(v, w, d, Absent(v, d, g.virt / PGSIZE, g.virt / PGSIZE + Span(g.virt, Size(g))), 0)
    ensures Spent(e, w, d, KernelTables(data, k + 1), 0)
  {
    hide Kmap; hide Size;
    RegionAbsent(e, v, d, data, k);
    forall p | 0 <= p < ENTRIES ensures Present(Pde(w, d, p)) <==> p in KernelTables(data, k + 1) {
      assert Present(Pde(v, d, p)) <==> p in KernelTables(data, k);
    }
  }

  lemma RegionAbsent(e: Vm, v: Vm, d: nat, data: nat, k: nat)
    requires Layout(data) && k < 4 && Spent(e, v, d, KernelTables(data, k), 0)
    requires forall p :: 0 <= p < ENTRIES ==> !Present(Pde(e, d, p))
    ensures var g := Kmap(data)[k];
      && 0 < Size(g)
      && var ps := Absent(v, d, g.virt / PGSIZE, g.virt / PGSIZE + Span(g.virt, Size(g)));
         KernelTables(data, k + 1) == KernelTables(data, k) + ps && KernelTables(data, k) !! ps
  {
    hide Kmap; hide Size; hide Span;
    RegionFits(data, k, 0);
    var g := Kmap(data)[k];
    var n, m := g.virt / PGSIZE, Span(g.virt, Size(g));
    forall p | 0 <= p < ENTRIES
      ensures p in Absent(v, d, n, n + m) <==> p in TablesOf(n, m) && p !in KernelTables(data, k)
    {
      assert Present(Pde(v, d, p)) <==> p in KernelTables(data, k);
    }
  }

  lemma {:induction false} KernelTablesGrow(data: nat, k: nat)
    requires Layout(data) && k <= 4
    ensures KernelTables(data, k) <= KernelTables(data, 4)
    decreases 4 - k
  {
    if k < 4 {
      KernelTablesGrow(data, k + 1);
    }
  }

  lemma RegionShort(e: Vm, v: Vm, d: nat, data: nat, k: nat)
    requires Layout(data) && k < 4 && Spent(e, v, d, KernelTables(data, k), 0)
    requires forall p :: 0 <= p < ENTRIES ==> !Present(Pde(e, d, p))
    requires var g := Kmap(data)[k];
      && 0 < Size(g)
      && |v.free| < |Absent(v, d, g.virt / PGSIZE, g.virt / PGSIZE + Span(g.virt, Size(g)))|
    ensures |e.free| + 1 < KERNFRAMES
  {
    hide Kmap; hide Size; hide Span; hide Absent; hide Interval;
    RegionAbsent(e, v, d, data, k);
    KernelTablesGrow(data, k + 1);
    SubsetSize(KernelTables(data, k + 1), KernelTables(data, 4));
    KernelTablesSize(data);
  }

  /** Page tables for n user pages. */
  function UserTables(n: nat): (r: nat) {
    (n + ENTRIES - 1) / ENTRIES
  }

  /** With only the kernel mapped, user pages need all their tables. */
  lemma UserAbsent(v: Vm, d: nat, data: nat, n: nat)
    requires Layout(data) && d < |v.mem| && n <= KERNPAGE
    requires forall p {:trigger Pde(v, d, p)} :: 0 <= p < ENTRIES ==>
      (Present(Pde(v, d, p)) <==> p in KernelTables(data, 4))
    ensures |Absent(v, d, 0, n)| == UserTables(n)
  {
    hide KernelTables; hide Interval;
    KernelTablesSize(data);
    IntervalSize(0, UserTables(n));
    forall p | 0 <= p < ENTRIES ensures p in Absent(v, d, 0, n) <==> p in Interval(0, UserTables(n)) {
      assert Present(Pde(v, d, p)) <==> p in KernelTables(data, 4);
    }
    assert Absent(v, d, 0, n) == Interval(0, UserTables(n));
  }

  // ------------------------------------------------------------------ boot

  /** Frames p to total - 1, in no one's page table. */
  function HeldFrom(p: nat, total: nat): (r: map<nat, Role>)
    requires p <= total
  {
    var s := Interval(p, total - p);
    map f | f in s :: Misc
  }

  /** Frames first to p - 1 are free, the others not yet. */
  ghost predicate Booting(v: Vm, first: nat, p: nat, total: nat) {
    && first <= p <= total && |v.mem| == total && Ok(v) && v.owner == HeldFrom(p, total)
    && forall f :: f in v.free <==> f in Interval(first, p - first)
  }

  lemma BootTurn(v: Vm, w: Vm, first: nat, p: nat, total: nat)
    requires p < total && Booting(v, first, p, total) && w == Given(Filled(v, p, Junk()), p)
    ensures Booting(w, first, p + 1, total)
  {
    hide Ok;
    FilledOk(v, p, Junk());
    GivenOk(Filled(v, p, Junk()), p);
    assert w.owner == HeldFrom(p + 1, total);
    assert forall f :: f in w.free <==> f == p || f in v.free;
  }

  class Machine {
    const data: nat               // first virtual page of the kernel's data
    var mem: seq<Page>
    var free: seq<nat>            // the free list, head first
    ghost var owner: map<nat, Role>

    ghost function V(): (r: Vm)
      reads this
    {
      Vm(mem, free, owner)
    }

    /** kinit and freerange: the frames from `first` to the end of memory go on the free list. */
    constructor (total: nat, first: nat, data: nat)
      requires 0 < first <= total && Layout(data)
      ensures this.data == data && Booting(V(), first, total, total)
    {
      this.data := data;
      mem := seq(total, i => ZeroPage());
      free := [];
      owner := HeldFrom(first, total);
      new;
      var p := first;
      while p < total
        invariant first <= p <= total && Booting(V(), first, p, total)
      {
        ghost var v := V();
        Kfree(p);
        BootTurn(v, V(), first, p, total);
        p := p + 1;
      }
    }

    method Kalloc() returns (f: nat)
      requires Ok(V())
      modifies this`free, this`owner
      ensures old(free) == [] ==> f == 0 && V() == old(V())
      ensures old(free) != [] ==> f == old(free)[0] && V() == Taken(old(V()))
      ensures old(free) != [] ==> free == old(free)[1..] && mem == old(mem)
    {
      if free == [] {
        return 0;
      }
      f := free[0];
      free := free[1..];
      owner := owner[f := Misc];
    }

    /** The frame is filled with junk and becomes the head of the free list. */
    method Kfree(f: nat)
      requires Partition(V()) && f in owner
      modifies this
      ensures f < |old(mem)| && V() == Given(Filled(old(V()), f, Junk()), f)
      ensures free == [f] + old(free) && |mem| == |old(mem)|
      ensures forall i :: 0 <= i < ENTRIES ==> mem[f][i] == 0x0101_0101
      ensures forall g :: 0 <= g < |mem| && g != f ==> mem[g] == old(mem)[g]
    {
      mem := mem[f := Junk()];
      free := [f] + free;
      owner := owner - {f};
    }

    /** memset or memmove of a whole page. */
    method Fill(f: nat, page: Page)
      requires f < |mem|
      modifies this`mem
      ensures V() == Filled(old(V()), f, page)
    {
      mem := mem[f := page];
    }

    /** The page table that holds the entry of page n, or 0. */
    method Walkpgdir(d: nat, n: nat, alloc: bool) returns (t: nat)
      requires Ok(V()) && IsDir(V(), d) && n < PAGES
      modifies this
      ensures Step(old(V()), V(), d, {}) && IsDir(V(), d) && SameAt(old(V()), V(), d)
      ensures t == 0 ==> !Present(Pde(V(), d, n / ENTRIES)) && (!alloc || free == [])
      ensures t != 0 ==> HasTable(V(), d, n) && t == TableFor(V(), d, n)
      ensures !alloc || t == 0 ==> V() == old(V())
      ensures t != 0 ==> Spent(old(V()), V(), d, if alloc then Absent(old(V()), d, n, n + 1) else {}, 0)
    {
      AbsentOne(V(), d, n);
      var pde := mem[d][n / ENTRIES];
      if Present(pde) {
        assert pde == Pde(V(), d, n / ENTRIES);
        return FrameOf(pde);
      }
      if !alloc || free == [] {
        return 0;
      }
      t := AddTable(d, n / ENTRIES);
    }

    method AddTable(d: nat, p: nat) returns (t: nat)
      requires Ok(V()) && IsDir(V(), d) && p < ENTRIES && !Present(Pde(V(), d, p)) && free != []
      modifies this
      ensures Step(old(V()), V(), d, {}) && IsDir(V(), d) && SameAt(old(V()), V(), d)
      ensures t != 0 && t < |mem| && Present(Pde(V(), d, p)) && FrameOf(Pde(V(), d, p)) == t
      ensures Spent(old(V()), V(), d, {p}, 0)
    {
      hide Ok;
      hide Frames;
      TakenStep(V(), d);
      t := Kalloc();
      FilledStep(V(), d, t, ZeroPage());
      StepTrans(old(V()), V(), Filled(V(), t, ZeroPage()), d, {t});
      Fill(t, ZeroPage());
      TableStep(V(), d, p, t);
      StepTrans(old(V()), V(), AddedTable(V(), d, p, t), d, {t});
      mem := mem[d := PutEntry(mem[d], p, Entry(t, PTE_P + PTE_W + PTE_U))];
      owner := owner[t := Table(d, p)];
      StepClose(old(V()), V(), d, t);
    }

    /** One turn of mappages: page n mapped to frame f. Fails only when a page table is needed and there is no frame. */
    method MapOne(d: nat, n: nat, f: nat, perm: nat) returns (ok: bool)
      requires Ok(V()) && IsDir(V(), d) && n < PAGES && perm < 4096 && At(V(), d, n) == Unmapped
      requires n < KERNPAGE ==> f in owner && owner[f] == Misc
      modifies this
      ensures Step(old(V()), V(), d, Handed(n, f, 1)) && IsDir(V(), d)
      ensures ok ==> OnlyAt(old(V()), V(), d, n, MappedAs(old(V()), n, f, perm))
      ensures ok && n < KERNPAGE ==> f in owner && owner[f] == User(d, n)
      ensures !ok ==> V() == old(V()) && free == []
      ensures if ok then Spent(old(V()), V(), d, Absent(old(V()), d, n, n + 1), 0)
              else |Absent(old(V()), d, n, n + 1)| > |old(free)|
    {
      hide Ok;
      hide Frames;
      hide Spent;
      AbsentOne(V(), d, n);
      var t := Walkpgdir(d, n, true);
      ghost var v := V();
      StepWiden(old(V()), v, d, {}, Handed(n, f, 1));
      if t == 0 {
        return false;
      }
      Store(d, n, t, f, perm);
      StepTrans(old(V()), v, V(), d, Handed(n, f, 1));
      SpentStays(old(V()), v, V(), d, Absent(old(V()), d, n, n + 1), 0);
      ok := true;
    }

    method Store(d: nat, n: nat, t: nat, f: nat, perm: nat)
      requires Ok(V()) && IsDir(V(), d) && n < PAGES && perm < 4096 && At(V(), d, n) == Unmapped
      requires HasTable(V(), d, n) && t == TableFor(V(), d, n)
      requires n < KERNPAGE ==> f in owner && owner[f] == Misc
      modifies this
      ensures Step(old(V()), V(), d, Handed(n, f, 1)) && IsDir(V(), d)
      ensures OnlyAt(old(V()), V(), d, n, MappedAs(old(V()), n, f, perm))
      ensures n < KERNPAGE ==> f in owner && owner[f] == User(d, n)
      ensures free == old(free) && mem[d] == old(mem)[d]
    {
      assert owner[t] == Table(d, n / ENTRIES);
      if n < KERNPAGE {
        MapStep(V(), d, n, f, perm);
      } else {
        KernelStep(V(), d, n, f, perm);
      }
      mem := mem[t := PutEntry(mem[t], n % ENTRIES, Entry(f, perm))];
      if n < KERNPAGE {
        owner := owner[f := User(d, n)];
        StepWiden(old(V()), V(), d, {f}, Handed(n, f, 1));
      }
    }

    /** The loop of mappages, from page n0 to page n0 + k - 1. */
    method MapRange(d: nat, n0: nat, k: nat, f0: nat, perm: nat) returns (ok: bool, ghost done: nat)
      requires Ok(V()) && IsDir(V(), d) && perm < 4096 && 0 < k && FreeRange(V(), d, n0, k)
      requires KERNPAGE <= n0 || (n0 + k <= KERNPAGE && Held(V(), f0, k))
      modifies this
      ensures Step(old(V()), V(), d, Handed(n0, f0, done)) && IsDir(V(), d)
      ensures RangeAt(old(V()), V(), d, n0, done, f0, perm)
      ensures if ok then done == k else done < k && free == []
      ensures ok <==> |Absent(old(V()), d, n0, n0 + k)| <= |old(free)|
      ensures ok ==> Spent(old(V()), V(), d, Absent(old(V()), d, n0, n0 + k), 0)
    {
      hide Ok;
      hide Frames;
      hide At;
      hide MappedAs;
      hide RangeAt;
      hide Step;
      hide Absent;
      SpentNothing(V(), d, n0);
      var n, f := n0, f0;
      done := 0;
      MapStarts(V(), d, n0, f0, perm);
      while true
        invariant done < k && n == n0 + done && f == f0 + done
        invariant Step(old(V()), V(), d, Handed(n0, f0, done)) && Ok(V()) && IsDir(V(), d)
        invariant RangeAt(old(V()), V(), d, n0, done, f0, perm)
        invariant Spent(old(V()), V(), d, Absent(old(V()), d, n0, n), 0)
        decreases n0 + k - n
      {
        ghost var v := V();
        MapNext(old(V()), v, d, n0, done, k, f0, perm);
        ok := MapOne(d, n, f, perm);
        if !ok {
          SpentShort(old(V()), v, d, n0, n, n0 + k, 0, 0);
          return;
        }
        SpentMore(old(V()), v, V(), d, n0, n, 0, 0);
        MapTurn(old(V()), v, V(), d, n0, done, k, f0, perm);
        done := done + 1;
        if n == n0 + k - 1 {
          return;
        }
        n, f := n + 1, f + 1;
      }
    }

    /** Maps the pages that [va, va + size) touches to consecutive frames from pa. On failure the first `done` are
        mapped. */
    method Mappages(d: nat, va: nat, size: nat, pa: nat, perm: nat) returns (ok: bool, ghost done: nat)
      requires Ok(V()) && IsDir(V(), d) && perm < 4096
      requires 0 < size && va + size <= WORDS && pa % PGSIZE == 0
      requires FreeRange(V(), d, va / PGSIZE, Span(va, size))
      requires KERNBASE <= va || (va + size <= KERNBASE && Held(V(), pa / PGSIZE, Span(va, size)))
      modifies this
      ensures Step(old(V()), V(), d, Handed(va / PGSIZE, pa / PGSIZE, done)) && IsDir(V(), d)
      ensures RangeAt(old(V()), V(), d, va / PGSIZE, done, pa / PGSIZE, perm)
      ensures if ok then done == Span(va, size) else done < Span(va, size) && free == []
      ensures var n := va / PGSIZE; var k := Span(va, size);
        && (ok <==> |Absent(old(V()), d, n, n + k)| <= |old(free)|)
        && (ok ==> Spent(old(V()), V(), d, Absent(old(V()), d, n, n + k), 0))
    {
      hide Ok;
      hide Step;
      hide RangeAt;
      hide Held;
      ok, done := MapRange(d, va / PGSIZE, (va + size - 1) / PGSIZE - va / PGSIZE + 1, pa / PGSIZE, perm);
    }

    method FreePage(d: nat, n: nat, t: nat)
      requires Ok(V()) && IsDir(V(), d) && n < KERNPAGE && Present(Look(V(), d, n))
      requires HasTable(V(), d, n) && t == TableFor(V(), d, n)
      modifies this
      ensures Step(old(V()), V(), d, {}) && IsDir(V(), d) && OnlyAt(old(V()), V(), d, n, Unmapped)
    {
      var f := FrameOf(mem[t][n % ENTRIES]);
      assert owner[f] == User(d, n) && owner[t] == Table(d, n / ENTRIES);
      Kfree(f);
      mem := mem[t := PutEntry(mem[t], n % ENTRIES, 0)];
      ghost var w := Given(Filled(Remapped(old(V()), d, n, 0, f, Misc), f, Junk()), f);
      assert V() == w by {
        assert mem == w.mem;
        assert owner == w.owner;
      }
      FreePageStep(old(V()), V(), d, n);
    }

    /** Unmaps and frees every page from newsz up to oldsz. */
    method Deallocuvm(d: nat, oldsz: nat, newsz: nat) returns (r: nat)
      requires Ok(V()) && IsDir(V(), d) && oldsz <= KERNBASE
      modifies this
      ensures Step(old(V()), V(), d, {}) && IsDir(V(), d)
      ensures ClearedAt(old(V()), V(), d, RoundUp(newsz), RoundUp(oldsz), RoundUp(oldsz))
      ensures r == if newsz >= oldsz then oldsz else newsz
    {
      hide Ok;
      hide Frames;
      hide At;
      hide Elsewhere;
      hide KeepsTables;
      StepRefl(V(), d);
      if newsz >= oldsz {
        return oldsz;
      }
      var n := RoundUp(newsz);
      while n * PGSIZE < oldsz
        invariant RoundUp(newsz) <= n <= KERNPAGE
        invariant Step(old(V()), V(), d, {}) && IsDir(V(), d)
        invariant ClearedAt(old(V()), V(), d, RoundUp(newsz), n, RoundUp(oldsz))
        decreases KERNPAGE - n
      {
        ghost var v := V();
        var t := Walkpgdir(d, n, false);
        if t == 0 {
          JumpClears(old(V()), v, d, RoundUp(newsz), n, RoundUp(oldsz));
          n := (n / ENTRIES + 1) * ENTRIES - 1;
        } else {
          ClearOne(d, n, t);
          StepTrans(old(V()), v, V(), d, {});
          ClearTurn(old(V()), v, V(), d, RoundUp(newsz), n, RoundUp(oldsz));
        }
        n := n + 1;
      }
      return newsz;
    }

    method ClearOne(d: nat, n: nat, t: nat)
      requires Ok(V()) && IsDir(V(), d) && n < KERNPAGE
      requires HasTable(V(), d, n) && t == TableFor(V(), d, n)
      modifies this
      ensures Step(old(V()), V(), d, {}) && IsDir(V(), d)
      ensures if V() == old(V()) then At(V(), d, n) == Unmapped else OnlyAt(old(V()), V(), d, n, Unmapped)
    {
      hide Ok;
      hide Frames;
      StepRefl(V(), d);
      if Present(mem[t][n % ENTRIES]) {
        assert mem[t][n % ENTRIES] == Look(V(), d, n);
        FreePage(d, n, t);
      }
    }

    /** kalloc, and memset or memmove: a frame with the given contents, held. */
    method FrameWith(page: Page, ghost d: nat) returns (f: nat)
      requires Ok(V()) && IsDir(V(), d)
      modifies this
      ensures f == 0 ==> V() == old(V()) && free == []
      ensures f != 0 ==> Step(old(V()), V(), d, {f}) && IsDir(V(), d) && SameAt(old(V()), V(), d)
      ensures f != 0 ==> f !in old(V()).owner && f in owner && owner[f] == Misc && f < |mem| && mem[f] == page
      ensures f != 0 ==> Spent(old(V()), V(), d, {}, 1)
    {
      hide Ok;
      hide Frames;
      if free != [] {
        TakenStep(V(), d);
      }
      f := Kalloc();
      if f != 0 {
        FilledStep(V(), d, f, page);
        StepTrans(old(V()), V(), Filled(V(), f, page), d, {f});
        Fill(f, page);
      }
    }

    /** Page n mapped to a new frame with the given contents. When it fails, the frame it holds, if any, is returned. */
    method GrowOne(d: nat, n: nat, page: Page, perm: nat) returns (ok: bool, f: nat)
      requires Ok(V()) && IsDir(V(), d) && n < KERNPAGE && At(V(), d, n) == Unmapped && perm < 4096
      modifies this
      ensures IsDir(V(), d)
      ensures ok ==> Step(old(V()), V(), d, {})
      ensures ok ==> OnlyAt(old(V()), V(), d, n, Mapped(f, FlagsOf(Entry(f, perm)), page))
      ensures !ok && f == 0 ==> V() == old(V())
      ensures !ok && f != 0 ==> Step(old(V()), V(), d, {f}) && SameAt(old(V()), V(), d)
      ensures !ok && f != 0 ==> f !in old(V()).owner && f in owner && owner[f] == Misc
      ensures if ok then Spent(old(V()), V(), d, Absent(old(V()), d, n, n + 1), 1)
              else |old(free)| < |Absent(old(V()), d, n, n + 1)| + 1
    {
      hide Ok;
      hide Frames;
      hide Elsewhere;
      hide KeepsTables;
      hide At;
      f := FrameWith(page, d);
      ghost var v := V();
      ok := false;
      if f != 0 {
        ghost var done;
        ok, done := Mappages(d, n * PGSIZE, PGSIZE, f * PGSIZE, perm);
        GrowOneDone(old(V()), v, V(), d, n, f, perm, done);
        AbsentOne(old(V()), d, n);
        AbsentOne(v, d, n);
      }
    }

    /** Gives back the frame a failed turn held. */
    method Return(d: nat, f: nat, ghost u: Vm)
      requires Step(u, V(), d, {f}) && IsDir(V(), d) && f !in u.owner && f in owner && owner[f] == Misc
      modifies this
      ensures Step(u, V(), d, {}) && IsDir(V(), d) && SameAt(old(V()), V(), d)
    {
      hide Frames;
      hide Tables;
      hide Users;
      hide At;
      Kfree(f);
      GiveBack(old(V()), V(), d, f);
      StepTrans(u, old(V()), V(), d, {f});
      StepClose(u, V(), d, f);
    }

    /** Grows an address space to newsz. On failure it maps what it mapped before, and kept only empty page tables. */
    method Allocuvm(d: nat, oldsz: nat, newsz: nat) returns (r: nat)
      requires Ok(V()) && IsDir(V(), d)
      requires oldsz <= newsz < KERNBASE ==> FreeRange(V(), d, RoundUp(oldsz), RoundUp(newsz) - RoundUp(oldsz))
      modifies this
      ensures Step(old(V()), V(), d, {}) && IsDir(V(), d)
      ensures newsz >= KERNBASE ==> r == 0 && V() == old(V())
      ensures newsz < KERNBASE && newsz < oldsz ==> r == oldsz && V() == old(V())
      ensures oldsz <= newsz < KERNBASE ==> r == newsz || r == 0
      ensures oldsz <= newsz < KERNBASE ==> var a, b := RoundUp(oldsz), RoundUp(newsz);
        (r == newsz <==> b - a + |Absent(old(V()), d, a, b)| <= |old(free)|)
      ensures oldsz <= newsz < KERNBASE && r == newsz ==> GrownAt(old(V()), V(), d, RoundUp(oldsz), RoundUp(newsz))
      ensures oldsz <= newsz < KERNBASE && r != newsz ==> SameAt(old(V()), V(), d) && OnlyEmptyTables(old(V()), V(), d)
    {
      hide Ok;
      hide Frames;
      hide At;
      hide Elsewhere;
      hide KeepsTables;
      hide OnlyEmptyTables;
      hide Absent;
      StepRefl(V(), d);
      if newsz >= KERNBASE {
        return 0;
      }
      if newsz < oldsz {
        return oldsz;
      }
      var n := RoundUp(oldsz);
      SpentNothing(V(), d, n);
      while n * PGSIZE < newsz
        invariant RoundUp(oldsz) <= n <= RoundUp(newsz)
        invariant Step(old(V()), V(), d, {}) && IsDir(V(), d)
        invariant GrownAt(old(V()), V(), d, RoundUp(oldsz), n)
        invariant Spent(old(V()), V(), d, Absent(old(V()), d, RoundUp(oldsz), n), n - RoundUp(oldsz))
        decreases KERNPAGE - n
      {
        ghost var v := V();
        var ok, f := GrowOne(d, n, ZeroPage(), PTE_W + PTE_U);
        if !ok {
          SpentShort(old(V()), v, d, RoundUp(oldsz), n, RoundUp(newsz), n - RoundUp(oldsz), 1);
          Backout(d, oldsz, newsz, f, n, old(V()), v);
          GrowsOnlyTables(old(V()), V(), d);
          return 0;
        }
        StepTrans(old(V()), v, V(), d, {});
        GrowTurn(old(V()), v, V(), d, RoundUp(oldsz), n, f);
        SpentMore(old(V()), v, V(), d, RoundUp(oldsz), n, n - RoundUp(oldsz), 1);
        n := n + 1;
      }
      return newsz;
    }

    /** The error exits of allocuvm: unmap everything again, then free the frame in hand, if any. */
    method Backout(d: nat, oldsz: nat, newsz: nat, f: nat, ghost n: nat, ghost u: Vm, ghost v: Vm)
      requires Step(u, v, d, {}) && IsDir(u, d) && IsDir(v, d) && oldsz < newsz < KERNBASE
      requires RoundUp(oldsz) <= n <= RoundUp(newsz) && GrownAt(u, v, d, RoundUp(oldsz), n)
      requires FreeRange(u, d, RoundUp(oldsz), RoundUp(newsz) - RoundUp(oldsz))
      requires IsDir(V(), d)
      requires if f == 0 then V() == v else
        Step(v, V(), d, {f}) && SameAt(v, V(), d) && f !in v.owner && f in owner && owner[f] == Misc
      modifies this
      ensures Step(u, V(), d, {}) && IsDir(V(), d) && SameAt(u, V(), d)
    {
      hide Frames;
      hide Tables;
      hide Users;
      hide At;
      hide Elsewhere;
      hide KeepsTables;
      ghost var v1 := V();
      StepRefl(v1, d);
      assert GrownAt(u, v1, d, RoundUp(oldsz), n);
      var _ := Deallocuvm(d, newsz, oldsz);
      ghost var v2 := V();
      UndoGrow(u, v1, v2, d, RoundUp(oldsz), n, RoundUp(newsz));
      if f != 0 {
        StaysHeld(v1, v2, d, f);
        StepOpen(v1, v2, d, {f});
        StepTrans(v, v1, v2, d, {f});
        Return(d, f, v);
        StepTrans(u, v, V(), d, {});
      } else {
        StepTrans(u, v, v2, d, {});
      }
    }

    method Freevm(d: nat)
      requires Ok(V()) && IsDir(V(), d)
      modifies this
      ensures Freed(old(V()), V(), d)
    {
      hide Ok;
      hide Frames;
      hide Elsewhere;
      hide KeepsTables;
      hide Rest;
      hide Freed;
      hide At;
      var _ := Deallocuvm(d, KERNBASE, 0);
      ghost var v := V();
      StepSize(old(V()), v, d, {});
      assert UserFree(v, d);
      FreeingStarts(v, d);
      owner := Dropped(v, d).owner;
      for i := 0 to ENTRIES
        invariant Ok(V()) && Frames(V()) == Frames(v) && Freeing(v, V(), d, i)
      {
        ghost var u := V();
        FreeingNext(v, u, d, i);
        if Present(mem[d][i]) {
          PartitionOf(u, FrameOf(mem[d][i]));
          Kfree(FrameOf(mem[d][i]));
          FreeingTurn(v, u, V(), d, i);
        }
      }
      ghost var u := V();
      PartitionOf(v, d);
      FreeingLeavesDir(v, u, d);
      PartitionOf(u, d);
      Kfree(d);
      FreeingEnds(v, u, V(), d);
      FreedAfter(old(V()), v, V(), d);
    }

    /** A directory of zeroes, not yet in use. */
    method EmptyDir() returns (d: nat)
      requires Ok(V())
      modifies this
      ensures d == 0 ==> V() == old(V()) && free == []
      ensures d != 0 ==> Step(old(V()), V(), d, {}) && IsDir(V(), d) && d !in old(V()).owner
      ensures d != 0 ==> forall m {:trigger At(V(), d, m)} :: 0 <= m < PAGES ==> At(V(), d, m) == Unmapped
      ensures d != 0 ==>
        |old(free)| == |free| + 1 && forall p {:trigger Pde(V(), d, p)} :: 0 <= p < ENTRIES ==> !Present(Pde(V(), d, p))
    {
      hide Ok;
      hide Frames;
      if free != [] {
        TakenStep(V(), free[0]);
      }
      d := Kalloc();
      if d == 0 {
        return;
      }
      FilledStep(V(), d, d, ZeroPage());
      StepTrans(old(V()), V(), Filled(V(), d, ZeroPage()), d, {d});
      Fill(d, ZeroPage());
      StepSelf(old(V()), V(), d);
      NewDirStep(V(), d);
      StepTrans(old(V()), V(), MadeDir(V(), d), d, {});
      owner := owner[d := Dir];
    }

    /** A new address space with the kernel in it; or 0, exactly if fewer than KERNFRAMES frames are free, and every
        frame is back. */
    method Setupkvm() returns (d: nat)
      requires Ok(V()) && Layout(data)
      modifies this
      ensures d != 0 ==>
        Step(old(V()), V(), d, {}) && IsDir(V(), d) && d !in old(V()).owner && KernelAt(V(), d, data, 4)
      ensures d == 0 ==> Restored(old(V()), V())
      ensures d != 0 <==> |old(free)| >= KERNFRAMES
      ensures d != 0 ==> |old(free)| == |free| + KERNFRAMES
      ensures d != 0 ==> forall p {:trigger Pde(V(), d, p)} :: 0 <= p < ENTRIES ==>
        (Present(Pde(V(), d, p)) <==> p in KernelTables(data, 4))
    {
      hide Ok;
      hide Frames;
      hide At;
      hide Elsewhere;
      hide KeepsTables;
      hide KernelTables;
      hide Absent;
      hide Interval;
      hide Kmap;
      hide Size;
      d := EmptyDir();
      if d == 0 {
        return;
      }
      ghost var e := V();
      assert KernelTables(data, 0) == {} by { KernelTablesNone(data); }
      KernelTablesSize(data);
      var kmap := Kmap(data);
      for k := 0 to 4
        invariant Step(old(V()), V(), d, {}) && Ok(V()) && IsDir(V(), d) && KernelAt(V(), d, data, k)
        invariant Spent(e, V(), d, KernelTables(data, k), 0)
      {
        ghost var v := V();
        RegionNext(v, d, data, k);
        var ok, done := Mappages(d, kmap[k].virt, Size(kmap[k]), kmap[k].start, kmap[k].perm);
        StepTrans(old(V()), v, V(), d, {});
        if !ok {
          RegionShort(e, v, d, data, k);
          v := V();
          Freevm(d);
          NetZero(old(V()), v, V(), d);
          return 0;
        }
        RegionMapped(v, V(), d, data, k);
        RegionSpent(e, v, V(), d, data, k);
      }
    }

    /** A copy of the first sz bytes of an address space; or 0, exactly if the frames for the kernel part, the pages and
        their tables are not free, and every frame is back. */
    method Copyuvm(d: nat, sz: nat) returns (c: nat)
      requires Ok(V()) && Layout(data) && IsDir(V(), d) && sz <= KERNBASE
      requires forall m {:trigger At(V(), d, m)} :: 0 <= m < RoundUp(sz) ==> At(V(), d, m).Mapped?
      modifies this
      ensures c != 0 ==> Step(old(V()), V(), c, {}) && IsDir(V(), c) && c !in old(V()).owner
      ensures c != 0 ==> CopiedAt(old(V()), V(), d, c, RoundUp(sz), data)
      ensures c != 0 ==> IsDir(V(), d) && SameAt(old(V()), V(), d)
      ensures c == 0 ==> Restored(old(V()), V())
      ensures c != 0 <==> |old(free)| >= KERNFRAMES + RoundUp(sz) + UserTables(RoundUp(sz))
    {
      hide Ok;
      hide Frames;
      hide Absent;
      hide At;
      hide Look;
      hide Elsewhere;
      hide KeepsTables;
      hide Restored;
      c := Setupkvm();
      if c == 0 {
        return;
      }
      CopyStarts(old(V()), V(), d, c, data);
      ghost var k := V();
      SpentNothing(k, c, 0);
      UserAbsent(k, c, data, RoundUp(sz));
      var n := 0;
      while n * PGSIZE < sz
        invariant n <= RoundUp(sz) <= KERNPAGE
        invariant Step(old(V()), V(), c, {}) && Ok(V()) && IsDir(V(), c) && CopiedAt(old(V()), V(), d, c, n, data)
        invariant Spent(k, V(), c, Absent(k, c, 0, n), n)
        decreases KERNPAGE - n
      {
        ghost var u := V();
        ParentEntry(old(V()), V(), d, c, n);
        CopyNext(old(V()), V(), d, c, n, data);
        var ok, f := CopyOne(d, c, n, old(V()));
        if !ok {
          SpentShort(k, u, c, 0, n, RoundUp(sz), n, 1);
          Discard(c, f, old(V()));
          return 0;
        }
        SpentMore(k, u, V(), c, 0, n, n, 1);
        n := n + 1;
      }
      StepIsolates(old(V()), V(), c, {}, d);
    }

    /** One turn of copyuvm. When it fails, the frame it holds, if any, is returned. */
    method CopyOne(d: nat, c: nat, n: nat, ghost v: Vm) returns (ok: bool, f: nat)
      requires Step(v, V(), c, {}) && IsDir(v, d) && c !in v.owner && n < KERNPAGE && At(v, d, n).Mapped?
      requires Ok(V()) && IsDir(V(), c) && IsDir(V(), d) && CopiedAt(v, V(), d, c, n, data) && At(V(), c, n) == Unmapped
      modifies this
      ensures Ok(V()) && IsDir(V(), c)
      ensures ok ==> Step(v, V(), c, {}) && CopiedAt(v, V(), d, c, n + 1, data)
      ensures !ok && f == 0 ==> Step(v, V(), c, {})
      ensures !ok && f != 0 ==> Step(v, V(), c, {f}) && f !in v.owner && f in owner && owner[f] == Misc
      ensures if ok then Spent(old(V()), V(), c, Absent(old(V()), c, n, n + 1), 1)
              else |old(free)| < |Absent(old(V()), c, n, n + 1)| + 1
    {
      hide Absent;
      hide Spent;
      hide Ok;
      hide Frames;
      hide At;
      hide Elsewhere;
      hide KeepsTables;
      hide CopiedAt;
      ghost var u := V();
      ParentEntry(v, u, d, c, n);
      var t := Walkpgdir(d, n, false);
      assert V() == u;
      var e := mem[t][n % ENTRIES];
      FlagsPresent(v, d, n);
      ok, f := GrowOne(c, n, mem[FrameOf(e)], FlagsOf(e));
      if ok {
        StepTrans(v, u, V(), c, {});
        CopyTurn(v, u, V(), d, c, n, data, f, FlagsOf(e));
      } else if f != 0 {
        StepOpen(v, u, c, {f});
        StepTrans(v, u, V(), c, {f});
        FreshFrame(v, u, c, f);
      }
    }

    /** The error exit of copyuvm. */
    method Discard(c: nat, f: nat, ghost v: Vm)
      requires Ok(V()) && IsDir(V(), c) && c !in v.owner
      requires if f == 0 then Step(v, V(), c, {})
        else Step(v, V(), c, {f}) && f !in v.owner && f in owner && owner[f] == Misc
      modifies this
      ensures Restored(v, V())
    {
      hide Ok;
      hide Frames;
      hide At;
      hide Elsewhere;
      hide KeepsTables;
      hide Restored;
      hide Freed;
      if f != 0 {
        Return(c, f, v);
      }
      ghost var u := V();
      StepSize(v, u, c, {});
      Freevm(c);
      NetZero(v, u, V(), c);
    }
  }
}
