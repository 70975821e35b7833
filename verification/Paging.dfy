/** Page frames, the free list, and two-level page tables, as one value; and what single updates do to it.

    The value holds, beside physical memory, what each frame that is not free is used for. That makes
    "free frames and frames in page tables partition memory" a fact about one map. */
module Paging {
  const ENTRIES: nat := 1024          // entries in a page directory or page table
  const PAGES: nat := 1048576         // virtual pages
  const KERNPAGE: nat := 524288       // first virtual page of the kernel, KERNBASE / PGSIZE
  const PTE_P: nat := 1
  const PTE_W: nat := 2
  const PTE_U: nat := 4

  type Page = p: seq<nat> | |p| == ENTRIES witness seq(ENTRIES, i => 0)

  /** What a frame that is not free is used for. `Misc` is a frame someone holds outside any page table. */
  datatype Role = Dir | Table(dir: nat, pdx: nat) | User(dir: nat, vpn: nat) | Misc

  datatype Vm = Vm(mem: seq<Page>, free: seq<nat>, owner: map<nat, Role>)

  // ------------------------------------------------------------------ entries

  predicate Present(e: nat) {
    e % 2 == 1
  }

  function FrameOf(e: nat): (r: nat) {
    e / 4096
  }

  function FlagsOf(e: nat): (r: nat) {
    e % 4096
  }

  /** frame | flags, with the present bit. */
  function Entry(f: nat, flags: nat): (r: nat)
    requires flags < 4096
    ensures Present(r) && FrameOf(r) == f && FlagsOf(r) == flags + (if Present(flags) then 0 else 1)
  {
    f * 4096 + flags + if Present(flags) then 0 else 1
  }

  /** An entry is the frame number above twelve bits of flags. */
  lemma EntryParts(e: nat)
    ensures e == 4096 * FrameOf(e) + FlagsOf(e) && FlagsOf(e) < 4096
  {
  }

  // ------------------------------------------------------------------ page tables

  predicate IsDir(v: Vm, d: nat) {
    d in v.owner && v.owner[d] == Dir && d < |v.mem|
  }

  /** The page-directory entry for table index p. */
  function Pde(v: Vm, d: nat, p: nat): (r: nat)
    requires d < |v.mem| && p < ENTRIES
  {
    v.mem[d][p]
  }

  /** The entry of virtual page n, or 0 where there is no page table. */
  function Look(v: Vm, d: nat, n: nat): (r: nat)
    requires d < |v.mem| && n < PAGES
  {
    var e := Pde(v, d, n / ENTRIES);
    if Present(e) && FrameOf(e) < |v.mem| then v.mem[FrameOf(e)][n % ENTRIES] else 0
  }

  /** Every frame is free or has one role, and never both. */
  ghost predicate Partition(v: Vm) {
    && (forall i, j :: 0 <= i < j < |v.free| ==> v.free[i] != v.free[j])
    && (forall f :: f in v.free ==> 0 < f < |v.mem| && f !in v.owner)
    && (forall f :: f in v.owner ==> 0 < f < |v.mem|)
  }

  /** The page tables of a directory are its own. */
  ghost predicate Tables(v: Vm) {
    && (forall d, p {:trigger Pde(v, d, p)} :: IsDir(v, d) && 0 <= p < ENTRIES && Present(Pde(v, d, p)) ==>
          FrameOf(Pde(v, d, p)) in v.owner && v.owner[FrameOf(Pde(v, d, p))] == Table(d, p))
    && (forall t :: t in v.owner && v.owner[t].Table? ==>
          && IsDir(v, v.owner[t].dir) && v.owner[t].pdx < ENTRIES
          && Present(Pde(v, v.owner[t].dir, v.owner[t].pdx)) && FrameOf(Pde(v, v.owner[t].dir, v.owner[t].pdx)) == t)
  }

  /** The user pages mapped in a directory are its own. */
  ghost predicate Users(v: Vm) {
    && (forall d, n {:trigger Look(v, d, n)} :: IsDir(v, d) && 0 <= n < KERNPAGE && Present(Look(v, d, n)) ==>
          FrameOf(Look(v, d, n)) in v.owner && v.owner[FrameOf(Look(v, d, n))] == User(d, n))
    && (forall f :: f in v.owner && v.owner[f].User? ==>
          && IsDir(v, v.owner[f].dir) && v.owner[f].vpn < KERNPAGE
          && Present(Look(v, v.owner[f].dir, v.owner[f].vpn)) && FrameOf(Look(v, v.owner[f].dir, v.owner[f].vpn)) == f)
  }

  ghost predicate Ok(v: Vm) {
    Partition(v) && Tables(v) && Users(v)
  }

  /** All frames: conserved by everything below. */
  ghost function Frames(v: Vm): (r: set<nat>) {
    v.owner.Keys + (set f | f in v.free)
  }

  /** Directory d maps everything the same way in both. */
  ghost predicate SameMap(v: Vm, w: Vm, d: nat) {
    && d < |v.mem| && d < |w.mem|
    && forall n {:trigger Look(w, d, n)} :: 0 <= n < PAGES ==> Look(w, d, n) == Look(v, d, n)
  }

  // ------------------------------------------------------------------ frames in and out

  function Taken(v: Vm): (r: Vm)
    requires v.free != []
  {
    Vm(v.mem, v.free[1..], v.owner[v.free[0] := Misc])
  }

  function Filled(v: Vm, f: nat, page: Page): (r: Vm)
    requires f < |v.mem|
  {
    Vm(v.mem[f := page], v.free, v.owner)
  }

  function Given(v: Vm, f: nat): (r: Vm) {
    Vm(v.mem, [f] + v.free, v.owner - {f})
  }

  lemma TakenOk(v: Vm)
    requires Ok(v) && v.free != []
    ensures Ok(Taken(v)) && Frames(Taken(v)) == Frames(v)
    ensures forall d :: IsDir(v, d) <==> IsDir(Taken(v), d)
    ensures forall d :: IsDir(v, d) ==> SameMap(v, Taken(v), d)
  {
    var w := Taken(v);
    assert forall f :: f in v.free <==> f == v.free[0] || f in w.free;
    forall d | IsDir(w, d) ensures IsDir(v, d) {
    }
    forall d: nat, n | d < |v.mem| && 0 <= n < PAGES ensures Look(w, d, n) == Look(v, d, n) {
    }
    forall d: nat, p | d < |v.mem| && 0 <= p < ENTRIES ensures Pde(w, d, p) == Pde(v, d, p) {
    }
  }

  /** Writing a frame that is not a directory or a table changes no mapping. */
  lemma FilledOk(v: Vm, f: nat, page: Page)
    requires Ok(v) && f < |v.mem| && (f in v.owner ==> v.owner[f].Misc? || v.owner[f].User?)
    ensures Ok(Filled(v, f, page)) && Frames(Filled(v, f, page)) == Frames(v)
    ensures forall d :: IsDir(v, d) <==> IsDir(Filled(v, f, page), d)
    ensures forall d :: IsDir(v, d) ==> SameMap(v, Filled(v, f, page), d)
  {
    var w := Filled(v, f, page);
    forall d, p | IsDir(v, d) && 0 <= p < ENTRIES ensures Pde(w, d, p) == Pde(v, d, p) {
    }
    forall d, n | IsDir(v, d) && 0 <= n < PAGES ensures Look(w, d, n) == Look(v, d, n) {
      var e := Pde(v, d, n / ENTRIES);
      assert Present(e) ==> FrameOf(e) in v.owner;
    }
  }

  lemma GivenOk(v: Vm, f: nat)
    requires Ok(v) && f in v.owner && v.owner[f] == Misc
    ensures Ok(Given(v, f)) && Frames(Given(v, f)) == Frames(v)
    ensures forall d :: IsDir(v, d) <==> IsDir(Given(v, f), d)
    ensures forall d :: IsDir(v, d) ==> SameMap(v, Given(v, f), d)
  {
    var w := Given(v, f);
    assert forall g :: g in w.free <==> g == f || g in v.free;
    forall d: nat, p | d < |v.mem| && 0 <= p < ENTRIES ensures Pde(w, d, p) == Pde(v, d, p) {
    }
    forall d: nat, n | d < |v.mem| && 0 <= n < PAGES ensures Look(w, d, n) == Look(v, d, n) {
    }
  }

  // ------------------------------------------------------------------ page tables in and out

  function ZeroPage(): (r: Page)
    ensures forall i :: 0 <= i < ENTRIES ==> r[i] == 0
  {
    seq(ENTRIES, i => 0)
  }

  function PutEntry(p: Page, i: nat, e: nat): (r: Page)
    requires i < ENTRIES
  {
    p[i := e]
  }

  /** A held, zeroed frame becomes a directory that maps nothing. */
  function MadeDir(v: Vm, d: nat): (r: Vm) {
    Vm(v.mem, v.free, v.owner[d := Dir])
  }

  lemma MadeDirOk(v: Vm, d: nat)
    requires Ok(v) && d in v.owner && v.owner[d] == Misc && v.mem[d] == ZeroPage()
    ensures Ok(MadeDir(v, d)) && Frames(MadeDir(v, d)) == Frames(v) && IsDir(MadeDir(v, d), d)
    ensures forall n {:trigger Look(MadeDir(v, d), d, n)} :: 0 <= n < PAGES ==> Look(MadeDir(v, d), d, n) == 0
    ensures forall c :: IsDir(v, c) ==> IsDir(MadeDir(v, d), c) && SameMap(v, MadeDir(v, d), c)
    ensures forall c :: IsDir(MadeDir(v, d), c) ==> IsDir(v, c) || c == d
  {
    var w := MadeDir(v, d);
    assert Frames(w) == Frames(v);
    assert Partition(w);
    forall p | 0 <= p < ENTRIES ensures Pde(w, d, p) == 0 {
    }
    forall c: nat, p | c < |v.mem| && 0 <= p < ENTRIES ensures Pde(w, c, p) == Pde(v, c, p) {
    }
    forall c: nat, n | c < |v.mem| && 0 <= n < PAGES ensures Look(w, c, n) == Look(v, c, n) {
    }
  }

  /** A held, zeroed frame becomes the page table for index p. */
  function AddedTable(v: Vm, d: nat, p: nat, t: nat): (r: Vm)
    requires d < |v.mem| && p < ENTRIES
  {
    Vm(v.mem[d := PutEntry(v.mem[d], p, Entry(t, PTE_P + PTE_W + PTE_U))], v.free, v.owner[t := Table(d, p)])
  }

  lemma AddedTablePde(v: Vm, d: nat, p: nat, t: nat, c: nat, q: nat)
    requires Ok(v) && IsDir(v, d) && p < ENTRIES && t in v.owner && c < |v.mem| && q < ENTRIES
    ensures Pde(AddedTable(v, d, p, t), c, q) ==
      if c == d && q == p then Entry(t, PTE_P + PTE_W + PTE_U) else Pde(v, c, q)
  {
  }

  /** A new, empty page table changes no mapping. */
  lemma AddedTableLook(v: Vm, d: nat, p: nat, t: nat, c: nat, n: nat)
    requires Ok(v) && IsDir(v, d) && p < ENTRIES && !Present(Pde(v, d, p))
    requires t in v.owner && v.owner[t] == Misc && v.mem[t] == ZeroPage()
    requires IsDir(v, c) && n < PAGES
    ensures Look(AddedTable(v, d, p, t), c, n) == Look(v, c, n)
  {
    AddedTablePde(v, d, p, t, c, n / ENTRIES);
    var e := Pde(v, c, n / ENTRIES);
    assert Present(e) ==> FrameOf(e) in v.owner && v.owner[FrameOf(e)] == Table(c, n / ENTRIES);
  }

  lemma AddedTableOk(v: Vm, d: nat, p: nat, t: nat)
    requires Ok(v) && IsDir(v, d) && p < ENTRIES && !Present(Pde(v, d, p))
    requires t in v.owner && v.owner[t] == Misc && v.mem[t] == ZeroPage()
    ensures Ok(AddedTable(v, d, p, t)) && Frames(AddedTable(v, d, p, t)) == Frames(v)
    ensures forall c :: IsDir(v, c) <==> IsDir(AddedTable(v, d, p, t), c)
    ensures forall c :: IsDir(v, c) ==> SameMap(v, AddedTable(v, d, p, t), c)
  {
    var w := AddedTable(v, d, p, t);
    forall c, n | IsDir(v, c) && 0 <= n < PAGES ensures Look(w, c, n) == Look(v, c, n) {
      AddedTableLook(v, d, p, t, c, n);
    }
    forall c, q | IsDir(v, c) && 0 <= q < ENTRIES
      ensures Pde(w, c, q) == if c == d && q == p then Entry(t, PTE_P + PTE_W + PTE_U) else Pde(v, c, q)
    {
      AddedTablePde(v, d, p, t, c, q);
    }
  }

  // ------------------------------------------------------------------ entries in and out

  /** The page table that serves virtual page n. */
  function TableFor(v: Vm, d: nat, n: nat): (r: nat)
    requires d < |v.mem| && n < PAGES
  {
    FrameOf(Pde(v, d, n / ENTRIES))
  }

  predicate HasTable(v: Vm, d: nat, n: nat)
    requires d < |v.mem| && n < PAGES
  {
    Present(Pde(v, d, n / ENTRIES)) && TableFor(v, d, n) < |v.mem|
  }

  /** The entry of page n set to e, and frame f, if any, given a new role. */
  function SetEntry(v: Vm, d: nat, n: nat, e: nat): (r: Vm)
    requires d < |v.mem| && n < PAGES && HasTable(v, d, n)
  {
    var t := TableFor(v, d, n);
    Vm(v.mem[t := PutEntry(v.mem[t], n % ENTRIES, e)], v.free, v.owner)
  }

  lemma SetEntryPde(v: Vm, d: nat, n: nat, e: nat, c: nat, q: nat)
    requires Ok(v) && IsDir(v, d) && n < PAGES && HasTable(v, d, n) && IsDir(v, c) && q < ENTRIES
    ensures Pde(SetEntry(v, d, n, e), c, q) == Pde(v, c, q)
  {
    assert v.owner[TableFor(v, d, n)] == Table(d, n / ENTRIES);
  }

  /** Setting an entry changes that entry alone. */
  lemma SetEntryLook(v: Vm, d: nat, n: nat, e: nat, c: nat, m: nat)
    requires Ok(v) && IsDir(v, d) && n < PAGES && HasTable(v, d, n) && IsDir(v, c) && m < PAGES
    ensures Look(SetEntry(v, d, n, e), c, m) == if c == d && m == n then e else Look(v, c, m)
  {
    SetEntryPde(v, d, n, e, c, m / ENTRIES);
    var x := Pde(v, c, m / ENTRIES);
    assert v.owner[TableFor(v, d, n)] == Table(d, n / ENTRIES);
    assert Present(x) ==> FrameOf(x) in v.owner && v.owner[FrameOf(x)] == Table(c, m / ENTRIES);
    assert c == d && m == n <==> c == d && m / ENTRIES == n / ENTRIES && m % ENTRIES == n % ENTRIES;
  }

  /** Everything except where d maps page n, and the role of frame f, stays. */
  function Remapped(v: Vm, d: nat, n: nat, e: nat, f: nat, role: Role): (r: Vm)
    requires d < |v.mem| && n < PAGES && HasTable(v, d, n)
  {
    var w := SetEntry(v, d, n, e);
    Vm(w.mem, w.free, w.owner[f := role])
  }

  /** A flat map with one page changed. */
  ghost predicate MapsOnly(v: Vm, w: Vm, d: nat, n: nat, e: nat) {
    && d < |v.mem| && d < |w.mem|
    && forall m {:trigger Look(w, d, m)} :: 0 <= m < PAGES ==> Look(w, d, m) == if m == n then e else Look(v, d, m)
  }

  lemma RemappedLook(v: Vm, d: nat, n: nat, e: nat, f: nat, role: Role, c: nat, m: nat)
    requires Ok(v) && IsDir(v, d) && n < PAGES && HasTable(v, d, n) && IsDir(v, c) && m < PAGES
    ensures Look(Remapped(v, d, n, e, f, role), c, m) == if c == d && m == n then e else Look(v, c, m)
    ensures Pde(Remapped(v, d, n, e, f, role), c, m / ENTRIES) == Pde(v, c, m / ENTRIES)
  {
    SetEntryLook(v, d, n, e, c, m);
    SetEntryPde(v, d, n, e, c, m / ENTRIES);
    assert Look(Remapped(v, d, n, e, f, role), c, m) == Look(SetEntry(v, d, n, e), c, m);
  }

  /** A held frame mapped as a user page, or a user page unmapped and held again. */
  predicate RoleStep(v: Vm, d: nat, n: nat, e: nat, f: nat, role: Role)
    requires d < |v.mem| && n < PAGES
  {
    && f in v.owner && n < KERNPAGE
    && (if role == Misc
        then e == 0 && Present(Look(v, d, n)) && FrameOf(Look(v, d, n)) == f
        else role == User(d, n) && Present(e) && FrameOf(e) == f && v.owner[f] == Misc && !Present(Look(v, d, n)))
  }

  lemma RemappedOk(v: Vm, d: nat, n: nat, e: nat, f: nat, role: Role)
    requires Ok(v) && IsDir(v, d) && n < PAGES && HasTable(v, d, n) && RoleStep(v, d, n, e, f, role)
    ensures var w := Remapped(v, d, n, e, f, role);
      && Ok(w) && Frames(w) == Frames(v) && (role == Misc ==> v.owner[f] == User(d, n))
      && (forall c :: IsDir(v, c) <==> IsDir(w, c))
      && (forall c :: IsDir(v, c) && c != d ==> SameMap(v, w, c))
      && MapsOnly(v, w, d, n, e)
  {
    var w := Remapped(v, d, n, e, f, role);
    assert role == Misc ==> v.owner[f] == User(d, n);
    assert v.owner[TableFor(v, d, n)] == Table(d, n / ENTRIES);
    forall c, m | IsDir(v, c) && 0 <= m < PAGES ensures Look(w, c, m) == if c == d && m == n then e else Look(v, c, m) {
      RemappedLook(v, d, n, e, f, role, c, m);
    }
    forall c, q | IsDir(v, c) && 0 <= q < ENTRIES ensures Pde(w, c, q) == Pde(v, c, q) {
      RemappedLook(v, d, n, e, f, role, c, q * ENTRIES);
    }
    RemappedUsers(v, d, n, e, f, role);
  }

  lemma RemappedUsers(v: Vm, d: nat, n: nat, e: nat, f: nat, role: Role)
    requires Ok(v) && IsDir(v, d) && n < PAGES && HasTable(v, d, n) && RoleStep(v, d, n, e, f, role)
    requires forall c, m {:trigger Look(Remapped(v, d, n, e, f, role), c, m)} :: IsDir(v, c) && 0 <= m < PAGES ==>
      Look(Remapped(v, d, n, e, f, role), c, m) == if c == d && m == n then e else Look(v, c, m)
    ensures Users(Remapped(v, d, n, e, f, role))
  {
    var w := Remapped(v, d, n, e, f, role);
    forall c, m | IsDir(w, c) && 0 <= m < KERNPAGE && Present(Look(w, c, m))
      ensures FrameOf(Look(w, c, m)) in w.owner && w.owner[FrameOf(Look(w, c, m))] == User(c, m)
    {
      assert IsDir(v, c);
      assert Present(Look(v, c, m)) ==>
        FrameOf(Look(v, c, m)) in v.owner && v.owner[FrameOf(Look(v, c, m))] == User(c, m);
    }
    forall g | g in w.owner && w.owner[g].User?
      ensures IsDir(w, w.owner[g].dir) && w.owner[g].vpn < KERNPAGE
      ensures Present(Look(w, w.owner[g].dir, w.owner[g].vpn)) && FrameOf(Look(w, w.owner[g].dir, w.owner[g].vpn)) == g
    {
    }
  }

  /** A kernel page mapped: its frame is nobody's page. */
  lemma KernelEntryOk(v: Vm, d: nat, n: nat, e: nat)
    requires Ok(v) && IsDir(v, d) && KERNPAGE <= n < PAGES && HasTable(v, d, n)
    ensures var w := SetEntry(v, d, n, e);
      && Ok(w) && Frames(w) == Frames(v)
      && (forall c :: IsDir(v, c) <==> IsDir(w, c))
      && (forall c :: IsDir(v, c) && c != d ==> SameMap(v, w, c))
      && MapsOnly(v, w, d, n, e)
  {
    var w := SetEntry(v, d, n, e);
    assert v.owner[TableFor(v, d, n)] == Table(d, n / ENTRIES);
    forall c, m | IsDir(v, c) && 0 <= m < PAGES ensures Look(w, c, m) == if c == d && m == n then e else Look(v, c, m) {
      SetEntryLook(v, d, n, e, c, m);
    }
    forall c, q | IsDir(v, c) && 0 <= q < ENTRIES ensures Pde(w, c, q) == Pde(v, c, q) {
      SetEntryPde(v, d, n, e, c, q);
    }
  }

  // ------------------------------------------------------------------ taking a directory apart

  /** A directory without user pages is no directory any more; its frame and its tables are merely held. */
  function Dropped(v: Vm, d: nat): (r: Vm) {
    Vm(v.mem, v.free,
       map f | f in v.owner :: if f == d || (v.owner[f].Table? && v.owner[f].dir == d) then Misc else v.owner[f])
  }

  lemma DroppedOk(v: Vm, d: nat)
    requires Ok(v) && IsDir(v, d) && forall n :: 0 <= n < KERNPAGE ==> !Present(Look(v, d, n))
    ensures Ok(Dropped(v, d)) && Frames(Dropped(v, d)) == Frames(v)
    ensures forall c :: IsDir(Dropped(v, d), c) <==> IsDir(v, c) && c != d
    ensures forall c :: IsDir(v, c) && c != d ==> SameMap(v, Dropped(v, d), c)
  {
    var w := Dropped(v, d);
    forall c: nat, q | c < |v.mem| && 0 <= q < ENTRIES ensures Pde(w, c, q) == Pde(v, c, q) {
    }
    forall c: nat, n | c < |v.mem| && 0 <= n < PAGES ensures Look(w, c, n) == Look(v, c, n) {
    }
    assert Frames(w) == Frames(v) by {
      assert w.owner.Keys == v.owner.Keys;
    }
    forall f | f in v.owner && v.owner[f].User? ensures v.owner[f].dir != d {
      assert Present(Look(v, v.owner[f].dir, v.owner[f].vpn));
    }
  }
}
