/** An address space as a flat map from virtual page to (frame, flags, contents), and what page-table steps do to it.

    A step works on one address space. It conserves frames, keeps every frame elsewhere, and says how the
    flat map of its own address space changes. */
module AddressSpace {
  import opened Paging

  datatype Mapping = Unmapped | Mapped(frame: nat, flags: nat, page: Page)

  /** How d maps virtual page n. The contents of kernel pages are not part of the map. */
  function At(v: Vm, d: nat, n: nat): (r: Mapping)
    requires d < |v.mem| && n < PAGES
  {
    var e := Look(v, d, n);
    if !Present(e) then Unmapped
    else Mapped(FrameOf(e), FlagsOf(e), if n < KERNPAGE && FrameOf(e) < |v.mem| then v.mem[FrameOf(e)] else ZeroPage())
  }

  ghost predicate SameAt(v: Vm, w: Vm, d: nat) {
    && d < |v.mem| && d < |w.mem|
    && forall n {:trigger At(w, d, n)} :: 0 <= n < PAGES ==> At(w, d, n) == At(v, d, n)
  }

  /** d maps page n to m, and every other page as before. */
  ghost predicate OnlyAt(v: Vm, w: Vm, d: nat, n: nat, m: Mapping) {
    && d < |v.mem| && d < |w.mem|
    && forall k {:trigger At(w, d, k)} :: 0 <= k < PAGES ==> At(w, d, k) == if k == n then m else At(v, d, k)
  }

  /** A role inside the address space of d. */
  predicate Of(r: Role, d: nat) {
    (r.Table? || r.User?) && r.dir == d
  }

  /** Frames outside the address space of d, and outside x, keep their role and contents. */
  ghost predicate Elsewhere(v: Vm, w: Vm, d: nat, x: set<nat>) {
    && |w.mem| == |v.mem|
    && (forall f :: f in v.owner && f !in x && f != d && !Of(v.owner[f], d) ==>
          f < |v.mem| && f in w.owner && w.owner[f] == v.owner[f] && w.mem[f] == v.mem[f])
    && (forall f :: f in w.owner && f !in x && f != d && !Of(w.owner[f], d) ==>
          f in v.owner && v.owner[f] == w.owner[f])
  }

  ghost predicate KeepsTables(v: Vm, w: Vm, d: nat) {
    forall f :: f in v.owner && v.owner[f].Table? && v.owner[f].dir == d ==> f in w.owner && w.owner[f] == v.owner[f]
  }

  /** A step inside the address space of d: frames are conserved, and others are not affected. */
  ghost predicate Step(v: Vm, w: Vm, d: nat, x: set<nat>) {
    Ok(v) && Ok(w) && Frames(w) == Frames(v) && Elsewhere(v, w, d, x) && KeepsTables(v, w, d)
  }

  lemma StepTrans(u: Vm, v: Vm, w: Vm, d: nat, x: set<nat>)
    requires Step(u, v, d, x) && Step(v, w, d, x)
    ensures Step(u, w, d, x)
  {
    hide Ok;
    hide Frames;
  }

  /** Frames that were free or belonged to d, and now are free or belong to d, need no exception. */
  lemma StepClose(v: Vm, w: Vm, d: nat, f: nat)
    requires Step(v, w, d, {f}) && (f in v.owner ==> Of(v.owner[f], d)) && (f in w.owner ==> Of(w.owner[f], d))
    ensures Step(v, w, d, {})
  {
    hide Ok;
    hide Frames;
  }

  lemma StepOpen(v: Vm, w: Vm, d: nat, x: set<nat>)
    requires Step(v, w, d, {})
    ensures Step(v, w, d, x)
  {
    hide Ok;
    hide Frames;
  }

  /** Another address space maps the same pages to the same contents. */
  lemma StepIsolates(v: Vm, w: Vm, d: nat, x: set<nat>, c: nat)
    requires Step(v, w, d, x) && IsDir(v, c) && c != d && (d in v.owner ==> v.owner[d] == Dir)
    requires forall f :: f in x && f in v.owner ==> v.owner[f] == Misc
    ensures IsDir(w, c) && SameAt(v, w, c)
  {
    forall n | 0 <= n < PAGES ensures At(w, c, n) == At(v, c, n) {
      var e := Pde(v, c, n / ENTRIES);
      assert Pde(w, c, n / ENTRIES) == e;
      assert Present(e) ==> FrameOf(e) in v.owner && v.owner[FrameOf(e)] == Table(c, n / ENTRIES);
      assert Look(w, c, n) == Look(v, c, n);
    }
  }

  // ------------------------------------------------------------------ frames

  lemma TakenStep(v: Vm, d: nat)
    requires Ok(v) && v.free != []
    ensures var f := v.free[0]; f !in v.owner && 0 < f < |v.mem| && Step(v, Taken(v), d, {f})
    ensures IsDir(v, d) ==> IsDir(Taken(v), d) && SameAt(v, Taken(v), d)
  {
    TakenOk(v);
    assert v.free[0] in v.free;
    if IsDir(v, d) {
      forall n | 0 <= n < PAGES ensures At(Taken(v), d, n) == At(v, d, n) {
        assert Look(Taken(v), d, n) == Look(v, d, n);
      }
    }
  }

  lemma FilledStep(v: Vm, d: nat, f: nat, page: Page)
    requires Ok(v) && f in v.owner && v.owner[f] == Misc
    ensures f < |v.mem| && Step(v, Filled(v, f, page), d, {f})
    ensures IsDir(v, d) ==> IsDir(Filled(v, f, page), d) && SameAt(v, Filled(v, f, page), d)
  {
    FilledOk(v, f, page);
    var w := Filled(v, f, page);
    if IsDir(v, d) {
      forall n | 0 <= n < PAGES ensures At(w, d, n) == At(v, d, n) {
        assert Look(w, d, n) == Look(v, d, n);
      }
    }
  }

  lemma GivenStep(v: Vm, d: nat, f: nat)
    requires Ok(v) && f in v.owner && v.owner[f] == Misc
    ensures Step(v, Given(v, f), d, {f})
    ensures IsDir(v, d) ==> IsDir(Given(v, f), d) && SameAt(v, Given(v, f), d)
  {
    GivenOk(v, f);
    var w := Given(v, f);
    if IsDir(v, d) {
      forall n | 0 <= n < PAGES ensures At(w, d, n) == At(v, d, n) {
        assert Look(w, d, n) == Look(v, d, n);
      }
    }
  }

  // ------------------------------------------------------------------ page tables and entries

  lemma TableStep(v: Vm, d: nat, p: nat, t: nat)
    requires Ok(v) && IsDir(v, d) && p < ENTRIES && !Present(Pde(v, d, p))
    requires t in v.owner && v.owner[t] == Misc && v.mem[t] == ZeroPage()
    ensures var w := AddedTable(v, d, p, t); Step(v, w, d, {t}) && IsDir(w, d) && SameAt(v, w, d)
  {
    AddedTableOk(v, d, p, t);
    var w := AddedTable(v, d, p, t);
    forall n | 0 <= n < PAGES ensures At(w, d, n) == At(v, d, n) {
      assert Look(w, d, n) == Look(v, d, n);
    }
  }

  /** A held frame mapped as user page n, with its contents. */
  lemma MapStep(v: Vm, d: nat, n: nat, f: nat, perm: nat)
    requires Ok(v) && IsDir(v, d) && n < KERNPAGE && HasTable(v, d, n) && !Present(Look(v, d, n))
    requires f in v.owner && v.owner[f] == Misc && perm < 4096
    ensures var w := Remapped(v, d, n, Entry(f, perm), f, User(d, n));
      && Step(v, w, d, {f}) && IsDir(w, d)
      && OnlyAt(v, w, d, n, Mapped(f, FlagsOf(Entry(f, perm)), v.mem[f]))
  {
    var e := Entry(f, perm);
    var w := Remapped(v, d, n, e, f, User(d, n));
    RemappedOk(v, d, n, e, f, User(d, n));
    assert v.owner[TableFor(v, d, n)] == Table(d, n / ENTRIES);
    MappedContents(v, w, d, n, e);
  }

  /** Only a page table's frame changed, so mapped pages keep their contents. */
  lemma MappedContents(v: Vm, w: Vm, d: nat, n: nat, e: nat)
    requires Ok(v) && IsDir(v, d) && n < PAGES && MapsOnly(v, w, d, n, e) && |w.mem| == |v.mem|
    requires HasTable(v, d, n) && forall f :: 0 <= f < |v.mem| && f != TableFor(v, d, n) ==> w.mem[f] == v.mem[f]
    requires Present(e) ==> FrameOf(e) != TableFor(v, d, n)
    ensures forall k {:trigger At(w, d, k)} :: 0 <= k < PAGES && k != n ==> At(w, d, k) == At(v, d, k)
    ensures At(w, d, n) == if !Present(e) then Unmapped else
      Mapped(FrameOf(e), FlagsOf(e), if n < KERNPAGE && FrameOf(e) < |v.mem| then v.mem[FrameOf(e)] else ZeroPage())
  {
    var t := TableFor(v, d, n);
    assert v.owner[t] == Table(d, n / ENTRIES);
    forall k | 0 <= k < PAGES && k != n ensures At(w, d, k) == At(v, d, k) {
      assert Look(w, d, k) == Look(v, d, k);
      assert k < KERNPAGE && Present(Look(v, d, k)) ==> v.owner[FrameOf(Look(v, d, k))] == User(d, k);
    }
    assert Look(w, d, n) == e;
  }

  /** A kernel page mapped; no frame changes hands. */
  lemma KernelStep(v: Vm, d: nat, n: nat, f: nat, perm: nat)
    requires Ok(v) && IsDir(v, d) && KERNPAGE <= n < PAGES && HasTable(v, d, n) && perm < 4096
    ensures var w := SetEntry(v, d, n, Entry(f, perm));
      && Step(v, w, d, {}) && IsDir(w, d)
      && OnlyAt(v, w, d, n, Mapped(f, FlagsOf(Entry(f, perm)), ZeroPage()))
  {
    var e := Entry(f, perm);
    var w := SetEntry(v, d, n, e);
    KernelEntryOk(v, d, n, e);
    assert v.owner[TableFor(v, d, n)] == Table(d, n / ENTRIES);
    forall k | 0 <= k < PAGES ensures At(w, d, k) == if k == n then Mapped(f, FlagsOf(e), ZeroPage()) else At(v, d, k) {
      assert Look(w, d, k) == if k == n then e else Look(v, d, k);
      assert k < KERNPAGE && Present(Look(v, d, k)) ==> v.owner[FrameOf(Look(v, d, k))] == User(d, k);
    }
  }

  /** A user page unmapped; its frame is held again. */
  lemma UnmapStep(v: Vm, d: nat, n: nat)
    requires Ok(v) && IsDir(v, d) && n < KERNPAGE && HasTable(v, d, n) && Present(Look(v, d, n))
    ensures var f := FrameOf(Look(v, d, n)); var w := Remapped(v, d, n, 0, f, Misc);
      && f in v.owner && v.owner[f] == User(d, n) && f in w.owner && w.owner[f] == Misc
      && Step(v, w, d, {f}) && IsDir(w, d) && OnlyAt(v, w, d, n, Unmapped)
  {
    var f := FrameOf(Look(v, d, n));
    var w := Remapped(v, d, n, 0, f, Misc);
    RemappedOk(v, d, n, 0, f, Misc);
    assert v.owner[TableFor(v, d, n)] == Table(d, n / ENTRIES);
    MappedContents(v, w, d, n, 0);
  }
}
