/** The process table: fork, exit, wait, sleep, wakeup and kill, as steps taken with ptable.lock held. */
module ProcTable {
  import opened Options

  /** A sleep channel: the address of a process, which only wait sleeps on, or anything else. */
  datatype Chan = OfProc(slot: nat) | Other(id: nat)

  datatype State = Unused | Embryo | Sleeping | Runnable | Running | Zombie

  datatype Slot = Slot(state: State, pid: nat, parent: Option<nat>, chan: Option<Chan>, killed: bool)

  /** `forking` says which slot a process is filling in fork; `exited` and `returned` are the pids that exited and
      that wait returned. These three are history, not kernel variables. */
  datatype Table = Table(
    proc: seq<Slot>, nextpid: nat, init: nat,
    forking: map<nat, nat>, exited: set<nat>, returned: set<nat>)

  datatype Step =
    | Alloc(k: nat, j: nat)      // allocproc finds slot j for process k
    | AllocFail(k: nat)          // no kernel stack, or copyuvm failed: the slot is unused again
    | Adopt(k: nat)              // np->parent = curproc
    | Start(k: nat)              // np->state = RUNNABLE
    | Exit(i: nat)
    | Reap(i: nat, j: nat)       // wait finds the zombie child j
    | WaitSleep(i: nat)          // wait finds children but no zombie, and sleeps
    | Sleep(i: nat, id: nat)
    | ClearChan(i: nat)          // back from sched in sleep
    | Wakeup(chan: Chan)
    | Kill(j: nat)               // kill found the pid in slot j
    | Dispatch(i: nat)
    | Yield(i: nat)

  // ------------------------------------------------------------------ what the loops compute

  function WakeSlot(s: Slot, c: Chan): (r: Slot) {
    if s.state == Sleeping && s.chan == Some(c) then s.(state := Runnable) else s
  }

  /** wakeup1. */
  function Woken(t: seq<Slot>, c: Chan): (r: seq<Slot>) {
    seq(|t|, j requires 0 <= j < |t| => WakeSlot(t[j], c))
  }

  predicate ZombieChild(t: seq<Slot>, i: nat, j: nat) {
    j < |t| && t[j].parent == Some(i) && t[j].state == Zombie
  }

  predicate AnyZombieChild(t: seq<Slot>, i: nat, n: nat) {
    exists j :: 0 <= j < n && ZombieChild(t, i, j)
  }

  /** One slot after exit has passed it: woken if it waits for i, or for an orphan zombie; handed to init if it is a
      child. */
  function ExitSlot(s: Slot, i: nat, parent: nat, init: nat, orphan: bool, passed: bool): (r: Slot) {
    var woken := WakeSlot(s, OfProc(parent));
    var again := if orphan then WakeSlot(woken, OfProc(init)) else woken;
    if passed && s.parent == Some(i) then again.(parent := Some(init)) else again
  }

  /** exit's loop after n slots. */
  function Orphaned(t: seq<Slot>, i: nat, init: nat, n: nat): (r: seq<Slot>)
    requires i < |t| && t[i].parent.Some? && n <= |t|
  {
    seq(|t|, j requires 0 <= j < |t| => ExitSlot(t[j], i, t[i].parent.value, init, AnyZombieChild(t, i, n), j < n))
  }

  function Exited(t: seq<Slot>, i: nat, init: nat): (r: seq<Slot>)
    requires i < |t| && t[i].parent.Some?
  {
    var u := Orphaned(t, i, init, |t|);
    u[i := u[i].(state := Zombie)]
  }

  function Reaped(t: seq<Slot>, j: nat): (r: seq<Slot>)
    requires j < |t|
  {
    t[j := t[j].(state := Unused, pid := 0, parent := None, killed := false)]
  }

  function Killed(t: seq<Slot>, j: nat): (r: seq<Slot>)
    requires j < |t|
  {
    t[j := t[j].(killed := true, state := if t[j].state == Sleeping then Runnable else t[j].state)]
  }

  // ------------------------------------------------------------------ steps

  predicate Live(s: Slot) {
    !s.state.Unused? && !s.state.Zombie? && !s.state.Embryo?
  }

  /** i is on a processor, and not in the middle of fork. */
  predicate Free(t: Table, i: nat) {
    i < |t.proc| && t.proc[i].state == Running && i !in t.forking
  }

  predicate MidFork(t: Table, k: nat) {
    k < |t.proc| && t.proc[k].state == Running && k in t.forking && t.forking[k] < |t.proc|
  }

  predicate HasChild(t: seq<Slot>, i: nat) {
    exists j :: 0 <= j < |t| && t[j].parent == Some(i)
  }

  predicate Enabled(t: Table, a: Step) {
    match a
    case Alloc(k, j) => Free(t, k) && j < |t.proc| && t.proc[j].state == Unused
    case AllocFail(k) => MidFork(t, k) && t.proc[t.forking[k]].parent == None
    case Adopt(k) => MidFork(t, k) && t.proc[t.forking[k]].parent == None
    case Start(k) => MidFork(t, k) && t.proc[t.forking[k]].parent == Some(k)
    case Exit(i) => Free(t, i) && i != t.init && t.proc[i].parent.Some?
    case Reap(i, j) => Free(t, i) && ZombieChild(t.proc, i, j)
    case WaitSleep(i) => Free(t, i) && HasChild(t.proc, i) && !AnyZombieChild(t.proc, i, |t.proc|) && !t.proc[i].killed
    case Sleep(i, _) => Free(t, i)
    case ClearChan(i) => Free(t, i)
    case Wakeup(_) => true
    case Kill(j) => j < |t.proc|
    case Dispatch(i) => i < |t.proc| && t.proc[i].state == Runnable
    case Yield(i) => i < |t.proc| && t.proc[i].state == Running
  }

  function WithState(t: seq<Slot>, i: nat, s: State): (r: seq<Slot>)
    requires i < |t|
  {
    t[i := t[i].(state := s)]
  }

  function Do(t: Table, a: Step): (r: Table)
    requires Enabled(t, a)
  {
    match a
    case Alloc(k, j) =>
      t.(proc := t.proc[j := t.proc[j].(state := Embryo, pid := t.nextpid)],
         nextpid := t.nextpid + 1, forking := t.forking[k := j])
    case AllocFail(k) => t.(proc := WithState(t.proc, t.forking[k], Unused), forking := t.forking - {k})
    case Adopt(k) => t.(proc := t.proc[t.forking[k] := t.proc[t.forking[k]].(parent := Some(k))])
    case Start(k) => t.(proc := WithState(t.proc, t.forking[k], Runnable), forking := t.forking - {k})
    case Exit(i) => t.(proc := Exited(t.proc, i, t.init), exited := t.exited + {t.proc[i].pid})
    case Reap(i, j) => t.(proc := Reaped(t.proc, j), returned := t.returned + {t.proc[j].pid})
    case WaitSleep(i) => t.(proc := t.proc[i := t.proc[i].(state := Sleeping, chan := Some(OfProc(i)))])
    case Sleep(i, id) => t.(proc := t.proc[i := t.proc[i].(state := Sleeping, chan := Some(Other(id)))])
    case ClearChan(i) => t.(proc := t.proc[i := t.proc[i].(chan := None)])
    case Wakeup(c) => t.(proc := Woken(t.proc, c))
    case Kill(j) => t.(proc := Killed(t.proc, j))
    case Dispatch(i) => t.(proc := WithState(t.proc, i, Running))
    case Yield(i) => t.(proc := WithState(t.proc, i, Runnable))
  }

  // ------------------------------------------------------------------ invariant

  /** Sleeping in wait. */
  predicate Waiting(t: seq<Slot>, i: nat) {
    i < |t| && t[i].state == Sleeping && t[i].chan == Some(OfProc(i))
  }

  ghost predicate UniquePids(t: Table) {
    && (forall j :: 0 <= j < |t.proc| && t.proc[j].state != Unused ==> t.proc[j].pid < t.nextpid)
    && (forall i, j {:trigger t.proc[i], t.proc[j]} ::
          0 <= i < |t.proc| && 0 <= j < |t.proc| && i != j && t.proc[i].state != Unused && t.proc[j].state != Unused ==>
            t.proc[i].pid != t.proc[j].pid)
  }

  ghost predicate ParentAt(t: Table, j: nat)
    requires j < |t.proc|
  {
    && (t.proc[j].state == Unused ==> t.proc[j].parent == None)
    && (j != t.init && (Live(t.proc[j]) || t.proc[j].state == Zombie) ==> t.proc[j].parent.Some?)
    && (t.proc[j].parent.Some? ==>
          && t.proc[j].parent.value < |t.proc| && t.proc[j].parent.value != j && Live(t.proc[t.proc[j].parent.value])
          && (t.proc[j].state == Embryo ==>
                t.proc[j].parent.value in t.forking && t.forking[t.proc[j].parent.value] == j))
  }

  /** Who may be whose parent. */
  ghost predicate Parents(t: Table) {
    && t.init < |t.proc| && Live(t.proc[t.init]) && t.proc[t.init].parent == None
    && forall j {:trigger ParentAt(t, j)} :: 0 <= j < |t.proc| ==> ParentAt(t, j)
  }

  ghost predicate ForkAt(t: Table, k: nat)
    requires k in t.forking
  {
    && k < |t.proc| && t.forking[k] < |t.proc| && t.proc[t.forking[k]].state == Embryo
    && (t.proc[k].state == Running || t.proc[k].state == Runnable)
    && (t.proc[t.forking[k]].parent.Some? ==> t.proc[t.forking[k]].parent.value == k)
  }

  /** Slots being filled in by fork. */
  ghost predicate Forks(t: Table) {
    && (forall k {:trigger ForkAt(t, k)} :: k in t.forking ==> ForkAt(t, k))
    && (forall k, l {:trigger t.forking[k], t.forking[l]} ::
          k in t.forking && l in t.forking && k != l ==> t.forking[k] != t.forking[l])
  }

  /** No waiter misses a zombie, and no waiter waits for nobody. */
  ghost predicate Waits(t: Table) {
    forall i :: 0 <= i < |t.proc| && Waiting(t.proc, i) ==>
      HasChild(t.proc, i) && !AnyZombieChild(t.proc, i, |t.proc|)
  }

  /** Each pid that exited is a zombie's or was returned by wait, and not both. */
  ghost predicate History(t: Table) {
    && (forall p :: p in t.returned ==> p in t.exited && p < t.nextpid)
    && (forall p :: p in t.exited && p !in t.returned ==>
          exists j :: 0 <= j < |t.proc| && t.proc[j].state == Zombie && t.proc[j].pid == p)
    && (forall j :: 0 <= j < |t.proc| && t.proc[j].state != Unused ==> t.proc[j].pid !in t.returned)
    && (forall j :: 0 <= j < |t.proc| && t.proc[j].state != Unused ==>
          (t.proc[j].pid in t.exited <==> t.proc[j].state == Zombie))
    && (forall p :: p in t.exited ==> p < t.nextpid)
  }

  ghost predicate Inv(t: Table) {
    UniquePids(t) && Parents(t) && Forks(t) && Waits(t) && History(t)
  }

  // ------------------------------------------------------------------ steps that only schedule

  predicate Active(s: State) {
    s.Sleeping? || s.Runnable? || s.Running?
  }

  /** Nobody is born, dies or changes parents. */
  predicate SoftSlot(s: Slot, r: Slot) {
    r.pid == s.pid && r.parent == s.parent && (r.state == s.state || (Active(s.state) && Active(r.state)))
  }

  ghost predicate Soft(t: Table, u: Table) {
    && u == t.(proc := u.proc) && |u.proc| == |t.proc|
    && (forall j :: 0 <= j < |t.proc| ==> SoftSlot(t.proc[j], u.proc[j]))
    && (forall k :: k in t.forking && k < |u.proc| ==> u.proc[k].state == Running || u.proc[k].state == Runnable)
    && (forall i :: 0 <= i < |t.proc| && Waiting(u.proc, i) ==>
          Waiting(t.proc, i) || (HasChild(t.proc, i) && !AnyZombieChild(t.proc, i, |t.proc|)))
  }

  lemma SoftChildren(t: seq<Slot>, u: seq<Slot>, i: nat)
    requires |u| == |t| && forall j :: 0 <= j < |t| ==> SoftSlot(t[j], u[j])
    ensures HasChild(t, i) ==> HasChild(u, i)
    ensures AnyZombieChild(u, i, |u|) ==> AnyZombieChild(t, i, |t|)
  {
    if HasChild(t, i) {
      var j :| 0 <= j < |t| && t[j].parent == Some(i);
      assert u[j].parent == Some(i);
    }
    if AnyZombieChild(u, i, |u|) {
      var j :| 0 <= j < |u| && ZombieChild(u, i, j);
      assert ZombieChild(t, i, j);
    }
  }

  lemma SoftKeepsInv(t: Table, u: Table)
    requires Inv(t) && Soft(t, u)
    ensures Inv(u)
  {
    hide AnyZombieChild;
    hide HasChild;
    hide History;
    hide UniquePids;
    SoftPids(t, u);
    forall i | 0 <= i < |u.proc| && Waiting(u.proc, i)
      ensures HasChild(u.proc, i) && !AnyZombieChild(u.proc, i, |u.proc|)
    {
      SoftChildren(t.proc, u.proc, i);
    }
    forall j | 0 <= j < |u.proc| ensures ParentAt(u, j) {
      assert ParentAt(t, j);
    }
    forall k | k in u.forking ensures ForkAt(u, k) {
      assert ForkAt(t, k);
    }
    SoftHistory(t, u);
  }

  lemma SoftPids(t: Table, u: Table)
    requires UniquePids(t) && Soft(t, u)
    ensures UniquePids(u)
  {
    hide AnyZombieChild;
    hide HasChild;
  }

  lemma SoftHistory(t: Table, u: Table)
    requires History(t) && Soft(t, u)
    ensures History(u)
  {
    hide AnyZombieChild;
    hide HasChild;
    forall p | p in u.exited && p !in u.returned
      ensures exists j :: 0 <= j < |u.proc| && u.proc[j].state == Zombie && u.proc[j].pid == p
    {
      var j :| 0 <= j < |t.proc| && t.proc[j].state == Zombie && t.proc[j].pid == p;
      assert SoftSlot(t.proc[j], u.proc[j]);
    }
  }

  predicate Schedules(a: Step) {
    a.WaitSleep? || a.Sleep? || a.ClearChan? || a.Wakeup? || a.Kill? || a.Dispatch? || a.Yield?
  }

  lemma ScheduleKeepsInv(t: Table, a: Step)
    requires Inv(t) && Enabled(t, a) && Schedules(a)
    ensures Inv(Do(t, a))
  {
    hide AnyZombieChild;
    hide HasChild;
    hide History;
    hide UniquePids;
    hide Parents;
    hide Waits;
    var u := Do(t, a);
    forall k | k in t.forking && k < |u.proc| ensures u.proc[k].state == Running || u.proc[k].state == Runnable {
      assert ForkAt(t, k);
    }
    SoftKeepsInv(t, u);
  }

  // ------------------------------------------------------------------ fork

  predicate InFork(a: Step) {
    a.Alloc? || a.AllocFail? || a.Adopt? || a.Start?
  }

  lemma ForkKeepsPids(t: Table, a: Step)
    requires Inv(t) && Enabled(t, a) && InFork(a)
    ensures UniquePids(Do(t, a))
  {
    hide Waits;
    hide Parents;
    hide History;
    if !a.Alloc? {
      assert ForkAt(t, a.k);
    }
  }

  lemma ForkKeepsParents(t: Table, a: Step)
    requires Inv(t) && Enabled(t, a) && InFork(a)
    ensures Parents(Do(t, a))
  {
    hide Waits;
    hide UniquePids;
    hide History;
    var u := Do(t, a);
    if a.Alloc? {
      assert ParentAt(t, a.j);
    } else {
      assert ForkAt(t, a.k);
    }
    forall j | 0 <= j < |u.proc| ensures ParentAt(u, j) {
      assert ParentAt(t, j);
    }
  }

  lemma ForkKeepsForks(t: Table, a: Step)
    requires Inv(t) && Enabled(t, a) && InFork(a)
    ensures Forks(Do(t, a))
  {
    hide Waits;
    hide UniquePids;
    hide History;
    var u := Do(t, a);
    if a.Alloc? {
      assert ParentAt(t, a.j);
    } else {
      assert ForkAt(t, a.k);
    }
    forall k | k in u.forking ensures ForkAt(u, k) {
      assert k in t.forking ==> ForkAt(t, k);
    }
    forall k, l | k in u.forking && l in u.forking && k != l ensures u.forking[k] != u.forking[l] {
      assert k in t.forking ==> ForkAt(t, k);
      assert l in t.forking ==> ForkAt(t, l);
    }
  }

  lemma ForkKeepsWaits(t: Table, a: Step)
    requires Inv(t) && Enabled(t, a) && InFork(a)
    ensures Waits(Do(t, a))
  {
    hide UniquePids;
    hide History;
    var u := Do(t, a);
    forall i | 0 <= i < |u.proc| && Waiting(u.proc, i)
      ensures HasChild(u.proc, i) && !AnyZombieChild(u.proc, i, |u.proc|)
    {
      assert Waiting(t.proc, i);
      var j :| 0 <= j < |t.proc| && t.proc[j].parent == Some(i);
      assert u.proc[j].parent == Some(i);
      forall c | 0 <= c < |u.proc| ensures !ZombieChild(u.proc, i, c) {
        assert !ZombieChild(t.proc, i, c);
      }
    }
  }

  lemma ForkKeepsHistory(t: Table, a: Step)
    requires Inv(t) && Enabled(t, a) && InFork(a)
    ensures History(Do(t, a))
  {
    hide Waits;
    hide Parents;
    if !a.Alloc? {
      assert ForkAt(t, a.k);
    }
    var u := Do(t, a);
    forall p | p in u.exited && p !in u.returned
      ensures exists j :: 0 <= j < |u.proc| && u.proc[j].state == Zombie && u.proc[j].pid == p
    {
      var j :| 0 <= j < |t.proc| && t.proc[j].state == Zombie && t.proc[j].pid == p;
      assert u.proc[j] == t.proc[j];
    }
  }

  // ------------------------------------------------------------------ exit

  /** The sleepers exit wakes: the parent in wait, and init in wait if a zombie is handed to it. */
  predicate WokenByExit(t: Table, i: nat, j: nat)
    requires i < |t.proc| && t.proc[i].parent.Some? && j < |t.proc|
  {
    && t.proc[j].state == Sleeping
    && (|| t.proc[j].chan == Some(OfProc(t.proc[i].parent.value))
        || (AnyZombieChild(t.proc, i, |t.proc|) && t.proc[j].chan == Some(OfProc(t.init))))
  }

  /** What exit does to a slot, and no more than that. */
  lemma ExitSlots(t: Table, i: nat, j: nat)
    requires Inv(t) && Enabled(t, Exit(i)) && j < |t.proc|
    ensures var u := Do(t, Exit(i));
      && |u.proc| == |t.proc| && u.proc[j].pid == t.proc[j].pid && u.proc[j].chan == t.proc[j].chan
      && u.proc[j].killed == t.proc[j].killed
      && (j != i ==> u.proc[j].state == if WokenByExit(t, i, j) then Runnable else t.proc[j].state)
      && u.proc[j].parent == (if t.proc[j].parent == Some(i) then Some(t.init) else t.proc[j].parent)
      && (j == i ==> u.proc[j].state == Zombie)
      && (j != i ==> u.proc[j].state == t.proc[j].state || (t.proc[j].state == Sleeping && u.proc[j].state == Runnable))
      && (Waiting(u.proc, j) ==> Waiting(t.proc, j) && Some(j) != t.proc[i].parent)
      && (Waiting(u.proc, t.init) ==> !AnyZombieChild(t.proc, i, |t.proc|))
  {
    hide UniquePids;
    hide History;
    hide Waits;
    hide AnyZombieChild;
  }

  lemma ExitKeepsParents(t: Table, i: nat)
    requires Inv(t) && Enabled(t, Exit(i))
    ensures var u := Do(t, Exit(i)); Parents(u) && Forks(u) && UniquePids(u)
  {
    hide History;
    hide Waits;
    hide Exited;
    hide Waiting;
    var u := Do(t, Exit(i));
    forall j | 0 <= j < |t.proc|
      ensures |u.proc| == |t.proc| && u.proc[j].pid == t.proc[j].pid
      ensures u.proc[j].parent == (if t.proc[j].parent == Some(i) then Some(t.init) else t.proc[j].parent)
      ensures j == i ==> u.proc[j].state == Zombie
      ensures j != i ==>
        u.proc[j].state == t.proc[j].state || (t.proc[j].state == Sleeping && u.proc[j].state == Runnable)
    {
      ExitSlots(t, i, j);
    }
    forall j | 0 <= j < |u.proc| ensures ParentAt(u, j) {
      assert ParentAt(t, j);
    }
    forall k | k in u.forking ensures ForkAt(u, k) {
      assert ForkAt(t, k);
    }
  }

  lemma ExitKeepsWaits(t: Table, i: nat)
    requires Inv(t) && Enabled(t, Exit(i))
    ensures Waits(Do(t, Exit(i)))
  {
    hide History;
    hide UniquePids;
    hide Exited;
    var u := Do(t, Exit(i));
    ExitSlots(t, i, i);
    forall w | 0 <= w < |u.proc| && Waiting(u.proc, w)
      ensures HasChild(u.proc, w) && !AnyZombieChild(u.proc, w, |u.proc|)
    {
      ExitSlots(t, i, w);
      var j :| 0 <= j < |t.proc| && t.proc[j].parent == Some(w);
      ExitSlots(t, i, j);
      assert u.proc[j].parent == Some(w);
      forall c | 0 <= c < |u.proc| ensures !ZombieChild(u.proc, w, c) {
        ExitSlots(t, i, c);
        assert ParentAt(t, c);
        assert !ZombieChild(t.proc, w, c);
        assert w == t.init ==> !ZombieChild(t.proc, i, c);
      }
    }
  }

  lemma ExitKeepsHistory(t: Table, i: nat)
    requires Inv(t) && Enabled(t, Exit(i))
    ensures History(Do(t, Exit(i)))
  {
    hide Waits;
    hide Parents;
    hide Exited;
    var u := Do(t, Exit(i));
    forall j | 0 <= j < |t.proc|
      ensures |u.proc| == |t.proc| && u.proc[j].pid == t.proc[j].pid
      ensures j == i ==> u.proc[j].state == Zombie
      ensures j != i ==>
        u.proc[j].state == t.proc[j].state || (t.proc[j].state == Sleeping && u.proc[j].state == Runnable)
    {
      ExitSlots(t, i, j);
    }
    forall p | p in u.exited && p !in u.returned
      ensures exists j :: 0 <= j < |u.proc| && u.proc[j].state == Zombie && u.proc[j].pid == p
    {
      if p == t.proc[i].pid {
        assert u.proc[i].state == Zombie && u.proc[i].pid == p;
      } else {
        var j :| 0 <= j < |t.proc| && t.proc[j].state == Zombie && t.proc[j].pid == p;
        assert u.proc[j].state == Zombie && u.proc[j].pid == p;
      }
    }
  }

  // ------------------------------------------------------------------ wait

  lemma ReapKeepsParents(t: Table, i: nat, j: nat)
    requires Inv(t) && Enabled(t, Reap(i, j))
    ensures var u := Do(t, Reap(i, j)); Parents(u) && Forks(u) && UniquePids(u)
  {
    hide History;
    hide Waits;
    var u := Do(t, Reap(i, j));
    forall c | 0 <= c < |u.proc| ensures ParentAt(u, c) {
      assert ParentAt(t, c);
    }
    forall k | k in u.forking ensures ForkAt(u, k) {
      assert ForkAt(t, k);
    }
  }

  lemma ReapKeepsWaits(t: Table, i: nat, j: nat)
    requires Inv(t) && Enabled(t, Reap(i, j))
    ensures Waits(Do(t, Reap(i, j)))
  {
    hide History;
    hide UniquePids;
    var u := Do(t, Reap(i, j));
    forall w | 0 <= w < |u.proc| && Waiting(u.proc, w)
      ensures HasChild(u.proc, w) && !AnyZombieChild(u.proc, w, |u.proc|)
    {
      assert Waiting(t.proc, w);
      var c :| 0 <= c < |t.proc| && t.proc[c].parent == Some(w);
      assert u.proc[c].parent == Some(w);
      forall x | 0 <= x < |u.proc| ensures !ZombieChild(u.proc, w, x) {
        assert !ZombieChild(t.proc, w, x);
      }
    }
  }

  lemma ReapKeepsHistory(t: Table, i: nat, j: nat)
    requires Inv(t) && Enabled(t, Reap(i, j))
    ensures History(Do(t, Reap(i, j)))
    ensures t.proc[j].pid in t.exited && t.proc[j].pid !in t.returned
  {
    hide Waits;
    hide Parents;
    var u := Do(t, Reap(i, j));
    forall p | p in u.exited && p !in u.returned
      ensures exists c :: 0 <= c < |u.proc| && u.proc[c].state == Zombie && u.proc[c].pid == p
    {
      var c :| 0 <= c < |t.proc| && t.proc[c].state == Zombie && t.proc[c].pid == p;
      assert u.proc[c] == t.proc[c];
    }
  }

  // ------------------------------------------------------------------ runs

  lemma DoKeepsInv(t: Table, a: Step)
    requires Inv(t) && Enabled(t, a)
    ensures Inv(Do(t, a))
  {
    hide Do;
    hide Enabled;
    hide UniquePids;
    hide Parents;
    hide Forks;
    hide Waits;
    hide History;
    match a {
      case Exit(i) =>
        ExitKeepsParents(t, i);
        ExitKeepsWaits(t, i);
        ExitKeepsHistory(t, i);
      case Reap(i, j) =>
        ReapKeepsParents(t, i, j);
        ReapKeepsWaits(t, i, j);
        ReapKeepsHistory(t, i, j);
      case _ =>
        if InFork(a) {
          ForkKeepsPids(t, a);
          ForkKeepsParents(t, a);
          ForkKeepsForks(t, a);
          ForkKeepsWaits(t, a);
          ForkKeepsHistory(t, a);
        } else {
          ScheduleKeepsInv(t, a);
        }
    }
  }

  /** Only init, about to run. */
  ghost predicate Initial(t: Table) {
    && t.init < |t.proc| && Live(t.proc[t.init]) && t.proc[t.init].state == Runnable
    && t.proc[t.init].parent == None && t.proc[t.init].pid < t.nextpid
    && (forall j :: 0 <= j < |t.proc| && j != t.init ==> t.proc[j].state == Unused && t.proc[j].parent == None)
    && (forall j :: 0 <= j < |t.proc| ==> !t.proc[j].killed)
    && t.forking == map[] && t.exited == {} && t.returned == {}
  }

  /** States t[0], t[1], ..., each by the next step from the one before. */
  ghost predicate Run(t: seq<Table>, a: seq<Step>) {
    && |t| == |a| + 1 && Initial(t[0])
    && forall n {:trigger a[n]} :: 0 <= n < |a| ==> Enabled(t[n], a[n]) && t[n + 1] == Do(t[n], a[n])
  }

  lemma {:induction false} RunKeepsInv(t: seq<Table>, a: seq<Step>, n: nat)
    requires Run(t, a) && n < |t|
    ensures Inv(t[n])
  {
    if n == 0 {
      forall j | 0 <= j < |t[0].proc| ensures ParentAt(t[0], j) {
      }
    } else {
      RunKeepsInv(t, a, n - 1);
      assert t[n] == Do(t[n - 1], a[n - 1]);
      DoKeepsInv(t[n - 1], a[n - 1]);
    }
  }

  /** A process asleep in wait has no zombie child, and does have a child that can still exit. */
  lemma WaiterIsNotMissed(t: seq<Table>, a: seq<Step>, n: nat, i: nat)
    requires Run(t, a) && n < |t| && Waiting(t[n].proc, i)
    ensures forall j :: 0 <= j < |t[n].proc| ==> !ZombieChild(t[n].proc, i, j)
    ensures exists j :: 0 <= j < |t[n].proc| && t[n].proc[j].parent == Some(i) && Live(t[n].proc[j])
  {
    hide UniquePids;
    hide History;
    hide Run;
    RunKeepsInv(t, a, n);
    var u := t[n];
    assert HasChild(u.proc, i) && !AnyZombieChild(u.proc, i, |u.proc|);
    var j :| 0 <= j < |u.proc| && u.proc[j].parent == Some(i);
    assert ParentAt(u, j) && !ZombieChild(u.proc, i, j);
    assert i in u.forking ==> ForkAt(u, i);
    assert Live(u.proc[j]);
  }

  /** A zombie always has a parent that can still wait for it: it is neither unused nor a zombie. */
  lemma ZombieHasLiveParent(t: seq<Table>, a: seq<Step>, n: nat, j: nat)
    requires Run(t, a) && n < |t| && j < |t[n].proc| && t[n].proc[j].state == Zombie
    ensures t[n].proc[j].parent.Some? && t[n].proc[j].parent.value < |t[n].proc|
    ensures Live(t[n].proc[t[n].proc[j].parent.value])
  {
    hide UniquePids;
    hide History;
    hide Waits;
    hide Run;
    RunKeepsInv(t, a, n);
    assert ParentAt(t[n], j);
  }

  lemma PidsAreUnique(t: seq<Table>, a: seq<Step>, n: nat, i: nat, j: nat)
    requires Run(t, a) && n < |t| && i < |t[n].proc| && j < |t[n].proc|
    requires t[n].proc[i].state != Unused && t[n].proc[j].state != Unused && t[n].proc[i].pid == t[n].proc[j].pid
    ensures i == j
  {
    hide History;
    hide Waits;
    hide Parents;
    hide Run;
    RunKeepsInv(t, a, n);
  }

  lemma {:induction false} ReturnedStays(t: seq<Table>, a: seq<Step>, m: nat, n: nat, p: nat)
    requires Run(t, a) && m <= n < |t| && p in t[m].returned
    ensures p in t[n].returned
  {
    if m < n {
      ReturnedStays(t, a, m, n - 1, p);
      assert t[n] == Do(t[n - 1], a[n - 1]);
    }
  }

  /** A pid that has exited did so in an earlier step, as the process of that step. */
  lemma {:induction false} ExitedEarlier(t: seq<Table>, a: seq<Step>, n: nat, p: nat) returns (e: nat)
    requires Run(t, a) && n < |t| && p in t[n].exited
    ensures e < n && a[e].Exit? && a[e].i < |t[e].proc| && t[e].proc[a[e].i].pid == p
  {
    if n > 0 {
      assert t[n] == Do(t[n - 1], a[n - 1]);
      if p in t[n - 1].exited {
        e := ExitedEarlier(t, a, n - 1, p);
      } else {
        e := n - 1;
      }
    }
  }

  /** wait returns a pid only after that process exited, and never returns the same one twice. */
  lemma ReturnedOnce(t: seq<Table>, a: seq<Step>, m: nat, n: nat)
    requires Run(t, a) && m < n < |a| && a[m].Reap? && a[n].Reap?
    requires a[m].j < |t[m].proc| && a[n].j < |t[n].proc|
    ensures t[m].proc[a[m].j].pid != t[n].proc[a[n].j].pid
    ensures exists e ::
      0 <= e < n && a[e].Exit? && a[e].i < |t[e].proc| && t[e].proc[a[e].i].pid == t[n].proc[a[n].j].pid
  {
    hide Inv;
    assert t[m + 1] == Do(t[m], a[m]);
    ReturnedStays(t, a, m + 1, n, t[m].proc[a[m].j].pid);
    RunKeepsInv(t, a, n);
    assert Enabled(t[n], a[n]);
    ReapKeepsHistory(t[n], a[n].i, a[n].j);
    var e := ExitedEarlier(t, a, n, t[n].proc[a[n].j].pid);
  }

  /** wakeup makes runnable every process asleep on its channel, whatever the channel, and touches no other. */
  lemma WakeupLeavesNoSleeper(t: seq<Table>, a: seq<Step>, n: nat, j: nat)
    requires Run(t, a) && n < |a| && a[n].Wakeup? && j < |t[n].proc|
    ensures j < |t[n + 1].proc|
    ensures var was, now := t[n].proc[j], t[n + 1].proc[j];
      && !(now.state == Sleeping && now.chan == Some(a[n].chan))
      && (was.state == Sleeping && was.chan == Some(a[n].chan) ==> now == was.(state := Runnable))
      && (was.state != Sleeping || was.chan != Some(a[n].chan) ==> now == was)
  {
    assert t[n + 1] == Do(t[n], a[n]);
  }

  /** Step a may take slot j of t from its state to this one. */
  predicate MayTurn(t: Table, a: Step, j: nat, now: State)
    requires j < |t.proc|
  {
    match (t.proc[j].state, now)
    case (Unused, Embryo) => a.Alloc? && a.j == j
    case (Embryo, Unused) => a.AllocFail? && a.k in t.forking && t.forking[a.k] == j
    case (Embryo, Runnable) => a.Start? && a.k in t.forking && t.forking[a.k] == j
    case (Runnable, Running) => a == Dispatch(j)
    case (Running, Runnable) => a == Yield(j)
    case (Running, Sleeping) => a == WaitSleep(j) || (a.Sleep? && a.i == j)
    case (Running, Zombie) => a == Exit(j)
    case (Sleeping, Runnable) =>
      || a == Kill(j) || (a.Wakeup? && t.proc[j].chan == Some(a.chan))
      || (a.Exit? && a.i < |t.proc| && t.proc[a.i].parent.Some?
          && (t.proc[j].chan == Some(OfProc(t.proc[a.i].parent.value)) || t.proc[j].chan == Some(OfProc(t.init))))
    case (Zombie, Unused) => a.Reap? && a.j == j
    case _ => false
  }

  /** The life of a process: in every run a slot changes state only along these turns. */
  lemma StateTurns(t: seq<Table>, a: seq<Step>, n: nat, j: nat)
    requires Run(t, a) && n < |a| && j < |t[n].proc|
    ensures j < |t[n + 1].proc|
    ensures t[n + 1].proc[j].state == t[n].proc[j].state || MayTurn(t[n], a[n], j, t[n + 1].proc[j].state)
  {
    hide UniquePids; hide Parents; hide Waits; hide History; hide Do; hide Enabled;
    RunKeepsInv(t, a, n);
    assert t[n + 1] == Do(t[n], a[n]);
    OneTurn(t[n], a[n], j);
  }

  lemma OneTurn(t: Table, a: Step, j: nat)
    requires Forks(t) && Enabled(t, a) && j < |t.proc|
    ensures |Do(t, a).proc| == |t.proc|
    ensures Do(t, a).proc[j].state == t.proc[j].state || MayTurn(t, a, j, Do(t, a).proc[j].state)
  {
    hide AnyZombieChild;
    if a.AllocFail? || a.Start? {
      assert ForkAt(t, a.k);
    }
  }

  /** And each step takes its slot along its turn. */
  lemma StepTurns(t: seq<Table>, a: seq<Step>, n: nat)
    requires Run(t, a) && n < |a|
    ensures var p, q, next := t[n], t[n + 1].proc, t[n].nextpid;
      && |q| == |p.proc|
      && match a[n]
         case Alloc(_, j) => j < |q| && q[j].state == Embryo && q[j].pid == next && t[n + 1].nextpid == next + 1
         case AllocFail(k) => k in p.forking && p.forking[k] < |q| && q[p.forking[k]].state == Unused
         case Adopt(k) => k in p.forking && p.forking[k] < |q| && q[p.forking[k]].parent == Some(k)
         case Start(k) => k in p.forking && p.forking[k] < |q| && q[p.forking[k]].state == Runnable
         case Exit(i) => i < |q| && q[i].state == Zombie && forall j :: 0 <= j < |q| ==> q[j].parent != Some(i)
         case Reap(_, j) => j < |q| && q[j].state == Unused
         case WaitSleep(i) => i < |q| && q[i].state == Sleeping && q[i].chan == Some(OfProc(i))
         case Sleep(i, id) => i < |q| && q[i].state == Sleeping && q[i].chan == Some(Other(id))
         case ClearChan(i) => i < |q| && q[i].chan == None
         case Wakeup(c) => forall j :: 0 <= j < |q| ==> !(q[j].state == Sleeping && q[j].chan == Some(c))
         case Kill(j) => j < |q| && q[j].killed && q[j].state != Sleeping
         case Dispatch(i) => i < |q| && q[i].state == Running
         case Yield(i) => i < |q| && q[i].state == Runnable
  {
    hide AnyZombieChild;
    assert t[n + 1] == Do(t[n], a[n]) && Enabled(t[n], a[n]);
  }

  predicate ReapOf(a: Step, j: nat) {
    a.Reap? && a.j == j
  }

  /** A kill of slot j at step m that no wait has cleared before step n. */
  ghost predicate KillStands(a: seq<Step>, m: nat, n: nat, j: nat) {
    m < n <= |a| && a[m] == Kill(j) && forall x :: m < x < n ==> !ReapOf(a[x], j)
  }

  /** kill marks its slot and leaves it awake; nothing but kill marks a slot, and nothing but wait clears the mark. */
  lemma StepMarks(t: Table, a: Step, j: nat)
    requires Enabled(t, a) && j < |t.proc|
    ensures |Do(t, a).proc| == |t.proc|
    ensures Do(t, a).proc[j].killed <==> a == Kill(j) || (t.proc[j].killed && !ReapOf(a, j))
    ensures a == Kill(j) ==> Do(t, a).proc[j].state != Sleeping
  {
    hide AnyZombieChild;
  }

  lemma KillStandsLater(a: seq<Step>, n: nat, next: nat, j: nat)
    requires n < |a| && next == n + 1
    ensures (exists m :: KillStands(a, m, next, j)) <==>
      a[n] == Kill(j) || (!ReapOf(a[n], j) && exists m :: KillStands(a, m, n, j))
  {
    if a[n] == Kill(j) {
      assert KillStands(a, n, next, j);
    } else if m :| KillStands(a, m, next, j) {
      assert KillStands(a, m, n, j);
    } else if m :| KillStands(a, m, n, j) {
      assert !ReapOf(a[n], j) ==> KillStands(a, m, next, j);
    }
  }

  /** A slot is marked killed exactly if kill hit it after the last time wait freed it. So a new process is born killed
      exactly if kill found its slot in between, which kill(0) does: a free slot has pid 0. */
  lemma {:induction false} KilledIffKillStands(t: seq<Table>, a: seq<Step>, n: nat, j: nat)
    requires Run(t, a) && n < |t| && j < |t[0].proc|
    ensures j < |t[n].proc|
    ensures t[n].proc[j].killed <==> exists m :: KillStands(a, m, n, j)
  {
    if n > 0 {
      KilledIffKillStands(t, a, n - 1, j);
      assert t[n] == Do(t[n - 1], a[n - 1]);
      StepMarks(t[n - 1], a[n - 1], j);
      KillStandsLater(a, n - 1, n, j);
    }
  }

  /** After wait frees a slot, a process that gets it without a kill in between starts unmarked. */
  lemma ReapedStartsUnmarked(t: seq<Table>, a: seq<Step>, m: nat, n: nat, j: nat)
    requires Run(t, a) && m < n < |t| && ReapOf(a[m], j) && j < |t[0].proc|
    requires forall x :: m < x < n ==> a[x] != Kill(j)
    ensures j < |t[n].proc| && !t[n].proc[j].killed
  {
    KilledIffKillStands(t, a, n, j);
    assert ReapOf(a[m], j);
  }

  // ------------------------------------------------------------------ the loops

  lemma OrphanTurn(t: seq<Slot>, i: nat, init: nat, n: nat)
    requires i < |t| && t[i].parent.Some? && n < |t|
    ensures var u := Orphaned(t, i, init, n);
      && u[n].parent == t[n].parent && (u[n].state == Zombie <==> t[n].state == Zombie)
      && (t[n].parent != Some(i) ==> Orphaned(t, i, init, n + 1) == u)
      && (t[n].parent == Some(i) && t[n].state != Zombie ==>
            Orphaned(t, i, init, n + 1) == u[n := u[n].(parent := Some(init))])
      && (ZombieChild(t, i, n) ==>
            Orphaned(t, i, init, n + 1) == Woken(u[n := u[n].(parent := Some(init))], OfProc(init)))
  {
    assert AnyZombieChild(t, i, n + 1) <==> AnyZombieChild(t, i, n) || ZombieChild(t, i, n);
  }

  datatype WaitResult = Got(pid: nat, slot: nat) | NoneLeft | Slept

  class ProcessTable {
    var proc: seq<Slot>
    var nextpid: nat
    const init: nat

    method Wakeup1(c: Chan)
      modifies this`proc
      ensures proc == Woken(old(proc), c) && |proc| == |old(proc)|
      ensures forall j :: 0 <= j < |proc| ==>
        var was := old(proc)[j];
        proc[j] == if was.state == Sleeping && was.chan == Some(c) then was.(state := Runnable) else was
    {
      var p := 0;
      while p < |proc|
        invariant p <= |proc| == |old(proc)|
        invariant forall j :: 0 <= j < p ==> proc[j] == WakeSlot(old(proc)[j], c)
        invariant forall j :: p <= j < |proc| ==> proc[j] == old(proc)[j]
      {
        if proc[p].state == Sleeping && proc[p].chan == Some(c) {
          proc := proc[p := proc[p].(state := Runnable)];
        }
        p := p + 1;
      }
    }

    /** The locked part of allocproc: the first unused slot gets the next pid. */
    method Allocproc() returns (slot: Option<nat>)
      modifies this
      ensures slot.None? ==>
        proc == old(proc) && nextpid == old(nextpid) && forall j :: 0 <= j < |proc| ==> proc[j].state != Unused
      ensures slot.Some? ==>
        slot.value < |old(proc)| && old(proc)[slot.value].state == Unused && nextpid == old(nextpid) + 1
      ensures slot.Some? ==> forall j :: 0 <= j < slot.value ==> old(proc)[j].state != Unused
      ensures slot.Some? ==>
        proc == old(proc)[slot.value := old(proc)[slot.value].(state := Embryo, pid := old(nextpid))]
    {
      var p := 0;
      while p < |proc|
        invariant p <= |proc| && proc == old(proc) && nextpid == old(nextpid)
        invariant forall j :: 0 <= j < p ==> proc[j].state != Unused
      {
        if proc[p].state == Unused {
          proc := proc[p := proc[p].(state := Embryo, pid := nextpid)];
          nextpid := nextpid + 1;
          return Some(p);
        }
        p := p + 1;
      }
      return None;
    }

    /** The locked part of exit. */
    method Exit(i: nat)
      requires i < |proc| && proc[i].parent.Some? && i != init
      modifies this`proc
      ensures proc == Exited(old(proc), i, init)
    {
      ghost var t := proc;
      Wakeup1(OfProc(proc[i].parent.value));
      assert proc == Orphaned(t, i, init, 0);
      var p := 0;
      while p < |proc|
        invariant p <= |proc| == |t| && proc == Orphaned(t, i, init, p)
      {
        OrphanTurn(t, i, init, p);
        if proc[p].parent == Some(i) {
          proc := proc[p := proc[p].(parent := Some(init))];
          if proc[p].state == Zombie {
            Wakeup1(OfProc(init));
          }
        }
        p := p + 1;
      }
      proc := proc[i := proc[i].(state := Zombie)];
    }

    /** One round of wait, from taking the lock to giving it up: a zombie child, no one to wait for, or asleep. */
    method Wait(i: nat) returns (r: WaitResult)
      requires i < |proc|
      modifies this`proc
      ensures r.Got? ==> ZombieChild(old(proc), i, r.slot) && !AnyZombieChild(old(proc), i, r.slot)
      ensures r.Got? ==> r.pid == old(proc)[r.slot].pid && proc == Reaped(old(proc), r.slot)
      ensures r.Got? ==> |proc| == |old(proc)| && proc[r.slot].state == Unused && proc[r.slot].pid == 0
      ensures r.Got? ==> proc[r.slot].parent == None && !proc[r.slot].killed
      ensures r.Got? ==> forall j :: 0 <= j < |proc| && j != r.slot ==> proc[j] == old(proc)[j]
      ensures !r.Got? ==> !AnyZombieChild(old(proc), i, |old(proc)|)
      ensures r.NoneLeft? ==> proc == old(proc) && (!HasChild(proc, i) || proc[i].killed)
      ensures r.Slept? ==> HasChild(old(proc), i) && !old(proc)[i].killed
      ensures r.Slept? ==> proc == old(proc)[i := old(proc)[i].(state := Sleeping, chan := Some(OfProc(i)))]
    {
      var havekids, p := false, 0;
      while p < |proc|
        invariant p <= |proc| && proc == old(proc)
        invariant !AnyZombieChild(proc, i, p)
        invariant havekids <==> exists j :: 0 <= j < p && proc[j].parent == Some(i)
      {
        if proc[p].parent == Some(i) {
          havekids := true;
          if proc[p].state == Zombie {
            r := Got(proc[p].pid, p);
            proc := proc[p := proc[p].(pid := 0, parent := None, killed := false, state := Unused)];
            return;
          }
        }
        p := p + 1;
      }
      if !havekids || proc[i].killed {
        return NoneLeft;
      }
      proc := proc[i := proc[i].(chan := Some(OfProc(i)), state := Sleeping)];
      return Slept;
    }

    method Kill(pid: nat) returns (slot: Option<nat>)
      modifies this`proc
      ensures slot.None? ==> proc == old(proc) && forall j :: 0 <= j < |proc| ==> proc[j].pid != pid
      ensures slot.Some? ==> slot.value < |old(proc)| && old(proc)[slot.value].pid == pid
      ensures slot.Some? ==>
        proc == Killed(old(proc), slot.value) && forall j :: 0 <= j < slot.value ==> proc[j].pid != pid
      ensures slot.Some? ==> |proc| == |old(proc)| && proc[slot.value].killed && proc[slot.value].state != Sleeping
      ensures slot.Some? ==>
        forall j :: 0 <= j < |proc| && (j != slot.value || old(proc)[j].state != Sleeping) ==>
          proc[j].state == old(proc)[j].state
      ensures slot.Some? ==> forall j :: 0 <= j < |proc| && j != slot.value ==> proc[j] == old(proc)[j]
    {
      var p := 0;
      while p < |proc|
        invariant p <= |proc| && proc == old(proc)
        invariant forall j :: 0 <= j < p ==> proc[j].pid != pid
      {
        if proc[p].pid == pid {
          proc := proc[p := proc[p].(killed := true)];
          if proc[p].state == Sleeping {
            proc := proc[p := proc[p].(state := Runnable)];
          }
          return Some(p);
        }
        p := p + 1;
      }
      return None;
    }
  }
}
