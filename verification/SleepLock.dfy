/** Sleep locks over spin locks, sleep and wakeup, for any number of processes and locks. */
module SleepLock {
  // One step is one access to shared memory, with two exceptions, both inside a critical section: holdingsleep
  // looks at lk->locked and lk->pid in one step, and wakeup and kill look at a process and wake it in one. A spin
  // lock appears as the process that holds it; a process that finds it taken spins, which is no step. `sched` gives
  // up the process-table lock and stops until the process is runnable and chosen.

  import opened Options

  type Pid = nat
  type LockId = nat

  datatype RunState = Running | Sleeping | Runnable

  /** The next thing a process does. */
  datatype Op =
    | Idle
    // acquiresleep: acquire lk->lk, look at lk->locked, set it, set lk->pid, release lk->lk
    | AcqSpin | AcqTest | AcqSet | AcqSetPid | AcqDone
    // sleep: acquire ptable.lock, release lk->lk, set p->chan, set p->state, give up ptable.lock,
    // be off the processor, clear p->chan, release ptable.lock
    | SlpTable | SlpUnlock | SlpChan | SlpState | SlpSched | SlpOff | SlpBack | SlpRelease
    // releasesleep: acquire lk->lk, clear lk->locked, clear lk->pid, then wakeup: acquire ptable.lock, look at
    // every process, release ptable.lock; release lk->lk
    | RelSpin | RelClear | RelPid | RelTable | RelScan | RelTableOut | RelOut
    // holdingsleep: acquire lk->lk, look at lk->locked and lk->pid, release lk->lk
    | HldSpin | HldTest | HldOut
    // kill: acquire ptable.lock, mark and wake the target, release ptable.lock
    | KillTable | KillHit | KillOut
    // yield: acquire ptable.lock, set p->state, give up ptable.lock, be off the processor, release ptable.lock
    | YldTable | YldState | YldSched | YldOff | YldRelease

  /** `lock` is the lock the operation is about, `todo` the processes a wakeup has still to look at, `target` the
      process to kill, `answer` the last result of holdingsleep. */
  datatype Proc = Proc(
    op: Op, lock: LockId, todo: set<Pid>, target: Pid, answer: bool,
    held: set<LockId>, state: RunState, chan: Option<LockId>, killed: bool)

  /** `setter` says who set `locked`; it is history, not a variable of the kernel. */
  datatype Sys = Sys(
    procs: map<Pid, Proc>,
    spin: map<LockId, Pid>,      // lk->lk
    table: Option<Pid>,          // ptable.lock
    locked: set<LockId>,         // lk->locked
    pid: map<LockId, Pid>,       // lk->pid, absent for 0
    setter: map<LockId, Pid>)

  datatype Action =
    | Spawn(p: Pid)
    | Begin(p: Pid, op: Op, lock: LockId, target: Pid)   // an idle process starts an operation
    | Advance(p: Pid)
    | Look(p: Pid, x: Pid)                               // wakeup1 looks at process x
    | Hit(p: Pid)                                        // kill marks and wakes its target

  function NextOp(op: Op, taken: bool): (r: Op) {
    match op
    case AcqSpin => AcqTest
    case AcqTest => if taken then SlpTable else AcqSet
    case AcqSet => AcqSetPid
    case AcqSetPid => AcqDone
    case SlpTable => SlpUnlock
    case SlpUnlock => SlpChan
    case SlpChan => SlpState
    case SlpState => SlpSched
    case SlpSched => SlpOff
    case SlpOff => SlpBack
    case SlpBack => SlpRelease
    case SlpRelease => AcqSpin
    case RelSpin => RelClear
    case RelClear => RelPid
    case RelPid => RelTable
    case RelTable => RelScan
    case RelScan => RelTableOut
    case RelTableOut => RelOut
    case HldSpin => HldTest
    case HldTest => HldOut
    case KillTable => KillHit
    case KillHit => KillOut
    case YldTable => YldState
    case YldState => YldSched
    case YldSched => YldOff
    case YldOff => YldRelease
    case _ => Idle
  }

  predicate TakesSpin(op: Op) {
    (op.AcqSpin? || op.RelSpin? || op.HldSpin?)
  }

  predicate LeavesSpin(op: Op) {
    (op.AcqDone? || op.SlpUnlock? || op.RelOut? || op.HldOut?)
  }

  predicate TakesTable(op: Op) {
    (op.SlpTable? || op.SlpOff? || op.RelTable? || op.KillTable? || op.YldTable? || op.YldOff?)
  }

  predicate LeavesTable(op: Op) {
    (op.SlpSched? || op.SlpRelease? || op.RelTableOut? || op.KillOut? || op.YldSched? || op.YldRelease?)
  }

  function Drop<V>(m: map<nat, V>, l: nat): (r: map<nat, V>) {
    map x | x in m && x != l :: m[x]
  }

  predicate Enabled(s: Sys, a: Action) {
    match a
    case Spawn(p) => p !in s.procs
    case Begin(p, op, l, _) =>
      && p in s.procs && s.procs[p].op == Idle
      && (op.AcqSpin? || op.RelSpin? || op.HldSpin? || op.KillTable? || op.YldTable?)
      && (op.RelSpin? ==> l in s.procs[p].held)
    case Advance(p) =>
      && p in s.procs && !s.procs[p].op.Idle? && !s.procs[p].op.KillHit?
      && (TakesSpin(s.procs[p].op) ==> s.procs[p].lock !in s.spin)
      && (TakesTable(s.procs[p].op) ==> s.table == None)
      && ((s.procs[p].op.SlpOff? || s.procs[p].op.YldOff?) ==> s.procs[p].state == Runnable)
      && (s.procs[p].op == RelScan ==> s.procs[p].todo == {})
    case Look(p, x) => p in s.procs && s.procs[p].op == RelScan && x in s.procs[p].todo
    case Hit(p) => p in s.procs && s.procs[p].op == KillHit
  }

  /** The process itself after its next step. */
  function Stepped(s: Sys, p: Pid): (r: Proc)
    requires p in s.procs
  {
    var u := s.procs[p];
    var l := u.lock;
    u.(op := NextOp(u.op, l in s.locked),
       held := if u.op == AcqDone then u.held + {l} else if u.op == RelClear then u.held - {l} else u.held,
       chan := if u.op == SlpChan then Some(l) else if u.op == SlpBack then None else u.chan,
       state := if u.op == SlpState then Sleeping else if u.op == YldState then Runnable
                else if (u.op.SlpOff? || u.op.YldOff?) then Running else u.state,
       todo := if u.op == RelTable then s.procs.Keys else u.todo,
       answer := if u.op == HldTest then l in s.locked && l in s.pid && s.pid[l] == p else u.answer)
  }

  function Woken(u: Proc): (r: Proc) {
    if u.state == Sleeping then u.(state := Runnable) else u
  }

  function Do(s: Sys, a: Action): (r: Sys)
    requires Enabled(s, a)
  {
    match a
    case Spawn(p) => s.(procs := s.procs[p := Proc(Idle, 0, {}, 0, false, {}, Running, None, false)])
    case Begin(p, op, l, t) => s.(procs := s.procs[p := s.procs[p].(op := op, lock := l, target := t)])
    case Look(p, x) =>
      var u := s.procs[p];
      var procs := if x in s.procs && s.procs[x].state == Sleeping && s.procs[x].chan == Some(u.lock)
                   then s.procs[x := s.procs[x].(state := Runnable)] else s.procs;
      s.(procs := procs[p := procs[p].(todo := u.todo - {x})])
    case Hit(p) =>
      var t := s.procs[p].target;
      var procs := if t in s.procs then s.procs[t := Woken(s.procs[t]).(killed := true)] else s.procs;
      s.(procs := procs[p := procs[p].(op := KillOut)])
    case Advance(p) =>
      var u := s.procs[p];
      var l := u.lock;
      var claims := u.op == AcqSet;
      Sys(s.procs[p := Stepped(s, p)],
          if TakesSpin(u.op) then s.spin[l := p] else if LeavesSpin(u.op) then Drop(s.spin, l) else s.spin,
          if TakesTable(u.op) then Some(p) else if LeavesTable(u.op) then None else s.table,
          if claims then s.locked + {l} else if u.op == RelClear then s.locked - {l} else s.locked,
          if u.op == AcqSetPid then s.pid[l := p] else if u.op == RelPid then Drop(s.pid, l) else s.pid,
          if claims then s.setter[l := p] else if u.op == RelClear then Drop(s.setter, l) else s.setter)
  }

  // ------------------------------------------------------------------ the invariant

  /** Where a process holds the spin lock of its lock. */
  predicate InSpin(op: Op) {
    (op.AcqTest? || op.AcqSet? || op.AcqSetPid? || op.AcqDone? || op.SlpTable? || op.SlpUnlock?
     || op.RelClear? || op.RelPid? || op.RelTable? || op.RelScan? || op.RelTableOut? || op.RelOut?
     || op.HldTest? || op.HldOut?)
  }

  /** Where a process holds the process-table lock. */
  predicate InTable(op: Op) {
    (op.SlpUnlock? || op.SlpChan? || op.SlpState? || op.SlpSched? || op.SlpBack? || op.SlpRelease?
     || op.RelScan? || op.RelTableOut? || op.KillHit? || op.KillOut?
     || op.YldState? || op.YldSched? || op.YldRelease?)
  }

  /** Where a process has just set `locked`. */
  predicate Claiming(op: Op) {
    op.AcqSetPid? || op.AcqDone?
  }

  /** The process has the sleep lock l: it returned from acquiresleep, or is about to. */
  predicate Holds(u: Proc, l: LockId) {
    l in u.held || (Claiming(u.op) && u.lock == l)
  }

  /** The process has found its lock taken and is going to sleep on it, or sleeps on it. */
  predicate Waits(u: Proc) {
    (u.op.SlpChan? || u.op.SlpState? || u.op.SlpSched?) || (u.op == SlpOff && u.state == Sleeping)
  }

  /** A releaser that has cleared the lock and will still look at process p. */
  predicate WillWake(u: Proc, p: Pid) {
    (u.op.RelPid? || u.op.RelTable?) || (u.op == RelScan && p in u.todo)
  }

  /** Where a process knows the lock is free: a releaser has cleared it, a claimer has looked and not yet set it. */
  predicate SeesFree(op: Op) {
    (op.AcqSet? || op.RelPid? || op.RelTable? || op.RelScan? || op.RelTableOut? || op.RelOut?)
  }

  /** A spin lock is held by the process inside its critical section, and by no other. */
  ghost predicate SpinInv(s: Sys) {
    && (forall p :: p in s.procs && InSpin(s.procs[p].op) ==> s.procs[p].lock in s.spin && s.spin[s.procs[p].lock] == p)
    && (forall l :: l in s.spin ==>
          s.spin[l] in s.procs && InSpin(s.procs[s.spin[l]].op) && s.procs[s.spin[l]].lock == l)
  }

  ghost predicate TableInv(s: Sys) {
    && (forall p :: p in s.procs && InTable(s.procs[p].op) ==> s.table == Some(p))
    && (s.table.Some? ==> s.table.value in s.procs && InTable(s.procs[s.table.value].op))
  }

  /** `locked` is set exactly while one process has the lock. */
  ghost predicate LockInv(s: Sys) {
    && s.setter.Keys == s.locked
    && (forall p, l :: p in s.procs && l in s.procs[p].held ==> l in s.setter && s.setter[l] == p)
    && (forall p :: p in s.procs && Claiming(s.procs[p].op) ==>
          s.procs[p].lock in s.setter && s.setter[s.procs[p].lock] == p)
    && (forall l :: l in s.setter ==> s.setter[l] in s.procs && Holds(s.procs[s.setter[l]], l))
    && (forall p :: p in s.procs && (s.procs[p].op.RelSpin? || s.procs[p].op.RelClear?) ==>
          s.procs[p].lock in s.procs[p].held)
  }

  /** `pid` names the process that has the lock. */
  ghost predicate PidInv(s: Sys) {
    && (forall p, l :: p in s.procs && l in s.procs[p].held ==> l in s.pid && s.pid[l] == p)
    && (forall p :: p in s.procs && s.procs[p].op == AcqDone ==>
          s.procs[p].lock in s.pid && s.pid[s.procs[p].lock] == p)
  }

  /** Run state and channel agree with what the process is doing. */
  ghost predicate StateInv(s: Sys) {
    forall p :: p in s.procs ==>
      var u := s.procs[p];
      && ((u.op.SlpState? || u.op.SlpSched? || u.op.SlpOff? || u.op.SlpBack?) ==> u.chan == Some(u.lock))
      && (u.op == SlpSched ==> u.state == Sleeping)
      && ((u.op.YldSched? || u.op.YldOff?) ==> u.state == Runnable)
      && (!(u.op.SlpSched? || u.op.SlpOff? || u.op.YldSched? || u.op.YldOff?) ==> u.state == Running)
  }

  /** No lost wakeup: who waits for a lock waits for one that is taken, or for a releaser still to come by. */
  ghost predicate WakeInv(s: Sys) {
    && (forall p :: p in s.procs && (s.procs[p].op.SlpTable? || s.procs[p].op.SlpUnlock?) ==>
          s.procs[p].lock in s.locked)
    && (forall p :: p in s.procs && SeesFree(s.procs[p].op) ==> s.procs[p].lock !in s.locked)
    && (forall p :: p in s.procs && Waits(s.procs[p]) ==>
          var l := s.procs[p].lock;
          l in s.locked || (l in s.spin && s.spin[l] in s.procs && WillWake(s.procs[s.spin[l]], p)))
  }

  ghost predicate Inv(s: Sys) {
    SpinInv(s) && TableInv(s) && LockInv(s) && PidInv(s) && StateInv(s) && WakeInv(s)
  }

  ghost predicate Init(s: Sys) {
    s == Sys(map[], map[], None, {}, map[], map[])
  }

  lemma OpSpin(op: Op, taken: bool)
    ensures InSpin(NextOp(op, taken)) <==> TakesSpin(op) || (InSpin(op) && !LeavesSpin(op))
    ensures LeavesSpin(op) ==> InSpin(op)
    ensures TakesSpin(op) ==> !InSpin(op)
  {
  }

  /** Where a process comes from, for the places the invariants speak of. */
  lemma OpFrom(op: Op, taken: bool)
    ensures var n := NextOp(op, taken);
      && (n.AcqSet? <==> op.AcqTest? && !taken) && (n.AcqSetPid? <==> op.AcqSet?) && (n.AcqDone? <==> op.AcqSetPid?)
      && (n.SlpTable? <==> op.AcqTest? && taken) && (n.SlpUnlock? <==> op.SlpTable?)
      && (n.SlpChan? <==> op.SlpUnlock?) && (n.SlpState? <==> op.SlpChan?) && (n.SlpSched? <==> op.SlpState?)
      && (n.SlpOff? <==> op.SlpSched?) && (n.SlpBack? <==> op.SlpOff?)
      && !n.RelSpin? && (n.RelClear? <==> op.RelSpin?) && (n.RelPid? <==> op.RelClear?)
      && (n.RelTable? <==> op.RelPid?) && (n.RelScan? <==> op.RelTable?) && (n.RelTableOut? <==> op.RelScan?)
      && (n.RelOut? <==> op.RelTableOut?) && (n.YldSched? <==> op.YldState?) && (n.YldOff? <==> op.YldSched?)
  {
  }

  lemma OpTable(op: Op, taken: bool)
    ensures InTable(NextOp(op, taken)) <==> TakesTable(op) || (InTable(op) && !LeavesTable(op))
    ensures LeavesTable(op) ==> InTable(op)
    ensures TakesTable(op) ==> !InTable(op)
  {
  }

  lemma AdvanceSpin(s: Sys, p: Pid)
    requires SpinInv(s) && Enabled(s, Advance(p))
    ensures SpinInv(Do(s, Advance(p)))
  {
    hide InSpin; hide TakesSpin; hide LeavesSpin; hide TakesTable; hide LeavesTable; hide NextOp;
    OpSpin(s.procs[p].op, s.procs[p].lock in s.locked);
  }

  lemma AdvanceTable(s: Sys, p: Pid)
    requires TableInv(s) && Enabled(s, Advance(p))
    ensures TableInv(Do(s, Advance(p)))
  {
    hide InTable; hide TakesSpin; hide LeavesSpin; hide TakesTable; hide LeavesTable; hide NextOp;
    OpTable(s.procs[p].op, s.procs[p].lock in s.locked);
  }

  lemma AdvanceSetter(s: Sys, p: Pid, l: LockId)
    requires LockInv(s) && WakeInv(s) && Enabled(s, Advance(p)) && l in Do(s, Advance(p)).setter
    ensures var t := Do(s, Advance(p)); t.setter[l] in t.procs && Holds(t.procs[t.setter[l]], l)
  {
    hide Waits; hide WillWake;
    hide TakesSpin; hide LeavesSpin; hide TakesTable; hide LeavesTable; hide NextOp;
    OpFrom(s.procs[p].op, s.procs[p].lock in s.locked);
    if l in s.setter {
      assert Holds(s.procs[s.setter[l]], l);
    }
  }

  lemma AdvanceClaim(s: Sys, p: Pid, q: Pid, l: LockId)
    requires LockInv(s) && WakeInv(s) && Enabled(s, Advance(p)) && q in s.procs && Holds(Do(s, Advance(p)).procs[q], l)
    ensures var t := Do(s, Advance(p)); l in t.setter && t.setter[l] == q
  {
    hide Waits; hide WillWake;
    hide TakesSpin; hide LeavesSpin; hide TakesTable; hide LeavesTable; hide NextOp;
    OpFrom(s.procs[p].op, s.procs[p].lock in s.locked);
  }

  lemma AdvanceReleaser(s: Sys, p: Pid)
    requires LockInv(s) && WakeInv(s) && Enabled(s, Advance(p))
    ensures var t := Do(s, Advance(p)); t.setter.Keys == t.locked
    ensures var u := Do(s, Advance(p)).procs[p]; u.op.RelSpin? || u.op.RelClear? ==> u.lock in u.held
  {
    hide Waits; hide WillWake;
    hide TakesSpin; hide LeavesSpin; hide TakesTable; hide LeavesTable; hide NextOp;
    OpFrom(s.procs[p].op, s.procs[p].lock in s.locked);
  }

  lemma AdvanceLock(s: Sys, p: Pid)
    requires LockInv(s) && WakeInv(s) && Enabled(s, Advance(p))
    ensures LockInv(Do(s, Advance(p)))
  {
    hide Do; hide WakeInv; hide Enabled;
    var t := Do(s, Advance(p));
    AdvanceProcs(s, p);
    AdvanceReleaser(s, p);
    forall l | l in t.setter ensures t.setter[l] in t.procs && Holds(t.procs[t.setter[l]], l) {
      AdvanceSetter(s, p, l);
    }
    forall q, l | q in t.procs && l in t.procs[q].held ensures l in t.setter && t.setter[l] == q {
      AdvanceClaim(s, p, q, l);
    }
    forall q | q in t.procs && Claiming(t.procs[q].op)
      ensures t.procs[q].lock in t.setter && t.setter[t.procs[q].lock] == q
    {
      AdvanceClaim(s, p, q, t.procs[q].lock);
    }
  }

  lemma AdvanceProcs(s: Sys, p: Pid)
    requires Enabled(s, Advance(p))
    ensures Do(s, Advance(p)).procs.Keys == s.procs.Keys
    ensures forall q :: q in s.procs && q != p ==> Do(s, Advance(p)).procs[q] == s.procs[q]
  {
  }

  /** A lock has one holder, and nobody who has just cleared it. */
  lemma OneHolder(s: Sys, p: Pid, q: Pid, l: LockId)
    requires LockInv(s) && WakeInv(s) && p in s.procs && q in s.procs && p != q && Holds(s.procs[q], l)
    ensures !Holds(s.procs[p], l)
    ensures !(s.procs[p].op.RelPid? && s.procs[p].lock == l)
  {
    hide Waits; hide WillWake;
    assert s.setter[l] == q && l in s.locked;
  }

  lemma AdvanceOtherHolder(s: Sys, p: Pid, q: Pid, l: LockId)
    requires PidInv(s) && LockInv(s) && WakeInv(s) && Enabled(s, Advance(p)) && q in s.procs && q != p
    requires var u := s.procs[q]; l in u.held || (u.op == AcqDone && u.lock == l)
    ensures var t := Do(s, Advance(p)); l in t.pid && t.pid[l] == q
  {
    hide TakesSpin; hide LeavesSpin; hide TakesTable; hide LeavesTable; hide NextOp; hide LockInv; hide WakeInv;
    hide Stepped;
    assert l in s.pid && s.pid[l] == q;
    OneHolder(s, p, q, l);
  }

  lemma AdvanceOwnHolder(s: Sys, p: Pid, l: LockId)
    requires PidInv(s) && LockInv(s) && WakeInv(s) && Enabled(s, Advance(p))
    requires var u := Do(s, Advance(p)).procs[p]; l in u.held || (u.op == AcqDone && u.lock == l)
    ensures var t := Do(s, Advance(p)); l in t.pid && t.pid[l] == p
  {
    hide TakesSpin; hide LeavesSpin; hide TakesTable; hide LeavesTable; hide NextOp; hide LockInv; hide WakeInv;
    var u := s.procs[p];
    OpFrom(u.op, u.lock in s.locked);
    if u.op.RelPid? {
      ReleaserHolds(s, p, l);
    }
  }

  /** A process that has cleared its lock does not hold it. */
  lemma ReleaserHolds(s: Sys, p: Pid, l: LockId)
    requires LockInv(s) && WakeInv(s) && p in s.procs && s.procs[p].op.RelPid? && l in s.procs[p].held
    ensures l != s.procs[p].lock
  {
    FreeIsNotHeld(s, p);
  }

  lemma SeenFree(s: Sys, p: Pid)
    requires WakeInv(s) && p in s.procs && SeesFree(s.procs[p].op)
    ensures s.procs[p].lock !in s.locked
  {
    hide Waits; hide WillWake; hide SeesFree;
  }

  lemma FreeIsNotHeld(s: Sys, p: Pid)
    requires LockInv(s) && WakeInv(s) && p in s.procs && SeesFree(s.procs[p].op)
    ensures s.procs[p].lock !in s.locked && s.procs[p].lock !in s.procs[p].held
  {
    hide WakeInv; hide Holds;
    SeenFree(s, p);
  }

  lemma AdvancePid(s: Sys, p: Pid)
    requires PidInv(s) && LockInv(s) && WakeInv(s) && Enabled(s, Advance(p))
    ensures PidInv(Do(s, Advance(p)))
  {
    hide Do; hide LockInv; hide WakeInv;
    var t := Do(s, Advance(p));
    AdvanceProcs(s, p);
    forall q, l | q in t.procs && l in t.procs[q].held ensures l in t.pid && t.pid[l] == q {
      if q == p { AdvanceOwnHolder(s, p, l); } else { AdvanceOtherHolder(s, p, q, l); }
    }
    forall q | q in t.procs && t.procs[q].op == AcqDone
      ensures t.procs[q].lock in t.pid && t.pid[t.procs[q].lock] == q
    {
      var l := t.procs[q].lock;
      if q == p { AdvanceOwnHolder(s, p, l); } else { AdvanceOtherHolder(s, p, q, l); }
    }
  }

  lemma AdvanceState(s: Sys, p: Pid)
    requires StateInv(s) && Enabled(s, Advance(p))
    ensures StateInv(Do(s, Advance(p)))
  {
    hide TakesSpin; hide LeavesSpin; hide TakesTable; hide LeavesTable; hide NextOp;
    OpFrom(s.procs[p].op, s.procs[p].lock in s.locked);
  }

  lemma AdvanceWaiter(s: Sys, p: Pid, q: Pid)
    requires SpinInv(s) && WakeInv(s) && Enabled(s, Advance(p)) && q in s.procs && Waits(Do(s, Advance(p)).procs[q])
    ensures var t := Do(s, Advance(p)); var l := t.procs[q].lock;
      l in t.locked || (l in t.spin && t.spin[l] in t.procs && WillWake(t.procs[t.spin[l]], q))
  {
    hide TakesTable; hide LeavesTable; hide NextOp;
    OpFrom(s.procs[p].op, s.procs[p].lock in s.locked);
    var t := Do(s, Advance(p));
    var l := s.procs[q].lock;
    if q != p && l !in s.locked {
      assert WillWake(s.procs[s.spin[l]], q);
    }
  }

  lemma AdvanceWake(s: Sys, p: Pid)
    requires SpinInv(s) && LockInv(s) && WakeInv(s) && Enabled(s, Advance(p))
    ensures WakeInv(Do(s, Advance(p)))
  {
    hide Do; hide WillWake; hide Waits; hide SeesFree; hide SpinInv; hide LockInv; hide Enabled;
    AdvanceProcs(s, p);
    var t := Do(s, Advance(p));
    forall q | q in t.procs
      ensures (t.procs[q].op.SlpTable? || t.procs[q].op.SlpUnlock?) ==> t.procs[q].lock in t.locked
      ensures SeesFree(t.procs[q].op) ==> t.procs[q].lock !in t.locked
      ensures Waits(t.procs[q]) ==> var l := t.procs[q].lock;
        l in t.locked || (l in t.spin && t.spin[l] in t.procs && WillWake(t.procs[t.spin[l]], q))
    {
      AdvanceSeesFree(s, p, q);
      if Waits(t.procs[q]) {
        AdvanceWaiter(s, p, q);
      }
    }
  }

  lemma AdvanceSeesFree(s: Sys, p: Pid, q: Pid)
    requires SpinInv(s) && LockInv(s) && WakeInv(s) && Enabled(s, Advance(p)) && q in s.procs
    ensures var t := Do(s, Advance(p));
      && ((t.procs[q].op.SlpTable? || t.procs[q].op.SlpUnlock?) ==> t.procs[q].lock in t.locked)
      && (SeesFree(t.procs[q].op) ==> t.procs[q].lock !in t.locked)
  {
    hide TakesTable; hide LeavesTable; hide NextOp; hide WillWake;
    OpFrom(s.procs[p].op, s.procs[p].lock in s.locked);
  }

  // ------------------------------------------------------------------ the other steps

  function Put(s: Sys, x: Pid, u: Proc): (r: Sys) {
    s.(procs := s.procs[x := u])
  }

  /** A process that is in none of the places the invariants speak of, apart from the locks it holds. */
  predicate Outside(u: Proc) {
    && !InSpin(u.op) && !InTable(u.op) && !u.op.SlpOff? && !u.op.YldOff?
    && u.state == Running
    && (u.op.RelSpin? ==> u.lock in u.held)
  }

  lemma OutsideLocks(s: Sys, x: Pid, u: Proc)
    requires LockInv(s) && PidInv(s) && Outside(u)
    requires if x in s.procs then Outside(s.procs[x]) && u.held == s.procs[x].held else u.held == {}
    ensures LockInv(Put(s, x, u)) && PidInv(Put(s, x, u))
  {
    hide PidInv;
    forall l | l in s.setter ensures Holds(Put(s, x, u).procs[s.setter[l]], l) {
      assert Holds(s.procs[s.setter[l]], l);
    }
    OutsidePids(s, x, u);
  }

  lemma OutsidePids(s: Sys, x: Pid, u: Proc)
    requires LockInv(s) && PidInv(s) && Outside(u)
    requires if x in s.procs then Outside(s.procs[x]) && u.held == s.procs[x].held else u.held == {}
    ensures PidInv(Put(s, x, u))
  {
    forall l | l in s.setter ensures Holds(Put(s, x, u).procs[s.setter[l]], l) {
      assert Holds(s.procs[s.setter[l]], l);
    }
  }

  /** Moving a process between such places, or adding one, keeps everything. */
  lemma OutsideInv(s: Sys, x: Pid, u: Proc)
    requires Inv(s) && Outside(u)
    requires if x in s.procs then Outside(s.procs[x]) && u.held == s.procs[x].held else u.held == {}
    ensures Inv(Put(s, x, u))
  {
    hide LockInv; hide PidInv; hide SpinInv; hide WakeInv;
    OutsideLocks(s, x, u);
    OutsideSpin(s, x, u);
  }

  lemma OutsideSpin(s: Sys, x: Pid, u: Proc)
    requires SpinInv(s) && WakeInv(s) && Outside(u) && (x in s.procs ==> Outside(s.procs[x]))
    ensures SpinInv(Put(s, x, u)) && WakeInv(Put(s, x, u))
  {
    var t := Put(s, x, u);
    forall q | q in t.procs && Waits(t.procs[q])
      ensures var l := t.procs[q].lock;
        l in t.locked || (l in t.spin && t.spin[l] in t.procs && WillWake(t.procs[t.spin[l]], q))
    {
      assert Waits(s.procs[q]);
    }
  }

  /** A process whose run state alone changes, or the list of processes it has still to look at. */
  predicate SamePlace(u: Proc, v: Proc) {
    u.op == v.op && u.lock == v.lock && u.held == v.held && u.chan == v.chan
  }

  lemma SamePlaceLocks(s: Sys, x: Pid, u: Proc)
    requires LockInv(s) && x in s.procs && SamePlace(s.procs[x], u)
    ensures LockInv(Put(s, x, u))
  {
    hide Claiming;
    var t := Put(s, x, u);
    forall l | l in s.setter ensures t.setter[l] in t.procs && Holds(t.procs[s.setter[l]], l) {
      assert Holds(s.procs[s.setter[l]], l);
    }
    forall p, l | p in t.procs && l in t.procs[p].held ensures l in t.setter && t.setter[l] == p {
      assert l in s.procs[p].held;
    }
  }

  lemma SamePlacePids(s: Sys, x: Pid, u: Proc)
    requires PidInv(s) && x in s.procs && SamePlace(s.procs[x], u)
    ensures PidInv(Put(s, x, u))
  {
    var t := Put(s, x, u);
    forall p, l | p in t.procs && l in t.procs[p].held ensures l in t.pid && t.pid[l] == p {
      assert l in s.procs[p].held;
    }
  }

  lemma SamePlaceSpins(s: Sys, x: Pid, u: Proc)
    requires SpinInv(s) && TableInv(s) && x in s.procs && SamePlace(s.procs[x], u)
    ensures SpinInv(Put(s, x, u)) && TableInv(Put(s, x, u))
  {
    hide InSpin; hide InTable;
  }

  /** Waking a process that is off the processor keeps everything. */
  lemma WakeOne(s: Sys, x: Pid, u: Proc)
    requires Inv(s) && x in s.procs && !s.procs[x].op.SlpSched?
    requires u == s.procs[x].(state := Woken(s.procs[x]).state, killed := u.killed)
    ensures Inv(Put(s, x, u))
  {
    hide LockInv; hide PidInv; hide SpinInv; hide TableInv; hide WakeInv;
    SamePlaceLocks(s, x, u);
    SamePlacePids(s, x, u);
    SamePlaceSpins(s, x, u);
    WokenWake(s, x, u);
  }

  lemma WokenWake(s: Sys, x: Pid, u: Proc)
    requires WakeInv(s) && x in s.procs && SamePlace(s.procs[x], u) && u.todo == s.procs[x].todo
    requires Waits(u) ==> Waits(s.procs[x])
    ensures WakeInv(Put(s, x, u))
  {
    hide Waits; hide SeesFree;
    var t := Put(s, x, u);
    forall q | q in t.procs && Waits(t.procs[q])
      ensures var l := t.procs[q].lock;
        l in t.locked || (l in t.spin && t.spin[l] in t.procs && WillWake(t.procs[t.spin[l]], q))
    {
      assert Waits(s.procs[q]);
    }
  }

  lemma SpawnInv(s: Sys, p: Pid)
    requires Inv(s) && Enabled(s, Spawn(p))
    ensures Inv(Do(s, Spawn(p)))
  {
    hide Inv;
    OutsideInv(s, p, Proc(Idle, 0, {}, 0, false, {}, Running, None, false));
  }

  lemma BeginInv(s: Sys, p: Pid, op: Op, l: LockId, target: Pid)
    requires Inv(s) && Enabled(s, Begin(p, op, l, target))
    ensures Inv(Do(s, Begin(p, op, l, target)))
  {
    hide LockInv; hide PidInv; hide SpinInv; hide TableInv; hide WakeInv;
    OutsideInv(s, p, s.procs[p].(op := op, lock := l, target := target));
  }

  lemma TodoWake(s: Sys, p: Pid, x: Pid)
    requires SpinInv(s) && WakeInv(s) && p in s.procs && s.procs[p].op == RelScan
    requires x in s.procs && s.procs[x].lock == s.procs[p].lock ==> !Waits(s.procs[x])
    ensures WakeInv(Put(s, p, s.procs[p].(todo := s.procs[p].todo - {x})))
  {
    var t := Put(s, p, s.procs[p].(todo := s.procs[p].todo - {x}));
    forall q | q in t.procs && Waits(t.procs[q])
      ensures var l := t.procs[q].lock;
        l in t.locked || (l in t.spin && t.spin[l] in t.procs && WillWake(t.procs[t.spin[l]], q))
    {
      assert Waits(s.procs[q]);
    }
  }

  /** Who waits while another process has the table lock is off the processor and asleep. */
  lemma WaitsAsleep(s: Sys, p: Pid, x: Pid)
    requires TableInv(s) && StateInv(s) && p in s.procs
    requires (s.procs[p].op == RelScan || s.procs[p].op == KillHit) && x in s.procs
    ensures !s.procs[x].op.SlpSched?
    ensures Waits(s.procs[x]) ==> s.procs[x].state == Sleeping && s.procs[x].chan == Some(s.procs[x].lock)
  {
    assert InTable(s.procs[p].op);
  }

  lemma LookInv(s: Sys, p: Pid, x: Pid)
    requires Inv(s) && Enabled(s, Look(p, x))
    ensures Inv(Do(s, Look(p, x)))
  {
    hide SpinInv; hide TableInv; hide LockInv; hide PidInv; hide WakeInv; hide Waits;
    var l := s.procs[p].lock;
    var t := s;
    if x in s.procs {
      WaitsAsleep(s, p, x);
      if s.procs[x].state == Sleeping && s.procs[x].chan == Some(l) {
        WakeOne(s, x, s.procs[x].(state := Runnable));
        t := Put(s, x, s.procs[x].(state := Runnable));
        WaitsAsleep(t, p, x);
      }
    }
    var u := t.procs[p].(todo := t.procs[p].todo - {x});
    TodoWake(t, p, x);
    SamePlaceLocks(t, p, u);
    SamePlacePids(t, p, u);
    SamePlaceSpins(t, p, u);
    assert Do(s, Look(p, x)) == Put(t, p, u);
  }

  lemma HitOut(s: Sys, p: Pid)
    requires Inv(s) && p in s.procs && s.procs[p].op == KillHit
    ensures Inv(Put(s, p, s.procs[p].(op := KillOut)))
  {
    hide LockInv; hide PidInv; hide SpinInv; hide WakeInv;
    HitOutLocks(s, p);
    HitOutSpin(s, p);
  }

  lemma HitOutSpin(s: Sys, p: Pid)
    requires SpinInv(s) && WakeInv(s) && p in s.procs && s.procs[p].op == KillHit
    ensures SpinInv(Put(s, p, s.procs[p].(op := KillOut))) && WakeInv(Put(s, p, s.procs[p].(op := KillOut)))
  {
    var t := Put(s, p, s.procs[p].(op := KillOut));
    forall q | q in t.procs && Waits(t.procs[q])
      ensures var l := t.procs[q].lock;
        l in t.locked || (l in t.spin && t.spin[l] in t.procs && WillWake(t.procs[t.spin[l]], q))
    {
      assert Waits(s.procs[q]);
    }
  }

  lemma HitOutLocks(s: Sys, p: Pid)
    requires LockInv(s) && PidInv(s) && p in s.procs && s.procs[p].op == KillHit
    ensures LockInv(Put(s, p, s.procs[p].(op := KillOut))) && PidInv(Put(s, p, s.procs[p].(op := KillOut)))
  {
    hide PidInv;
    var t := Put(s, p, s.procs[p].(op := KillOut));
    forall l | l in s.setter ensures Holds(t.procs[s.setter[l]], l) {
      assert Holds(s.procs[s.setter[l]], l);
    }
    HitOutPids(s, p);
  }

  lemma HitOutPids(s: Sys, p: Pid)
    requires PidInv(s) && p in s.procs && s.procs[p].op == KillHit
    ensures PidInv(Put(s, p, s.procs[p].(op := KillOut)))
  {
  }

  lemma HitInv(s: Sys, p: Pid)
    requires Inv(s) && Enabled(s, Hit(p))
    ensures Inv(Do(s, Hit(p)))
  {
    hide SpinInv; hide TableInv; hide LockInv; hide PidInv; hide WakeInv; hide Waits;
    var x := s.procs[p].target;
    var t := s;
    if x in s.procs {
      WaitsAsleep(s, p, x);
      var u := Woken(s.procs[x]).(killed := true);
      WakeOne(s, x, u);
      t := Put(s, x, u);
    }
    HitOut(t, p);
    assert Do(s, Hit(p)) == Put(t, p, t.procs[p].(op := KillOut));
  }

  /** Every step of every process keeps the invariant. */
  lemma DoKeepsInv(s: Sys, a: Action)
    requires Inv(s) && Enabled(s, a)
    ensures Inv(Do(s, a))
  {
    hide Do; hide Enabled; hide SpinInv; hide TableInv; hide LockInv; hide PidInv; hide StateInv; hide WakeInv;
    match a
    case Spawn(p) => SpawnInv(s, p);
    case Begin(p, op, l, t) => BeginInv(s, p, op, l, t);
    case Look(p, x) => LookInv(s, p, x);
    case Hit(p) => HitInv(s, p);
    case Advance(p) =>
      AdvanceSpin(s, p);
      AdvanceTable(s, p);
      AdvanceLock(s, p);
      AdvancePid(s, p);
      AdvanceState(s, p);
      AdvanceWake(s, p);
  }

  // ------------------------------------------------------------------ runs

  ghost predicate IsRun(states: seq<Sys>, actions: seq<Action>) {
    && |states| == |actions| + 1
    && Init(states[0])
    && forall i :: 0 <= i < |actions| ==> Enabled(states[i], actions[i]) && states[i + 1] == Do(states[i], actions[i])
  }

  lemma {:induction false} RunKeepsInv(states: seq<Sys>, actions: seq<Action>, i: nat)
    requires IsRun(states, actions) && i < |states|
    ensures Inv(states[i])
  {
    if i > 0 {
      RunKeepsInv(states, actions, i - 1);
      DoKeepsInv(states[i - 1], actions[i - 1]);
    }
  }

  /** Mutual exclusion: in every run at most one process holds a sleep lock, and at most one is inside the
      critical section of its spin lock or of the process table. */
  lemma MutualExclusion(states: seq<Sys>, actions: seq<Action>, i: nat, p: Pid, q: Pid, l: LockId)
    requires IsRun(states, actions) && i < |states| && p in states[i].procs && q in states[i].procs && p != q
    ensures !(Holds(states[i].procs[p], l) && Holds(states[i].procs[q], l))
    ensures InSpin(states[i].procs[p].op) && InSpin(states[i].procs[q].op) ==>
      states[i].procs[p].lock != states[i].procs[q].lock
    ensures !(InTable(states[i].procs[p].op) && InTable(states[i].procs[q].op))
  {
    RunKeepsInv(states, actions, i);
    if Holds(states[i].procs[q], l) {
      OneHolder(states[i], p, q, l);
    }
  }

  /** No lost wakeup: in every run a process asleep on a lock has either some process holding that lock, or a
      releaser that has cleared it and has yet to look at the sleeper. */
  lemma NoLostWakeup(states: seq<Sys>, actions: seq<Action>, i: nat, p: Pid) returns (q: Pid)
    requires IsRun(states, actions) && i < |states| && p in states[i].procs && states[i].procs[p].state == Sleeping
    ensures var s := states[i]; var l := s.procs[p].lock;
      && s.procs[p].chan == Some(l) && q in s.procs
      && (Holds(s.procs[q], l) || (s.procs[q].lock == l && WillWake(s.procs[q], p)))
  {
    RunKeepsInv(states, actions, i);
    var s := states[i];
    var l := s.procs[p].lock;
    assert Waits(s.procs[p]);
    q := if l in s.locked then s.setter[l] else s.spin[l];
  }

  /** When a releaser has looked at every process, none is left asleep on the lock. */
  lemma WakeupReachesAll(states: seq<Sys>, actions: seq<Action>, i: nat, q: Pid, p: Pid)
    requires IsRun(states, actions) && i < |states| && q in states[i].procs && p in states[i].procs
    requires states[i].procs[q].op == RelTableOut
    ensures !(states[i].procs[p].state == Sleeping && states[i].procs[p].chan == Some(states[i].procs[q].lock))
  {
    RunKeepsInv(states, actions, i);
    var s := states[i];
    assert SeesFree(s.procs[q].op) && InSpin(s.procs[q].op);
    if s.procs[p].state == Sleeping {
      assert Waits(s.procs[p]);
    }
  }

  lemma HolderByPid(s: Sys, p: Pid)
    requires SpinInv(s) && LockInv(s) && PidInv(s) && p in s.procs && s.procs[p].op == HldTest
    ensures var l := s.procs[p].lock;
      l in s.locked && l in s.pid && s.pid[l] == p <==> l in s.procs[p].held
  {
    var l := s.procs[p].lock;
    assert InSpin(s.procs[p].op);
    if l in s.locked {
      assert Holds(s.procs[s.setter[l]], l);
      assert l in s.procs[s.setter[l]].held;
    }
  }

  /** holdingsleep answers whether the caller holds the lock. */
  lemma HoldingSleepIsRight(states: seq<Sys>, actions: seq<Action>, i: nat, p: Pid)
    requires IsRun(states, actions) && i < |actions| && p in states[i].procs
    requires states[i].procs[p].op == HldTest && actions[i] == Advance(p)
    ensures states[i + 1].procs[p].answer <==> states[i].procs[p].lock in states[i].procs[p].held
  {
    hide SpinInv; hide TableInv; hide LockInv; hide PidInv; hide StateInv; hide WakeInv; hide NextOp;
    RunKeepsInv(states, actions, i);
    HolderByPid(states[i], p);
  }

  // ------------------------------------------------------------------ whole calls

  /** The operation a place belongs to, by its first place. */
  function CallOf(op: Op): (r: Op) {
    if op.Idle? then Idle
    else if op.RelSpin? || op.RelClear? || op.RelPid? || op.RelTable? || op.RelScan? || op.RelTableOut? || op.RelOut?
    then RelSpin
    else if op.HldSpin? || op.HldTest? || op.HldOut? then HldSpin
    else if op.KillTable? || op.KillHit? || op.KillOut? then KillTable
    else if op.YldTable? || op.YldState? || op.YldSched? || op.YldOff? || op.YldRelease? then YldTable
    else AcqSpin
  }

  /** The last place of an operation. */
  function LastOf(call: Op): (r: Op) {
    match call
    case RelSpin => RelOut
    case HldSpin => HldOut
    case KillTable => KillOut
    case YldTable => YldRelease
    case _ => AcqDone
  }

  lemma OpCall(op: Op, taken: bool)
    ensures op.Idle? <==> CallOf(op).Idle?
    ensures var n := NextOp(op, taken);
      if n.Idle? then op.Idle? || op == LastOf(CallOf(op)) else CallOf(n) == CallOf(op)
  {
    match CallOf(op)
    case RelSpin =>
    case HldSpin =>
    case KillTable =>
    case YldTable =>
    case _ =>
  }

  lemma OpPlaces(op: Op, taken: bool)
    ensures var n := NextOp(op, taken);
      && !n.RelSpin? && (n.RelClear? <==> op.RelSpin?) && (Claiming(n) <==> op.AcqSet? || op.AcqSetPid?)
      && (n.HldOut? <==> op.HldTest?) && (n.KillOut? <==> op.KillHit?) && (op.AcqDone? ==> n.Idle?)
    ensures (op.RelClear? ==> CallOf(op).RelSpin?) && (op.HldTest? || op.AcqSet? ==> !CallOf(op).RelSpin?)
  {
  }

  /** A call: the operation, its lock and target, the locks held when it began, and whether the target existed. */
  datatype Call = Call(op: Op, lock: LockId, target: Pid, held: set<LockId>, there: bool)

  function CallAt(s: Sys, a: Action): (r: Call)
    requires a.Begin? && a.p in s.procs
  {
    Call(a.op, a.lock, a.target, s.procs[a.p].held, a.target in s.procs)
  }

  /** What a call in progress has done so far. */
  ghost predicate InCall(s: Sys, p: Pid, c: Call) {
    && p in s.procs && !c.op.Idle? && CallOf(s.procs[p].op) == c.op
    && s.procs[p].lock == c.lock && s.procs[p].target == c.target
    && s.procs[p].held ==
       (if c.op.RelSpin? && !s.procs[p].op.RelSpin? && !s.procs[p].op.RelClear? then c.held - {c.lock} else c.held)
    && (Claiming(s.procs[p].op) ==> c.lock !in c.held)
    && (s.procs[p].op.HldOut? ==> (s.procs[p].answer <==> c.lock in c.held))
    && (c.there ==> c.target in s.procs)
    && (c.there && s.procs[p].op.KillOut? ==> s.procs[c.target].killed)
  }

  /** Another process's step moves nobody else on. */
  lemma OthersStep(s: Sys, a: Action, p: Pid, c: Call)
    requires InCall(s, p, c) && Enabled(s, a) && a.p != p
    ensures InCall(Do(s, a), p, c)
  {
    hide NextOp; hide CallOf;
  }

  lemma OwnStep(s: Sys, p: Pid, c: Call)
    requires Inv(s) && InCall(s, p, c) && Enabled(s, Advance(p)) && !NextOp(s.procs[p].op, c.lock in s.locked).Idle?
    ensures InCall(Do(s, Advance(p)), p, c)
  {
    hide SpinInv; hide TableInv; hide PidInv; hide StateInv; hide LockInv; hide WakeInv;
    hide TakesSpin; hide LeavesSpin; hide TakesTable; hide LeavesTable; hide NextOp; hide CallOf; hide LastOf;
    OpCall(s.procs[p].op, c.lock in s.locked);
    OpPlaces(s.procs[p].op, c.lock in s.locked);
    if s.procs[p].op.AcqSet? {
      FreeIsNotHeld(s, p);
    } else if s.procs[p].op.HldTest? {
      HolderByPid(s, p);
    }
  }

  lemma CallStep(s: Sys, a: Action, p: Pid, c: Call)
    requires Inv(s) && InCall(s, p, c) && Enabled(s, a) && p in Do(s, a).procs && !Do(s, a).procs[p].op.Idle?
    ensures InCall(Do(s, a), p, c)
  {
    hide Inv;
    if a.p != p {
      OthersStep(s, a, p, c);
    } else if a.Advance? {
      OwnStep(s, p, c);
    }
  }

  /** A call ends with the last step of its own operation. */
  lemma LastStep(s: Sys, a: Action, p: Pid, c: Call)
    requires InCall(s, p, c) && Enabled(s, a) && p in Do(s, a).procs && Do(s, a).procs[p].op.Idle?
    ensures a == Advance(p)
    ensures s.procs[p].op == LastOf(c.op)
  {
    hide TakesSpin; hide LeavesSpin; hide TakesTable; hide LeavesTable; hide NextOp; hide CallOf; hide LastOf;
    OpCall(s.procs[p].op, c.lock in s.locked);
  }

  ghost predicate Busy(s: Sys, p: Pid) {
    p in s.procs && !s.procs[p].op.Idle?
  }

  /** Process p begins an operation in step b and is back from it in state e. */
  ghost predicate IsCall(states: seq<Sys>, actions: seq<Action>, b: nat, e: nat, p: Pid) {
    && b < e < |states| && b < |actions| && actions[b].Begin? && actions[b].p == p
    && (forall m :: b < m < e ==> Busy(states[m], p))
    && p in states[b].procs && p in states[e].procs && states[e].procs[p].op.Idle?
  }

  lemma {:induction false} CallInProgress(states: seq<Sys>, actions: seq<Action>, b: nat, k: nat, p: Pid)
    requires IsRun(states, actions) && b < k < |states| && actions[b].Begin? && actions[b].p == p
    requires forall m :: b < m <= k ==> Busy(states[m], p)
    requires p in states[b].procs
    ensures InCall(states[k], p, CallAt(states[b], actions[b]))
  {
    hide Inv; hide Do; hide InCall; hide Enabled;
    if k == b + 1 {
      FirstStep(states[b], actions[b]);
    } else {
      CallInProgress(states, actions, b, k - 1, p);
      RunKeepsInv(states, actions, k - 1);
      assert Busy(states[k], p);
      CallStep(states[k - 1], actions[k - 1], p, CallAt(states[b], actions[b]));
    }
  }

  lemma CallOfIdle(s: Sys, p: Pid, c: Call)
    requires InCall(s, p, c)
    ensures Busy(s, p)
  {
  }

  lemma FirstStep(s: Sys, a: Action)
    requires Enabled(s, a) && a.Begin?
    ensures InCall(Do(s, a), a.p, CallAt(s, a))
  {
  }

  /** The state before the last step of a call. */
  lemma CallReturns(states: seq<Sys>, actions: seq<Action>, b: nat, e: nat, p: Pid)
    requires IsRun(states, actions) && IsCall(states, actions, b, e, p)
    ensures b + 1 < e && actions[e - 1] == Advance(p) && Enabled(states[e - 1], actions[e - 1])
    ensures states[e] == Do(states[e - 1], actions[e - 1])
    ensures Inv(states[e - 1]) && Inv(states[e]) && InCall(states[e - 1], p, CallAt(states[b], actions[b]))
    ensures states[e - 1].procs[p].op == LastOf(actions[b].op)
  {
    hide Inv; hide InCall; hide Do; hide Enabled; hide CallOf; hide LastOf;
    assert Enabled(states[b], actions[b]) && states[b + 1] == Do(states[b], actions[b]);
    assert e != b + 1 by {
      FirstStep(states[b], actions[b]);
      CallOfIdle(states[b + 1], p, CallAt(states[b], actions[b]));
    }
    CallInProgress(states, actions, b, e - 1, p);
    RunKeepsInv(states, actions, e - 1);
    RunKeepsInv(states, actions, e);
    LastStep(states[e - 1], actions[e - 1], p, CallAt(states[b], actions[b]));
  }

  /** acquiresleep returns only with the lock: `locked` is set, by the caller and with its pid, and the caller holds
      what it held before and this lock too. A process that already holds the lock never returns from it. */
  lemma AcquireReturnsWithLock(states: seq<Sys>, actions: seq<Action>, b: nat, e: nat, p: Pid)
    requires IsRun(states, actions) && IsCall(states, actions, b, e, p) && actions[b].op == AcqSpin
    ensures var l, t := actions[b].lock, states[e];
      && l !in states[b].procs[p].held && t.procs[p].held == states[b].procs[p].held + {l}
      && l in t.locked && l in t.setter && t.setter[l] == p && l in t.pid && t.pid[l] == p
  {
    hide SpinInv; hide TableInv; hide StateInv; hide WakeInv;
    CallReturns(states, actions, b, e, p);
  }

  /** releasesleep returns only without the lock: it is free, the caller holds all else it held before, and no process
      is left asleep on it. */
  lemma ReleaseReturnsWithoutLock(states: seq<Sys>, actions: seq<Action>, b: nat, e: nat, p: Pid)
    requires IsRun(states, actions) && IsCall(states, actions, b, e, p) && actions[b].op == RelSpin
    ensures var l, t := actions[b].lock, states[e];
      && l in states[b].procs[p].held && t.procs[p].held == states[b].procs[p].held - {l} && l !in t.locked
      && forall q :: q in t.procs ==> !(t.procs[q].state == Sleeping && t.procs[q].chan == Some(l))
  {
    hide LockInv; hide PidInv; hide TableInv;
    CallReturns(states, actions, b, e, p);
    var l, s, t := actions[b].lock, states[e - 1], states[e];
    assert SeesFree(s.procs[p].op) && InSpin(s.procs[p].op);
    forall q | q in t.procs ensures !(t.procs[q].state == Sleeping && t.procs[q].chan == Some(l)) {
      if t.procs[q].state == Sleeping {
        assert Waits(t.procs[q]);
      }
    }
  }

  /** holdingsleep, kill and yield leave the caller's locks alone; holdingsleep answers whether the caller holds the
      lock; kill leaves its target marked. */
  lemma OthersReturn(states: seq<Sys>, actions: seq<Action>, b: nat, e: nat, p: Pid)
    requires IsRun(states, actions) && IsCall(states, actions, b, e, p)
    requires actions[b].op == HldSpin || actions[b].op == KillTable || actions[b].op == YldTable
    ensures var was, now := states[b].procs[p], states[e].procs[p];
      && now.held == was.held
      && (actions[b].op == HldSpin ==> (now.answer <==> actions[b].lock in now.held))
    ensures var x := actions[b].target;
      actions[b].op == KillTable && x in states[b].procs ==> x in states[e].procs && states[e].procs[x].killed
  {
    hide Inv;
    CallReturns(states, actions, b, e, p);
  }

  /** kill marks its target and leaves it awake. */
  lemma HitWakes(states: seq<Sys>, actions: seq<Action>, i: nat)
    requires IsRun(states, actions) && i < |actions| && actions[i].Hit? && actions[i].p in states[i].procs
    requires states[i].procs[actions[i].p].target in states[i].procs
    ensures var x := states[i].procs[actions[i].p].target;
      && x in states[i + 1].procs && states[i + 1].procs[x].killed && states[i + 1].procs[x].state != Sleeping
      && (states[i].procs[x].state != Sleeping ==> states[i + 1].procs[x].state == states[i].procs[x].state)
  {
    assert states[i + 1] == Do(states[i], actions[i]);
  }
}
