module LogSystem {
  // The log with concurrent file-system calls and crashes: reservation of log space, and refinement of a store
  // that flushes atomically. The buffer cache appears only as the contents of the pinned blocks (`pend`); the
  // module LogRefinement shows that the log code over the cache takes these steps.

  import opened LogDisk
  import opened Options
  import opened Params
  import opened Sets
  import opened Sums

  type Pid = nat

  /** `base` is the disk at the start of the phase; it is history, not a variable of the kernel. */
  datatype Phase =
    | Running
    | Committing(base: Disk, k: nat)      // k block writes of the commit are done
    | Recovering(base: Disk, k: nat)      // k block writes of the recovery are done

  datatype Sys = Sys(
    disk: Disk,
    lh: seq<nat>,                // the blocks of the running transaction
    pend: map<nat, Block>,       // their contents in the cache
    ops: map<Pid, nat>,          // the calls in progress, with how many blocks each added
    phase: Phase)

  datatype Step =
    | Begin(p: Pid)
    | Write(p: Pid, b: nat, data: Block)
    | End(p: Pid)
    | Flush                      // one block write of a commit
    | Crash
    | Repair                     // one block write of a recovery

  /** The guard of `log_write`: without it the kernel panics. */
  predicate Fits(L: Layout, s: Sys) {
    |s.lh| < LOGSIZE && |s.lh| < L.size - 1
  }

  /** A call writes a home block, a new one only within its budget. */
  predicate InBudget(L: Layout, s: Sys, p: Pid, b: nat) {
    && p in s.ops && s.phase.Running?
    && b < |s.disk| && !InLog(L, b)
    && (b in s.lh || s.ops[p] < MAXOPBLOCKS)
  }

  function Data(homes: seq<nat>, pend: map<nat, Block>): (r: seq<Block>)
    requires forall i :: 0 <= i < |homes| ==> homes[i] in pend
    ensures |r| == |homes| && forall i :: 0 <= i < |homes| ==> r[i] == pend[homes[i]]
  {
    seq(|homes|, i requires 0 <= i < |homes| => pend[homes[i]])
  }

  predicate Enabled(L: Layout, s: Sys, st: Step) {
    match st
    case Begin(p) =>
      p !in s.ops && s.phase.Running? && |s.lh| + (|s.ops| + 1) * MAXOPBLOCKS <= LOGSIZE
    case Write(p, b, data) => InBudget(L, s, p, b) && Fits(L, s)
    case End(p) => p in s.ops && s.phase.Running?
    case Flush => s.phase.Committing?
    case Crash => LogOk(L, s.disk)
    case Repair => s.phase.Recovering?
  }

  /** The last call to end starts the commit; an empty transaction has nothing to commit. */
  function Do(L: Layout, s: Sys, st: Step): (r: Sys)
    requires Inv(L, s) && Enabled(L, s, st)
  {
    match st
    case Begin(p) => s.(ops := s.ops[p := 0])
    case Write(p, b, data) =>
      s.(pend := s.pend[b := data],
         lh := if b in s.lh then s.lh else s.lh + [b],
         ops := if b in s.lh then s.ops else s.ops[p := s.ops[p] + 1])
    case End(p) =>
      var ops := map q | q in s.ops && q != p :: s.ops[q];
      s.(ops := ops, phase := if ops == map[] && s.lh != [] then Committing(s.disk, 0) else Running)
    case Flush =>
      var k := s.phase.k;
      var disk := CommitWrite(L, s.lh, Data(s.lh, s.pend), s.disk, k);
      if k + 1 < 2 * |s.lh| + 2 then s.(disk := disk, phase := Committing(s.phase.base, k + 1))
      else Sys(disk, [], map[], s.ops, Running)
    case Crash => Sys(s.disk, Homes(L, s.disk), map[], map[], Recovering(s.disk, 0))
    case Repair =>
      var k := s.phase.k;
      var disk := RecoverWrite(L, s.lh, s.disk, k);
      if k < |s.lh| then s.(disk := disk, phase := Recovering(s.phase.base, k + 1))
      else Sys(disk, [], map[], s.ops, Running)
  }

  // ------------------------------------------------------------------ the invariant

  function Left(used: nat): (r: nat) {
    if used <= MAXOPBLOCKS then MAXOPBLOCKS - used else 0
  }

  /** Log space the calls in progress may still ask for. */
  ghost function Unused(ops: map<Pid, nat>): (r: nat) {
    Sum(Lefts(ops))
  }

  function Lefts(ops: map<Pid, nat>): (r: map<Pid, nat>) {
    map p | p in ops :: Left(ops[p])
  }

  lemma UnusedWithout(ops: map<Pid, nat>, p: Pid)
    requires p in ops
    ensures Unused(ops) == Left(ops[p]) + Unused(ops - {p})
  {
    SumWithout(Lefts(ops), p);
    assert Lefts(ops) - {p} == Lefts(ops - {p});
  }

  lemma {:induction false} UnusedBound(ops: map<Pid, nat>)
    ensures Unused(ops) <= 10 * |ops|
    decreases |ops|
  {
    if ops != map[] {
      var p :| p in ops;
      UnusedWithout(ops, p);
      UnusedBound(ops - {p});
    }
  }

  ghost predicate Inv(L: Layout, s: Sys) {
    && HomesOk(L, |s.disk|, s.lh)
    && (forall p :: p in s.ops ==> s.ops[p] <= MAXOPBLOCKS)
    && match s.phase
       case Running =>
         && LogOk(L, s.disk) && Homes(L, s.disk) == []
         && s.pend.Keys == Elements(s.lh)
         && |s.lh| + Unused(s.ops) <= LOGSIZE
       case Committing(base, k) =>
         && s.ops == map[] && s.lh != [] && s.pend.Keys == Elements(s.lh)
         && LogOk(L, base) && Homes(L, base) == [] && |base| == |s.disk|
         && k < 2 * |s.lh| + 2
         && s.disk == CommitDisk(L, s.lh, Data(s.lh, s.pend), base, k)
       case Recovering(base, k) =>
         && s.ops == map[] && s.pend == map[]
         && LogOk(L, base) && s.lh == Homes(L, base) && |base| == |s.disk|
         && k <= |s.lh|
         && s.disk == RecoverDisk(L, s.lh, base, k)
  }

  // ------------------------------------------------------------------ what is on the disk, what the calls see

  /** What a recovery from a crash right now would give. */
  function Durable(L: Layout, s: Sys): (r: Disk)
    requires LogOk(L, s.disk)
  {
    Recovered(L, s.disk)
  }

  /** What the calls see: the disk overlaid with the pinned blocks; during recovery, what recovery will give. */
  function Volatile(L: Layout, s: Sys): (r: Disk)
    requires LogOk(L, s.disk)
    ensures |r| == |s.disk|
  {
    if s.phase.Recovering? then Durable(L, s)
    else seq(|s.disk|, b requires 0 <= b < |s.disk| => if b in s.pend then s.pend[b] else s.disk[b])
  }

  /** Recovery is possible from every state of the system. */
  lemma AlwaysRecoverable(L: Layout, s: Sys)
    requires Inv(L, s)
    ensures LogOk(L, s.disk)
  {
    match s.phase
    case Running =>
    case Committing(base, k) => CrashAtomicity(L, s.lh, Data(s.lh, s.pend), base, k, []);
    case Recovering(base, k) => RecoveryRestarts(L, base, k);
  }

  lemma BeginInv(L: Layout, s: Sys, p: Pid)
    requires Inv(L, s) && Enabled(L, s, Begin(p))
    ensures Inv(L, Do(L, s, Begin(p)))
  {
    hide HomesOk; hide LogOk; hide Elements; hide CommitDisk; hide RecoverDisk;
    var t := Do(L, s, Begin(p));
    UnusedBound(s.ops);
    assert (|s.ops| + 1) * MAXOPBLOCKS == 10 * |s.ops| + 10;
    UnusedWithout(t.ops, p);
    assert t.ops - {p} == s.ops;
  }

  lemma WriteInv(L: Layout, s: Sys, p: Pid, b: nat, data: Block)
    requires Inv(L, s) && Enabled(L, s, Write(p, b, data))
    ensures Inv(L, Do(L, s, Write(p, b, data)))
  {
    var t := Do(L, s, Write(p, b, data));
    assert Elements(t.lh) == Elements(s.lh) + {b};
    if b !in s.lh {
      UnusedWithout(s.ops, p);
      UnusedWithout(t.ops, p);
      assert t.ops - {p} == s.ops - {p};
    }
  }

  lemma EndInv(L: Layout, s: Sys, p: Pid)
    requires Inv(L, s) && Enabled(L, s, End(p))
    ensures Inv(L, Do(L, s, End(p)))
  {
    var t := Do(L, s, End(p));
    UnusedWithout(s.ops, p);
    assert t.ops == s.ops - {p};
  }

  lemma FlushInv(L: Layout, s: Sys)
    requires Inv(L, s) && Enabled(L, s, Flush)
    ensures Inv(L, Do(L, s, Flush)) && |Do(L, s, Flush).disk| == |s.disk|
  {
    hide CommitWrite; hide RecoverWrite; hide PutHeader; hide RecoverDisk;
    CommitFinishes(L, s.lh, Data(s.lh, s.pend), s.phase.base);
    assert Elements<nat>([]) == {};
    assert Unused(map[]) == 0;
  }

  lemma RepairInv(L: Layout, s: Sys)
    requires Inv(L, s) && Enabled(L, s, Repair)
    ensures Inv(L, Do(L, s, Repair)) && |Do(L, s, Repair).disk| == |s.disk|
  {
    hide RecoverWrite; hide PutHeader; hide CommitDisk;
    RecoveredMeaning(L, s.phase.base);
    assert Elements<nat>([]) == {};
    assert Unused(map[]) == 0;
  }

  /** Every step keeps the invariant: no call is in progress during a commit, the transaction names no block
      twice, and the log has room for all the calls in progress may still add. */
  lemma DoKeepsInv(L: Layout, s: Sys, st: Step)
    requires Inv(L, s) && Enabled(L, s, st)
    ensures Inv(L, Do(L, s, st)) && |Do(L, s, st).disk| == |s.disk|
  {
    match st
    case Begin(p) => BeginInv(L, s, p);
    case Write(p, b, data) => WriteInv(L, s, p, b, data);
    case End(p) => EndInv(L, s, p);
    case Flush => FlushInv(L, s);
    case Crash =>
    case Repair => RepairInv(L, s);
  }

  // ------------------------------------------------------------------ refinement

  /** Home blocks during a commit: before the header write recovery gives the base, after it the transaction. */
  lemma DuringCommit(L: Layout, s: Sys)
    requires Inv(L, s) && s.phase.Committing? && LogOk(L, s.disk)
    ensures s.phase.k <= |s.lh| ==> SameHome(L, Durable(L, s), s.phase.base)
    ensures s.phase.k > |s.lh| ==> SameHome(L, Durable(L, s), Volatile(L, s))
    ensures Updated(L, s.phase.base, s.lh, Data(s.lh, s.pend), Volatile(L, s))
  {
    var base, k := s.phase.base, s.phase.k;
    CrashAtomicity(L, s.lh, Data(s.lh, s.pend), base, k, []);
    UnloggedStays(L, s.lh, Data(s.lh, s.pend), base, k);
    forall b | 0 <= b < |base| && !InLog(L, b) && k > |s.lh| ensures Durable(L, s)[b] == Volatile(L, s)[b] {
      if b in s.lh {
        var i :| 0 <= i < |s.lh| && s.lh[i] == b;
        assert Durable(L, s)[s.lh[i]] == Data(s.lh, s.pend)[i];
      }
    }
  }

  lemma {:induction false} UnloggedStays(L: Layout, homes: seq<nat>, data: seq<Block>, d: Disk, k: nat)
    requires HomesOk(L, |d|, homes) && |data| == |homes| && k <= 2 * |homes| + 2
    ensures forall b :: 0 <= b < |d| && !InLog(L, b) && b !in homes ==> CommitDisk(L, homes, data, d, k)[b] == d[b]
  {
    if k > 0 {
      UnloggedStays(L, homes, data, d, k - 1);
    }
  }

  /** Every step refines a step of a store with a durable and a volatile copy: a write changes the volatile copy, the
      commit's header write copies volatile to durable while no call is in progress, a crash copies durable to
      volatile, and nothing else changes either. */
  lemma Refines(L: Layout, s: Sys, st: Step)
    requires Inv(L, s) && Enabled(L, s, st)
    ensures LogOk(L, s.disk) && LogOk(L, Do(L, s, st).disk)
    ensures var t := Do(L, s, st);
      var d, v, d', v' := Durable(L, s), Volatile(L, s), Durable(L, t), Volatile(L, t);
      match st
      case Write(p, b, data) => p in s.ops && SameHome(L, d', d) && SameHome(L, v', v[b := data])
      case Crash => SameHome(L, d', d) && SameHome(L, v', d)
      case Flush =>
        && s.ops == map[] && SameHome(L, v', v)
        && SameHome(L, d', if s.phase.k == |s.lh| then v else d)
      case _ => SameHome(L, d', d) && SameHome(L, v', v)
  {
    DoKeepsInv(L, s, st);
    AlwaysRecoverable(L, s);
    var t := Do(L, s, st);
    AlwaysRecoverable(L, t);
    if st.Flush? {
      FlushRefines(L, s);
    } else if st.Repair? {
      RepairRefines(L, s);
    }
  }

  lemma FlushRefines(L: Layout, s: Sys)
    requires Inv(L, s) && Enabled(L, s, Flush) && LogOk(L, s.disk) && LogOk(L, Do(L, s, Flush).disk)
    ensures var t := Do(L, s, Flush);
      && SameHome(L, Volatile(L, t), Volatile(L, s))
      && SameHome(L, Durable(L, t), if s.phase.k == |s.lh| then Volatile(L, s) else Durable(L, s))
  {
    if s.phase.k + 1 < 2 * |s.lh| + 2 {
      FlushRefinesMidway(L, s);
    } else {
      FlushRefinesLast(L, s);
    }
  }

  lemma FlushRefinesMidway(L: Layout, s: Sys)
    requires Inv(L, s) && Enabled(L, s, Flush) && LogOk(L, s.disk) && LogOk(L, Do(L, s, Flush).disk)
    requires s.phase.k + 1 < 2 * |s.lh| + 2
    ensures var t := Do(L, s, Flush);
      && SameHome(L, Volatile(L, t), Volatile(L, s))
      && SameHome(L, Durable(L, t), if s.phase.k == |s.lh| then Volatile(L, s) else Durable(L, s))
  {
    hide CommitDisk; hide CommitWrite; hide RecoverDisk; hide Recovered; hide LogOk; hide HomesOk; hide Updated;
    var t := Do(L, s, Flush);
    FlushInv(L, s);
    DuringCommit(L, s);
    DuringCommit(L, t);
    UpdatedUnique(L, s.phase.base, s.lh, Data(s.lh, s.pend), Volatile(L, s), Volatile(L, t));
  }

  lemma FlushRefinesLast(L: Layout, s: Sys)
    requires Inv(L, s) && Enabled(L, s, Flush) && LogOk(L, s.disk) && LogOk(L, Do(L, s, Flush).disk)
    requires s.phase.k + 1 == 2 * |s.lh| + 2
    ensures var t := Do(L, s, Flush);
      SameHome(L, Volatile(L, t), Volatile(L, s)) && SameHome(L, Durable(L, t), Durable(L, s))
  {
    hide CommitWrite; hide RecoverDisk; hide Updated;
    var t := Do(L, s, Flush);
    var data := Data(s.lh, s.pend);
    DuringCommit(L, s);
    CommitFinishes(L, s.lh, data, s.phase.base);
    assert t.disk == CommitDisk(L, s.lh, data, s.phase.base, 2 * |s.lh| + 2);
    assert Volatile(L, t) == t.disk;
    UpdatedUnique(L, s.phase.base, s.lh, data, Volatile(L, s), t.disk);
    RecoveredMeaning(L, t.disk);
    assert InLog(L, L.start);
  }

  lemma UpdatedUnique(L: Layout, d: Disk, homes: seq<nat>, data: seq<Block>, x: Disk, y: Disk)
    requires HomesOk(L, |d|, homes) && |data| == |homes|
    requires Updated(L, d, homes, data, x) && Updated(L, d, homes, data, y)
    ensures SameHome(L, x, y)
  {
    forall b | 0 <= b < |d| && !InLog(L, b) ensures x[b] == y[b] {
      if b in homes {
        var i :| 0 <= i < |homes| && homes[i] == b;
        assert x[homes[i]] == data[i] == y[homes[i]];
      }
    }
  }

  lemma RepairRefines(L: Layout, s: Sys)
    requires Inv(L, s) && Enabled(L, s, Repair) && LogOk(L, s.disk) && LogOk(L, Do(L, s, Repair).disk)
    ensures var t := Do(L, s, Repair);
      SameHome(L, Durable(L, t), Durable(L, s)) && SameHome(L, Volatile(L, t), Volatile(L, s))
  {
    hide RecoverWrite;
    var t := Do(L, s, Repair);
    var base, k := s.phase.base, s.phase.k;
    RecoveryRestarts(L, base, k);
    RecoveryRestarts(L, base, k + 1);
    RepairInv(L, s);
    if t.phase.Running? {
      RecoveredMeaning(L, t.disk);
    }
  }

  // ------------------------------------------------------------------ runs

  /** A freshly booted system over a disk with an empty log. */
  function Booted(d: Disk): (r: Sys) {
    Sys(d, [], map[], map[], Running)
  }

  predicate Bootable(L: Layout, d: Disk) {
    LogOk(L, d) && Homes(L, d) == []
  }

  ghost predicate Follows(L: Layout, s: Sys, st: Step, t: Sys) {
    Inv(L, s) ==> Enabled(L, s, st) && t == Do(L, s, st)
  }

  /** A run of the system from boot, through any number of crashes. */
  ghost predicate IsRun(L: Layout, states: seq<Sys>, steps: seq<Step>) {
    && |states| == |steps| + 1
    && Bootable(L, states[0].disk) && states[0] == Booted(states[0].disk)
    && forall i :: 0 <= i < |steps| ==> Follows(L, states[i], steps[i], states[i + 1])
  }

  lemma {:induction false} RunKeepsInv(L: Layout, states: seq<Sys>, steps: seq<Step>, i: nat)
    requires IsRun(L, states, steps) && i < |states|
    ensures Inv(L, states[i]) && LogOk(L, states[i].disk)
  {
    if i == 0 {
      assert Elements<nat>([]) == {};
      assert Unused(map[]) == 0;
    } else {
      RunKeepsInv(L, states, steps, i - 1);
      assert Follows(L, states[i - 1], steps[i - 1], states[i]);
      DoKeepsInv(L, states[i - 1], steps[i - 1]);
      AlwaysRecoverable(L, states[i]);
    }
  }

  lemma BootDurable(L: Layout, d: Disk)
    requires Bootable(L, d)
    ensures SameHome(L, Durable(L, Booted(d)), Volatile(L, Booted(d)))
  {
    RecoveredMeaning(L, d);
    assert InLog(L, L.start);
  }

  /** The block write that commits: the header, after the log has been filled. */
  predicate HeaderWrite(s: Sys, st: Step) {
    st.Flush? && s.phase.Committing? && s.phase.k == |s.lh|
  }

  /** What a crash leaves behind is what all calls saw at a moment when none was in progress, and that moment is the
      last header write, or boot if there was none: calls are never torn, and no committed one is lost. */
  lemma {:induction false} CrashShowsWholeCalls(L: Layout, states: seq<Sys>, steps: seq<Step>, i: nat) returns (j: nat)
    requires IsRun(L, states, steps) && i < |states|
    ensures LogOk(L, states[i].disk)
    ensures j <= i && LogOk(L, states[j].disk) && states[j].ops == map[]
    ensures SameHome(L, Durable(L, states[i]), Volatile(L, states[j]))
    ensures forall m :: j < m < i ==> !HeaderWrite(states[m], steps[m])
    ensures j > 0 ==> j < i && HeaderWrite(states[j], steps[j])
    ensures j == 0 ==> forall m :: 0 <= m < i ==> !HeaderWrite(states[m], steps[m])
  {
    hide Inv; hide Do; hide Recovered; hide LogOk; hide HomesOk; hide Durable; hide Volatile;
    RunKeepsInv(L, states, steps, i);
    if i == 0 {
      j := 0;
      BootDurable(L, states[0].disk);
    } else {
      var s, st := states[i - 1], steps[i - 1];
      RunKeepsInv(L, states, steps, i - 1);
      assert Follows(L, s, st, states[i]);
      Refines(L, s, st);
      if HeaderWrite(s, st) {
        j := i - 1;
      } else {
        j := CrashShowsWholeCalls(L, states, steps, i - 1);
      }
    }
  }

  // ------------------------------------------------------------------ the log-size guard

  /** A log region of more than LOGSIZE blocks never trips the guard for a block within a call's budget. */
  lemma InBudgetFits(L: Layout, s: Sys, p: Pid, b: nat)
    requires Inv(L, s) && InBudget(L, s, p, b) && b !in s.lh
    requires L.size > LOGSIZE
    ensures Fits(L, s)
  {
    UnusedWithout(s.ops, p);
  }

  // Runs that fill the log: three calls begin, then block after block is written.

  predicate ManyHomes(L: Layout, d: Disk, hs: seq<nat>) {
    && |hs| == LOGSIZE + 1
    && (forall i :: 0 <= i < |hs| ==> hs[i] < |d| && !InLog(L, hs[i]))
    && (forall i, j :: 0 <= i < j < |hs| ==> hs[i] != hs[j])
  }

  function Used(m: nat): (r: map<Pid, nat>) {
    map[0 := if m <= 10 then m else 10,
        1 := if m <= 10 then 0 else if m <= 20 then m - 10 else 10,
        2 := if m <= 20 then 0 else m - 20]
  }

  lemma RunExtends(L: Layout, pre: seq<Sys>, taken: seq<Step>, st: Step) returns (states: seq<Sys>,
      steps: seq<Step>)
    requires IsRun(L, pre, taken) && Inv(L, pre[|taken|]) && Enabled(L, pre[|taken|], st)
    ensures IsRun(L, states, steps) && states[0] == pre[0]
    ensures states[|steps|] == Do(L, pre[|taken|], st) && Inv(L, states[|steps|])
  {
    hide Inv; hide Do; hide Enabled; hide Bootable;
    DoKeepsInv(L, pre[|taken|], st);
    states, steps := pre + [Do(L, pre[|taken|], st)], taken + [st];
    forall i | 0 <= i < |steps| ensures Follows(L, states[i], steps[i], states[i + 1]) {
      if i < |taken| {
        assert Follows(L, pre[i], taken[i], pre[i + 1]);
      }
    }
  }

  lemma RunOfNothing(L: Layout, d: Disk) returns (states: seq<Sys>, steps: seq<Step>)
    requires Bootable(L, d)
    ensures IsRun(L, states, steps) && states == [Booted(d)] && steps == [] && Inv(L, states[0])
  {
    states, steps := [Booted(d)], [];
    RunKeepsInv(L, states, steps, 0);
  }

  /** The system can reach a state in which three calls are in progress and m blocks are in the transaction. */
  lemma {:induction false} Fill(L: Layout, d: Disk, hs: seq<nat>, m: nat) returns (states: seq<Sys>, steps: seq<Step>)
    requires Bootable(L, d) && ManyHomes(L, d, hs) && m <= LOGSIZE && m < L.size
    ensures IsRun(L, states, steps) && states[0].disk == d && Inv(L, states[|steps|])
    ensures var s := states[|steps|]; s.disk == d && s.lh == hs[..m] && s.ops == Used(m) && s.phase == Running
  {
    hide Inv; hide IsRun; hide LogOk;
    if m == 0 {
      states, steps := ThreeCalls(L, d);
      assert hs[..0] == [];
    } else {
      states, steps := Fill(L, d, hs, m - 1);
      assert hs[..m] == hs[..m - 1] + [hs[m - 1]];
      assert forall i :: 0 <= i < m - 1 ==> hs[i] != hs[m - 1];
      states, steps := RunExtends(L, states, steps, Write((m - 1) / 10, hs[m - 1], d[0]));
    }
  }

  /** Three calls begun, and nothing written. */
  lemma ThreeCalls(L: Layout, d: Disk) returns (states: seq<Sys>, steps: seq<Step>)
    requires Bootable(L, d)
    ensures IsRun(L, states, steps) && states[0].disk == d && Inv(L, states[|steps|])
    ensures var s := states[|steps|]; s.disk == d && s.lh == [] && s.ops == Used(0) && s.phase == Running
  {
    hide Inv; hide IsRun; hide LogOk;
    states, steps := RunOfNothing(L, d);
    states, steps := RunExtends(L, states, steps, Begin(0));
    states, steps := RunExtends(L, states, steps, Begin(1));
    states, steps := RunExtends(L, states, steps, Begin(2));
  }

  ghost predicate Reachable(L: Layout, d: Disk, s: Sys) {
    exists states: seq<Sys>, steps: seq<Step> :: IsRun(L, states, steps) && states[0].disk == d && states[|steps|] == s
  }

  /** The guard of `log_write` never trips on a new block within a call's budget, over all runs, exactly when
      the log region has more than LOGSIZE blocks. */
  lemma GuardNeverTrips(L: Layout, d: Disk, hs: seq<nat>)
    requires Bootable(L, d) && ManyHomes(L, d, hs)
    ensures (forall s, p, b :: Reachable(L, d, s) && InBudget(L, s, p, b) && b !in s.lh ==> Fits(L, s))
      <==> L.size > LOGSIZE
  {
    if L.size > LOGSIZE {
      forall s, p, b | Reachable(L, d, s) && InBudget(L, s, p, b) && b !in s.lh ensures Fits(L, s) {
        var states: seq<Sys>, steps: seq<Step> :|
          IsRun(L, states, steps) && states[0].disk == d && states[|steps|] == s;
        RunKeepsInv(L, states, steps, |steps|);
        InBudgetFits(L, s, p, b);
      }
    } else {
      var m := L.size - 1;
      var states, steps := Fill(L, d, hs, m);
      var s := states[|steps|];
      assert Reachable(L, d, s) && InBudget(L, s, m / 10, hs[m]) && hs[m] !in s.lh && !Fits(L, s);
    }
  }

  /** Writing a block that is in the transaction already needs no log space. Over all runs it can still trip the guard,
      exactly when the log region has room for any transaction at all. */
  lemma AbsorbedWriteMayTrip(L: Layout, d: Disk, hs: seq<nat>)
    requires Bootable(L, d) && ManyHomes(L, d, hs)
    ensures (exists s, p, b :: Reachable(L, d, s) && InBudget(L, s, p, b) && b in s.lh && !Fits(L, s)) <==> L.size >= 2
  {
    if L.size >= 2 {
      var m := if L.size > LOGSIZE then LOGSIZE else L.size - 1;
      var states, steps := Fill(L, d, hs, m);
      var s := states[|steps|];
      assert s.lh[0] == hs[0];
      assert Reachable(L, d, s) && InBudget(L, s, 0, hs[0]) && hs[0] in s.lh && !Fits(L, s);
    } else {
      forall s | Reachable(L, d, s) ensures s.lh == [] {
        var states: seq<Sys>, steps: seq<Step> :|
          IsRun(L, states, steps) && states[0].disk == d && states[|steps|] == s;
        RunKeepsInv(L, states, steps, |steps|);
      }
    }
  }

  /** What a caller can rely on: with more than LOGSIZE log blocks, a call that has added fewer blocks than it may
      never trips the guard, whether the block is new or in the transaction already. */
  lemma UnspentCallFits(L: Layout, s: Sys, p: Pid, b: nat)
    requires Inv(L, s) && InBudget(L, s, p, b) && s.ops[p] < MAXOPBLOCKS && L.size > LOGSIZE
    ensures Fits(L, s)
  {
    UnusedWithout(s.ops, p);
  }

  // ------------------------------------------------------------------ invariants of the file system survive crashes

  /** P speaks of home blocks only. */
  ghost predicate OfHomes(L: Layout, P: Disk -> bool) {
    forall d, e {:trigger SameHome(L, d, e)} :: SameHome(L, d, e) ==> (P(d) <==> P(e))
  }

  /** P holds of what the calls see. */
  ghost predicate Sees(L: Layout, s: Sys, P: Disk -> bool) {
    LogOk(L, s.disk) && P(Volatile(L, s))
  }

  /** Without a crash, the calls between two moments at which none is in progress keep P. */
  ghost predicate CallsKeep(L: Layout, states: seq<Sys>, steps: seq<Step>, P: Disk -> bool)
    requires |states| == |steps| + 1
  {
    forall m, n {:trigger Sees(L, states[m], P), Sees(L, states[n], P)} ::
      0 <= m <= n < |states| && states[m].ops == states[n].ops == map[] && !AnyCrash(steps, m, n) ==>
        Sees(L, states[m], P) ==> Sees(L, states[n], P)
  }

  predicate AnyCrash(steps: seq<Step>, m: nat, n: nat)
    requires m <= n <= |steps|
  {
    exists x :: m <= x < n && steps[x].Crash?
  }

  /** The moment after the last crash before moment i, or boot. */
  lemma {:induction false} LastStart(steps: seq<Step>, i: nat) returns (c: nat)
    requires i <= |steps|
    ensures c <= i && !AnyCrash(steps, c, i) && (c > 0 ==> steps[c - 1].Crash?)
  {
    if i == 0 || steps[i - 1].Crash? {
      c := i;
    } else {
      c := LastStart(steps, i - 1);
    }
  }

  /** At that moment no call is in progress, and the calls see what the crash left. */
  lemma AfterCrash(L: Layout, states: seq<Sys>, steps: seq<Step>, c: nat)
    requires IsRun(L, states, steps) && 0 < c < |states| && steps[c - 1].Crash?
    ensures states[c].ops == map[] && LogOk(L, states[c - 1].disk) && LogOk(L, states[c].disk)
    ensures SameHome(L, Volatile(L, states[c]), Durable(L, states[c - 1]))
  {
    hide Inv; hide LogOk; hide Durable; hide Volatile;
    RunKeepsInv(L, states, steps, c - 1);
    assert Follows(L, states[c - 1], steps[c - 1], states[c]);
    Refines(L, states[c - 1], steps[c - 1]);
  }

  /** Whatever the calls keep as long as nothing crashes (that the free map is right, say, or the link counts) is
      also true of every disk that a recovery makes, after any number of crashes at any moments. */
  lemma {:induction false} CrashesKeep(L: Layout, states: seq<Sys>, steps: seq<Step>, P: Disk -> bool, i: nat)
    requires IsRun(L, states, steps) && OfHomes(L, P) && CallsKeep(L, states, steps, P) && P(states[0].disk)
    requires i < |states|
    ensures LogOk(L, states[i].disk) && P(Durable(L, states[i]))
    ensures states[i].ops == map[] ==> P(Volatile(L, states[i]))
  {
    hide Inv; hide LogOk; hide Durable; hide SameHome; hide Follows;
    var c := LastStart(steps, i);
    if c == 0 {
      assert Volatile(L, states[0]) == states[0].disk;
    } else {
      CrashesKeep(L, states, steps, P, c - 1);
      AfterCrash(L, states, steps, c);
    }
    assert Sees(L, states[c], P);
    assert states[i].ops == map[] ==> Sees(L, states[i], P);
    var j := CrashShowsWholeCalls(L, states, steps, i);
    if j < i {
      CrashesKeep(L, states, steps, P, j);
    }
  }

  /** Moments m and n have no call in progress, and all the moments between them do. */
  predicate Burst(states: seq<Sys>, m: nat, n: nat) {
    && m + 1 < n < |states| && states[m].ops == states[n].ops == map[]
    && forall x :: m < x < n ==> states[x].ops != map[]
  }

  /** Each burst of calls keeps P. */
  ghost predicate BurstsKeep(L: Layout, states: seq<Sys>, steps: seq<Step>, P: Disk -> bool)
    requires |states| == |steps| + 1
  {
    forall m: nat, n: nat {:trigger Burst(states, m, n)} :: Burst(states, m, n) && !AnyCrash(steps, m, n) ==>
      Sees(L, states[m], P) ==> Sees(L, states[n], P)
  }

  /** The last moment before n, from m on, with no call in progress. */
  lemma {:induction false} LastQuiet(states: seq<Sys>, m: nat, n: nat, k: nat) returns (x: nat)
    requires m <= k < n < |states| && states[m].ops == map[] && forall y :: k < y < n ==> states[y].ops != map[]
    ensures m <= x < n && states[x].ops == map[] && forall y :: x < y < n ==> states[y].ops != map[]
    decreases k
  {
    if states[k].ops == map[] {
      return k;
    }
    x := LastQuiet(states, m, n, k - 1);
  }

  /** A step from a moment without calls to another one changes nothing that the calls see, unless it is a crash. */
  lemma QuietStep(L: Layout, states: seq<Sys>, steps: seq<Step>, m: nat)
    requires IsRun(L, states, steps) && m < |steps| && states[m].ops == states[m + 1].ops == map[] && !steps[m].Crash?
    ensures LogOk(L, states[m].disk) && LogOk(L, states[m + 1].disk)
    ensures SameHome(L, Volatile(L, states[m + 1]), Volatile(L, states[m]))
  {
    hide Inv; hide LogOk; hide Volatile; hide Durable;
    RunKeepsInv(L, states, steps, m);
    assert Follows(L, states[m], steps[m], states[m + 1]);
    Refines(L, states[m], steps[m]);
  }

  lemma {:induction false} BurstByBurst(L: Layout, states: seq<Sys>, steps: seq<Step>, P: Disk -> bool, m: nat, n: nat)
    requires IsRun(L, states, steps) && OfHomes(L, P) && BurstsKeep(L, states, steps, P) && m <= n < |states|
    requires states[m].ops == states[n].ops == map[] && !AnyCrash(steps, m, n) && Sees(L, states[m], P)
    ensures Sees(L, states[n], P)
    decreases n
  {
    hide Inv; hide Durable; hide SameHome; hide Follows; hide IsRun; hide Volatile; hide LogOk;
    assert |states| == |steps| + 1 by { RunLength(L, states, steps); }
    if m < n {
      var x := LastQuiet(states, m, n, n - 1);
      assert !AnyCrash(steps, m, x) && !AnyCrash(steps, x, n);
      BurstByBurst(L, states, steps, P, m, x);
      if x + 1 == n {
        assert !steps[x].Crash?;
        QuietStep(L, states, steps, x);
      } else {
        assert Burst(states, x, n);
      }
    }
  }

  lemma RunLength(L: Layout, states: seq<Sys>, steps: seq<Step>)
    requires IsRun(L, states, steps)
    ensures |states| == |steps| + 1
  {
  }

  /** It is enough that each burst of calls keeps P. */
  lemma BurstsAreEnough(L: Layout, states: seq<Sys>, steps: seq<Step>, P: Disk -> bool)
    requires IsRun(L, states, steps) && OfHomes(L, P) && BurstsKeep(L, states, steps, P)
    ensures CallsKeep(L, states, steps, P)
  {
    hide IsRun; hide OfHomes; hide BurstsKeep; hide Sees;
    assert |states| == |steps| + 1 by { RunLength(L, states, steps); }
    forall m, n | 0 <= m <= n < |states| && states[m].ops == states[n].ops == map[] && !AnyCrash(steps, m, n)
      ensures Sees(L, states[m], P) ==> Sees(L, states[n], P)
    {
      if Sees(L, states[m], P) {
        BurstByBurst(L, states, steps, P, m, n);
      }
    }
  }

  // ------------------------------------------------------------------ what a stretch of a run writes

  /** The last contents that steps m to n - 1 wrote to block b. */
  function LastWrite(steps: seq<Step>, m: nat, n: nat, b: nat): (r: Option<Block>)
    requires m <= n <= |steps|
    decreases n
  {
    if m == n then None
    else if steps[n - 1].Write? && steps[n - 1].b == b then Some(steps[n - 1].data)
    else LastWrite(steps, m, n - 1, b)
  }

  /** Without a crash, the calls see the last contents written, or what they saw before. */
  lemma {:induction false} StretchWrites(L: Layout, states: seq<Sys>, steps: seq<Step>, m: nat, n: nat, b: nat)
    requires IsRun(L, states, steps) && m <= n < |states| && !AnyCrash(steps, m, n)
    ensures LogOk(L, states[m].disk) && LogOk(L, states[n].disk)
    ensures |Volatile(L, states[n])| == |Volatile(L, states[m])|
    ensures b < |Volatile(L, states[m])| && !InLog(L, b) ==>
      Volatile(L, states[n])[b] ==
      var w := LastWrite(steps, m, n, b); if w.Some? then w.value else Volatile(L, states[m])[b]
    decreases n
  {
    hide Inv; hide LogOk; hide Volatile; hide Durable; hide InLog;
    RunKeepsInv(L, states, steps, m);
    if m < n {
      assert !AnyCrash(steps, m, n - 1) && !steps[n - 1].Crash?;
      StretchWrites(L, states, steps, m, n - 1, b);
      RunKeepsInv(L, states, steps, n - 1);
      assert Follows(L, states[n - 1], steps[n - 1], states[n]);
      Refines(L, states[n - 1], steps[n - 1]);
    }
  }

  // ------------------------------------------------------------------ where home blocks change

  /** The home block that a step installs, if it is an install write of a commit or of a recovery. */
  function Installs(s: Sys, st: Step): (r: Option<nat>) {
    match st
    case Flush =>
      if s.phase.Committing? && |s.lh| < s.phase.k < 2 * |s.lh| + 1 then Some(s.lh[s.phase.k - |s.lh| - 1]) else None
    case Repair =>
      if s.phase.Recovering? && s.phase.k < |s.lh| then Some(s.lh[s.phase.k]) else None
    case _ => None
  }

  lemma StepInstalls(L: Layout, s: Sys, st: Step, b: nat)
    requires Inv(L, s) && Enabled(L, s, st) && b < |s.disk| && !InLog(L, b) && Do(L, s, st).disk[b] != s.disk[b]
    ensures Installs(s, st) == Some(b)
  {
    assert InLog(L, L.start);
  }

  /** In every run a home block changes on the disk only when it is being installed from the log. */
  lemma HomesChangeOnlyByInstall(L: Layout, states: seq<Sys>, steps: seq<Step>, i: nat, b: nat)
    requires IsRun(L, states, steps) && i < |steps| && b < |states[i].disk| && !InLog(L, b)
    ensures |states[i + 1].disk| == |states[i].disk|
    ensures states[i + 1].disk[b] != states[i].disk[b] ==> Installs(states[i], steps[i]) == Some(b)
  {
    hide Inv; hide Do; hide LogOk;
    RunKeepsInv(L, states, steps, i);
    assert Follows(L, states[i], steps[i], states[i + 1]);
    DoKeepsInv(L, states[i], steps[i]);
    if states[i + 1].disk[b] != states[i].disk[b] {
      StepInstalls(L, states[i], steps[i], b);
    }
  }
}
