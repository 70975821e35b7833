module LogRefinement {
  // The log code over the buffer cache takes the steps of LogSystem: the pinned buffers are its pending blocks, a
  // modified buffer that is logged is its write, and the block writes of end_op and of recovery are its flush and
  // repair steps, one for one.

  import opened LogDisk
  import opened BufferCache
  import opened Params
  import opened Sets
  import Log
  import S = LogSystem

  /** The contents of the pinned buffers. */
  function Pend(c: Core): (r: map<nat, Block>)
    requires CoreOk(c)
  {
    map b | b in Log.Pinned(c) :: c.bufs[c.place[b]].data
  }

  /** The kernel's log and cache stand for a state of LogSystem; `ops` says which calls are in progress, and how many
      blocks each has added. */
  ghost predicate Tracks(L: Layout, c: Core, lh: seq<nat>, ops: map<S.Pid, nat>) {
    && CoreOk(c) && LogOk(L, c.disk) && Homes(L, c.disk) == [] && HomesOk(L, |c.disk|, lh)
    && Log.Pinned(c) == Elements(lh)
    && (forall p :: p in ops ==> ops[p] <= MAXOPBLOCKS) && |lh| + S.Unused(ops) <= LOGSIZE
  }

  ghost function SysOf(L: Layout, c: Core, lh: seq<nat>, ops: map<S.Pid, nat>): (r: S.Sys)
    requires Tracks(L, c, lh, ops)
    ensures S.Inv(L, r)
  {
    S.Sys(c.disk, lh, Pend(c), ops, S.Running)
  }

  /** What the calls see of a block nobody has locked is what they see in LogSystem. */
  lemma SeenIsVolatile(L: Layout, c: Core, lh: seq<nat>, ops: map<S.Pid, nat>, b: nat)
    requires Tracks(L, c, lh, ops) && b < |c.disk| && !Locked(c, b)
    ensures S.Volatile(L, SysOf(L, c, lh, ops))[b] == ViewAt(c, b)
  {
    UnlockedViewIsOverlay(c, b);
  }

  // ------------------------------------------------------------------ one buffer

  /** The cache after the holder of buffer i gave it new contents and logged them. */
  function Logged(c: Core, i: nat, data: Block): (r: Core)
    requires i < |c.bufs|
  {
    c.(bufs := c.bufs[i := c.bufs[i].(data := data, dirty := true)])
  }

  lemma LoggedPend(c: Core, i: nat, data: Block)
    requires CoreOk(c) && i < |c.bufs| && c.bufs[i].valid && CoreOk(Logged(c, i, data))
    ensures c.bufs[i].blockno < |c.disk| && Pend(Logged(c, i, data)) == Pend(c)[c.bufs[i].blockno := data]
  {
    assert BufOk(c.disk, c.bufs[i]);
    var d, b := Logged(c, i, data), c.bufs[i].blockno;
    assert c.place[b] == i;
    forall x | x in c.place ensures x in Log.Pinned(d) <==> x == b || x in Log.Pinned(c) {
    }
  }

  lemma WriteIsStep(L: Layout, c: Core, lh: seq<nat>, ops: map<S.Pid, nat>, p: S.Pid, i: nat, data: Block)
    requires Tracks(L, c, lh, ops) && i < |c.bufs| && c.bufs[i].valid && CoreOk(Logged(c, i, data))
    requires S.Enabled(L, SysOf(L, c, lh, ops), S.Write(p, c.bufs[i].blockno, data))
    ensures var b := c.bufs[i].blockno; var now := if b in lh then ops else ops[p := ops[p] + 1];
      && Tracks(L, Logged(c, i, data), Log.Absorb(lh, b), now)
      && SysOf(L, Logged(c, i, data), Log.Absorb(lh, b), now) ==
         S.Do(L, SysOf(L, c, lh, ops), S.Write(p, b, data))
  {
    hide CoreOk; hide LogOk; hide S.Unused;
    var s, b := SysOf(L, c, lh, ops), c.bufs[i].blockno;
    LoggedPend(c, i, data);
    S.DoKeepsInv(L, s, S.Write(p, b, data));
    Log.AbsorbElements(lh, b);
    var t := S.Do(L, s, S.Write(p, b, data));
    assert Log.Pinned(Logged(c, i, data)) == Pend(Logged(c, i, data)).Keys == t.pend.Keys == Elements(t.lh);
  }

  // ------------------------------------------------------------------ the block writes of a commit

  /** The system after k block writes of its commit. */
  ghost function Flushed(L: Layout, s: S.Sys, k: nat): (r: S.Sys)
    requires S.Inv(L, s) && s.phase.Committing? && k <= 2 * |s.lh| + 2
  {
    var disk := CommitDisk(L, s.lh, S.Data(s.lh, s.pend), s.phase.base, k);
    if k < 2 * |s.lh| + 2 then s.(disk := disk, phase := S.Committing(s.phase.base, k))
    else S.Sys(disk, [], map[], s.ops, S.Running)
  }

  /** Each of them is a flush step. */
  lemma FlushedSteps(L: Layout, s: S.Sys, k: nat)
    requires S.Inv(L, s) && s.phase.Committing? && s.phase.k == 0 && k < 2 * |s.lh| + 2
    ensures Flushed(L, s, 0) == s
    ensures S.Inv(L, Flushed(L, s, k)) && S.Enabled(L, Flushed(L, s, k), S.Flush)
    ensures S.Do(L, Flushed(L, s, k), S.Flush) == Flushed(L, s, k + 1)
  {
    hide LogOk; hide HomesOk; hide S.Unused;
  }

  /** The system after call p ended, and after the commit if that was the last one. */
  ghost function Ended(L: Layout, s: S.Sys, p: S.Pid): (r: S.Sys)
    requires S.Inv(L, s) && S.Enabled(L, s, S.End(p))
  {
    S.DoKeepsInv(L, s, S.End(p));
    var t := S.Do(L, s, S.End(p));
    if t.phase.Committing? then Flushed(L, t, 2 * |t.lh| + 2) else t
  }

  /** The disks after the first k block writes of a commit. */
  ghost function FlushDisks(L: Layout, s: S.Sys, k: nat): (r: seq<Disk>)
    requires S.Inv(L, s) && s.phase.Committing? && k <= 2 * |s.lh| + 2
  {
    if k == 0 then [] else FlushDisks(L, s, k - 1) + [Flushed(L, s, k).disk]
  }

  lemma {:induction false} TraceIsFlushes(L: Layout, s: S.Sys, k: nat)
    requires S.Inv(L, s) && s.phase.Committing? && k <= 2 * |s.lh| + 2
    ensures FlushDisks(L, s, k) == Log.CommitTrace(L, s.lh, S.Data(s.lh, s.pend), s.phase.base, k)
  {
    hide LogOk; hide HomesOk; hide CommitDisk; hide S.Unused;
    if k > 0 {
      TraceIsFlushes(L, s, k - 1);
    }
  }

  // ------------------------------------------------------------------ the kernel's operations

  /** begin_op admits a call exactly when LogSystem does, with the same effect. */
  method Begin(log: Log.Log, p: S.Pid, ghost ops: map<S.Pid, nat>) returns (ok: bool, ghost now: map<S.Pid, nat>)
    requires log.cache.Valid() && Tracks(log.layout, log.cache.State(), log.lh, ops)
    requires |ops| == log.outstanding && !log.committing && p !in ops
    modifies log
    ensures ok <==> S.Enabled(log.layout, old(SysOf(log.layout, log.cache.State(), log.lh, ops)), S.Begin(p))
    ensures !ok ==> now == ops
    ensures Tracks(log.layout, log.cache.State(), log.lh, now) && |now| == log.outstanding && !log.committing
    ensures ok ==>
      SysOf(log.layout, log.cache.State(), log.lh, now) ==
      S.Do(log.layout, old(SysOf(log.layout, log.cache.State(), log.lh, ops)), S.Begin(p))
  {
    hide CoreOk; hide LogOk; hide HomesOk; hide S.Unused;
    ok := log.BeginOp();
    now := if ok then ops[p := 0] else ops;
    if ok {
      S.DoKeepsInv(log.layout, SysOf(log.layout, log.cache.State(), log.lh, ops), S.Begin(p));
    }
  }

  /** A call changes a buffer it holds and logs it: the write of LogSystem, refused exactly when that is not enabled. */
  method Write(log: Log.Log, p: S.Pid, i: nat, data: Block, ghost ops: map<S.Pid, nat>)
    returns (ok: bool, ghost now: map<S.Pid, nat>)
    requires log.cache.Valid() && Tracks(log.layout, log.cache.State(), log.lh, ops) && |ops| == log.outstanding
    requires i < |log.cache.bufs| && log.cache.bufs[i].locked && log.cache.bufs[i].valid
    requires var s := SysOf(log.layout, log.cache.State(), log.lh, ops);
      S.InBudget(log.layout, s, p, log.cache.bufs[i].blockno)
    modifies log, log.cache
    ensures log.cache.Valid() && |now| == log.outstanding && log.cache.disk == old(log.cache.disk)
    ensures var s := old(SysOf(log.layout, log.cache.State(), log.lh, ops));
      var st := S.Write(p, old(log.cache.bufs[i]).blockno, data);
      && (ok <==> S.Enabled(log.layout, s, st))
      && (ok ==> Tracks(log.layout, log.cache.State(), log.lh, now)
                 && SysOf(log.layout, log.cache.State(), log.lh, now) == S.Do(log.layout, s, st))
  {
    hide CoreOk; hide LogOk; hide S.Unused; hide Forward; hide Backward;
    ghost var c, lh := log.cache.State(), log.lh;
    var b := log.cache.bufs[i].blockno;
    StoredPins(c, i, data);
    log.cache.Store(i, data);
    ok := log.LogWrite(i);
    now := if !ok || b in lh then ops else ops[p := ops[p] + 1];
    if ok {
      assert log.cache.State() == Logged(c, i, data);
      WriteIsStep(log.layout, c, lh, ops, p, i, data);
    }
  }

  lemma StoredPins(c: Core, i: nat, data: Block)
    requires CoreOk(c) && i < |c.bufs|
    ensures var d := c.(bufs := c.bufs[i := c.bufs[i].(data := data)]);
      CoreOk(d) ==> Log.Pinned(d) == Log.Pinned(c)
  {
  }

  /** end_op, with the commit of the last call: the end step and then all flush steps, through the same disks. */
  method End(log: Log.Log, p: S.Pid, ghost ops: map<S.Pid, nat>, ghost ext: seq<nat>)
    returns (ghost now: map<S.Pid, nat>)
    requires log.Valid() && Tracks(log.layout, log.cache.State(), log.lh, ops)
    requires |ops| == log.outstanding && !log.committing && p in ops
    requires |ops| == 1 ==> Log.Used(log.cache.State(), {}, ext)
    requires |ops| == 1 ==> Log.Clear(log.layout, log.lh, log.cache.State(), ext)
    requires |ops| == 1 ==> log.lh == [] || |log.lh| + |Log.Readers(log.cache.State())| < |log.cache.bufs|
    modifies log, log.cache
    ensures log.Valid() && Tracks(log.layout, log.cache.State(), log.lh, now)
    ensures |now| == log.outstanding && !log.committing
    ensures var s := old(SysOf(log.layout, log.cache.State(), log.lh, ops));
      && SysOf(log.layout, log.cache.State(), log.lh, now) == Ended(log.layout, s, p)
      && var t := S.Do(log.layout, s, S.End(p));
         log.cache.history == old(log.cache.history) +
           (if t.phase.Committing? then EndDisks(log.layout, s, p) else [])
  {
    hide CoreOk; hide LogOk; hide HomesOk; hide Forward; hide Backward; hide CommitDisk; hide Tracks; hide SysOf;
    hide Ended; hide EndDisks; hide S.Inv; hide S.Do; hide Log.Committed; hide Log.CommitTrace; hide Log.View;
    hide Log.Used; hide Log.Clear; hide Log.Readers; hide Log.Kept; hide SameHome; hide Log.Pinned;
    ghost var L, c, lh := log.layout, log.cache.State(), log.lh;
    if |ops| == 1 {
      EndsLast(L, c, lh, ops, p);
      if lh != [] {
        EndsThrough(L, c, lh, ops, p);
      }
    } else {
      EndsEarly(L, c, lh, ops, p);
    }
    now := ops - {p};
    log.EndOp(ext);
    if |ops| == 1 {
      Quiet(L, log.cache.State());
    }
  }

  /** The disks of the commit that the end of call p starts. */
  ghost function EndDisks(L: Layout, s: S.Sys, p: S.Pid): (r: seq<Disk>)
    requires S.Inv(L, s) && S.Enabled(L, s, S.End(p)) && S.Do(L, s, S.End(p)).phase.Committing?
  {
    S.DoKeepsInv(L, s, S.End(p));
    FlushDisks(L, S.Do(L, s, S.End(p)), 2 * |s.lh| + 2)
  }

  /** With nothing pinned and the log empty there is nothing pending. */
  lemma Quiet(L: Layout, c: Core)
    requires CoreOk(c) && LogOk(L, c.disk) && Homes(L, c.disk) == [] && HomesOk(L, |c.disk|, [])
    requires Log.Pinned(c) == Elements<nat>([])
    ensures Tracks(L, c, [], map[]) && SysOf(L, c, [], map[]) == S.Sys(c.disk, [], map[], map[], S.Running)
  {
    hide CoreOk; hide LogOk;
    assert Elements<nat>([]) == {};
    assert S.Unused(map[]) == 0;
    assert Pend(c) == map[];
  }

  /** The end of a call that is not the last. */
  lemma EndsEarly(L: Layout, c: Core, lh: seq<nat>, ops: map<S.Pid, nat>, p: S.Pid)
    requires Tracks(L, c, lh, ops) && p in ops && |ops| != 1
    ensures var s := SysOf(L, c, lh, ops); var t := S.Do(L, s, S.End(p));
      && t.phase.Running? && t.ops == ops - {p} && |t.ops| == |ops| - 1
      && Tracks(L, c, lh, t.ops) && SysOf(L, c, lh, t.ops) == t == Ended(L, s, p)
  {
    hide CoreOk; hide LogOk; hide HomesOk; hide S.Unused;
    var s := SysOf(L, c, lh, ops);
    S.DoKeepsInv(L, s, S.End(p));
    var t := S.Do(L, s, S.End(p));
    assert t.ops == ops - {p} && |ops - {p}| == |ops| - 1 > 0;
  }

  /** The last call's commit leaves what LogSystem's does. */
  lemma EndsLast(L: Layout, c: Core, lh: seq<nat>, ops: map<S.Pid, nat>, p: S.Pid)
    requires Tracks(L, c, lh, ops) && p in ops && |ops| == 1
    ensures var s := SysOf(L, c, lh, ops); var t := S.Do(L, s, S.End(p));
      && t.ops == ops - {p} == map[] && HomesOk(L, |c.disk|, []) && (t.phase.Committing? <==> lh != [])
      && Ended(L, s, p) == S.Sys(Log.Committed(L, lh, Log.View(c), c.disk), [], map[], map[], S.Running)
  {
    hide CoreOk; hide LogOk; hide CommitDisk; hide Pend; hide S.Do; hide S.Inv; hide Log.View;
    LastEnd(L, c, lh, ops, p);
    PendIsGathered(c, lh);
  }

  /** And it passes through the same disks. */
  lemma EndsThrough(L: Layout, c: Core, lh: seq<nat>, ops: map<S.Pid, nat>, p: S.Pid)
    requires Tracks(L, c, lh, ops) && p in ops && |ops| == 1 && lh != []
    ensures var s := SysOf(L, c, lh, ops);
      && S.Do(L, s, S.End(p)).phase.Committing?
      && EndDisks(L, s, p) == Log.CommitTrace(L, lh, Log.Gathered(Log.View(c), lh), c.disk, 2 * |lh| + 2)
  {
    hide CoreOk; hide LogOk; hide CommitDisk; hide Pend; hide Log.CommitTrace; hide FlushDisks; hide S.Do; hide S.Inv;
    hide Log.View;
    LastEnd(L, c, lh, ops, p);
    PendIsGathered(c, lh);
    TraceIsFlushes(L, S.Do(L, SysOf(L, c, lh, ops), S.End(p)), 2 * |lh| + 2);
  }

  lemma LastEnd(L: Layout, c: Core, lh: seq<nat>, ops: map<S.Pid, nat>, p: S.Pid)
    requires Tracks(L, c, lh, ops) && p in ops && |ops| == 1
    ensures var s := SysOf(L, c, lh, ops);
      && S.Enabled(L, s, S.End(p)) && ops - {p} == map[]
      && var t := S.Do(L, s, S.End(p));
         && S.Inv(L, t)
         && t == S.Sys(c.disk, lh, Pend(c), map[], if lh == [] then S.Running else S.Committing(c.disk, 0))
  {
    hide CoreOk; hide LogOk; hide HomesOk; hide S.Unused; hide CommitDisk; hide Pend;
    var s := SysOf(L, c, lh, ops);
    S.DoKeepsInv(L, s, S.End(p));
    assert |ops - {p}| == 0 && S.Do(L, s, S.End(p)).ops == ops - {p};
  }

  lemma PendIsGathered(c: Core, lh: seq<nat>)
    requires CoreOk(c) && Log.Pinned(c) == Elements(lh) && forall i :: 0 <= i < |lh| ==> lh[i] < |c.disk|
    ensures (forall i :: 0 <= i < |lh| ==> lh[i] in Pend(c)) && S.Data(lh, Pend(c)) == Log.Gathered(Log.View(c), lh)
    ensures lh == [] ==> Pend(c) == map[]
  {
    forall i | 0 <= i < |lh| ensures lh[i] in Pend(c) && Pend(c)[lh[i]] == ViewAt(c, lh[i]) {
      assert lh[i] in Log.Pinned(c);
      assert BufOk(c.disk, c.bufs[c.place[lh[i]]]);
    }
  }

  // ------------------------------------------------------------------ recovery

  /** The system after k block writes of a recovery. */
  ghost function Repaired(L: Layout, s: S.Sys, k: nat): (r: S.Sys)
    requires S.Inv(L, s) && s.phase.Recovering? && k <= |s.lh| + 1
  {
    var disk := RecoverDisk(L, s.lh, s.phase.base, k);
    if k <= |s.lh| then s.(disk := disk, phase := S.Recovering(s.phase.base, k))
    else S.Sys(disk, [], map[], s.ops, S.Running)
  }

  lemma RepairedSteps(L: Layout, s: S.Sys, k: nat)
    requires S.Inv(L, s) && s.phase.Recovering? && s.phase.k == 0 && k <= |s.lh|
    ensures Repaired(L, s, 0) == s
    ensures S.Inv(L, Repaired(L, s, k)) && S.Enabled(L, Repaired(L, s, k), S.Repair)
    ensures S.Do(L, Repaired(L, s, k), S.Repair) == Repaired(L, s, k + 1)
  {
    hide LogOk; hide HomesOk; hide S.Unused;
  }

  /** Recovery at boot: a crash step, whatever the system was doing on that disk, and then all repair steps. */
  method Recover(log: Log.Log, ghost s: S.Sys, ghost ext: seq<nat>)
    requires log.cache.Valid() && S.Inv(log.layout, s) && s.disk == log.cache.disk && LogOk(log.layout, s.disk)
    requires Log.Used(log.cache.State(), {}, ext) && Log.Pinned(log.cache.State()) == {}
    requires Log.Clear(log.layout, Homes(log.layout, s.disk), log.cache.State(), ext)
    requires |Log.Occupied(log.cache.State(), ext)| + 1 < |log.cache.bufs|
    modifies log`lh, log.cache
    ensures log.Valid() && Tracks(log.layout, log.cache.State(), log.lh, map[])
    ensures var t := S.Do(log.layout, s, S.Crash);
      S.Inv(log.layout, t) && t.phase.Recovering? &&
      SysOf(log.layout, log.cache.State(), log.lh, map[]) == Repaired(log.layout, t, |t.lh| + 1)
  {
    hide CoreOk; hide LogOk; hide HomesOk; hide Forward; hide Backward; hide RecoverDisk; hide Recovered; hide Tracks;
    hide SysOf; hide Repaired; hide S.Inv; hide S.Do; hide Log.RecoverTrace;
    CrashRepaired(log.layout, s);
    log.RecoverFromLog(ext);
    Quiet(log.layout, log.cache.State());
  }

  lemma CrashRepaired(L: Layout, s: S.Sys)
    requires S.Inv(L, s) && LogOk(L, s.disk)
    ensures var t := S.Do(L, s, S.Crash);
      && S.Inv(L, t) && t.phase.Recovering? && HomesOk(L, |s.disk|, [])
      && Repaired(L, t, |t.lh| + 1) == S.Sys(Recovered(L, s.disk), [], map[], map[], S.Running)
  {
    hide RecoverDisk; hide S.Unused;
    S.DoKeepsInv(L, s, S.Crash);
  }
}
