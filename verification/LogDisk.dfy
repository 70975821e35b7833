/** The on-disk redo log: header block, log blocks, and what crash recovery makes of a disk. */
module LogDisk {
  // A disk is a sequence of blocks and every block write is one atomic update of that sequence.
  // A crash forgets everything but the disk, so a property of crashes is a property of the disks
  // that exist between two block writes.

  import opened Params

  const WORDS: nat := 128         // 32-bit words in a block of 512 bytes

  type Block = b: seq<nat> | |b| == WORDS witness seq(WORDS, i => 0)
  type Disk = seq<Block>

  /** `start` is the header block; log block i is `start + 1 + i`; the log region has `size` blocks. */
  datatype Layout = Layout(start: nat, size: nat)

  predicate InLog(L: Layout, b: nat) {
    L.start <= b < L.start + L.size
  }

  /** The header block holds the count in word 0 and the home block numbers after it. */
  predicate HeaderFits(b: Block) {
    b[0] <= LOGSIZE
  }

  function HeaderHomes(b: Block): (homes: seq<nat>)
    requires HeaderFits(b)
  {
    b[1..1 + b[0]]
  }

  /** Writing a header leaves the words past the last block number as they were. */
  function PutHeader(b: Block, homes: seq<nat>): (r: Block)
    requires |homes| <= LOGSIZE
    ensures HeaderFits(r) && HeaderHomes(r) == homes
  {
    [|homes|] + homes + b[1 + |homes|..]
  }

  /** The home blocks a transaction may name: on the disk, outside the log, each once, with room in the log. */
  predicate HomesOk(L: Layout, len: nat, homes: seq<nat>) {
    && L.start + L.size <= len
    && |homes| <= LOGSIZE
    && |homes| < L.size
    && (forall i :: 0 <= i < |homes| ==> homes[i] < len && !InLog(L, homes[i]))
    && (forall i, j :: 0 <= i < j < |homes| ==> homes[i] != homes[j])
  }

  /** A disk recovery may be run on. */
  predicate LogOk(L: Layout, d: Disk) {
    && L.start < |d|
    && HeaderFits(d[L.start])
    && HomesOk(L, |d|, HeaderHomes(d[L.start]))
  }

  function Homes(L: Layout, d: Disk): (homes: seq<nat>)
    requires LogOk(L, d)
  {
    HeaderHomes(d[L.start])
  }

  /** The file system's part of two disks agrees. */
  predicate SameHome(L: Layout, d: Disk, e: Disk) {
    && |d| == |e|
    && forall b :: 0 <= b < |d| && !InLog(L, b) ==> d[b] == e[b]
  }

  /** The home blocks after the transaction: block `homes[i]` holds `data[i]`. */
  predicate Updated(L: Layout, before: Disk, homes: seq<nat>, data: seq<Block>, after: Disk)
    requires HomesOk(L, |before|, homes) && |data| == |homes|
  {
    && |after| == |before|
    && (forall i :: 0 <= i < |homes| ==> after[homes[i]] == data[i])
    && (forall b :: 0 <= b < |before| && !InLog(L, b) && b !in homes ==> after[b] == before[b])
  }

  // ------------------------------------------------------------------ recovery

  /** The k-th block write of recovery: the installs in order, then the cleared header. */
  function RecoverWrite(L: Layout, homes: seq<nat>, d: Disk, k: nat): (r: Disk)
    requires HomesOk(L, |d|, homes) && k <= |homes|
    ensures |r| == |d|
  {
    if k < |homes| then d[homes[k] := d[L.start + 1 + k]]
    else d[L.start := PutHeader(d[L.start], [])]
  }

  /** The disk after the first k block writes of recovery, as named by the header it started from. */
  function RecoverDisk(L: Layout, homes: seq<nat>, d: Disk, k: nat): (r: Disk)
    requires HomesOk(L, |d|, homes) && k <= |homes| + 1
    ensures |r| == |d|
  {
    if k == 0 then d else RecoverWrite(L, homes, RecoverDisk(L, homes, d, k - 1), k - 1)
  }

  /** A recovery that runs to its end. */
  function Recovered(L: Layout, d: Disk): (r: Disk)
    requires LogOk(L, d)
  {
    RecoverDisk(L, Homes(L, d), d, |Homes(L, d)| + 1)
  }

  lemma {:induction false} InstallOther(L: Layout, homes: seq<nat>, d: Disk, k: nat, b: nat)
    requires HomesOk(L, |d|, homes) && k <= |homes| && b < |d| && forall i :: 0 <= i < k ==> homes[i] != b
    ensures RecoverDisk(L, homes, d, k)[b] == d[b]
  {
    if k > 0 {
      InstallOther(L, homes, d, k - 1, b);
    }
  }

  lemma {:induction false} InstallHome(L: Layout, homes: seq<nat>, d: Disk, k: nat, i: nat)
    requires HomesOk(L, |d|, homes) && i < k <= |homes|
    ensures RecoverDisk(L, homes, d, k)[homes[i]] == d[L.start + 1 + i]
  {
    if i == k - 1 {
      assert InLog(L, L.start + k);
      InstallOther(L, homes, d, k - 1, L.start + k);
    } else {
      InstallHome(L, homes, d, k - 1, i);
    }
  }

  /** What k installs do, block by block: they never touch the log region. */
  lemma {:induction false} InstallMeaning(L: Layout, homes: seq<nat>, d: Disk, k: nat)
    requires HomesOk(L, |d|, homes) && k <= |homes|
    ensures forall b :: 0 <= b < |d| && b !in homes[..k] ==> RecoverDisk(L, homes, d, k)[b] == d[b]
    ensures forall i :: 0 <= i < k ==> RecoverDisk(L, homes, d, k)[homes[i]] == d[L.start + 1 + i]
  {
    hide RecoverDisk;
    forall b | 0 <= b < |d| && b !in homes[..k] ensures RecoverDisk(L, homes, d, k)[b] == d[b] {
      assert forall i :: 0 <= i < k ==> homes[..k][i] == homes[i];
      InstallOther(L, homes, d, k, b);
    }
    forall i | 0 <= i < k ensures RecoverDisk(L, homes, d, k)[homes[i]] == d[L.start + 1 + i] {
      InstallHome(L, homes, d, k, i);
    }
  }

  /** A finished recovery leaves an empty log and the logged blocks at home. */
  lemma RecoveredMeaning(L: Layout, d: Disk)
    requires LogOk(L, d)
    ensures LogOk(L, Recovered(L, d)) && Homes(L, Recovered(L, d)) == []
    ensures forall i :: 0 <= i < |Homes(L, d)| ==> Recovered(L, d)[Homes(L, d)[i]] == d[L.start + 1 + i]
    ensures forall b :: 0 <= b < |d| && b !in Homes(L, d) && b != L.start ==> Recovered(L, d)[b] == d[b]
  {
    var homes := Homes(L, d);
    InstallMeaning(L, homes, d, |homes|);
    assert homes[..|homes|] == homes;
    assert InLog(L, L.start);
  }

  /** Redo is idempotent: recovering from any intermediate disk of a recovery gives the same home blocks. */
  lemma {:induction false} RecoveryRestarts(L: Layout, d: Disk, k: nat)
    requires LogOk(L, d) && k <= |Homes(L, d)| + 1
    ensures var e := RecoverDisk(L, Homes(L, d), d, k);
            LogOk(L, e) && SameHome(L, Recovered(L, e), Recovered(L, d))
  {
    var homes := Homes(L, d);
    var n := |homes|;
    var e := RecoverDisk(L, homes, d, k);
    RecoveredMeaning(L, d);
    if k <= n {
      InstallMeaning(L, homes, d, k);
      assert InLog(L, L.start);
      assert e[L.start] == d[L.start];
      RecoveredMeaning(L, e);
      forall i | 0 <= i < n ensures Recovered(L, e)[homes[i]] == Recovered(L, d)[homes[i]] {
        assert InLog(L, L.start + 1 + i);
      }
    } else {
      RecoveredMeaning(L, e);
    }
  }

  /** The disk after a series of recoveries, the j-th cut off by a crash after `cuts[j]` block writes. */
  function Crashes(L: Layout, d: Disk, cuts: seq<nat>): (r: Disk)
    requires LogOk(L, d)
    ensures |r| == |d| && LogOk(L, r)
    decreases |cuts|
  {
    if cuts == [] then d
    else
      var n := |Homes(L, d)|;
      var k := if cuts[0] <= n then cuts[0] else n + 1;
      RecoveryRestarts(L, d, k);
      Crashes(L, RecoverDisk(L, Homes(L, d), d, k), cuts[1..])
  }

  /** However often recovery is cut off, the recovery that finishes gives the home blocks of an undisturbed one. */
  lemma {:induction false} CrashesInRecovery(L: Layout, d: Disk, cuts: seq<nat>)
    requires LogOk(L, d)
    ensures SameHome(L, Recovered(L, Crashes(L, d, cuts)), Recovered(L, d))
    decreases |cuts|
  {
    if cuts != [] {
      var n := |Homes(L, d)|;
      var k := if cuts[0] <= n then cuts[0] else n + 1;
      RecoveryRestarts(L, d, k);
      CrashesInRecovery(L, RecoverDisk(L, Homes(L, d), d, k), cuts[1..]);
    }
  }

  // ------------------------------------------------------------------ commit

  /** The k-th block write of a commit of `data` to `homes`: n log blocks, the header, n installs, the cleared header.
      */
  function CommitWrite(L: Layout, homes: seq<nat>, data: seq<Block>, d: Disk, k: nat): (r: Disk)
    requires HomesOk(L, |d|, homes) && |data| == |homes| && k < 2 * |homes| + 2
    ensures |r| == |d|
  {
    var n := |homes|;
    if k < n then d[L.start + 1 + k := data[k]]
    else if k == n then d[L.start := PutHeader(d[L.start], homes)]
    else RecoverWrite(L, homes, d, k - n - 1)
  }

  /** The disk after the first k block writes of a commit. */
  function CommitDisk(L: Layout, homes: seq<nat>, data: seq<Block>, d: Disk, k: nat): (r: Disk)
    requires HomesOk(L, |d|, homes) && |data| == |homes| && k <= 2 * |homes| + 2
    ensures |r| == |d|
  {
    if k == 0 then d else CommitWrite(L, homes, data, CommitDisk(L, homes, data, d, k - 1), k - 1)
  }

  /** Filling the log touches only log blocks past the header. */
  lemma {:induction false} LogFilled(L: Layout, homes: seq<nat>, data: seq<Block>, d: Disk, k: nat)
    requires HomesOk(L, |d|, homes) && |data| == |homes| && k <= |homes|
    ensures var e := CommitDisk(L, homes, data, d, k);
            && (forall i :: 0 <= i < k ==> e[L.start + 1 + i] == data[i])
            && (forall b :: 0 <= b < |d| && !(L.start + 1 <= b < L.start + 1 + k) ==> e[b] == d[b])
  {
    if k > 0 {
      LogFilled(L, homes, data, d, k - 1);
    }
  }

  /** After the header write a commit proceeds exactly as a recovery of the disk holding that header. */
  lemma {:induction false} CommitIsRecovery(L: Layout, homes: seq<nat>, data: seq<Block>, d: Disk, k: nat)
    requires HomesOk(L, |d|, homes) && |data| == |homes| && k <= |homes| + 1
    ensures CommitDisk(L, homes, data, d, |homes| + 1 + k)
         == RecoverDisk(L, homes, CommitDisk(L, homes, data, d, |homes| + 1), k)
  {
    if k > 0 {
      CommitIsRecovery(L, homes, data, d, k - 1);
    }
  }

  /** The disk right after the header write names the transaction, and recovery applies all of it. */
  lemma {:induction false} HeaderCommits(L: Layout, homes: seq<nat>, data: seq<Block>, d: Disk)
    requires HomesOk(L, |d|, homes) && |data| == |homes|
    ensures var e := CommitDisk(L, homes, data, d, |homes| + 1);
            && LogOk(L, e) && Homes(L, e) == homes
            && Updated(L, d, homes, data, Recovered(L, e))
  {
    var n := |homes|;
    var f := CommitDisk(L, homes, data, d, n);
    var e := CommitDisk(L, homes, data, d, n + 1);
    LogFilled(L, homes, data, d, n);
    assert e == f[L.start := PutHeader(f[L.start], homes)];
    assert Homes(L, e) == homes;
    RecoveredMeaning(L, e);
    var r := Recovered(L, e);
    assert InLog(L, L.start);
    forall b | 0 <= b < |d| && !InLog(L, b) && b !in homes ensures r[b] == d[b] {
      assert r[b] == e[b] == f[b];
    }
  }

  /** Crash atomicity. A commit starts on a disk whose log is empty and is cut off after `k` of its block
      writes; recovery is then cut off any number of times. The recovery that finishes gives the home blocks
      from before the transaction when the first header write had not happened (k <= n), and all of the
      transaction's blocks when it had. */
  lemma {:induction false} CrashAtomicity(L: Layout, homes: seq<nat>, data: seq<Block>, d: Disk, k: nat, cuts: seq<nat>)
    requires LogOk(L, d) && Homes(L, d) == []
    requires HomesOk(L, |d|, homes) && |data| == |homes| && k <= 2 * |homes| + 2
    ensures var e := CommitDisk(L, homes, data, d, k);
            && LogOk(L, e)
            && var r := Recovered(L, Crashes(L, e, cuts));
               if k <= |homes| then SameHome(L, r, d) else Updated(L, d, homes, data, r)
  {
    hide RecoverWrite; hide CommitWrite; hide PutHeader;
    var n := |homes|;
    var e := CommitDisk(L, homes, data, d, k);
    if k <= n {
      LogFilled(L, homes, data, d, k);
      RecoveredMeaning(L, e);
      forall b | 0 <= b < |d| && !InLog(L, b) ensures e[b] == d[b] {}
      CrashesInRecovery(L, e, cuts);
    } else {
      var h := CommitDisk(L, homes, data, d, n + 1);
      HeaderCommits(L, homes, data, d);
      CommitIsRecovery(L, homes, data, d, k - n - 1);
      RecoveryRestarts(L, h, k - n - 1);
      CrashesInRecovery(L, e, cuts);
    }
  }

  /** An undisturbed commit ends with the transaction at home and the log empty again. */
  lemma {:induction false} CommitFinishes(L: Layout, homes: seq<nat>, data: seq<Block>, d: Disk)
    requires HomesOk(L, |d|, homes) && |data| == |homes|
    ensures var e := CommitDisk(L, homes, data, d, 2 * |homes| + 2);
            LogOk(L, e) && Homes(L, e) == [] && Updated(L, d, homes, data, e)
  {
    var n := |homes|;
    var h := CommitDisk(L, homes, data, d, n + 1);
    HeaderCommits(L, homes, data, d);
    CommitIsRecovery(L, homes, data, d, n + 1);
    assert CommitDisk(L, homes, data, d, 2 * n + 2) == Recovered(L, h);
    RecoveredMeaning(L, h);
  }
}
