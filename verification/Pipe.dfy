/** A pipe: a ring of 512 bytes with 32-bit counters that wrap. */
module Pipe {
  import opened Blocks

  const PIPESIZE: nat := 512
  const WORD: nat := 0x1_0000_0000

  /** What one stretch of pipewrite with the lock held comes to: all bytes stored, asleep because the pipe is full,
      or given up because nobody will read or the writer was killed. */
  datatype WriteResult = Stored | WriterSleeps | WriteFails

  /** What one stretch of piperead comes to. */
  datatype ReadResult = Got(bytes: seq<byte>) | ReaderSleeps | ReadFails

  /** One turn of the counter at most. */
  function Wrapped(z: nat): (r: nat) {
    if z < WORD then z else z - WORD
  }

  lemma Advance(x: nat, d: nat)
    requires d <= PIPESIZE
    ensures (x + d) % WORD == Wrapped(x % WORD + d)
  {
    var q, a := x / WORD, x % WORD;
    assert x == q * WORD + a;
    if a + d < WORD {
      assert (x + d) / WORD == q;
    } else {
      assert (x + d) / WORD == q + 1;
    }
  }

  lemma RingPlace(x: nat)
    ensures x % WORD % PIPESIZE == x % PIPESIZE
  {
  }

  /** Two byte counts, at most a ring apart, as 32-bit counters. */
  lemma Counters(r: nat, w: nat)
    requires r <= w <= r + PIPESIZE
    ensures w % WORD == (r % WORD + PIPESIZE) % WORD <==> w == r + PIPESIZE
    ensures w % WORD == r % WORD <==> w == r
    ensures w % WORD % PIPESIZE == w % PIPESIZE && r % WORD % PIPESIZE == r % PIPESIZE
    ensures (w + 1) % WORD == (w % WORD + 1) % WORD && (r + 1) % WORD == (r % WORD + 1) % WORD
  {
    Advance(r, w - r);
    CounterSteps(r);
    CounterSteps(w);
    RingPlace(r);
    RingPlace(w);
  }

  lemma CounterSteps(x: nat)
    ensures (x % WORD + PIPESIZE) % WORD == Wrapped(x % WORD + PIPESIZE)
    ensures (x + 1) % WORD == (x % WORD + 1) % WORD
  {
    var a := x % WORD;
    assert a % WORD == a;
    Advance(a, PIPESIZE);
    Advance(a, 1);
    Advance(x, 1);
  }

  /** Different byte counts less than a ring apart fall on different places in it. */
  lemma Places(j: nat, k: nat)
    requires j < k < j + PIPESIZE
    ensures j % PIPESIZE != k % PIPESIZE
  {
    assert j == j / PIPESIZE * PIPESIZE + j % PIPESIZE;
    assert k == k / PIPESIZE * PIPESIZE + k % PIPESIZE;
  }

  // ------------------------------------------------------------------ the ring as a value

  /** The bytes of the ring and its two 32-bit counters. */
  datatype State = State(data: seq<byte>, nread: nat, nwrite: nat)

  predicate Sized(s: State) {
    |s.data| == PIPESIZE
  }

  predicate Full(s: State) {
    s.nwrite == (s.nread + PIPESIZE) % WORD
  }

  predicate Drained(s: State) {
    s.nread == s.nwrite
  }

  function Pushed(s: State, b: byte): (r: State)
    requires Sized(s)
  {
    State(s.data[s.nwrite % PIPESIZE := b], s.nread, (s.nwrite + 1) % WORD)
  }

  function Head(s: State): (r: byte)
    requires Sized(s)
  {
    s.data[s.nread % PIPESIZE]
  }

  function Popped(s: State): (r: State) {
    s.(nread := (s.nread + 1) % WORD)
  }

  /** The ring after the bytes `stored` went in and the bytes `taken` came out: what came out is a prefix of what went
      in, at most a ring is in flight, and it is in the ring, under counters that have wrapped any number of times. */
  ghost predicate Carries(s: State, stored: seq<byte>, taken: seq<byte>) {
    && Sized(s)
    && taken <= stored && |stored| <= |taken| + PIPESIZE
    && s.nread == |taken| % WORD && s.nwrite == |stored| % WORD
    && forall k {:trigger stored[k]} :: |taken| <= k < |stored| ==> s.data[k % PIPESIZE] == stored[k]
  }

  lemma CarriesTests(s: State, stored: seq<byte>, taken: seq<byte>)
    requires Carries(s, stored, taken)
    ensures Full(s) <==> |stored| == |taken| + PIPESIZE
    ensures Drained(s) <==> stored == taken
  {
    Counters(|taken|, |stored|);
  }

  lemma PushedCarries(s: State, stored: seq<byte>, taken: seq<byte>, b: byte)
    requires Carries(s, stored, taken) && !Full(s)
    ensures Carries(Pushed(s, b), stored + [b], taken)
  {
    Counters(|taken|, |stored|);
    forall k | |taken| <= k < |stored| ensures k % PIPESIZE != |stored| % PIPESIZE {
      Places(k, |stored|);
    }
  }

  lemma PoppedCarries(s: State, stored: seq<byte>, taken: seq<byte>)
    requires Carries(s, stored, taken) && !Drained(s)
    ensures |taken| < |stored| && Head(s) == stored[|taken|] && Carries(Popped(s), stored, taken + [Head(s)])
  {
    Counters(|taken|, |stored|);
  }

  /** A stretch of pipewrite with the lock held: bytes from j on, until all are stored or the ring is full. */
  function StoreAll(s: State, addr: seq<byte>, j: nat): (r: (State, nat))
    requires Sized(s) && j <= |addr|
    ensures j <= r.1 <= |addr|
    decreases |addr| - j
  {
    if j == |addr| || Full(s) then (s, j) else StoreAll(Pushed(s, addr[j]), addr, j + 1)
  }

  lemma {:induction false} StoreAllCarries(s: State, addr: seq<byte>, j: nat, stored: seq<byte>, taken: seq<byte>)
    requires Carries(s, stored, taken) && j <= |addr|
    ensures var (t, k) := StoreAll(s, addr, j);
      && j <= k <= |addr| && Carries(t, stored + addr[j..k], taken)
      && (k < |addr| ==> |stored| + k - j == |taken| + PIPESIZE)
    decreases |addr| - j
  {
    CarriesTests(s, stored, taken);
    if j < |addr| && !Full(s) {
      PushedCarries(s, stored, taken, addr[j]);
      StoreAllCarries(Pushed(s, addr[j]), addr, j + 1, stored + [addr[j]], taken);
      var (t, k) := StoreAll(s, addr, j);
      assert stored + [addr[j]] + addr[j + 1..k] == stored + addr[j..k];
    } else {
      assert stored + addr[j..j] == stored;
    }
  }

  /** The copying loop of piperead: up to n bytes, until the ring is drained. */
  function TakeAll(s: State, n: nat): (r: (State, seq<byte>))
    requires Sized(s)
    decreases n
  {
    if n == 0 || Drained(s) then (s, [])
    else
      var (t, bytes) := TakeAll(Popped(s), n - 1);
      (t, [Head(s)] + bytes)
  }

  lemma {:induction false} TakeAllCarries(s: State, n: nat, stored: seq<byte>, taken: seq<byte>)
    requires Carries(s, stored, taken)
    ensures var (t, bytes) := TakeAll(s, n);
      && Carries(t, stored, taken + bytes)
      && |bytes| == if |stored| - |taken| < n then |stored| - |taken| else n
    decreases n
  {
    CarriesTests(s, stored, taken);
    if n > 0 && !Drained(s) {
      PoppedCarries(s, stored, taken);
      TakeAllCarries(Popped(s), n - 1, stored, taken + [Head(s)]);
      var (t, bytes) := TakeAll(Popped(s), n - 1);
      assert taken + [Head(s)] + bytes == taken + ([Head(s)] + bytes);
    } else {
      assert taken + [] == taken;
    }
  }

  // ------------------------------------------------------------------ the pipe

  /** The pipe with its ring of bytes. */
  class Ring {
    const data: array<byte>
    var nread: nat
    var nwrite: nat
    var readopen: bool
    var writeopen: bool
    ghost var stored: seq<byte>       // every byte written, in order
    ghost var taken: seq<byte>        // every byte read, in order

    ghost function St(): (r: State)
      reads this, data
    {
      State(data[..], nread, nwrite)
    }

    ghost predicate Valid()
      reads this, data
    {
      Carries(St(), stored, taken)
    }

    constructor ()
      ensures Valid() && stored == [] && taken == [] && readopen && writeopen
    {
      data := new byte[PIPESIZE](i => 0);
      nread, nwrite, readopen, writeopen := 0, 0, true, true;
      stored, taken := [], [];
    }

    /** pipewrite from byte i on, up to the next time it gives up the lock: bytes i to j - 1 are stored, in order.
        It sleeps or fails only when the pipe is full. */
    method Pipewrite(addr: seq<byte>, i: nat, killed: bool) returns (r: WriteResult, j: nat)
      requires Valid() && i <= |addr|
      modifies this`nwrite, this`stored, data
      ensures Valid() && i <= j <= |addr| && stored == old(stored) + addr[i..j]
      ensures r.Stored? <==> j == |addr|
      ensures !r.Stored? ==> |stored| == |taken| + PIPESIZE
      ensures r.WriteFails? <==> !r.Stored? && (!readopen || killed)
      ensures (St(), j) == StoreAll(old(St()), addr, i)
    {
      j := i;
      while j < |addr|
        invariant Valid() && i <= j <= |addr| && stored == old(stored) + addr[i..j]
        invariant StoreAll(St(), addr, j) == StoreAll(old(St()), addr, i)
      {
        CarriesTests(St(), stored, taken);
        if nwrite == (nread + PIPESIZE) % WORD {
          return if !readopen || killed then WriteFails else WriterSleeps, j;
        }
        PushedCarries(St(), stored, taken, addr[j]);
        ghost var s := St();
        data[nwrite % PIPESIZE] := addr[j];
        nwrite := (nwrite + 1) % WORD;
        stored := stored + [addr[j]];
        assert St() == Pushed(s, addr[j]);
        j := j + 1;
      }
      return Stored, j;
    }

    /** piperead, from taking the lock to giving it up: as many bytes as there are, but no more than n, in the order
        written. With n > 0 it returns none only when the pipe is drained and its write end closed. */
    method Piperead(n: nat, killed: bool) returns (r: ReadResult)
      requires Valid()
      modifies this`nread, this`taken
      ensures Valid()
      ensures r.Got? ==> taken == old(taken) + r.bytes
      ensures r.Got? ==> |r.bytes| == if |stored| - |old(taken)| < n then |stored| - |old(taken)| else n
      ensures r.Got? && n > 0 && r.bytes == [] ==> taken == stored && !writeopen
      ensures !r.Got? ==> taken == old(taken) == stored && writeopen && (r.ReadFails? <==> killed)
      ensures r.Got? ==> (St(), r.bytes) == TakeAll(old(St()), n)
    {
      CarriesTests(St(), stored, taken);
      if nread == nwrite && writeopen {
        return if killed then ReadFails else ReaderSleeps;
      }
      var bytes: seq<byte> := [];
      assert bytes + TakeAll(St(), n).1 == TakeAll(St(), n).1;
      while |bytes| < n
        invariant Valid() && |bytes| <= n && taken == old(taken) + bytes
        invariant TakeAll(old(St()), n) == (TakeAll(St(), n - |bytes|).0, bytes + TakeAll(St(), n - |bytes|).1)
      {
        CarriesTests(St(), stored, taken);
        if nread == nwrite {
          assert bytes + [] == bytes;
          break;
        }
        PoppedCarries(St(), stored, taken);
        var b := data[nread % PIPESIZE];
        ghost var more := TakeAll(Popped(St()), n - |bytes| - 1);
        assert bytes + ([b] + more.1) == (bytes + [b]) + more.1;
        nread := (nread + 1) % WORD;
        taken := taken + [b];
        bytes := bytes + [b];
      }
      assert bytes + [] == bytes;
      return Got(bytes);
    }

    /** Closing an end changes no byte. The pipe is freed when both ends are closed. */
    method Pipeclose(writable: bool) returns (freed: bool)
      requires Valid()
      modifies this`readopen, this`writeopen
      ensures Valid() && freed == (!readopen && !writeopen)
      ensures writeopen == (old(writeopen) && !writable) && readopen == (old(readopen) && writable)
    {
      if writable {
        writeopen := false;
      } else {
        readopen := false;
      }
      freed := !readopen && !writeopen;
    }
  }
}
