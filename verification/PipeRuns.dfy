/** Any number of readers and writers on one pipe, interleaved at the points where they give up its lock. */
module PipeRuns {
  import opened Blocks
  import opened Pipe

  /** A call in progress: a writer that has stored `done` bytes of its buffer; a reader of up to n bytes; or a reader
      that has returned. */
  datatype Call = Writing(addr: seq<byte>, done: nat) | Reading(n: nat) | Returned(n: nat, got: seq<byte>)

  /** The ring, and the calls. `stored`, `who` and `taken` are history: every byte a writer put into the ring, which
      call it was, and every byte a reader got out of the ring. */
  datatype Sys = Sys(
    ring: State, writeopen: bool, calls: map<nat, Call>, stored: seq<byte>, who: seq<nat>, taken: seq<byte>)

  datatype Act =
    | Write(c: nat, addr: seq<byte>)    // pipewrite is called
    | Read(c: nat, n: nat)              // piperead is called
    | Store(c: nat)                     // a stretch of pipewrite: until all is stored or the ring is full
    | Take(c: nat)                      // piperead finds bytes, or the write end closed, and returns
    | Close                             // the last writer closes its end

  predicate Enabled(s: Sys, a: Act) {
    match a
    case Write(c, _) => c !in s.calls
    case Read(c, _) => c !in s.calls
    case Store(c) => c in s.calls && s.calls[c].Writing? && s.calls[c].done <= |s.calls[c].addr| && Sized(s.ring)
    case Take(c) => c in s.calls && s.calls[c].Reading? && Sized(s.ring) && !(Drained(s.ring) && s.writeopen)
    case Close => true
  }

  function Repeat(c: nat, n: nat): (r: seq<nat>)
    ensures |r| == n && forall j :: 0 <= j < n ==> r[j] == c
  {
    seq(n, j => c)
  }

  /** What the lines between taking and giving up the lock do, as `Pipe.Ring` does it. */
  function Do(s: Sys, a: Act): (r: Sys)
    requires Enabled(s, a)
  {
    match a
    case Write(c, addr) => s.(calls := s.calls[c := Writing(addr, 0)])
    case Read(c, n) => s.(calls := s.calls[c := Reading(n)])
    case Store(c) =>
      var u := s.calls[c];
      var (t, j) := StoreAll(s.ring, u.addr, u.done);
      s.(ring := t, calls := s.calls[c := Writing(u.addr, j)],
         stored := s.stored + u.addr[u.done..j], who := s.who + Repeat(c, j - u.done))
    case Take(c) =>
      var (t, bytes) := TakeAll(s.ring, s.calls[c].n);
      s.(ring := t, calls := s.calls[c := Returned(s.calls[c].n, bytes)], taken := s.taken + bytes)
    case Close => s.(writeopen := false)
  }

  /** The bytes call c stored. */
  function From(b: seq<byte>, who: seq<nat>, c: nat): (r: seq<byte>)
    requires |b| == |who|
  {
    if b == [] then []
    else
      var n := |b| - 1;
      From(b[..n], who[..n], c) + if who[n] == c then [b[n]] else []
  }

  lemma {:induction false} FromMore(b: seq<byte>, who: seq<nat>, x: seq<byte>, d: nat, c: nat)
    requires |b| == |who|
    ensures From(b + x, who + Repeat(d, |x|), c) == From(b, who, c) + if d == c then x else []
    decreases |x|
  {
    if x == [] {
      assert b + x == b && who + Repeat(d, 0) == who;
    } else {
      var n := |x| - 1;
      assert (b + x)[..|b| + n] == b + x[..n];
      assert (who + Repeat(d, |x|))[..|b| + n] == who + Repeat(d, n);
      FromMore(b, who, x[..n], d, c);
      assert x[..n] + [x[n]] == x;
    }
  }

  lemma {:induction false} FromNone(b: seq<byte>, who: seq<nat>, c: nat)
    requires |b| == |who| && c !in who
    ensures From(b, who, c) == []
  {
    if b != [] {
      FromNone(b[..|b| - 1], who[..|b| - 1], c);
    }
  }

  /** The ring carries the history, and each writer's bytes are the first ones of its buffer, in order. */
  ghost predicate Inv(s: Sys) {
    && Carries(s.ring, s.stored, s.taken) && |s.who| == |s.stored|
    && (forall c :: c in s.who ==> c in s.calls)
    && (forall c :: c in s.calls && s.calls[c].Writing? ==>
          s.calls[c].done <= |s.calls[c].addr| && From(s.stored, s.who, c) == s.calls[c].addr[..s.calls[c].done])
  }

  lemma StoreKeepsInv(s: Sys, c: nat)
    requires Inv(s) && Enabled(s, Store(c))
    ensures Inv(Do(s, Store(c)))
  {
    hide From;
    hide Carries;
    var t := Do(s, Store(c));
    var u := s.calls[c];
    StoreAllCarries(s.ring, u.addr, u.done, s.stored, s.taken);
    var (_, j) := StoreAll(s.ring, u.addr, u.done);
    var x := u.addr[u.done..j];
    forall e | e in t.calls && t.calls[e].Writing?
      ensures t.calls[e].done <= |t.calls[e].addr| && From(t.stored, t.who, e) == t.calls[e].addr[..t.calls[e].done]
    {
      FromMore(s.stored, s.who, x, c, e);
      assert u.addr[..u.done] + x == u.addr[..j];
    }
  }

  lemma DoKeepsInv(s: Sys, a: Act)
    requires Inv(s) && Enabled(s, a)
    ensures Inv(Do(s, a))
  {
    match a {
      case Write(c, addr) => FromNone(s.stored, s.who, c);
      case Read(_, _) =>
      case Store(c) => StoreKeepsInv(s, c);
      case Take(c) => TakeAllCarries(s.ring, s.calls[c].n, s.stored, s.taken);
      case Close =>
    }
  }

  /** An empty pipe, both counters at 0. */
  ghost predicate Initial(s: Sys) {
    && Sized(s.ring) && s.ring.nread == 0 && s.ring.nwrite == 0
    && s.writeopen && s.calls == map[] && s.stored == s.taken == [] && s.who == []
  }

  ghost predicate Run(ss: seq<Sys>, a: seq<Act>) {
    && |ss| == |a| + 1 && Initial(ss[0])
    && forall n {:trigger a[n]} :: 0 <= n < |a| ==> Enabled(ss[n], a[n]) && ss[n + 1] == Do(ss[n], a[n])
  }

  lemma {:induction false} RunKeepsInv(ss: seq<Sys>, a: seq<Act>, n: nat)
    requires Run(ss, a) && n < |ss|
    ensures Inv(ss[n])
  {
    if n > 0 {
      RunKeepsInv(ss, a, n - 1);
      assert Enabled(ss[n - 1], a[n - 1]) && ss[n] == Do(ss[n - 1], a[n - 1]);
      DoKeepsInv(ss[n - 1], a[n - 1]);
    }
  }

  /** In every run the bytes that readers got out of the ring are a prefix of the bytes that writers put into it, and at
      most PIPESIZE are in flight. */
  lemma Fifo(ss: seq<Sys>, a: seq<Act>, n: nat)
    requires Run(ss, a) && n < |ss|
    ensures ss[n].taken <= ss[n].stored && |ss[n].stored| - |ss[n].taken| <= PIPESIZE
  {
    RunKeepsInv(ss, a, n);
  }

  /** The bytes stored are the writers' buffers, interleaved: taking out those of one call leaves the bytes it has
      written, in their order. */
  lemma {:induction false} WritersKeepOrder(ss: seq<Sys>, a: seq<Act>, n: nat, c: nat)
    requires Run(ss, a) && n < |ss| && c in ss[n].calls && ss[n].calls[c].Writing?
    ensures var s := ss[n];
      && |s.who| == |s.stored| && s.calls[c].done <= |s.calls[c].addr|
      && From(s.stored, s.who, c) == s.calls[c].addr[..s.calls[c].done]
  {
    hide From;
    RunKeepsInv(ss, a, n);
  }

  /** A read of n > 0 bytes that returns none finds every stored byte read and the write end closed. */
  lemma EndOfFile(ss: seq<Sys>, a: seq<Act>, n: nat)
    requires Run(ss, a) && n < |a| && a[n].Take? && a[n].c in ss[n].calls && ss[n].calls[a[n].c].Reading?
    ensures var c := a[n].c;
      && c in ss[n + 1].calls && ss[n + 1].calls[c].Returned?
      && (ss[n].calls[c].n > 0 && ss[n + 1].calls[c].got == [] ==> ss[n].taken == ss[n].stored && !ss[n].writeopen)
      && ss[n + 1].taken == ss[n].taken + ss[n + 1].calls[c].got
  {
    RunKeepsInv(ss, a, n);
    assert Enabled(ss[n], a[n]) && ss[n + 1] == Do(ss[n], a[n]);
    CarriesTests(ss[n].ring, ss[n].stored, ss[n].taken);
    TakeAllCarries(ss[n].ring, ss[n].calls[a[n].c].n, ss[n].stored, ss[n].taken);
  }
}
