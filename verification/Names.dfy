/** File names: at most 14 bytes, ended early by a zero byte. */
module Names {
  import opened Blocks

  const DIRSIZ: nat := 14
  const DOT: seq<byte> := [46]
  const DOTDOT: seq<byte> := [46, 46]

  /** A C string: what lies past the end of the buffer reads as the terminating zero. */
  function ByteAt(s: seq<byte>, i: nat): (r: byte) {
    if i < |s| then s[i] else 0
  }

  function KeyLen(s: seq<byte>, i: nat): (r: nat)
    requires i <= DIRSIZ
    ensures i <= r <= DIRSIZ
    ensures forall j :: i <= j < r ==> ByteAt(s, j) != 0
    ensures r < DIRSIZ ==> ByteAt(s, r) == 0
    decreases DIRSIZ - i
  {
    if i == DIRSIZ || ByteAt(s, i) == 0 then i else KeyLen(s, i + 1)
  }

  /** The part of a name that counts. */
  function Key(s: seq<byte>): (r: seq<byte>)
    ensures |r| <= DIRSIZ && forall j :: 0 <= j < |r| ==> r[j] == ByteAt(s, j) && r[j] != 0
  {
    seq(KeyLen(s, 0), j requires 0 <= j < KeyLen(s, 0) => ByteAt(s, j))
  }

  /** The leading bytes agree, and there the key ends or the bytes differ. */
  lemma KeysCompare(s: seq<byte>, t: seq<byte>, i: nat)
    requires i <= DIRSIZ && forall j :: 0 <= j < i ==> ByteAt(s, j) == ByteAt(t, j) && ByteAt(s, j) != 0
    ensures i == DIRSIZ ==> Key(s) == Key(t)
    ensures i < DIRSIZ && ByteAt(s, i) == 0 && ByteAt(t, i) == 0 ==> Key(s) == Key(t)
    ensures i < DIRSIZ && ByteAt(s, i) != ByteAt(t, i) ==> Key(s) != Key(t)
  {
    KeyAtLeast(s, i);
    KeyAtLeast(t, i);
    if i < DIRSIZ && ByteAt(s, i) != 0 {
      KeyAtLeast(s, i + 1);
    }
    if i < DIRSIZ && ByteAt(t, i) != 0 {
      KeyAtLeast(t, i + 1);
    }
  }

  lemma KeyAtLeast(s: seq<byte>, i: nat)
    requires i <= DIRSIZ && forall j :: 0 <= j < i ==> ByteAt(s, j) != 0
    ensures |Key(s)| >= i
    ensures i == DIRSIZ || ByteAt(s, i) == 0 ==> |Key(s)| == i
  {
    var n := KeyLen(s, 0);
    if n < DIRSIZ {
      assert ByteAt(s, n) == 0;
    }
  }

  /** Two names have one key exactly if they agree in their first 14 bytes, up to and with the first zero. */
  lemma KeyMeaning(s: seq<byte>, t: seq<byte>)
    ensures Key(s) == Key(t) <==>
      forall j :: 0 <= j < 14 && (forall i :: 0 <= i < j ==> ByteAt(s, i) != 0) ==> ByteAt(s, j) == ByteAt(t, j)
  {
    var i := 0;
    while i < 14 && ByteAt(s, i) != 0 && ByteAt(s, i) == ByteAt(t, i)
      invariant 0 <= i <= 14
      invariant forall j :: 0 <= j < i ==> ByteAt(s, j) == ByteAt(t, j) && ByteAt(s, j) != 0
    {
      i := i + 1;
    }
    KeysCompare(s, t, i);
  }

  /** namecmp: zero exactly for names with the same key. */
  method Namecmp(s: seq<byte>, t: seq<byte>) returns (r: int)
    ensures r == 0 <==> Key(s) == Key(t)
  {
    var n, p := DIRSIZ, 0;
    while n > 0 && ByteAt(s, p) != 0 && ByteAt(s, p) == ByteAt(t, p)
      invariant n + p == DIRSIZ
      invariant forall j :: 0 <= j < p ==> ByteAt(s, j) == ByteAt(t, j) && ByteAt(s, j) != 0
    {
      n, p := n - 1, p + 1;
    }
    KeysCompare(s, t, p);
    if n == 0 {
      return 0;
    }
    return ByteAt(s, p) - ByteAt(t, p);
  }

  /** strncpy into a 14-byte field: the same key, and zeroes after it. */
  method Strncpy(t: seq<byte>) returns (r: seq<byte>)
    ensures |r| == DIRSIZ && Key(r) == Key(t)
    ensures forall j :: |Key(t)| <= j < DIRSIZ ==> r[j] == 0
  {
    r := [];
    while |r| < DIRSIZ && ByteAt(t, |r|) != 0
      invariant |r| <= DIRSIZ
      invariant forall j :: 0 <= j < |r| ==> r[j] == ByteAt(t, j) && r[j] != 0
    {
      r := r + [ByteAt(t, |r|)];
    }
    ghost var n := |r|;
    KeyAtLeast(t, n);
    while |r| < DIRSIZ
      invariant n <= |r| <= DIRSIZ
      invariant forall j :: 0 <= j < n ==> r[j] == ByteAt(t, j) && r[j] != 0
      invariant forall j :: n <= j < |r| ==> r[j] == 0
    {
      r := r + [0];
    }
    KeyAtLeast(r, n);
  }
}
