// Bytes, exclusive-or on them, and the running exclusive-or that both serial
// protocols use as a checksum.
module Bytes {
  type byte = x: int | 0 <= x < 256

  // Bitwise exclusive-or, lowest bit first.
  function Xor2(a: nat, b: nat): (r: nat)
    decreases a + b
  {
    if a == 0 && b == 0 then 0
    else (if a % 2 == b % 2 then 0 else 1) + 2 * Xor2(a / 2, b / 2)
  }

  lemma {:induction false} Xor2Bound(a: nat, b: nat, limit: nat)
    requires a < limit && b < limit
    requires limit == 1 || limit == 2 || limit == 4 || limit == 8 || limit == 16
          || limit == 32 || limit == 64 || limit == 128 || limit == 256
    ensures Xor2(a, b) < limit
    decreases a + b
  {
    if !(a == 0 && b == 0) {
      Xor2Bound(a / 2, b / 2, limit / 2);
    }
  }

  lemma {:induction false} Xor2Commutes(a: nat, b: nat)
    ensures Xor2(a, b) == Xor2(b, a)
    decreases a + b
  {
    if !(a == 0 && b == 0) {
      Xor2Commutes(a / 2, b / 2);
    }
  }

  lemma {:induction false} Xor2Associates(a: nat, b: nat, c: nat)
    ensures Xor2(Xor2(a, b), c) == Xor2(a, Xor2(b, c))
    decreases a + b + c
  {
    if !(a == 0 && b == 0 && c == 0) {
      Xor2Halves(a, b);
      Xor2Halves(b, c);
      Xor2Halves(Xor2(a, b), c);
      Xor2Halves(a, Xor2(b, c));
      Xor2Associates(a / 2, b / 2, c / 2);
    }
  }

  lemma Xor2Halves(a: nat, b: nat)
    ensures Xor2(a, b) / 2 == Xor2(a / 2, b / 2)
    ensures Xor2(a, b) % 2 == if a % 2 == b % 2 then 0 else 1
    ensures Xor2(a, b) == Xor2(a, b) % 2 + 2 * (Xor2(a, b) / 2)
  {
    if a == 0 && b == 0 {
      assert Xor2(0, 0) == 0;
    }
  }

  lemma {:induction false} Xor2Cancels(a: nat)
    ensures Xor2(a, a) == 0
  {
    if a != 0 {
      Xor2Cancels(a / 2);
    }
  }

  lemma {:induction false} Xor2Zero(a: nat)
    ensures Xor2(a, 0) == a && Xor2(0, a) == a
  {
    if a != 0 {
      Xor2Zero(a / 2);
    }
  }

  // a ^ b on bytes stays a byte.
  function Flip(a: byte, b: byte): byte {
    Xor2Bound(a, b, 256);
    Xor2(a, b)
  }

  // Inverting all eight bits.
  lemma FlipAll(a: byte)
    ensures Flip(a, 0xFF) == 255 - a
  {
    Invert(a, 256);
  }

  lemma {:induction false} Invert(a: nat, limit: nat)
    requires a < limit
    requires limit == 1 || limit == 2 || limit == 4 || limit == 8 || limit == 16
          || limit == 32 || limit == 64 || limit == 128 || limit == 256
    ensures Xor2(a, limit - 1) == limit - 1 - a
    decreases limit
  {
    if limit != 1 {
      Invert(a / 2, limit / 2);
    }
  }

  // The checksum: exclusive-or of all bytes.
  function Xor(s: seq<byte>): byte {
    if s == [] then 0 else Flip(s[0], Xor(s[1..]))
  }

  lemma {:induction false} XorConcat(a: seq<byte>, b: seq<byte>)
    ensures Xor(a + b) == Flip(Xor(a), Xor(b))
  {
    if a == [] {
      assert a + b == b;
      Xor2Zero(Xor(b));
    } else {
      assert (a + b)[1..] == a[1..] + b;
      XorConcat(a[1..], b);
      Xor2Associates(a[0], Xor(a[1..]), Xor(b));
    }
  }

  lemma XorSnoc(a: seq<byte>, v: byte)
    ensures Xor(a + [v]) == Flip(Xor(a), v)
  {
    XorConcat(a, [v]);
    Xor2Zero(v);
    assert Xor([v]) == Flip(v, Xor([v][1..])) == v;
  }

  // A byte string closed by its own checksum cancels to zero.
  lemma XorClosed(a: seq<byte>)
    ensures Xor(a + [Xor(a)]) == 0
  {
    XorSnoc(a, Xor(a));
    Xor2Cancels(Xor(a));
  }

  // The checksum loop: an accumulator folded over the bytes from the left.
  method XorLoop(s: seq<byte>) returns (chk: byte)
    ensures chk == Xor(s)
  {
    chk := 0;
    var i := 0;
    while i < |s|
      invariant i <= |s|
      invariant chk == Xor(s[..i])
    {
      XorSnoc(s[..i], s[i]);
      assert s[..i + 1] == s[..i] + [s[i]];
      chk := Flip(chk, s[i]);
      i := i + 1;
    }
    assert s[..|s|] == s;
  }

  // Go's byte(n): the low eight bits.
  function LowByte(n: nat): byte {
    n % 256
  }
}
