/**
 kindCode (internal/queue/platlib/adapter.go): the 64-bit FNV-1a hash that turns a Kind into
 the work type of its rows.
 */
module KindCode {
  import opened Jobs

  const OFFSET: Code := 14695981039346656037
  const PRIME: nat := 1099511628211

  /** Bitwise exclusive or. */
  function Xor(x: nat, y: nat): nat {
    if x == 0 && y == 0 then 0 else 2 * Xor(x / 2, y / 2) + (x + y) % 2
  }

  /** uint64 multiplication by the FNV prime. */
  function Times(x: nat): Code {
    x * PRIME % 0x1_0000_0000_0000_0000
  }

  /** One round: xor the byte in, then multiply. */
  function Mix(h: Code, b: Byte): Code {
    Times(Xor(h, b))
  }

  /** The state after hashing `k` from `h`. */
  function Hash(h: Code, k: Kind): Code {
    if k == [] then h else Mix(Hash(h, k[..|k| - 1]), k[|k| - 1])
  }

  function CodeOf(k: Kind): Code {
    Hash(OFFSET, k)
  }

  method KindCode(k: Kind) returns (h: Code)
    ensures h == CodeOf(k)
  {
    h := OFFSET;
    for i := 0 to |k|
      invariant h == Hash(OFFSET, k[..i])
    {
      assert k[..i + 1][..i] == k[..i];
      var x := Xor(h, k[i]);
      h := Times(x);
    }
    assert k[..|k|] == k;
  }

  // ----- the hash is FNV-1a

  /** Bit i of x. */
  function Bit(x: nat, i: nat): nat {
    if i == 0 then x % 2 else Bit(x / 2, i - 1)
  }

  lemma {:induction false} XorHalves(x: nat, y: nat)
    ensures Xor(x, y) / 2 == Xor(x / 2, y / 2) && Xor(x, y) % 2 == (x + y) % 2
  {
  }

  /** Bit by bit: one exactly where the operands differ. */
  lemma {:induction false} XorBits(x: nat, y: nat, i: nat)
    ensures Bit(Xor(x, y), i) == if Bit(x, i) == Bit(y, i) then 0 else 1
  {
    XorHalves(x, y);
    if i > 0 {
      XorBits(x / 2, y / 2, i - 1);
    } else {
      SumParity(x, y);
    }
  }

  lemma SumParity(x: nat, y: nat)
    ensures (x + y) % 2 == if x % 2 == y % 2 then 0 else 1
  {
  }

  /** The empty kind has the 64-bit offset basis; each further byte is first xored in, then the state is multiplied by the 64-bit prime. */
  lemma IsFnv1a(k: Kind, b: Byte)
    ensures CodeOf([]) == 0xcbf2_9ce4_8422_2325
    ensures CodeOf(k + [b]) == Xor(CodeOf(k), b) * 0x100_0000_01b3 % 0x1_0000_0000_0000_0000
  {
    assert (k + [b])[..|k|] == k;
  }

  // ----- each round is injective in the state and in the byte

  lemma {:induction false} XorInjective(x: nat, y: nat, b: nat)
    requires Xor(x, b) == Xor(y, b)
    ensures x == y
    decreases x + y + b
  {
    if x != 0 || y != 0 || b != 0 {
      assert Xor(x, b) == 2 * Xor(x / 2, b / 2) + (x + b) % 2;
      assert Xor(y, b) == 2 * Xor(y / 2, b / 2) + (y + b) % 2;
      XorInjective(x / 2, y / 2, b / 2);
    }
  }

  lemma {:induction false} XorCommutes(x: nat, y: nat)
    ensures Xor(x, y) == Xor(y, x)
  {
    if x != 0 || y != 0 { XorCommutes(x / 2, y / 2); }
  }

  function Pow2(n: nat): nat { if n == 0 then 1 else 2 * Pow2(n - 1) }

  lemma {:induction false} Pow2Plus(a: nat, b: nat)
    ensures Pow2(a + b) == Pow2(a) * Pow2(b)
  {
    if b > 0 { Pow2Plus(a, b - 1); }
  }

  lemma Pow2Twice(n: nat)
    ensures Pow2(2 * n) == Pow2(n) * Pow2(n)
  {
    Pow2Plus(n, n);
  }

  lemma {:induction false} XorFits(x: nat, y: nat, n: nat)
    requires x < Pow2(n) && y < Pow2(n)
    ensures Xor(x, y) < Pow2(n)
  {
    if n > 0 { XorFits(x / 2, y / 2, n - 1); }
  }

  /** If p has the inverse i modulo w, multiplying by p modulo w loses nothing. */
  lemma Cancel(d: int, j: int, p: int, i: int, k: int, w: int)
    requires p * i == 1 + k * w && d * p == j * w
    ensures d == (j * i - d * k) * w
  {
    calc {
      d + d * k * w;
      d * (p * i);
      (d * p) * i;
      j * w * i;
    }
  }

  lemma SmallMultiple(d: int, m: int, w: int)
    requires d == m * w && -w < d < w
    ensures d == 0
  {
    assert m >= 1 ==> m * w >= w;
    assert m <= -1 ==> m * w <= -w;
  }

  lemma TimesInjective(x: Code, y: Code)
    requires Times(x) == Times(y)
    ensures x == y
  {
    var w := 0x1_0000_0000_0000_0000;
    var d, j := x - y, x * PRIME / w - y * PRIME / w;
    Cancel(d, j, PRIME, 0xCE96_5057_AFF6_957B, 887285111055, w);
    SmallMultiple(d, j * 0xCE96_5057_AFF6_957B - d * 887285111055, w);
  }

  lemma WordSize()
    ensures Pow2(64) == 0x1_0000_0000_0000_0000
  {
    assert Pow2(8) == 256;
    Pow2Twice(8);
    Pow2Twice(16);
    Pow2Twice(32);
  }

  lemma XorIsCode(h: Code, b: Byte)
    ensures Xor(h, b) < 0x1_0000_0000_0000_0000
  {
    WordSize();
    XorFits(h, b, 64);
  }

  lemma MixInjective(g: Code, h: Code, b: Byte, c: Byte)
    requires Mix(g, b) == Mix(h, c) && (g == h || b == c)
    ensures g == h && b == c
  {
    XorIsCode(g, b);
    XorIsCode(h, c);
    TimesInjective(Xor(g, b), Xor(h, c));
    if b == c {
      XorInjective(g, h, b);
    } else {
      XorCommutes(g, b);
      XorCommutes(h, c);
      XorInjective(b, c, g);
    }
  }

  // ----- what that says about codes

  lemma {:induction false} HashAppend(h: Code, a: Kind, s: Kind)
    ensures Hash(h, a + s) == Hash(Hash(h, a), s)
  {
    if s == [] {
      assert a + s == a;
    } else {
      HashAppend(h, a, s[..|s| - 1]);
      assert (a + s)[..|a + s| - 1] == a + s[..|s| - 1];
    }
  }

  lemma {:induction false} HashInjective(g: Code, h: Code, s: Kind)
    requires Hash(g, s) == Hash(h, s)
    ensures g == h
  {
    if s != [] {
      var r, b := s[..|s| - 1], s[|s| - 1];
      MixInjective(Hash(g, r), Hash(h, r), b, b);
      HashInjective(g, h, r);
    }
  }

  /** A common suffix neither makes nor hides a collision. */
  lemma CommonSuffix(a: Kind, b: Kind, s: Kind)
    ensures CodeOf(a + s) == CodeOf(b + s) <==> CodeOf(a) == CodeOf(b)
  {
    HashAppend(OFFSET, a, s);
    HashAppend(OFFSET, b, s);
    if CodeOf(a + s) == CodeOf(b + s) { HashInjective(CodeOf(a), CodeOf(b), s); }
  }

  /** Two kinds that differ in exactly one byte have different codes. */
  lemma OneByteApart(a: Kind, b: Kind, i: nat)
    requires i < |a| == |b| && a[i] != b[i] && forall j: nat | j < |a| && j != i :: a[j] == b[j]
    ensures CodeOf(a) != CodeOf(b)
  {
    var p, s := a[..i], a[i + 1..];
    var u, v := p + [a[i]], p + [b[i]];
    assert u[..i] == p && v[..i] == p;
    if CodeOf(u) == CodeOf(v) {
      MixInjective(CodeOf(p), CodeOf(p), a[i], b[i]);
      assert false;
    }
    CommonSuffix(u, v, s);
    assert a == u + s && b == v + s;
  }
}
