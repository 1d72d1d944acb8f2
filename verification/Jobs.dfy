/** The benchmark's job types (internal/queue/queue.go) and the work item carried by a queue row. */
module Jobs {
  /** Go strings are byte strings; the kind is hashed byte by byte. */
  type Byte = b: nat | b < 256

  type Kind = seq<Byte>

  type UInt64 = n: nat | n < 0x1_0000_0000_0000_0000

  /** A work type.  The column is a BIGINT; the cast there and back keeps the 64 bits. */
  type Code = UInt64

  const PERMANENT := "permanent"
  const TRANSIENT := "transient"
  const RATE_LIMIT := "rate_limit"

  datatype Payload = Payload(workMillis: int, bytes: seq<Byte>, failWith: string)

  datatype BenchWork = BenchWork(workID: nat, tenant: string, kind: Kind, attempt: int, payload: Payload)

  function Decimal(n: nat): string {
    var d := ['0' + (n % 10) as char];
    if n < 10 then d else Decimal(n / 10) + d
  }

  /** fmt.Sprintf("bench:%d", workID). */
  function JobName(w: nat): string { "bench:" + Decimal(w) }

  lemma {:induction false} DecimalInjective(m: nat, n: nat)
    requires Decimal(m) == Decimal(n)
    ensures m == n
  {
    DecimalLast(m);
    DecimalLast(n);
    if m >= 10 && n >= 10 {
      var d, e := Decimal(m), Decimal(n);
      assert d[..|d| - 1] == Decimal(m / 10) && e[..|e| - 1] == Decimal(n / 10);
      DecimalInjective(m / 10, n / 10);
    }
  }

  lemma {:induction false} DecimalLast(n: nat)
    ensures Decimal(n) != [] && Decimal(n)[|Decimal(n)| - 1] == '0' + (n % 10) as char
    ensures n < 10 <==> |Decimal(n)| == 1
  {
    if n >= 10 { DecimalLast(n / 10); }
  }

  /** Different jobs have different ids. */
  lemma JobNameInjective(m: nat, n: nat)
    requires JobName(m) == JobName(n)
    ensures m == n
  {
    assert JobName(m)[6..] == Decimal(m) && JobName(n)[6..] == Decimal(n);
    DecimalInjective(m, n);
  }

  // ----- the decimal numeral can be read back

  predicate IsDigit(c: char) { '0' <= c <= '9' }

  /** The number a string of digits stands for. */
  function Value(s: string): nat
    requires forall i: nat | i < |s| :: IsDigit(s[i])
  {
    if s == [] then 0
    else
      assert IsDigit(s[|s| - 1]);
      10 * Value(s[..|s| - 1]) + (s[|s| - 1] as nat - '0' as nat)
  }

  lemma {:induction false} DecimalReads(n: nat)
    ensures Decimal(n) != [] && (forall i: nat | i < |Decimal(n)| :: IsDigit(Decimal(n)[i])) && Value(Decimal(n)) == n
    ensures n > 0 ==> Decimal(n)[0] != '0'
  {
    var d := Decimal(n);
    if n < 10 {
      assert d[..0] == [];
      assert Value(d[..0]) == 0;
    } else {
      DecimalReads(n / 10);
      assert d[..|d| - 1] == Decimal(n / 10);
    }
  }

  /** The id is "bench:" and the work id without leading zeros. */
  lemma JobNameReads(w: nat)
    ensures |JobName(w)| > 6 && JobName(w)[..6] == "bench:"
    ensures (forall i: nat | i < |JobName(w)[6..]| :: IsDigit(JobName(w)[6..][i])) && Value(JobName(w)[6..]) == w
    ensures w > 0 ==> JobName(w)[6] != '0'
  {
    DecimalReads(w);
    assert JobName(w)[6..] == Decimal(w);
  }
}
