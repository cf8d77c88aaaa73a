/**
 * The names of table and log files, and the numbers that are read back from them
 * (internal/engine/helpers.go, recover.go, internal/sstable/reader.go).
 */
module FileNames {
  import opened Bytes

  /** The scan of a name takes six digits at most. */
  const SCAN_WIDTH := 6
  const NAME_LIMIT := 1_000_000

  // ---------- writing a name ----------

  function Digit(d: nat): char
    requires d < 10
  {
    ('0' as int + d) as char
  }

  function Decimal(n: nat): (s: string)
    ensures s != []
  {
    if n < 10 then [Digit(n)] else Decimal(n / 10) + [Digit(n % 10)]
  }

  function Zeros(k: nat): string {
    if k == 0 then [] else ['0'] + Zeros(k - 1)
  }

  /** %06d: zeros in front up to six characters, and never fewer digits than the number has. */
  function Padded(n: nat): string {
    Zeros(if |Decimal(n)| < SCAN_WIDTH then SCAN_WIDTH - |Decimal(n)| else 0) + Decimal(n)
  }

  function TableName(n: uint64): string {
    "table-" + Padded(n) + ".sst"
  }

  function LogName(n: uint64): string {
    "wal-" + Padded(n) + ".log"
  }

  // ---------- scanning a name ----------

  predicate IsDigit(c: char) {
    '0' <= c <= '9'
  }

  /** How many digits s starts with, counting up to max. */
  function DigitCount(s: string, max: nat): (k: nat)
    ensures k <= |s| && k <= max && AllDigits(s[..k])
  {
    if s == [] || max == 0 || !IsDigit(s[0]) then 0 else 1 + DigitCount(s[1..], max - 1)
  }

  predicate AllDigits(s: string) {
    forall i :: 0 <= i < |s| ==> IsDigit(s[i])
  }

  function Power10(k: nat): nat {
    if k == 0 then 1 else 10 * Power10(k - 1)
  }

  lemma {:induction false} PowersAscend(a: nat, b: nat)
    requires a <= b
    ensures Power10(a) <= Power10(b)
    decreases b
  {
    if a < b {
      PowersAscend(a, b - 1);
    }
  }

  function DigitValue(c: char): nat
    requires IsDigit(c)
  {
    c as int - '0' as int
  }

  function ValueOf(digits: string): (v: nat)
    requires AllDigits(digits)
    ensures v < Power10(|digits|)
  {
    if digits == [] then 0 else
      var k := |digits| - 1;
      10 * ValueOf(digits[..k]) + DigitValue(digits[k])
  }

  /** What Sscanf stores, if it gets as far as a number, and whether the rest of the format matches too. */
  datatype Scan = Scan(num: Option<uint64>, ok: bool)

  function ScanName(name: string, prefix: string, suffix: string): Scan {
    if !(prefix <= name) then Scan(None, false) else
      var rest := name[|prefix|..];
      var k := DigitCount(rest, SCAN_WIDTH);
      if k == 0 then Scan(None, false) else
        PowersAscend(k, SCAN_WIDTH);
        Scan(Some(ValueOf(rest[..k])), suffix <= rest[k..])
  }

  /** The number a table reader takes for its file; it does not look at the error. */
  function TableNumber(name: string): uint64 {
    match ScanName(name, "table-", ".sst").num case None => 0 case Some(n) => n
  }

  /** The number recovery takes for a log; a name that does not match is passed over. */
  function LogNumber(name: string): Option<uint64> {
    var s := ScanName(name, "wal-", ".log");
    if s.ok then s.num else None
  }

  // ---------- the number that comes back ----------

  /** n without all but its six leading digits. */
  function Leading(n: nat): (m: nat)
    ensures m < NAME_LIMIT
    ensures m == n <==> n < NAME_LIMIT
  {
    if n < NAME_LIMIT then n else Leading(n / 10)
  }

  lemma {:induction false} DecimalIsDigits(n: nat)
    ensures AllDigits(Decimal(n))
    ensures ValueOf(Decimal(n)) == n
  {
    if n >= 10 {
      DecimalIsDigits(n / 10);
      var d := Decimal(n);
      assert d[..|d| - 1] == Decimal(n / 10);
    } else {
      assert Decimal(n)[..0] == [];
    }
  }

  /** How many digits a number has. */
  lemma DecimalLength(n: nat)
    ensures |Decimal(n)| <= SCAN_WIDTH <==> n < NAME_LIMIT
    ensures |Decimal(n)| > SCAN_WIDTH ==> |Decimal(n / 10)| >= SCAN_WIDTH
  {
    DigitsAre(n, 6);
    if n >= NAME_LIMIT {
      DigitsAre(n / 10, 5);
    }
  }

  lemma {:induction false} DigitsAre(n: nat, k: nat)
    requires k >= 1
    ensures |Decimal(n)| <= k <==> n < Power10(k)
    decreases k
  {
    if k > 1 && n >= 10 {
      DigitsAre(n / 10, k - 1);
    } else if n < 10 {
      PowersAscend(1, k);
    }
  }

  lemma {:induction false} ZerosInFront(k: nat, s: string)
    requires AllDigits(s)
    ensures |Zeros(k)| == k && AllDigits(Zeros(k) + s) && ValueOf(Zeros(k) + s) == ValueOf(s)
    decreases k + |s|
  {
    if s == [] {
      OnlyZeros(k);
      assert Zeros(k) + s == Zeros(k);
    } else {
      var n := |s| - 1;
      ZerosInFront(k, s[..n]);
      hide Zeros;
      OneMoreDigit(Zeros(k), s);
    }
  }

  lemma OneMoreDigit(z: string, s: string)
    requires s != [] && AllDigits(s) && AllDigits(z + s[..|s| - 1]) && ValueOf(z + s[..|s| - 1]) == ValueOf(s[..|s| - 1])
    ensures AllDigits(z + s) && ValueOf(z + s) == ValueOf(s)
  {
    var n := |z + s| - 1;
    assert (z + s)[..n] == z + s[..|s| - 1] && (z + s)[n] == s[|s| - 1];
    forall i | 0 <= i < |z + s| ensures IsDigit((z + s)[i]) {
      assert i < n ==> (z + s)[i] == (z + s)[..n][i];
    }
  }

  lemma {:induction false} OnlyZeros(k: nat)
    ensures |Zeros(k)| == k && AllDigits(Zeros(k)) && ValueOf(Zeros(k)) == 0
  {
    if k > 0 {
      OnlyZeros(k - 1);
      ZerosEnd(k - 1);
      assert Zeros(k)[..k - 1] == Zeros(k - 1);
    }
  }

  lemma {:induction false} ZerosEnd(k: nat)
    ensures |Zeros(k)| == k && Zeros(k + 1) == Zeros(k) + ['0']
  {
    if k > 0 {
      ZerosEnd(k - 1);
    }
  }

  lemma {:induction false} LeadingDigits(n: nat)
    requires n >= NAME_LIMIT
    ensures |Decimal(n)| > SCAN_WIDTH && AllDigits(Decimal(n)) && ValueOf(Decimal(n)[..SCAN_WIDTH]) == Leading(n)
  {
    DecimalLength(n);
    DecimalLength(n / 10);
    DecimalIsDigits(n);
    DecimalIsDigits(n / 10);
    assert Decimal(n)[..SCAN_WIDTH] == Decimal(n / 10)[..SCAN_WIDTH];
    if n / 10 >= NAME_LIMIT {
      LeadingDigits(n / 10);
    } else {
      assert Decimal(n / 10)[..SCAN_WIDTH] == Decimal(n / 10);
    }
  }

  lemma NoZeros(s: string)
    ensures Zeros(0) + s == s
  {
  }

  lemma PaddedIsDigits(n: nat)
    ensures AllDigits(Padded(n)) && ValueOf(Padded(n)) == n
    ensures |Padded(n)| >= SCAN_WIDTH && (|Padded(n)| == SCAN_WIDTH <==> n < NAME_LIMIT)
    ensures AllDigits(Padded(n)[..SCAN_WIDTH]) && ValueOf(Padded(n)[..SCAN_WIDTH]) == Leading(n)
  {
    hide Decimal, ValueOf, Zeros, Leading;
    DecimalIsDigits(n);
    DecimalLength(n);
    ZerosInFront(if |Decimal(n)| < SCAN_WIDTH then SCAN_WIDTH - |Decimal(n)| else 0, Decimal(n));
    if n >= NAME_LIMIT {
      LeadingDigits(n);
      NoZeros(Decimal(n));
    } else {
      assert Padded(n)[..SCAN_WIDTH] == Padded(n);
    }
  }

  lemma {:induction false} CountsTo(s: string, rest: string, max: nat)
    requires AllDigits(s) && |s| >= max
    ensures DigitCount(s + rest, max) == max
  {
    if max > 0 {
      CountsTo(s[1..], rest, max - 1);
      assert (s + rest)[1..] == s[1..] + rest;
    }
  }

  /** Scanning a name gives the leading six digits of its number, and the rest matches exactly when there are no more. */
  lemma ScanOfName(prefix: string, n: nat, suffix: string)
    requires suffix != [] && !IsDigit(suffix[0])
    ensures ScanName(prefix + Padded(n) + suffix, prefix, suffix) == Scan(Some(Leading(n)), n < NAME_LIMIT)
  {
    hide Padded, ValueOf, DigitCount, Leading;
    PaddedIsDigits(n);
    CountsTo(Padded(n), suffix, SCAN_WIDTH);
    NameParts(prefix, Padded(n), suffix);
  }

  lemma NameParts(prefix: string, p: string, suffix: string)
    requires |p| >= SCAN_WIDTH && AllDigits(p) && suffix != [] && !IsDigit(suffix[0])
    ensures prefix <= prefix + p + suffix && (prefix + p + suffix)[|prefix|..] == p + suffix
    ensures (p + suffix)[..SCAN_WIDTH] == p[..SCAN_WIDTH]
    ensures suffix <= (p + suffix)[SCAN_WIDTH..] <==> |p| == SCAN_WIDTH
  {
    var rest := (p + suffix)[SCAN_WIDTH..];
    assert rest == p[SCAN_WIDTH..] + suffix;
    if |p| > SCAN_WIDTH {
      assert rest[0] == p[SCAN_WIDTH];
    }
  }

  /** The number of a table file survives its name exactly below a million; beyond that, its last digits are lost. */
  lemma TableNumberIff(n: uint64)
    ensures TableNumber(TableName(n)) == Leading(n)
    ensures TableNumber(TableName(n)) == n <==> n < NAME_LIMIT
  {
    ScanOfName("table-", n, ".sst");
  }

  /** The number of a log survives its name exactly below a million; beyond that, the log is passed over. */
  lemma LogNumberIff(n: uint64)
    ensures LogNumber(LogName(n)) == if n < NAME_LIMIT then Some(n) else None
  {
    ScanOfName("wal-", n, ".log");
  }

  /** No two files share a name. */
  lemma NamesDistinct(a: uint64, b: uint64)
    ensures TableName(a) == TableName(b) ==> a == b
    ensures LogName(a) == LogName(b) ==> a == b
  {
    PaddedIsDigits(a);
    PaddedIsDigits(b);
    Inner("table-", Padded(a), ".sst");
    Inner("table-", Padded(b), ".sst");
    Inner("wal-", Padded(a), ".log");
    Inner("wal-", Padded(b), ".log");
  }

  lemma Inner(prefix: string, s: string, suffix: string)
    ensures var name := prefix + s + suffix; name[|prefix|..|name| - |suffix|] == s
  {
  }

  /** Among the numbers below limit, no two tables are taken for one another, exactly when limit is at most a million. */
  lemma DistinctBelowIff(limit: nat)
    ensures limit <= NAME_LIMIT <==>
        forall a, b :: 0 <= a < b < limit && b < 0x1_0000_0000_0000_0000 ==> TableNumber(TableName(a)) != TableNumber(TableName(b))
  {
    if limit <= NAME_LIMIT {
      forall a, b | 0 <= a < b < limit && b < 0x1_0000_0000_0000_0000 ensures TableNumber(TableName(a)) != TableNumber(TableName(b)) {
        TableNumberIff(a);
        TableNumberIff(b);
      }
    } else {
      TableNumberIff(NAME_LIMIT / 10);
      TableNumberIff(NAME_LIMIT);
      assert TableNumber(TableName(NAME_LIMIT / 10)) == TableNumber(TableName(NAME_LIMIT));
    }
  }
}
