/** internal/calculator/calculator.go: finding rows and the token calculation over them. */
module Calculator {

  const CATEGORY_DDI_OBJECTS := "DDI Objects"
  const CATEGORY_ACTIVE_IPS := "Active IPs"
  const CATEGORY_MANAGED_ASSETS := "Managed Assets"
  const TOKENS_PER_DDI_OBJECT := 25
  const TOKENS_PER_ACTIVE_IP := 13
  const TOKENS_PER_MANAGED_ASSET := 3
  const NIOS_TOKENS_PER_DDI_OBJECT := 50
  const NIOS_TOKENS_PER_ACTIVE_IP := 25

  datatype FindingRow = FindingRow(
    provider: string, source: string, region: string, category: string, item: string,
    count: int, tokensPerUnit: int, managementTokens: int)

  datatype TokenResult = TokenResult(
    ddiTokens: int, ipTokens: int, assetTokens: int, grandTotal: int, findings: seq<FindingRow>)

  /** Go's integer division truncates toward zero; Dafny's is Euclidean. */
  function TruncDiv(n: int, d: int): int
    requires d > 0
  {
    if n >= 0 then n / d else -((-n) / d)
  }

  /** The mathematical ceiling of n / d. */
  function Ceiling(n: int, d: int): int
    requires d > 0
  {
    (n + d - 1) / d
  }

  function CeilDiv(n: int, d: int): int
    requires d > 0
  {
    if n == 0 then 0 else TruncDiv(n + d - 1, d)
  }

  /** CeilDiv is the true ceiling exactly when the numerator is above -d or leaves remainder 1. */
  lemma {:induction false} CeilDivIsCeilingIff(n: int, d: int)
    requires d > 0
    ensures CeilDiv(n, d) == Ceiling(n, d) <==> n > -d || (n - 1) % d == 0
  {
    var x := n + d - 1;
    assert (n - 1) % d == x % d by { ModShift(n - 1, d); }
    if x < 0 {
      var q, r := (-x) / d, (-x) % d;
      assert -x == q * d + r;
      if r == 0 {
        DivUnique(x, d, -q, 0);
      } else {
        assert x == (-q - 1) * d + (d - r);
        DivUnique(x, d, -q - 1, d - r);
      }
    }
    if n == 0 {
      DivUnique(x, d, 0, d - 1);
    }
  }

  lemma {:induction false} MulStep(k: int, d: int)
    requires k >= 1 && d > 0
    ensures k * d >= d
  {
    assert (k - 1) * d >= 0;
  }

  /** d * j < d * k orders j before k. */
  lemma {:induction false} MulCancel(d: int, j: int, k: int)
    requires d > 0 && d * j < d * k
    ensures j < k
  {
    assert d * (k - j) > 0;
  }

  lemma {:induction false} DivUnique(x: int, d: int, q: int, r: int)
    requires d > 0 && x == q * d + r && 0 <= r < d
    ensures x / d == q && x % d == r
  {
    var p, s := x / d, x % d;
    assert x == p * d + s;
    assert (q - p) * d == q * d - p * d;
    assert (p - q) * d == p * d - q * d;
    if q > p {
      MulStep(q - p, d);
    } else if q < p {
      MulStep(p - q, d);
    }
  }

  lemma {:induction false} ModShift(n: int, d: int)
    requires d > 0
    ensures (n + d) % d == n % d
  {
    assert n == (n / d) * d + n % d;
    DivUnique(n + d, d, n / d + 1, n % d);
  }

  lemma {:induction false} CeilingBounds(n: int, d: int)
    requires d > 0
    ensures d * (Ceiling(n, d) - 1) < n <= d * Ceiling(n, d)
    ensures n >= 0 ==> Ceiling(n, d) >= 0 && CeilDiv(n, d) == Ceiling(n, d)
  {
    var q := (n + d - 1) / d;
    assert n + d - 1 == q * d + (n + d - 1) % d;
    CeilDivIsCeilingIff(n, d);
    if n >= 0 {
      MulCancel(d, -1, q);
    }
  }

  /** Rounding two counts up separately costs at most one token more than rounding their sum. */
  lemma {:induction false} CeilingSplit(a: int, b: int, d: int)
    requires d > 0
    ensures Ceiling(a + b, d) <= Ceiling(a, d) + Ceiling(b, d) <= Ceiling(a + b, d) + 1
  {
    var x, y, z := Ceiling(a, d), Ceiling(b, d), Ceiling(a + b, d);
    CeilingBounds(a, d);
    CeilingBounds(b, d);
    CeilingBounds(a + b, d);
    assert d * (x + y) == d * x + d * y;
    MulCancel(d, z - 1, x + y);
    assert d * (x + y - 2) == d * (x - 1) + d * (y - 1);
    MulCancel(d, x + y - 2, z);
  }

  /** Sum of the counts in one category. */
  function CategoryTotal(rows: seq<FindingRow>, category: string): int
  {
    if rows == [] then 0
    else CategoryTotal(rows[..|rows| - 1], category)
         + (if rows[|rows| - 1].category == category then rows[|rows| - 1].count else 0)
  }

  method Max3(a: int, b: int, c: int) returns (m: int)
    ensures m == a || m == b || m == c
    ensures m >= a && m >= b && m >= c
  {
    m := a;
    if b > m {
      m := b;
    }
    if c > m {
      m := c;
    }
  }

  method Calculate(findings: seq<FindingRow>) returns (r: TokenResult)
    ensures r.findings == findings
    ensures r.ddiTokens == CeilDiv(CategoryTotal(findings, "DDI Objects"), 25)
    ensures r.ipTokens == CeilDiv(CategoryTotal(findings, "Active IPs"), 13)
    ensures r.assetTokens == CeilDiv(CategoryTotal(findings, "Managed Assets"), 3)
    ensures r.grandTotal in [r.ddiTokens, r.ipTokens, r.assetTokens]
    ensures r.grandTotal >= r.ddiTokens && r.grandTotal >= r.ipTokens && r.grandTotal >= r.assetTokens
  {
    var totalDDI, totalIP, totalAsset := 0, 0, 0;
    for i := 0 to |findings|
      invariant totalDDI == CategoryTotal(findings[..i], CATEGORY_DDI_OBJECTS)
      invariant totalIP == CategoryTotal(findings[..i], CATEGORY_ACTIVE_IPS)
      invariant totalAsset == CategoryTotal(findings[..i], CATEGORY_MANAGED_ASSETS)
    {
      var row := findings[i];
      assert findings[..i + 1][..i] == findings[..i];
      CategoriesDiffer();
      if row.category == CATEGORY_DDI_OBJECTS {
        totalDDI := totalDDI + row.count;
      } else if row.category == CATEGORY_ACTIVE_IPS {
        totalIP := totalIP + row.count;
      } else if row.category == CATEGORY_MANAGED_ASSETS {
        totalAsset := totalAsset + row.count;
      }
    }
    assert findings[..|findings|] == findings;
    var ddi := CeilDiv(totalDDI, TOKENS_PER_DDI_OBJECT);
    var ip := CeilDiv(totalIP, TOKENS_PER_ACTIVE_IP);
    var asset := CeilDiv(totalAsset, TOKENS_PER_MANAGED_ASSET);
    var grand := Max3(ddi, ip, asset);
    r := TokenResult(ddi, ip, asset, grand, findings);
  }

  lemma {:induction false} CategoriesDiffer()
    ensures CATEGORY_DDI_OBJECTS != CATEGORY_ACTIVE_IPS
    ensures CATEGORY_DDI_OBJECTS != CATEGORY_MANAGED_ASSETS
    ensures CATEGORY_ACTIVE_IPS != CATEGORY_MANAGED_ASSETS
  {
    assert CATEGORY_DDI_OBJECTS[0] != CATEGORY_ACTIVE_IPS[0];
    assert CATEGORY_DDI_OBJECTS[0] != CATEGORY_MANAGED_ASSETS[0];
  }

  lemma {:induction false} CategoryTotalAppend(a: seq<FindingRow>, b: seq<FindingRow>, category: string)
    ensures CategoryTotal(a + b, category) == CategoryTotal(a, category) + CategoryTotal(b, category)
  {
    if b == [] {
      assert a + b == a;
    } else {
      assert (a + b)[..|a + b| - 1] == a + b[..|b| - 1];
      CategoryTotalAppend(a, b[..|b| - 1], category);
    }
  }

  /** Wherever a row stands, it adds its count to its own category and to no other. */
  lemma {:induction false} EachRowCountsOnce(a: seq<FindingRow>, r: FindingRow, b: seq<FindingRow>, category: string)
    ensures CategoryTotal([], category) == 0
    ensures CategoryTotal(a + [r] + b, category)
            == CategoryTotal(a + b, category) + (if r.category == category then r.count else 0)
  {
    CategoryTotalAppend(a + [r], b, category);
    CategoryTotalAppend(a, [r], category);
    CategoryTotalAppend(a, b, category);
    assert [r][..0] == [];
  }
}
