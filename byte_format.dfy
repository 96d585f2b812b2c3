/** `formatBytes` (metrics/auditing_metrics.go) and its copy
    `formatBytesFilesystem` (metrics/filesystem_metrics.go): a byte count as
    a label, either the exact count or a value scaled down by a power of
    1024 with a binary unit. The two Go functions are the same code; the
    model holds it once. */
module ByteFormat {
  import opened Common
  import opened GoStrings

  const Unit: int := 1024

  /** The unit letters, indexed by the exponent the loop reaches. */
  const UnitLetters: string := "KMGTPE"

  /** The `%.1f` rendering of `float64(bytes) / float64(div)`: floating
      point division and formatting are not modelled, so the rendering is a
      parameter of the model. */
  type Render = (int, int) -> string

  function Pow1024(k: nat): (p: nat)
    ensures p >= 1
  {
    if k == 0 then 1 else Unit * Pow1024(k - 1)
  }

  lemma {:induction false} Pow1024Monotone(i: nat, j: nat)
    requires i <= j
    ensures Pow1024(i) <= Pow1024(j)
    decreases j
  {
    if i < j {
      Pow1024Monotone(i, j - 1);
    }
  }

  /** How many times `n /= unit` runs before `n` drops below 1024: the
      exponent of the loop in `formatBytes`, started at `n = bytes / 1024`. */
  function UnitExp(n: int): (e: nat)
    ensures n < Pow1024(e + 1)
    ensures e > 0 ==> Pow1024(e) <= n
    decreases n
  {
    if n < Unit then 0
    else
      var e := 1 + UnitExp(n / Unit);
      assert n / Unit < Pow1024(e);
      assert n < Unit * (n / Unit + 1);
      assert Unit * (n / Unit) <= n;
      e
  }

  /** The exponent is the only k with 1024^k <= n < 1024^(k+1). */
  lemma {:induction false} UnitExpUnique(n: int, k: nat)
    requires Pow1024(k) <= n < Pow1024(k + 1)
    ensures UnitExp(n) == k
    decreases k
  {
    if k > 0 {
      var m := n / Unit;
      assert Unit * Pow1024(k - 1) <= n;
      assert Pow1024(k - 1) <= m;
      assert n < Unit * Pow1024(k);
      assert m < Pow1024(k);
      UnitExpUnique(m, k - 1);
    }
  }

  lemma Pow1024Six()
    ensures Pow1024(6) == 0x1000_0000_0000_0000
  {
    assert Pow1024(1) == 0x400;
    assert Pow1024(2) == 0x10_0000;
    assert Pow1024(3) == 0x4000_0000;
    assert Pow1024(4) == 0x100_0000_0000;
    assert Pow1024(5) == 0x4_0000_0000_0000;
  }

  /** Every int64 has its exponent within the six unit letters. */
  lemma ExpWithinLetters(bytes: int)
    requires IsInt64(bytes)
    ensures UnitExp(bytes / Unit) < |UnitLetters|
  {
    var e := UnitExp(bytes / Unit);
    Pow1024Six();
    if e >= 6 {
      Pow1024Monotone(6, e);
      assert false;
    }
  }

  /** The label `formatBytes` returns. */
  function ByteLabel(bytes: int, render: Render): string
    requires IsInt64(bytes)
  {
    if bytes < Unit then Itoa(bytes) + " B"
    else
      var e := UnitExp(bytes / Unit);
      ExpWithinLetters(bytes);
      render(bytes, Pow1024(e + 1)) + " " + [UnitLetters[e]] + "iB"
  }

  /** Below 1024, including every negative count, the label is the exact
      count in decimal followed by " B", and the count reads back from it. */
  lemma SmallCountIsExact(bytes: int, render: Render)
    requires IsInt64(bytes) && bytes < Unit
    ensures var s := ByteLabel(bytes, render);
      |s| >= 2 && s[|s| - 2..] == " B" && Atoi(s[..|s| - 2]) == Some(bytes)
  {
    var s := ByteLabel(bytes, render);
    assert s[..|s| - 2] == Itoa(bytes);
    AtoiOfItoa(bytes);
  }

  /** A count between d and 1024 d, that is, one unit letter's range,
      divides by d to a value from 1 up to 1023. */
  lemma QuotientInUnitRange(a: int, d: int)
    requires 0 < d <= a < Unit * d
    ensures 1 <= a / d < Unit
  {
  }

  /** The exponent of a count of at least 1024: 1024^(e+1) <= bytes <
      1024^(e+2). */
  lemma ScaleBrackets(bytes: int)
    requires bytes >= Unit
    ensures var e := UnitExp(bytes / Unit);
      Pow1024(e + 1) <= bytes < Pow1024(e + 2)
  {
    var n := bytes / Unit;
    var e := UnitExp(n);
    assert Unit * n <= bytes < Unit * (n + 1);
    assert Pow1024(e + 1) == Unit * Pow1024(e);
    assert Pow1024(e + 2) == Unit * Pow1024(e + 1);
  }

  /** From 1024 on, the label divides by div = 1024^(e+1) with
      1 <= bytes / div < 1024 and names the unit of that power; no other
      power of 1024 brackets the count. */
  lemma ScaledCountIsInRange(bytes: int, render: Render, k: nat)
    requires IsInt64(bytes) && bytes >= Unit
    ensures var e := UnitExp(bytes / Unit);
      var div := Pow1024(e + 1);
      && e < |UnitLetters| && div <= bytes && 1 <= bytes / div < Unit
      && ByteLabel(bytes, render) == render(bytes, div) + " " + [UnitLetters[e]] + "iB"
    ensures Pow1024(k + 1) <= bytes < Pow1024(k + 2) ==> UnitExp(bytes / Unit) == k
  {
    var n := bytes / Unit;
    var e := UnitExp(n);
    ExpWithinLetters(bytes);
    ScaleBrackets(bytes);
    QuotientInUnitRange(bytes, Pow1024(e + 1));
    if Pow1024(k + 1) <= bytes < Pow1024(k + 2) {
      assert Pow1024(k + 1) == Unit * Pow1024(k);
      assert Pow1024(k + 2) == Unit * Pow1024(k + 1);
      assert Unit * n <= bytes < Unit * (n + 1);
      UnitExpUnique(n, k);
    }
  }

  /** `formatBytes(bytes)` */
  method FormatBytes(bytes: int, render: Render) returns (s: string)
    requires IsInt64(bytes)
    ensures s == ByteLabel(bytes, render)
  {
    if bytes < Unit {
      return Itoa(bytes) + " B";
    }
    var div, exp := Unit, 0;
    var n := bytes / Unit;
    while n >= Unit
      invariant 1 <= n && div == Pow1024(exp + 1)
      invariant exp + UnitExp(n) == UnitExp(bytes / Unit)
      decreases n
    {
      div := div * Unit;
      exp := exp + 1;
      n := n / Unit;
    }
    ExpWithinLetters(bytes);
    s := render(bytes, div) + " " + [UnitLetters[exp]] + "iB";
  }
}
