/** The shared money arithmetic of the reports: profit of a line, margin
    percentage, the sum of a list of numbers or numeric texts, and the cost
    of a stock. Amounts are whole cents; the margin is a real number. */
module Price {
  import opened Common

  /** `calcularGanancia`: the profit of selling `quantity` units at `sale`
      that cost `cost` each. */
  function Ganancia(sale: int, cost: int, quantity: int): (r: int)
    ensures quantity == 0 || sale == cost ==> r == 0
    ensures sale >= cost && quantity >= 0 ==> r >= 0
    ensures sale <= cost && quantity >= 0 ==> r <= 0
  {
    (sale - cost) * quantity
  }

  /** Profit is additive in the quantity sold. */
  lemma GananciaAdditive(sale: int, cost: int, a: int, b: int)
    ensures Ganancia(sale, cost, a + b) == Ganancia(sale, cost, a) + Ganancia(sale, cost, b)
  {
    assert (sale - cost) * (a + b) == (sale - cost) * a + (sale - cost) * b;
  }

  /** `calcularMargenGanancia`: the profit as a percentage of the sales, 0
      when the sales are not positive. */
  function Margen(totalVenta: int, totalCosto: int): (r: real)
    ensures totalVenta <= 0 ==> r == 0.0
    ensures totalVenta > 0 ==> r * totalVenta as real == ((totalVenta - totalCosto) * 100) as real
  {
    if totalVenta <= 0 then 0.0
    else ((totalVenta - totalCosto) as real / totalVenta as real) * 100.0
  }

  /** With positive sales, nothing spent is a 100% margin; a non-negative
      cost never gives more than 100%, and a cost within the sales never
      gives less than 0%. */
  lemma MargenBounds(v: int, c: int)
    requires v > 0
    ensures c == 0 ==> Margen(v, c) == 100.0
    ensures c >= 0 ==> Margen(v, c) <= 100.0
    ensures c <= v ==> Margen(v, c) >= 0.0
  {
    var d := (v - c) as real;
    assert ((v - c) * 100) as real == d * 100.0;
    PercentBounds(Margen(v, c), v as real, d);
  }

  /** The bounds of a percentage `m` known only by `m × w = d × 100`, `w`
      the sales and `d` the profit. */
  lemma PercentBounds(m: real, w: real, d: real)
    requires w > 0.0 && m * w == d * 100.0
    ensures d == w ==> m == 100.0
    ensures d <= w ==> m <= 100.0
    ensures d >= 0.0 ==> m >= 0.0
  {
    if d <= w {
      MulBound(m, w, 100.0);
    }
    if d == w {
      assert 100.0 * w == m * w;
      MulBound(100.0, w, m);
    }
    if d >= 0.0 {
      MulNonNeg(m, w);
    }
  }

  lemma MulBound(m: real, v: real, k: real)
    requires v > 0.0 && m * v <= k * v
    ensures m <= k
  {
    assert (m - k) * v <= 0.0;
  }

  lemma MulNonNeg(m: real, v: real)
    requires v > 0.0 && m * v >= 0.0
    ensures m >= 0.0
  {
  }

  /** An element of `sumarValores`'s list: a number or a text. */
  datatype NumOrText = Num(n: int) | Text(t: string)

  /** `Number(val) || 0`: a text that is not a number counts as 0. */
  function ValueOf(x: NumOrText): (r: int)
    ensures x.Num? ==> r == x.n
    ensures x.Text? && NumberOf(x.t).None? ==> r == 0
    ensures x.Text? && NumberOf(x.t).Some? ==> r == NumberOf(x.t).value
  {
    match x
    case Num(n) => n
    case Text(t) => NumberOf(t).GetOr(0)
  }

  /** `sumarValores`: a left-to-right fold of `ValueOf`. */
  function SumarValores(values: seq<NumOrText>): (r: int)
    ensures values == [] ==> r == 0
  {
    if values == [] then 0 else SumarValores(values[..|values| - 1]) + ValueOf(values[|values| - 1])
  }

  /** The sum of a concatenation is the sum of the parts. */
  lemma {:induction false} SumarValoresConcat(a: seq<NumOrText>, b: seq<NumOrText>)
    ensures SumarValores(a + b) == SumarValores(a) + SumarValores(b)
    decreases |b|
  {
    if b != [] {
      assert (a + b)[..|a + b| - 1] == a + b[..|b| - 1];
      SumarValoresConcat(a, b[..|b| - 1]);
    } else {
      assert a + b == a;
    }
  }

  /** Texts that are not numbers add nothing to the sum. */
  lemma SumarValoresSkipsText(a: seq<NumOrText>, t: string, b: seq<NumOrText>)
    requires NumberOf(t).None?
    ensures SumarValores(a + [Text(t)] + b) == SumarValores(a + b)
  {
    SumarValoresConcat(a + [Text(t)], b);
    SumarValoresConcat(a, [Text(t)]);
    SumarValoresConcat(a, b);
    assert [Text(t)][..0] == [];
  }

  /** `calcularCostoInventario`: what the stock cost to buy. */
  function CostoInventario(cost: int, stock: int): (r: int)
    ensures cost == 0 || stock == 0 ==> r == 0
    ensures cost >= 0 && stock >= 0 ==> r >= 0
  {
    cost * stock
  }

  /** Buying the stock costs what selling it at zero price loses. */
  lemma CostoIsLossAtZeroPrice(cost: int, stock: int)
    ensures CostoInventario(cost, stock) == -Ganancia(0, cost, stock)
  {
  }
}
