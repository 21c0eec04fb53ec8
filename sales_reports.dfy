/** `vendas/relatorios.py`: the free functions that aggregate a list of `vendas.modelos.Venda`. */
module SalesReports {
  import opened Wrappers
  import opened Decimals
  import opened Aggregation
  import opened SalesModels

  /** `venda.produto.preco * Decimal(venda.quantidade)`. */
  function Amount(v: Sale): Decimal {
    MulInt(v.product.price, v.quantity)
  }

  function Quantity(v: Sale): int {
    v.quantity
  }

  /** `calcular_total_vendas`: a running total from `Decimal("0.00")` over the sales in order. */
  method CalculateTotal(sales: seq<Sale>) returns (total: Decimal)
    ensures total == Total(sales, Amount)
  {
    total := Zero;
    for i := 0 to |sales|
      invariant total == Total(sales[..i], Amount)
    {
      assert sales[..i + 1] == sales[..i] + [sales[i]];
      TotalAppend(sales[..i], sales[i], Amount);
      total := Add(total, Amount(sales[i]));
    }
    assert sales[..|sales|] == sales;
  }

  /**
   * `obter_produto_mais_vendido`: `None` for no sales, otherwise the product of the first sale
   * whose own quantity is the largest (quantities are not summed per product).
   */
  method BestSellingProduct(sales: seq<Sale>) returns (best: Option<Product>)
    ensures best.None? <==> sales == []
    ensures best.Some? ==>
      exists k :: IsFirstMaximum(sales, Quantity, k) && sales[k].product == best.value
  {
    if sales == [] {
      return None;
    }
    var product := sales[0].product;
    var most := sales[0].quantity;
    ghost var k := 0;
    for i := 1 to |sales|
      invariant 0 <= k < i
      invariant k == FirstMaxIndex(sales[..i], Quantity)
      invariant product == sales[k].product && most == sales[k].quantity
    {
      FirstMaxIndexStep(sales, Quantity, i);
      if sales[i].quantity > most {
        product := sales[i].product;
        most := sales[i].quantity;
        k := i;
      }
    }
    assert sales[..|sales|] == sales;
    return Some(product);
  }

  /** How many units of the product named `name` the sales hold in all. */
  function SummedQuantity(sales: seq<Sale>, name: string): int {
    if sales == [] then 0
    else (if sales[0].product.name == name then sales[0].quantity else 0) + SummedQuantity(sales[1..], name)
  }

  /**
   * For `[A:2, B:3, A:2]` the scan picks B although A sold 4 units in all: the source compares
   * single sales, it does not add quantities up per product.
   */
  lemma NoSummingPerProduct(a: Product, b: Product)
    requires a.name != b.name
    ensures var sales := [Sale(1, a, 2), Sale(2, b, 3), Sale(3, a, 2)];
      && sales[FirstMaxIndex(sales, Quantity)].product == b
      && SummedQuantity(sales, a.name) > SummedQuantity(sales, b.name)
  {
    var sales := [Sale(1, a, 2), Sale(2, b, 3), Sale(3, a, 2)];
    var k := FirstMaxIndex(sales, Quantity);
    assert Quantity(sales[1]) == 3;
    assert k == 1;
    assert sales[1..] == [Sale(2, b, 3), Sale(3, a, 2)];
    assert sales[1..][1..] == [Sale(3, a, 2)];
    assert sales[1..][1..][1..] == [];
    assert SummedQuantity(sales[1..][1..], a.name) == 2;
    assert SummedQuantity(sales[1..], a.name) == 2;
    assert SummedQuantity(sales, a.name) == 4;
    assert SummedQuantity(sales[1..][1..], b.name) == 0;
    assert SummedQuantity(sales[1..], b.name) == 3;
    assert SummedQuantity(sales, b.name) == 3;
  }
}
