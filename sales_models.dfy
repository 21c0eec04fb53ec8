/** The record types of `vendas/modelos.py`, which carry an `id` as well. */
module SalesModels {
  import opened Decimals

  /** `Produto(id, nome, preco)`. */
  datatype Product = Product(id: int, name: string, price: Decimal)

  /** `Venda(id, produto, quantidade)`. */
  datatype Sale = Sale(id: int, product: Product, quantity: int)
}
