/** The record types of `parser/modelos.py`. */
module ParserModels {
  import opened Decimals

  /** `Produto(nome, preco)`. */
  datatype Product = Product(name: string, price: Decimal)

  /** `Venda(produto, quantidade, data_str)`; `data_str` keeps the date text as read. */
  datatype Sale = Sale(product: Product, quantity: int, dateStr: string)
}
