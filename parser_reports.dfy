/**
 * `parser/relatorios.py`: the `Relatorio` class. It lower-cases and validates the report format
 * when built, keeps the extracted sales in a field, aggregates them and renders the result as a
 * three-line text or as a two-key JSON object.
 */
module ParserReports {
  import opened Wrappers
  import opened Decimals
  import opened Aggregation
  import opened ParserModels
  import opened Json

  // ---------------------------------------------------------------------------------------
  // Format validation

  /** `formatos_validos`, in the order the error message lists them. */
  const ValidFormats: seq<string> := ["text", "txt", "json"]

  /** `str.lower()` on one character: ASCII and Latin-1 capitals map to their small letters. */
  function LowerChar(c: char): char {
    if 'A' <= c <= 'Z' || ('À' <= c <= 'Þ' && c != '×') then (c as int + 32) as char
    else c
  }

  /** Two strings are equal once both are lower-cased. */
  ghost predicate SameIgnoringCase(a: string, b: string) {
    |a| == |b| && forall i :: 0 <= i < |a| ==> LowerChar(a[i]) == LowerChar(b[i])
  }

  /**
   * `str.lower()`: the same string up to case, with no capital left in it, so that lowering it
   * again changes nothing.
   */
  function Lower(s: string): (r: string)
    ensures SameIgnoringCase(s, r)
    ensures forall i :: 0 <= i < |r| ==> !('A' <= r[i] <= 'Z') && LowerChar(r[i]) == r[i]
  {
    seq(|s|, i requires 0 <= i < |s| => LowerChar(s[i]))
  }

  function UnknownFormatMessage(format: string): string {
    "Formato de relatório desconhecido: " + format + ". Formatos válidos: text, txt, json"
  }

  /** `self.formato = formato.lower()` followed by `__validar_formato`. */
  function ValidateFormat(format: string): (r: Result<string, string>)
    ensures r.Success? ==> r.value in ValidFormats
  {
    var lowered := Lower(format);
    if lowered in ValidFormats then Success(lowered) else Failure(UnknownFormatMessage(lowered))
  }

  /**
   * A format is accepted exactly when it spells `text`, `txt` or `json` in any mix of cases;
   * otherwise the error names the lower-cased format and lists the valid ones.
   */
  lemma ValidateFormatIgnoresCase(format: string)
    ensures ValidateFormat(format).Success?
        <==> SameIgnoringCase(format, "text") || SameIgnoringCase(format, "txt")
             || SameIgnoringCase(format, "json")
    ensures ValidateFormat(format).Success? ==> ValidateFormat(format).value == Lower(format)
    ensures ValidateFormat(format).Failure? ==>
      ValidateFormat(format).error == UnknownFormatMessage(Lower(format))
  {
    var lowered := Lower(format);
    forall v | v in ValidFormats
      ensures lowered == v <==> SameIgnoringCase(format, v)
    {
      assert Lower(v) == v;
      if SameIgnoringCase(format, v) {
        assert lowered == Lower(v);
      }
    }
  }

  /** `"xml"` is refused with the documented message. */
  lemma UnknownFormatExample()
    ensures ValidateFormat("xml")
         == Failure("Formato de relatório desconhecido: xml. Formatos válidos: text, txt, json")
  {
    assert Lower("xml") == "xml";
    XmlMessage();
  }

  lemma XmlMessage()
    ensures UnknownFormatMessage("xml")
         == "Formato de relatório desconhecido: xml. Formatos válidos: text, txt, json"
  {
    var head := "Formato de relatório desconhecido: xml";
    var tail := ". Formatos válidos: text, txt, json";
    assert "Formato de relatório desconhecido: " + "xml" == head;
    assert head + tail == "Formato de relatório desconhecido: xml. Formatos válidos: text, txt, json";
  }

  /** `"JSON"` and `"Txt"` are accepted, lower-cased. */
  lemma MixedCaseExamples()
    ensures ValidateFormat("JSON") == Success("json")
    ensures ValidateFormat("Txt") == Success("txt")
  {
    assert Lower("JSON") == "json";
    assert Lower("Txt") == "txt";
  }

  // ---------------------------------------------------------------------------------------
  // Aggregation over `self.vendas`

  /** `venda.produto.preco * Decimal(venda.quantidade)`. */
  function Amount(v: Sale): Decimal {
    MulInt(v.product.price, v.quantity)
  }

  function Quantity(v: Sale): int {
    v.quantity
  }

  /** What `obter_produto_mais_vendido` returns: the product of the first largest single sale. */
  function BestSeller(sales: seq<Sale>): (r: Option<Product>)
    ensures r.None? <==> sales == []
    ensures r.Some? ==>
      exists k :: IsFirstMaximum(sales, Quantity, k) && sales[k].product == r.value
  {
    if sales == [] then None else Some(sales[FirstMaxIndex(sales, Quantity)].product)
  }

  // ---------------------------------------------------------------------------------------
  // Rendering

  const NoSalesMessage: string := "Nenhuma venda encontrada."

  /** The rendered report: text, or the JSON object handed to `json.dumps`. */
  datatype Output = TextOutput(text: string) | JsonOutput(document: Json)

  const Header: string := "Relatório de Vendas"

  function TotalLine(total: Decimal): string {
    "Total de Vendas: " + FormatFixed(total, 2)
  }

  function ProductLine(best: Option<Product>): string {
    match best
    case Some(p) => "Produto Mais Vendido: " + p.name + " (" + FormatFixed(p.price, 2) + ")"
    case None => "Nenhum produto vendido."
  }

  /** The text template of `__obter_relatorio_texto`, filled with a total and a best seller. */
  function TextFor(total: Decimal, best: Option<Product>): string {
    Header + "\n" + TotalLine(total) + "\n" + ProductLine(best) + "\n"
  }

  function TextDocument(sales: seq<Sale>): string {
    TextFor(Total(sales, Amount), BestSeller(sales))
  }

  /** The `produto_mais_vendido` member: `None`, or the product's name and `str` price. */
  function ProductJson(best: Option<Product>): Json {
    match best
    case Some(p) => Object([("nome", Str(p.name)), ("preco", Str(ToString(p.price)))])
    case None => Null
  }

  /** The dictionary built by `__obter_relatorio_json`. */
  function JsonFor(total: Decimal, best: Option<Product>): Json {
    Object([("total_vendas", Str(ToString(total))), ("produto_mais_vendido", ProductJson(best))])
  }

  function JsonDocument(sales: seq<Sale>): Json {
    JsonFor(Total(sales, Amount), BestSeller(sales))
  }

  /** `__obter_relatorio_conforme_formato`: `json` picks the JSON renderer, anything else text. */
  function RenderFor(format: string, sales: seq<Sale>): Output {
    if format == "json" then JsonOutput(JsonDocument(sales)) else TextOutput(TextDocument(sales))
  }


  // ---------------------------------------------------------------------------------------
  // Properties of the rendered documents

  /** Length of the first line of `s` (up to, not including, the first newline). */
  function LineEnd(s: string): (k: nat)
    ensures k <= |s|
    ensures forall i :: 0 <= i < k ==> s[i] != '\n'
    ensures k < |s| ==> s[k] == '\n'
  {
    if s == [] || s[0] == '\n' then 0 else 1 + LineEnd(s[1..])
  }

  /**
   * The lines of newline-terminated text, split at each `\n` (the line break the reports write);
   * `str.splitlines()` gives the same lines on text with no other line-break character.
   */
  function Lines(s: string): seq<string>
    decreases |s|
  {
    if s == [] then []
    else
      var k := LineEnd(s);
      if k == |s| then [s] else [s[..k]] + Lines(s[k + 1..])
  }

  predicate NoNewline(s: string) {
    forall i :: 0 <= i < |s| ==> s[i] != '\n'
  }

  lemma LinesCons(line: string, rest: string)
    requires NoNewline(line)
    ensures Lines(line + "\n" + rest) == [line] + Lines(rest)
  {
    var s := line + "\n" + rest;
    assert forall i :: 0 <= i < |line| ==> s[i] == line[i];
    assert s[|line|] == '\n';
    var k := LineEnd(s);
    assert k == |line|;
    assert s[..k] == line;
    assert s[k + 1..] == rest;
  }

  lemma FormatFixedNoNewline(d: Decimal, q: nat)
    ensures NoNewline(FormatFixed(d, q))
  {
    FormatFixedIsNumeric(d, q);
  }

  lemma ConcatNoNewline(a: string, b: string)
    requires NoNewline(a) && NoNewline(b)
    ensures NoNewline(a + b)
  {
    forall i | 0 <= i < |a + b| ensures (a + b)[i] != '\n' {
      if i >= |a| {
        assert (a + b)[i] == b[i - |a|];
      }
    }
  }

  lemma ProductLineNoNewline(best: Option<Product>)
    requires best.Some? ==> NoNewline(best.value.name)
    ensures NoNewline(ProductLine(best))
  {
    if best.Some? {
      var p := best.value;
      FormatFixedNoNewline(p.price, 2);
      ConcatNoNewline("Produto Mais Vendido: ", p.name);
      ConcatNoNewline("Produto Mais Vendido: " + p.name, " (");
      ConcatNoNewline("Produto Mais Vendido: " + p.name + " (", FormatFixed(p.price, 2));
      ConcatNoNewline("Produto Mais Vendido: " + p.name + " (" + FormatFixed(p.price, 2), ")");
    }
  }

  /** The number on the total line reads back as the total rounded to two places. */
  lemma TotalLineReadsBack(total: Decimal)
    ensures NoNewline(TotalLine(total))
    ensures ParsePlain(TotalLine(total)[17..]) == Some(Decimal(RoundedCoefficient(total, 2), 2))
  {
    FormatFixedNoNewline(total, 2);
    ConcatNoNewline("Total de Vendas: ", FormatFixed(total, 2));
    assert TotalLine(total)[17..] == FormatFixed(total, 2);
    FormatFixedReadsBack(total, 2);
  }

  lemma HeaderNoNewline()
    ensures NoNewline(Header)
  {
  }

  lemma ThreeLines(l1: string, l2: string, l3: string)
    requires NoNewline(l1) && NoNewline(l2) && NoNewline(l3)
    ensures Lines(l1 + "\n" + l2 + "\n" + l3 + "\n") == [l1, l2, l3]
  {
    var empty: string := [];
    var r3 := l3 + "\n" + empty;
    var r2 := l2 + "\n" + r3;
    var r1 := l1 + "\n" + r2;
    LinesCons(l3, empty);
    LinesCons(l2, r3);
    LinesCons(l1, r2);
    assert r3 == l3 + "\n";
    Assoc(l2 + "\n", l3, "\n");
    Assoc(l1 + "\n", l2 + "\n", l3 + "\n");
    Assoc(l1 + "\n", l2, "\n");
    Assoc(l1 + "\n" + l2 + "\n", l3, "\n");
  }

  lemma Assoc(a: string, b: string, c: string)
    ensures a + b + c == a + (b + c)
  {
  }

  /**
   * The text report is exactly three lines: the title, the total and the best seller (when no
   * product name holds a newline).
   */
  lemma TextDocumentLines(sales: seq<Sale>)
    requires forall i :: 0 <= i < |sales| ==> NoNewline(sales[i].product.name)
    ensures Lines(TextDocument(sales))
         == [Header, TotalLine(Total(sales, Amount)), ProductLine(BestSeller(sales))]
  {
    var total := Total(sales, Amount);
    var best := BestSeller(sales);
    TotalLineReadsBack(total);
    if best.Some? {
      var k :| IsFirstMaximum(sales, Quantity, k) && sales[k].product == best.value;
    }
    ProductLineNoNewline(best);
    HeaderNoNewline();
    ThreeLines(Header, TotalLine(total), ProductLine(best));
  }

  /**
   * The JSON object has exactly the keys `total_vendas` and `produto_mais_vendido`; the total
   * string reads back as the exact total, and the product is `null` exactly when there are no
   * sales.
   */
  lemma JsonDocumentTotal(sales: seq<Sale>)
    ensures var doc := JsonDocument(sales);
      && Keys(doc) == ["total_vendas", "produto_mais_vendido"]
      && StringMember(doc, "total_vendas").Some?
      && (IsPlain(Total(sales, Amount)) ==>
            ParsePlain(StringMember(doc, "total_vendas").value) == Some(Total(sales, Amount)))
      && (Get(doc, "produto_mais_vendido") == Some(Null) <==> sales == [])
  {
    var best := BestSeller(sales);
    JsonForReadsBack(Total(sales, Amount), best);
    assert ProductJson(best) == Null <==> best.None?;
  }

  /** The two members of the JSON document, for any total and best seller. */
  lemma JsonForReadsBack(total: Decimal, best: Option<Product>)
    ensures Keys(JsonFor(total, best)) == ["total_vendas", "produto_mais_vendido"]
    ensures StringMember(JsonFor(total, best), "total_vendas") == Some(ToString(total))
    ensures IsPlain(total) ==> ParsePlain(ToString(total)) == Some(total)
    ensures Get(JsonFor(total, best), "produto_mais_vendido") == Some(ProductJson(best))
  {
    JsonForMembers(total, best);
    if IsPlain(total) {
      ToStringRoundTrip(total);
    }
  }

  /** A product object names the product and holds a price string that reads back. */
  lemma ProductJsonReadsBack(p: Product)
    ensures Keys(ProductJson(Some(p))) == ["nome", "preco"]
    ensures StringMember(ProductJson(Some(p)), "nome") == Some(p.name)
    ensures StringMember(ProductJson(Some(p)), "preco").Some?
    ensures IsPlain(p.price) ==>
      ParsePlain(StringMember(ProductJson(Some(p)), "preco").value) == Some(p.price)
  {
    var m := ProductJson(Some(p)).members;
    assert m[0].0 != "preco";
    assert m[1..] == [("preco", Str(ToString(p.price)))];
    if IsPlain(p.price) {
      ToStringRoundTrip(p.price);
    }
  }

  /** Where the two members of the report object are found. */
  lemma JsonForMembers(total: Decimal, best: Option<Product>)
    ensures Get(JsonFor(total, best), "total_vendas") == Some(Str(ToString(total)))
    ensures Get(JsonFor(total, best), "produto_mais_vendido") == Some(ProductJson(best))
  {
    var m := JsonFor(total, best).members;
    assert m[0].0 != "produto_mais_vendido";
    assert m[1..] == [("produto_mais_vendido", ProductJson(best))];
    assert Lookup(m[1..], "produto_mais_vendido") == Some(ProductJson(best));
  }

  /**
   * When no price has more than two decimal places the text report's `:.2f` total and the JSON
   * report's `str` total are the same string.
   */
  lemma {:induction false} TotalsAgree(sales: seq<Sale>)
    requires forall i :: 0 <= i < |sales| ==> sales[i].product.price.places <= 2
    ensures FormatFixed(Total(sales, Amount), 2) == ToString(Total(sales, Amount))
  {
    TotalInCents(sales, Amount);
    var c := CentsSum(sales, Amount);
    assert Scaled(Decimal(c, 2), 2) == c;
    assert RoundedCoefficient(Decimal(c, 2), 2) == c;
  }

  // ---------------------------------------------------------------------------------------
  // The repository's sample data

  const Shirt: Product := Product("Camiseta", Decimal(499, 1))
  const Trousers: Product := Product("Calça", Decimal(999, 1))
  const Sneakers: Product := Product("Tênis", Decimal(1999, 1))

  /** The seven rows of the sample CSV file, in file order. */
  const SampleSales: seq<Sale> := [
    Sale(Shirt, 3, "01/01/2025"), Sale(Trousers, 2, "13/08/2025"), Sale(Shirt, 1, "10/01/2025"),
    Sale(Sneakers, 1, "01/08/2025"), Sale(Shirt, 2, "15/01/2025"), Sale(Trousers, 1, "20/08/2025"),
    Sale(Sneakers, 1, "25/08/2025")]

  /** The sample rows add up to 99890 hundredths. */
  lemma SampleCents()
    ensures CentsSum(SampleSales, Amount) == 99890
  {
    var s := SampleSales;
    SampleFirstRows();
    assert s[..5][..4] == s[..4];
    assert CentsSum(s[..5], Amount) == 69910;
    assert s[..6][..5] == s[..5];
    assert CentsSum(s[..6], Amount) == 79900;
    assert s[..7] == s && s[..7][..6] == s[..6];
  }

  lemma SampleFirstRows()
    ensures CentsSum(SampleSales[..4], Amount) == 59930
  {
    var s := SampleSales;
    assert s[..1][..0] == [];
    assert CentsSum(s[..1], Amount) == 14970;
    assert s[..2][..1] == s[..1];
    assert CentsSum(s[..2], Amount) == 34950;
    assert s[..3][..2] == s[..2];
    assert CentsSum(s[..3], Amount) == 39940;
    assert s[..4][..3] == s[..3];
  }

  /** On the sample data the total is 998.90 and the best seller is the first row's shirt. */
  lemma SampleReport()
    ensures Total(SampleSales, Amount) == Decimal(99890, 2)
    ensures BestSeller(SampleSales) == Some(Shirt)
  {
    TotalInCents(SampleSales, Amount);
    SampleCents();
    assert IsFirstMaximum(SampleSales, Quantity, 0);
    FirstMaximumUnique(SampleSales, Quantity, 0, FirstMaxIndex(SampleSales, Quantity));
  }

  /** The text and JSON totals of the sample report both read `998.90`. */
  lemma SampleTotalText()
    ensures FormatFixed(Decimal(99890, 2), 2) == "998.90"
    ensures ToString(Decimal(99890, 2)) == "998.90"
  {
    SamplePlainTotal();
    assert RoundedCoefficient(Decimal(99890, 2), 2) == 99890 by {
      assert Scaled(Decimal(99890, 2), 2) == 99890;
    }
    assert IsPlain(Decimal(99890, 2)) by {
      assert NatToDigits(99890) == NatToDigits(9989) + [DigitChar(0)];
    }
  }

  lemma SamplePlainTotal()
    ensures PlainString(false, 99890, 2) == "998.90"
  {
    var (w, f) := SplitPoint(99890, 2);
    assert w == 998 && f == 90;
    assert NatToDigits(998) == "998";
    assert FixedDigits(90, 2) == "90";
    assert "" + "998" + ("." + "90") == "998.90";
  }

  /** The lines of the text report for the sample data. */
  lemma SampleTextReport()
    ensures Lines(TextDocument(SampleSales))
         == ["Relatório de Vendas", "Total de Vendas: 998.90", "Produto Mais Vendido: Camiseta (49.90)"]
  {
    SampleNamesOnOneLine();
    TextDocumentLines(SampleSales);
    SampleReport();
    SampleLines();
  }

  lemma SampleNamesOnOneLine()
    ensures forall i :: 0 <= i < |SampleSales| ==> NoNewline(SampleSales[i].product.name)
  {
    assert forall i :: 0 <= i < |SampleSales| ==> SampleSales[i].product in {Shirt, Trousers, Sneakers};
    assert NoNewline(Shirt.name) && NoNewline(Trousers.name) && NoNewline(Sneakers.name);
  }

  lemma SampleLines()
    ensures TotalLine(Decimal(99890, 2)) == "Total de Vendas: 998.90"
    ensures ProductLine(Some(Shirt)) == "Produto Mais Vendido: Camiseta (49.90)"
  {
    SampleTotalText();
    SamplePriceText();
    SampleProductLine();
  }

  lemma SampleProductLine()
    ensures "Produto Mais Vendido: " + "Camiseta" + " (" + "49.90" + ")"
         == "Produto Mais Vendido: Camiseta (49.90)"
  {
  }

  lemma SamplePriceText()
    ensures FormatFixed(Shirt.price, 2) == "49.90"
  {
    var (w, f) := SplitPoint(Abs(RoundedCoefficient(Decimal(499, 1), 2)), 2);
    assert Scaled(Decimal(499, 1), 2) == 4990;
    assert w == 49 && f == 90;
    assert NatToDigits(49) == "49";
    assert FixedDigits(90, 2) == "90";
  }

  // ---------------------------------------------------------------------------------------
  // The class

  /** `Relatorio`. */
  class Report {
    var filePath: string
    var format: string
    var startDate: string
    var endDate: string
    var sales: seq<Sale>
    var products: seq<Product>

    /** The format was lower-cased and validated when the object was built. */
    ghost predicate Valid()
      reads this
    {
      format in ValidFormats
    }

    /** `__init__` once `__validar_formato` has accepted the format. */
    constructor (filePath: string, format: string := "text", startDate: string := "", endDate: string := "")
      requires ValidateFormat(format).Success?
      ensures Valid()
      ensures this.filePath == filePath && this.format == Lower(format)
      ensures this.startDate == startDate && this.endDate == endDate
      ensures sales == [] && products == []
    {
      this.filePath := filePath;
      this.format := Lower(format);
      this.startDate := startDate;
      this.endDate := endDate;
      sales := [];
      products := [];
    }

    /** `Relatorio(caminho_arquivo, formato, data_inicial, data_final)`, raising on a bad format. */
    static method Create(
      filePath: string, format: string := "text", startDate: string := "", endDate: string := "")
      returns (r: Result<Report, string>)
      ensures r.Failure? <==> ValidateFormat(format).Failure?
      ensures r.Failure? ==> r.error == ValidateFormat(format).error
      ensures r.Success? ==> fresh(r.value) && r.value.Valid()
      ensures r.Success? ==> r.value.format == Lower(format) && r.value.filePath == filePath
      ensures r.Success? ==> r.value.startDate == startDate && r.value.endDate == endDate
      ensures r.Success? ==> r.value.sales == [] && r.value.products == []
    {
      var checked := ValidateFormat(format);
      if checked.Failure? {
        return Failure(checked.error);
      }
      var report := new Report(filePath, format, startDate, endDate);
      return Success(report);
    }

    /** `calcular_total_vendas`. */
    method CalculateTotal() returns (total: Decimal)
      ensures total == Total(sales, Amount)
    {
      total := Zero;
      var i := 0;
      while i < |sales|
        invariant 0 <= i <= |sales|
        invariant total == Total(sales[..i], Amount)
      {
        assert sales[..i + 1] == sales[..i] + [sales[i]];
        TotalAppend(sales[..i], sales[i], Amount);
        total := Add(total, Amount(sales[i]));
        i := i + 1;
      }
      assert sales[..|sales|] == sales;
    }

    /** `obter_produto_mais_vendido`. */
    method BestSellingProduct() returns (best: Option<Product>)
      ensures best == BestSeller(sales)
    {
      var rows := sales;
      if rows == [] {
        return None;
      }
      var product := rows[0].product;
      var most := rows[0].quantity;
      ghost var k := 0;
      var i := 1;
      while i < |rows|
        invariant 1 <= i <= |rows|
        invariant k == FirstMaxIndex(rows[..i], Quantity)
        invariant product == rows[k].product && most == rows[k].quantity
      {
        FirstMaxIndexStep(rows, Quantity, i);
        if rows[i].quantity > most {
          product := rows[i].product;
          most := rows[i].quantity;
          k := i;
        }
        i := i + 1;
      }
      assert rows[..|rows|] == rows;
      return Some(product);
    }

    /** `__obter_relatorio_json`, before serialisation. */
    method JsonReport() returns (document: Json)
      ensures document == JsonDocument(sales)
    {
      var total := CalculateTotal();
      var best := BestSellingProduct();
      var product := Null;
      if best.Some? {
        product := Object([("nome", Str(best.value.name)), ("preco", Str(ToString(best.value.price)))]);
      }
      document := Object([("total_vendas", Str(ToString(total))), ("produto_mais_vendido", product)]);
    }

    /** `__obter_relatorio_texto`: the report text built line by line. */
    method TextReport() returns (report: string)
      ensures report == TextDocument(sales)
    {
      var total := CalculateTotal();
      var best := BestSellingProduct();
      report := Header + "\n";
      report := report + TotalLine(total) + "\n";
      var line: string;
      if best.Some? {
        line := "Produto Mais Vendido: " + best.value.name + " (" + FormatFixed(best.value.price, 2) + ")";
      } else {
        line := "Nenhum produto vendido.";
      }
      assert line == ProductLine(best);
      report := report + line + "\n";
    }

    /** `__obter_relatorio_conforme_formato`. */
    method ReportForFormat() returns (output: Output)
      requires Valid()
      ensures output == RenderFor(format, sales)
      ensures output.JsonOutput? <==> format == "json"
      ensures output.TextOutput? <==> format == "text" || format == "txt"
    {
      if format == "json" {
        var document := JsonReport();
        output := JsonOutput(document);
      } else {
        var text := TextReport();
        output := TextOutput(text);
      }
    }

    /**
     * `gerar_relatorio`, given what `__extrair_dados_de_vendas` returned: stores the sales,
     * raises `ValueError("Nenhuma venda encontrada.")` when there are none, else renders.
     */
    method GenerateReport(extracted: seq<Sale>) returns (r: Result<Output, string>)
      requires Valid()
      modifies this`sales
      ensures Valid() && sales == extracted
      ensures r == if extracted == [] then Failure(NoSalesMessage)
                   else Success(RenderFor(format, extracted))
    {
      sales := extracted;
      if sales == [] {
        return Failure(NoSalesMessage);
      }
      var output := ReportForFormat();
      return Success(output);
    }
  }
}
