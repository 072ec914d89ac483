/** Overflow-checked totals in 64-bit cents (internal/orders/service.go:304-335). */
module Money {
  import opened Wrappers
  import opened Schema
  import Text

  datatype Overflow = TotalCentsOverflow

  /** Quantity and unit price of one requested line. */
  datatype Line = Line(quantity: Int32, unitPriceCents: Int64)

  /** Two's complement: what a 64-bit register keeps of an integer. */
  function Wrap64(x: int): Int64 {
    (x + MAX_INT64 + 1) % (2 * (MAX_INT64 + 1)) - MAX_INT64 - 1
  }

  predicate InInt64(x: int) {
    -MAX_INT64 - 1 <= x <= MAX_INT64
  }

  lemma WrapIsIdentityInRange(x: int)
    ensures Wrap64(x) == x <==> InInt64(x)
  {
  }

  lemma WrapOfSum(x: int, y: int)
    ensures Wrap64(Wrap64(x) + y) == Wrap64(x + y)
  {
    var m := 2 * (MAX_INT64 + 1);
    var q := (x + MAX_INT64 + 1) / m;
    assert Wrap64(x) == x - q * m;
    assert Wrap64(x) + y + MAX_INT64 + 1 == (x + y + MAX_INT64 + 1) - q * m;
    ModOfShift(x + y + MAX_INT64 + 1, q);
  }

  lemma ModOfShift(a: int, q: int)
    ensures (a - q * (2 * (MAX_INT64 + 1))) % (2 * (MAX_INT64 + 1)) == a % (2 * (MAX_INT64 + 1))
  {
  }

  function MultiplyCents(price: Int64, quantity: Int64): Result<Int64, Overflow> {
    if price == 0 || quantity == 0 then Ok(0)
    else if price > 0 && quantity > 0 && price > MAX_INT64 / quantity then Err(TotalCentsOverflow)
    else Ok(Wrap64(price * quantity))
  }

  /** The division test is the exact overflow test. */
  lemma DivisionTestIsExact(price: nat, quantity: nat)
    requires quantity > 0
    ensures price > MAX_INT64 / quantity <==> price * quantity > MAX_INT64
  {
    var q, r := MAX_INT64 / quantity, MAX_INT64 % quantity;
    assert q * quantity + r == MAX_INT64;
    Text.ProductsOrder(q + 1, price, quantity);
    Text.ProductsOrder(price, q, quantity);
  }

  /** Two positive factors overflow into an error exactly when their product does not fit. */
  lemma MultiplyIsExact(price: Int64, quantity: Int64)
    requires price >= 0 && quantity > 0
    ensures MultiplyCents(price, quantity) ==
            if price * quantity <= MAX_INT64 then Ok(price * quantity) else Err(TotalCentsOverflow)
  {
    DivisionTestIsExact(price, quantity);
    ProductIsNonNegative(price, quantity);
    WrapIsIdentityInRange(price * quantity);
  }

  lemma ProductIsNonNegative(price: nat, quantity: nat)
    ensures price * quantity >= 0
  {
  }

  /** For factors of any sign the answer is the true product exactly when that fits in 64 bits. */
  lemma MultiplyIsExactWhenItFits(price: Int64, quantity: Int64)
    ensures MultiplyCents(price, quantity) == Ok(price * quantity) <==> InInt64(price * quantity)
    ensures MultiplyCents(price, quantity).Err? <==> price > 0 && quantity > 0 && price * quantity > MAX_INT64
  {
    if price > 0 && quantity > 0 {
      MultiplyIsExact(price, quantity);
    }
    WrapIsIdentityInRange(price * quantity);
  }

  /** The product if it fits, or the error if it does not. */
  predicate IsRightAnswer(price: Int64, quantity: Int64, r: Result<Int64, Overflow>) {
    r == if InInt64(price * quantity) then Ok(price * quantity) else Err(TotalCentsOverflow)
  }

  /** Exactly when the multiplication answers right: both factors are positive, or the product fits. */
  lemma MultiplyIsRightExactlyWhen(price: Int64, quantity: Int64)
    ensures IsRightAnswer(price, quantity, MultiplyCents(price, quantity)) <==>
            (price > 0 && quantity > 0) || InInt64(price * quantity)
  {
    MultiplyIsExactWhenItFits(price, quantity);
    if price > 0 && quantity > 0 {
      MultiplyIsExact(price, quantity);
      ProductIsNonNegative(price, quantity);
    }
  }

  /** The test looks at positive factors only: a product too large in magnitude with a negative factor is
      reported as a wrong amount, not as an overflow. Validation keeps such factors out. */
  lemma NegativeFactorsEscapeTheTest()
    ensures MultiplyCents(-MAX_INT64 - 1, 2) == Ok(0)
  {
  }

  /** The exact total over unbounded integers. */
  function ExactTotal(lines: seq<Line>): int {
    if lines == [] then 0
    else
      var last := lines[|lines| - 1];
      ExactTotal(lines[..|lines| - 1]) + last.quantity * last.unitPriceCents
  }

  lemma TotalOfOneLine(line: Line)
    ensures ExactTotal([line]) == line.quantity * line.unitPriceCents
  {
    assert [line][..0] == [];
  }

  /** The total of two lists of lines is the sum of their totals; no lines cost nothing. */
  lemma {:induction false} TotalOfConcat(a: seq<Line>, b: seq<Line>)
    ensures ExactTotal(a + b) == ExactTotal(a) + ExactTotal(b) && ExactTotal([]) == 0
    decreases |b|
  {
    if b == [] {
      assert a + b == a;
    } else {
      var n := |b| - 1;
      TotalOfConcat(a, b[..n]);
      assert (a + b)[..|a + b| - 1] == a + b[..n];
    }
  }

  predicate Validated(lines: seq<Line>) {
    forall i :: 0 <= i < |lines| ==> ItemAllowed(lines[i].quantity, lines[i].unitPriceCents)
  }

  lemma TotalOfOneMore(lines: seq<Line>, i: nat)
    requires i < |lines|
    ensures ExactTotal(lines[..i + 1]) == ExactTotal(lines[..i]) + lines[i].quantity * lines[i].unitPriceCents
  {
    assert lines[..i + 1][..i] == lines[..i];
  }

  lemma {:induction false} PartialTotalsGrow(lines: seq<Line>, i: nat)
    requires Validated(lines) && i <= |lines|
    ensures 0 <= ExactTotal(lines[..i]) <= ExactTotal(lines)
    decreases |lines|
  {
    if i < |lines| {
      var n := |lines| - 1;
      PartialTotalsGrow(lines[..n], i);
      assert lines[..n][..i] == lines[..i];
      ProductIsNonNegative(lines[n].unitPriceCents, lines[n].quantity);
    } else if lines != [] {
      var n := |lines| - 1;
      PartialTotalsGrow(lines[..n], n);
      assert lines[..i] == lines && lines[..n][..n] == lines[..n];
      ProductIsNonNegative(lines[n].unitPriceCents, lines[n].quantity);
    }
  }

  /** Adding two amounts that fit: the sum overflows exactly when the wrapped sum moved the wrong way. */
  lemma WrappedSumTestIsExact(total: Int64, line: Int64)
    requires total >= 0 && line >= 0
    ensures var next := Wrap64(total + line);
            LooksWrong(total, line, next) <==> total + line > MAX_INT64
    ensures total + line <= MAX_INT64 ==> Wrap64(total + line) == total + line
  {
  }

  /** The sum of two amounts moved the wrong way. */
  predicate LooksWrong(total: Int64, line: Int64, next: Int64) {
    (line > 0 && next < total) || (line < 0 && next > total)
  }

  /** One turn of the loop on amounts: it either sees that the whole total cannot fit, or goes on with the
      exact sum so far. */
  predicate TurnIsRight(sum: int, all: int, total: Int64, product: Result<Int64, Overflow>) {
    if product.Err? then all > MAX_INT64
    else if LooksWrong(total, product.value, Wrap64(total + product.value)) then all > MAX_INT64
    else Wrap64(total + product.value) == sum && sum >= 0
  }

  lemma TurnOnAmounts(total: Int64, line: int, all: int)
    requires total >= 0 && line >= 0 && total + line <= all
    ensures TurnIsRight(total + line, all, total, if line <= MAX_INT64 then Ok(line) else Err(TotalCentsOverflow))
  {
    if line <= MAX_INT64 {
      WrappedSumTestIsExact(total, line);
    }
  }

  /** So it does for every validated line. */
  lemma TurnIsExact(lines: seq<Line>, i: nat, total: Int64)
    requires Validated(lines) && i < |lines| && total == ExactTotal(lines[..i]) && total >= 0
    ensures TurnIsRight(ExactTotal(lines[..i + 1]), ExactTotal(lines), total,
                        MultiplyCents(lines[i].unitPriceCents, lines[i].quantity))
  {
    var price, quantity := lines[i].unitPriceCents, lines[i].quantity;
    TotalOfOneMore(lines, i);
    PartialTotalsGrow(lines, i + 1);
    MultiplyIsExact(price, quantity);
    ProductIsNonNegative(price, quantity);
    TurnOnAmounts(total, price * quantity, ExactTotal(lines));
  }

  /** For lines that passed validation: the exact total if it fits in 64 bits, the overflow error otherwise.
      For any lines whatever: an answer is the exact total modulo 2^64. */
  method CalculateTotalCents(lines: seq<Line>) returns (r: Result<Int64, Overflow>)
    ensures Validated(lines) ==>
              r == if ExactTotal(lines) <= MAX_INT64 then Ok(ExactTotal(lines)) else Err(TotalCentsOverflow)
    ensures r.Ok? ==> r.value == Wrap64(ExactTotal(lines))
  {
    var total: Int64 := 0;
    for i := 0 to |lines|
      invariant total == Wrap64(ExactTotal(lines[..i]))
      invariant Validated(lines) ==> total == ExactTotal(lines[..i]) && total >= 0
    {
      var quantity: Int64 := lines[i].quantity;
      if Validated(lines) {
        TurnIsExact(lines, i, total);
      }
      TotalOfOneMore(lines, i);
      var lineTotal := MultiplyCents(lines[i].unitPriceCents, quantity);
      if lineTotal.Err? {
        return Err(TotalCentsOverflow);
      }
      StepIsModular(ExactTotal(lines[..i]), lines[i].unitPriceCents, quantity);
      var nextTotal := Wrap64(total + lineTotal.value);
      if LooksWrong(total, lineTotal.value, nextTotal) {
        return Err(TotalCentsOverflow);
      }
      total := nextTotal;
    }
    assert lines[..|lines|] == lines;
    r := Ok(total);
  }

  /** One turn of the loop keeps the total right modulo 2^64. */
  lemma StepIsModular(sum: int, price: Int64, quantity: Int64)
    requires MultiplyCents(price, quantity).Ok?
    ensures Wrap64(Wrap64(sum) + MultiplyCents(price, quantity).value) == Wrap64(sum + quantity * price)
  {
    WrapOfSum(price * quantity, sum);
    WrapOfSum(sum, MultiplyCents(price, quantity).value);
    if price == 0 || quantity == 0 {
      assert quantity * price == 0;
    } else {
      assert MultiplyCents(price, quantity).value == Wrap64(price * quantity);
      WrapOfSum(sum, Wrap64(price * quantity));
    }
  }
}
