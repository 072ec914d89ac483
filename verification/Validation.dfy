/** Request validation (internal/orders/validation.go:78-118). */
module Validation {
  import opened Wrappers
  import opened Schema
  import opened Text

  datatype ItemRequest = ItemRequest(productId: string, sku: string, quantity: Int32, unitPriceCents: Int64)

  datatype CreateOrderRequest = CreateOrderRequest(idempotencyKey: string, currency: string, items: seq<ItemRequest>)

  datatype ItemPart = ProductIdPart | SkuPart | QuantityPart | UnitPricePart

  datatype Field = IdempotencyKeyField | CurrencyField | ItemsField | ItemField(index: nat, part: ItemPart)

  datatype FieldError = FieldError(field: Field, message: string)

  /** `^[A-Z]{3}$` */
  predicate IsCurrencyCode(text: string) {
    |text| == 3 && forall i :: 0 <= i < 3 ==> 'A' <= text[i] <= 'Z'
  }

  const LETTERS: set<char> :=
    {'A', 'B', 'C', 'D', 'E', 'F', 'G', 'H', 'I', 'J', 'K', 'L', 'M',
     'N', 'O', 'P', 'Q', 'R', 'S', 'T', 'U', 'V', 'W', 'X', 'Y', 'Z'}

  /** Three of the twenty-six capital letters, and nothing else. */
  lemma CurrencyCodesAreThreeCapitals(text: string)
    ensures IsCurrencyCode(text) <==> |text| == 3 && text[0] in LETTERS && text[1] in LETTERS && text[2] in LETTERS
  {
    forall c: char ensures c in LETTERS <==> 'A' <= c <= 'Z' {
    }
  }

  predicate PartOffends(item: ItemRequest, part: ItemPart) {
    match part
    case ProductIdPart => IsAllSpace(item.productId)
    case SkuPart => IsAllSpace(item.sku)
    case QuantityPart => item.quantity <= 0
    case UnitPricePart => item.unitPriceCents < 0
  }

  /** What is wrong with a request, field by field. */
  predicate Offends(request: CreateOrderRequest, field: Field) {
    match field
    case IdempotencyKeyField => IsAllSpace(request.idempotencyKey)
    case CurrencyField => !IsCurrencyCode(request.currency)
    case ItemsField => request.items == []
    case ItemField(index, part) => index < |request.items| && PartOffends(request.items[index], part)
  }

  predicate Reports(errors: seq<FieldError>, field: Field) {
    exists i :: 0 <= i < |errors| && errors[i].field == field
  }

  /** The order in which fields are checked: the header, then the items one by one. */
  function Place(field: Field): nat {
    match field
    case IdempotencyKeyField => 0
    case CurrencyField => 1
    case ItemsField => 2
    case ItemField(index, part) => 3 + 4 * index + PartPlace(part)
  }

  function PartPlace(part: ItemPart): nat {
    match part
    case ProductIdPart => 0
    case SkuPart => 1
    case QuantityPart => 2
    case UnitPricePart => 3
  }

  predicate HasItsMessage(error: FieldError) {
    match error.field
    case IdempotencyKeyField => error.message == "is required"
    case CurrencyField => error.message == "must be a 3-letter uppercase code"
    case ItemsField => error.message == "must contain at least one item"
    case ItemField(_, ProductIdPart) => error.message == "is required"
    case ItemField(_, SkuPart) => error.message == "is required"
    case ItemField(_, QuantityPart) => error.message == "must be greater than 0"
    case ItemField(_, UnitPricePart) => error.message == "must be greater than or equal to 0"
  }

  /** Each field at most once, in the order of checking, with its message. */
  predicate ReportsOnce(errors: seq<FieldError>) {
    && (forall i, j :: 0 <= i < j < |errors| ==> Place(errors[i].field) < Place(errors[j].field))
    && (forall i :: 0 <= i < |errors| ==> HasItsMessage(errors[i]))
  }

  /** All complaints so far are about fields checked before. */
  predicate AllBefore(errors: seq<FieldError>, place: nat) {
    forall i :: 0 <= i < |errors| ==> Place(errors[i].field) < place
  }

  lemma ReportOneMore(errors: seq<FieldError>, error: FieldError)
    ensures forall field :: Reports(errors + [error], field) <==> Reports(errors, field) || field == error.field
    ensures ReportsOnce(errors) && AllBefore(errors, Place(error.field)) && HasItsMessage(error) ==>
              ReportsOnce(errors + [error])
  {
    forall field ensures Reports(errors + [error], field) <==> Reports(errors, field) || field == error.field {
      if Reports(errors, field) {
        var i :| 0 <= i < |errors| && errors[i].field == field;
        assert (errors + [error])[i].field == field;
      }
      assert (errors + [error])[|errors|] == error;
    }
  }

  method AddIf(errors: seq<FieldError>, condition: bool, field: Field, message: string) returns (r: seq<FieldError>)
    requires ReportsOnce(errors) && AllBefore(errors, Place(field)) && HasItsMessage(FieldError(field, message))
    ensures ReportsOnce(r) && AllBefore(r, Place(field) + 1)
    ensures forall f :: Reports(r, f) <==> Reports(errors, f) || (condition && f == field)
    ensures r == [] <==> errors == [] && !condition
  {
    r := errors;
    if condition {
      ReportOneMore(errors, FieldError(field, message));
      r := errors + [FieldError(field, message)];
    }
  }

  /** Adds the complaints about one item. */
  method CheckItem(errors: seq<FieldError>, item: ItemRequest, i: nat) returns (r: seq<FieldError>)
    requires ReportsOnce(errors) && AllBefore(errors, Place(ItemField(i, ProductIdPart)))
    ensures ReportsOnce(r) && AllBefore(r, Place(ItemField(i + 1, ProductIdPart)))
    ensures forall f :: Reports(r, f) <==>
                        Reports(errors, f) || (f.ItemField? && f.index == i && PartOffends(item, f.part))
  {
    r := AddIf(errors, IsAllSpace(item.productId), ItemField(i, ProductIdPart), "is required");
    r := AddIf(r, IsAllSpace(item.sku), ItemField(i, SkuPart), "is required");
    r := AddIf(r, item.quantity <= 0, ItemField(i, QuantityPart), "must be greater than 0");
    r := AddIf(r, item.unitPriceCents < 0, ItemField(i, UnitPricePart), "must be greater than or equal to 0");
  }

  /** Adds the complaints about the request as a whole. */
  method CheckHeader(request: CreateOrderRequest) returns (errors: seq<FieldError>)
    ensures ReportsOnce(errors) && AllBefore(errors, 3)
    ensures forall f :: Reports(errors, f) <==> !f.ItemField? && Offends(request, f)
  {
    errors := [];
    errors := AddIf(errors, IsAllSpace(request.idempotencyKey), IdempotencyKeyField, "is required");
    errors := AddIf(errors, !IsCurrencyCode(request.currency), CurrencyField, "must be a 3-letter uppercase code");
    errors := AddIf(errors, request.items == [], ItemsField, "must contain at least one item");
  }

  /** Every offending field is reported, exactly once, in the order of checking and with its message, and no
      other. */
  method ValidateCreateOrderRequest(request: CreateOrderRequest) returns (errors: seq<FieldError>)
    ensures ReportsOnce(errors)
    ensures forall field :: Reports(errors, field) <==> Offends(request, field)
    ensures errors == [] <==> forall field :: !Offends(request, field)
  {
    errors := CheckHeader(request);
    for i := 0 to |request.items|
      invariant ReportsOnce(errors) && AllBefore(errors, Place(ItemField(i, ProductIdPart)))
      invariant forall field ::
        Reports(errors, field) <==> Offends(request, field) && (field.ItemField? ==> field.index < i)
    {
      errors := CheckItem(errors, request.items[i], i);
    }
    if errors != [] {
      assert Reports(errors, errors[0].field);
    }
  }

  /** A request without errors meets the table checks on its items and currency. */
  lemma ValidRequestMeetsChecks(request: CreateOrderRequest)
    requires forall field :: !Offends(request, field)
    ensures request.items != [] && ToChar3(request.currency) == Some(request.currency)
    ensures forall i :: 0 <= i < |request.items| ==>
              ItemAllowed(request.items[i].quantity, request.items[i].unitPriceCents)
  {
    assert !Offends(request, ItemsField) && !Offends(request, CurrencyField);
    forall i | 0 <= i < |request.items|
      ensures ItemAllowed(request.items[i].quantity, request.items[i].unitPriceCents)
    {
      assert !Offends(request, ItemField(i, QuantityPart)) && !Offends(request, ItemField(i, UnitPricePart));
    }
    assert request.currency + Spaces(0) == request.currency;
  }
}
