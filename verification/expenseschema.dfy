/** `expenseSchema`. */
module ExpenseSchema {
  import opened Wrappers
  import opened JsText
  import opened Zod
  import opened SharedFields

  const AmountChecks: seq<NumberCheck> :=
    [Positive(Some("Amount must be greater than 0")), AtMost(999999999.0, Some("Amount is too large"))]
  const CategoryBounds: Bounds :=
    Bounds(1, Some(50), Some("Category is required"), Some("Category must be less than 50 characters"))

  /** An expense accepted by `expenseSchema`, normalised. */
  datatype ExpenseInput = ExpenseInput(
    amount: real,
    category: string,
    description: Field<string>,
    expenseDate: string)

  predicate AmountOk(x: Value) { x.Num? && 0.0 < x.n <= 999999999.0 }
  predicate CategoryOk(x: Value) { TrimmedIn(x, 1, 50) }

  /** The inputs `expenseSchema` accepts. */
  predicate ValidExpense(v: Value) {
    && v.Obj?
    && AmountOk(Get(v, "amount"))
    && CategoryOk(Get(v, "category"))
    && DescriptionOk(Get(v, "description"))
    && NonEmptyText(Get(v, "expense_date"))
  }

  /** The amount is accepted exactly when it is a number in `(0, 999999999]`. */
  function AmountField(v: Value): (r: Parsed<real>)
    requires v.Obj?
    ensures r.Success? <==> AmountOk(Get(v, "amount"))
    ensures r.Success? ==> r.value == Get(v, "amount").n
    ensures Reported(r)
  {
    PositiveAtMost(if Get(v, "amount").Num? then Get(v, "amount").n else 0.0,
      Some("Amount must be greater than 0"), 999999999.0, Some("Amount is too large"));
    Number(Get(v, "amount"), [Key("amount")], AmountChecks)
  }

  function CategoryField(v: Value): (r: Parsed<string>)
    requires v.Obj?
    ensures r.Success? <==> CategoryOk(Get(v, "category"))
    ensures r.Success? ==> r.value == Trim(Get(v, "category").s)
    ensures Reported(r)
  {
    TrimmedText(Get(v, "category"), [Key("category")], CategoryBounds)
  }

  /** `expenseSchema.safeParse(v)`. */
  function ParseExpense(v: Value): (r: Parsed<ExpenseInput>)
    ensures r.Success? <==> ValidExpense(v)
    ensures Reported(r)
  {
    if !v.Obj? then NotAnObject([])
    else
      var amount := AmountField(v);
      var category := CategoryField(v);
      var description := DescriptionField(v);
      var date := DateField(v, "expense_date");
      if amount.Success? && category.Success? && description.Success? && date.Success?
      then Success(ExpenseInput(amount.value, category.value, description.value, date.value))
      else Failure(IssuesOf(amount) + IssuesOf(category) + IssuesOf(description) + IssuesOf(date))
  }

  /** The shape of every expense the schema outputs. */
  predicate NormalExpense(e: ExpenseInput) {
    && 0.0 < e.amount <= 999999999.0
    && IsTrimmed(e.category) && 1 <= JsLength(e.category) <= 50
    && (e.description.Given? ==> IsTrimmed(e.description.value) && JsLength(e.description.value) <= 2000)
    && JsLength(e.expenseDate) >= 1
  }

  /**
   * What an accepted expense holds: the amount as given, the category and
   * any given description trimmed, a null description kept as null, and the
   * date exactly as given (it is not trimmed, so a date of spaces only
   * passes).
   */
  lemma ExpenseNormalised(v: Value)
    requires ParseExpense(v).Success?
    ensures var e := ParseExpense(v).value;
      && e.amount == Get(v, "amount").n
      && e.category == Trim(Get(v, "category").s)
      && e.expenseDate == Get(v, "expense_date").s
      && (Get(v, "description").Undefined? <==> e.description.Omitted?)
      && (Get(v, "description").Null? <==> e.description.NullValue?)
      && (e.description.Given? ==> e.description.value == Trim(Get(v, "description").s))
      && NormalExpense(e)
  {
    var e := ParseExpense(v).value;
    assert e == ExpenseInput(AmountField(v).value, CategoryField(v).value, DescriptionField(v).value,
                             DateField(v, "expense_date").value);
  }

  /** A normalised expense as the object a form would submit. */
  function EncodeExpense(e: ExpenseInput): Value {
    Obj(map["amount" := Num(e.amount), "category" := Str(e.category), "expense_date" := Str(e.expenseDate)]
        + Entry("description", FieldValue(e.description, StrValue)))
  }

  lemma EncodeExpenseFields(e: ExpenseInput)
    ensures Get(EncodeExpense(e), "amount") == Num(e.amount)
    ensures Get(EncodeExpense(e), "category") == Str(e.category)
    ensures Get(EncodeExpense(e), "expense_date") == Str(e.expenseDate)
    ensures Get(EncodeExpense(e), "description") == FieldValue(e.description, StrValue)
  {
  }

  lemma ParseExpenseFromFields(x: Value, e: ExpenseInput)
    requires x.Obj?
    requires AmountField(x) == Success(e.amount) && CategoryField(x) == Success(e.category)
    requires DescriptionField(x) == Success(e.description) && DateField(x, "expense_date") == Success(e.expenseDate)
    ensures ParseExpense(x) == Success(e)
  {
  }

  lemma EncodedExpenseNumbers(x: Value, e: ExpenseInput)
    requires x.Obj? && NormalExpense(e)
    requires Get(x, "amount") == Num(e.amount) && Get(x, "expense_date") == Str(e.expenseDate)
    ensures AmountField(x) == Success(e.amount)
    ensures DateField(x, "expense_date") == Success(e.expenseDate)
  {
  }

  lemma EncodedExpenseTexts(x: Value, e: ExpenseInput)
    requires x.Obj? && NormalExpense(e)
    requires Get(x, "category") == Str(e.category)
    requires Get(x, "description") == FieldValue(e.description, StrValue)
    ensures CategoryField(x) == Success(e.category)
    ensures DescriptionField(x) == Success(e.description)
  {
    TrimmedTextOfTrimmed(e.category, [Key("category")], CategoryBounds);
    if e.description.Given? {
      TrimmedTextOfTrimmed(e.description.value, [Key("description")], DescriptionBounds);
    }
  }

  /** Every normalised expense, submitted as an object, is accepted unchanged. */
  lemma ExpenseRoundTrip(e: ExpenseInput)
    requires NormalExpense(e)
    ensures ParseExpense(EncodeExpense(e)) == Success(e)
  {
    EncodeExpenseFields(e);
    var x := EncodeExpense(e);
    EncodedExpenseNumbers(x, e);
    EncodedExpenseTexts(x, e);
    ParseExpenseFromFields(x, e);
  }

  /** Re-validating a validated expense gives the same expense back. */
  lemma ExpenseRevalidation(v: Value)
    requires ParseExpense(v).Success?
    ensures ParseExpense(EncodeExpense(ParseExpense(v).value)) == ParseExpense(v)
  {
    ExpenseNormalised(v);
    ExpenseRoundTrip(ParseExpense(v).value);
  }

  /** A zero or negative amount is rejected with "Amount must be greater than 0". */
  lemma NonPositiveAmountRejected(v: Value)
    requires v.Obj? && Get(v, "amount").Num? && Get(v, "amount").n <= 0.0
    ensures ParseExpense(v).Failure?
    ensures Issue([Key("amount")], TooSmall, Some("Amount must be greater than 0")) in ParseExpense(v).error
  {
    FailedCheckReported(Get(v, "amount").n, AmountChecks, [Key("amount")], 0);
  }

  /** A blank category is rejected with "Category is required". */
  lemma BlankCategoryRejected(v: Value)
    requires v.Obj? && Blank(Get(v, "category"))
    ensures ParseExpense(v).Failure?
    ensures Issue([Key("category")], TooSmall, Some("Category is required")) in ParseExpense(v).error
  {
    BlankTextTooShort(Get(v, "category"), [Key("category")], CategoryBounds);
  }
}
