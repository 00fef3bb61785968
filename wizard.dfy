/**
 * The seven-step expense form: a step counter, the form's values, what each
 * step shows, and what a submission does to both.
 */
module Wizard {
  import opened Wrappers
  import opened Schema

  /** The number of steps; the last one holds the receipt URL and the notes. */
  const LastStep: int := 7

  function Min(a: int, b: int): int { if a < b then a else b }

  function Max(a: int, b: int): int { if a < b then b else a }

  /**
   * The values the form holds. The date is None after the calendar hands
   * back `undefined` (a second click on the selected day).
   */
  datatype FormValues = FormValues(
    user: string,
    category: string,
    subCategory: string,
    description: string,
    amount: string,
    date: Option<Date>,
    receiptUrl: string,
    notes: string)

  /** The form's default values; `today` is the clock reading when the form was created. */
  function DefaultValues(today: Date): FormValues {
    FormValues("", "", "", "", "", Some(today), "", "")
  }

  /** The form's text fields, each set by a select or an input. */
  datatype TextField =
    | UserField | CategoryField | SubCategoryField | DescriptionField
    | AmountField | ReceiptUrlField | NotesField

  function TextOf(v: FormValues, f: TextField): string {
    match f
    case UserField => v.user
    case CategoryField => v.category
    case SubCategoryField => v.subCategory
    case DescriptionField => v.description
    case AmountField => v.amount
    case ReceiptUrlField => v.receiptUrl
    case NotesField => v.notes
  }

  // ---------------------------------------------------------------------
  // What the page shows, as expressions over the step and the category
  // ---------------------------------------------------------------------

  /** Panel `panel` is shown when it is the current step; the description panel also needs the Misc category. */
  predicate PanelShown(panel: int, step: int, category: string) {
    && 1 <= panel <= LastStep
    && step == panel
    && (panel == 4 ==> category == MiscCategory)
  }

  predicate ShowsPrevious(step: int) { step > 1 }

  predicate ShowsNext(step: int) { step < LastStep }

  /** The Submit button stands where Next would. */
  predicate ShowsSubmit(step: int) { !ShowsNext(step) }

  /** The sub-category select is disabled while no category is chosen. */
  predicate SubCategoryDisabled(category: string) { category == "" }

  /**
   * The sub-category options: none while the category is empty, else the
   * catalog's list. None when the category is no catalog key: the lookup
   * yields `undefined` and rendering the list fails.
   */
  function SubCategoryOptions(category: string): Option<seq<string>> {
    if category == "" then Some([]) else Lookup(category)
  }

  /** At most one panel is shown, and it is the current step's. */
  lemma AtMostOnePanel(step: int, category: string, p: int, q: int)
    requires PanelShown(p, step, category) && PanelShown(q, step, category)
    ensures p == q == step
  {
  }

  /**
   * Every step in range shows its own panel, except step 4, which shows the
   * description panel exactly for the Misc category and otherwise nothing.
   */
  lemma PanelsByStep(step: int, category: string)
    requires 1 <= step <= LastStep
    ensures step != 4 ==> PanelShown(step, step, category)
    ensures step == 4 ==> (PanelShown(4, step, category) <==> category == MiscCategory)
    ensures step == 4 && category != MiscCategory ==> forall p :: !PanelShown(p, step, category)
  {
  }

  /** Previous is shown from step 2 on; Next up to step 6; Submit exactly at step 7. */
  lemma ButtonsByStep(step: int)
    requires 1 <= step <= LastStep
    ensures ShowsPrevious(step) <==> step > 1
    ensures ShowsNext(step) <==> step < LastStep
    ensures ShowsSubmit(step) <==> step == LastStep
    ensures ShowsNext(step) != ShowsSubmit(step)
  {
  }

  /**
   * The options are empty and the select disabled for the empty category; for
   * a catalog category they are its non-empty list of sub-categories; any
   * other category has no list.
   */
  lemma SubCategoryOptionsFromCatalog(category: string)
    ensures category == "" ==> SubCategoryDisabled(category) && SubCategoryOptions(category) == Some([])
    ensures forall i :: 0 <= i < |Catalog| ==> SubCategoryOptions(Catalog[i].0) == Some(Catalog[i].1)
    ensures category != "" && category in CategoryNames() ==>
      !SubCategoryDisabled(category)
      && SubCategoryOptions(category).Some? && |SubCategoryOptions(category).value| > 0
    ensures category != "" && category !in CategoryNames() ==> SubCategoryOptions(category) == None
  {
    LookupMatchesCatalog(category);
    SubCategoryListsWellFormed();
    forall i | 0 <= i < |Catalog| ensures SubCategoryOptions(Catalog[i].0) == Some(Catalog[i].1) {
      assert |Catalog[i].0| > 0;
    }
    if category != "" && category in CategoryNames() {
      var i :| 0 <= i < |Catalog| && CategoryNames()[i] == category;
      assert Keys(Catalog)[i] == Catalog[i].0;
    }
  }

  // ---------------------------------------------------------------------
  // Validation before a submission
  // ---------------------------------------------------------------------

  /** The form values as the schema resolver sees them; an undefined date is an absent key. */
  function AsBody(v: FormValues): Body {
    var texts := map[
      "user" := Str(v.user), "category" := Str(v.category), "subCategory" := Str(v.subCategory),
      "description" := Str(v.description), "amount" := Str(v.amount),
      "receiptUrl" := Str(v.receiptUrl), "notes" := Str(v.notes)];
    if v.date.Some? then texts["date" := DateObj(v.date.value)] else texts
  }

  /** The resolver's check that `handleSubmit` runs before it hands the values on. */
  function Validate(v: FormValues): Result<InsertExpense, seq<Issue>> {
    ParseInsert(AsBody(v))
  }

  lemma AsBodyFields(v: FormValues)
    ensures var b := AsBody(v);
      && IsText(b, "user") && b["user"].s == v.user
      && IsText(b, "category") && b["category"].s == v.category
      && IsText(b, "subCategory") && b["subCategory"].s == v.subCategory
      && IsText(b, "description") && b["description"].s == v.description
      && IsText(b, "amount") && b["amount"].s == v.amount
      && IsText(b, "receiptUrl") && b["receiptUrl"].s == v.receiptUrl
      && IsText(b, "notes") && b["notes"].s == v.notes
      && ("date" in b <==> v.date.Some?)
      && (v.date.Some? ==> b["date"] == DateObj(v.date.value))
  {
  }

  /**
   * No step gates the submission: the values pass exactly when the amount
   * passes its rule and a date is set, whatever the other fields hold (empty
   * user, category and sub-category included). The record then carries the
   * form's values, with the optional texts present even when empty.
   */
  lemma ValidateOnlyChecksAmountAndDate(v: FormValues)
    ensures Validate(v).Ok? <==> AmountAccepted(v.amount) && v.date.Some?
    ensures Validate(v).Ok? ==> Validate(v).value == InsertExpense(
      v.user, v.category, v.subCategory, Some(v.description), v.amount,
      v.date.value, Some(v.receiptUrl), Some(v.notes))
  {
    AsBodyFields(v);
    ParseInsertAccepts(AsBody(v));
  }

  /** Submitting the untouched form fails, and only because the empty amount is not a positive number. */
  lemma DefaultsRejected(today: Date)
    ensures Validate(DefaultValues(today)) == Err([Issue("amount", NotPositive(AmountMessage))])
  {
    var v := DefaultValues(today);
    RejectedExamples(v.amount);
    AsBodyFields(v);
    var b := AsBody(v);
    assert "amount" in b && b["amount"] == Str("");
    assert AmountIssue(b) == [Issue("amount", NotPositive(AmountMessage))];
    assert Issues(b) == [Issue("amount", NotPositive(AmountMessage))];
  }

  /** What the submission's request resolved to: `onSuccess` or `onError`. */
  datatype MutationOutcome = Succeeded | Failed

  // ---------------------------------------------------------------------
  // The form's state
  // ---------------------------------------------------------------------

  class ExpenseForm {
    /** The current step. */
    var step: int
    /** The current form values. */
    var values: FormValues
    /** The values the form was created with, and that a reset restores. */
    const defaults: FormValues

    /** Every reachable step lies in 1..7. */
    ghost predicate Valid()
      reads this
    {
      1 <= step <= LastStep
    }

    constructor (today: Date)
      ensures Valid() && step == 1
      ensures defaults == DefaultValues(today) && values == defaults
    {
      step := 1;
      defaults := DefaultValues(today);
      values := DefaultValues(today);
    }

    /** `nextStep`: one step forward, clamped at the last step. Nothing is validated. */
    method NextStep()
      requires Valid()
      modifies this`step
      ensures Valid()
      ensures step == Min(old(step) + 1, LastStep)
      ensures old(step) < LastStep ==> step == old(step) + 1
      ensures old(step) == LastStep ==> step == LastStep
    {
      step := Min(step + 1, LastStep);
    }

    /** `prevStep`: one step back, clamped at the first step. */
    method PrevStep()
      requires Valid()
      modifies this`step
      ensures Valid()
      ensures step == Max(old(step) - 1, 1)
      ensures old(step) > 1 ==> step == old(step) - 1
      ensures old(step) == 1 ==> step == 1
    {
      step := Max(step - 1, 1);
    }

    /** `form.setValue` (or typing into a registered input) on a text field: only that field changes. */
    method SetText(f: TextField, text: string)
      modifies this`values
      ensures TextOf(values, f) == text
      ensures forall g :: g != f ==> TextOf(values, g) == TextOf(old(values), g)
      ensures values.date == old(values.date)
    {
      match f
      case UserField => values := values.(user := text);
      case CategoryField => values := values.(category := text);
      case SubCategoryField => values := values.(subCategory := text);
      case DescriptionField => values := values.(description := text);
      case AmountField => values := values.(amount := text);
      case ReceiptUrlField => values := values.(receiptUrl := text);
      case NotesField => values := values.(notes := text);
    }

    /** `form.setValue("date", …)` from the calendar: only the date changes. */
    method SetDate(d: Option<Date>)
      modifies this`values
      ensures values.date == d
      ensures forall g :: TextOf(values, g) == TextOf(old(values), g)
    {
      values := values.(date := d);
    }

    /**
     * `handleSubmit(onSubmit)` followed by the request's outcome. Values that
     * fail validation are not sent and nothing changes. Sent values that the
     * request accepts reset the form to its defaults and step 1; a failed
     * request leaves step and values as they were.
     */
    method Submit(outcome: MutationOutcome) returns (posted: Option<InsertExpense>)
      requires Valid()
      modifies this`step, this`values
      ensures Valid()
      ensures posted == (if Validate(old(values)).Ok? then Some(Validate(old(values)).value) else None)
      ensures posted.Some? && outcome == Succeeded ==> step == 1 && values == defaults
      ensures posted.None? || outcome == Failed ==> step == old(step) && values == old(values)
    {
      var checked := Validate(values);
      if checked.Ok? {
        posted := Some(checked.value);
        if outcome == Succeeded {
          values := defaults;
          step := 1;
        }
      } else {
        posted := None;
      }
    }
  }

  /**
   * Choosing a category writes only the category: a sub-category picked for
   * an earlier category stays, even when the new category does not list it.
   */
  method CategoryChangeKeepsSubCategory(form: ExpenseForm)
    modifies form
    ensures form.values.category == "Yoshi" && form.values.subCategory == "Maintenance"
  {
    form.SetText(CategoryField, "Home");
    form.SetText(SubCategoryField, "Maintenance");
    form.SetText(CategoryField, "Yoshi");
    assert TextOf(form.values, SubCategoryField) == "Maintenance";
  }
}
