/**
 * The shared record schema: the category catalog, the amount rule and the
 * insert-record validator that both the form and the server use.
 */
module Schema {
  import opened Wrappers

  /** A JavaScript `Date`, as an instant in milliseconds since the epoch. */
  datatype Date = Date(epochMillis: int)

  predicate Distinct<T(==)>(s: seq<T>) {
    forall i, j :: 0 <= i < j < |s| ==> s[i] != s[j]
  }

  // ---------------------------------------------------------------------
  // Category catalog
  // ---------------------------------------------------------------------

  /** The catalog's "miscellaneous" category, the one that shows the description step. */
  const MiscCategory: string := "Misc (please describe)"

  /** The keys that `categorySchema` declares, in declaration order. */
  const SchemaKeys: seq<string> := [
    "Transportation", "Gifts", "Fun & Entertainment", "Personal Care",
    "Food & Beverage", "Rental Property", "Home", "Yoshi", "Misc (please describe)"
  ]

  /** The `categories` object: category name to its ordered sub-categories, in key order. */
  const Catalog: seq<(string, seq<string>)> := [
    ("Transportation", ["Gas", "Maintenance", "Parking", "Public Transit"]),
    ("Gifts", ["Birthday", "Holiday", "Special Occasion"]),
    ("Fun & Entertainment", ["Movies", "Games", "Events", "Hobbies"]),
    ("Personal Care", ["Haircut", "Skincare", "Healthcare"]),
    ("Food & Beverage", ["Groceries", "Restaurants", "Coffee", "Snacks"]),
    ("Rental Property", ["Maintenance", "Utilities", "Insurance"]),
    ("Home", ["Utilities", "Furniture", "Maintenance", "Supplies"]),
    ("Yoshi", ["Food", "Vet", "Supplies"]),
    ("Misc (please describe)", ["Other"])
  ]

  /** The keys of an association list, in order (`Object.keys`). */
  function Keys(entries: seq<(string, seq<string>)>): (r: seq<string>)
    ensures |r| == |entries|
    ensures forall i :: 0 <= i < |entries| ==> r[i] == entries[i].0
  {
    if entries == [] then [] else [entries[0].0] + Keys(entries[1..])
  }

  /** `Object.keys(categories)`: the category names the form's category select offers. */
  function CategoryNames(): seq<string> {
    Keys(Catalog)
  }

  /** Own-property lookup in an association list; None when the key is absent. */
  function LookupIn(entries: seq<(string, seq<string>)>, key: string): Option<seq<string>> {
    if entries == [] then None
    else if entries[0].0 == key then Some(entries[0].1)
    else LookupIn(entries[1..], key)
  }

  /**
   * `categories[category]`. None stands for `undefined`: the key is not a
   * category, so the list the caller wanted does not exist.
   */
  function Lookup(category: string): Option<seq<string>> {
    LookupIn(Catalog, category)
  }

  lemma {:induction false} LookupInFinds(entries: seq<(string, seq<string>)>, i: int)
    requires Distinct(Keys(entries))
    requires 0 <= i < |entries|
    ensures LookupIn(entries, entries[i].0) == Some(entries[i].1)
  {
    if i > 0 {
      var tail := entries[1..];
      assert Keys(entries)[0] == entries[0].0 && Keys(entries)[i] == entries[i].0;
      assert Distinct(Keys(tail)) by {
        forall a, b | 0 <= a < b < |tail| ensures Keys(tail)[a] != Keys(tail)[b] {
          assert Keys(tail)[a] == Keys(entries)[a + 1] && Keys(tail)[b] == Keys(entries)[b + 1];
        }
      }
      LookupInFinds(tail, i - 1);
    }
  }

  lemma {:induction false} LookupInMisses(entries: seq<(string, seq<string>)>, key: string)
    requires key !in Keys(entries)
    ensures LookupIn(entries, key) == None
  {
    if entries != [] {
      assert Keys(entries)[0] == entries[0].0;
      assert key !in Keys(entries[1..]) by {
        forall a | 0 <= a < |entries| - 1 ensures Keys(entries[1..])[a] != key {
          assert Keys(entries[1..])[a] == Keys(entries)[a + 1];
        }
      }
      LookupInMisses(entries[1..], key);
    }
  }

  /** The catalog's keys are exactly the nine keys of `categorySchema`, in the same order. */
  lemma CatalogKeysMatchSchema()
    ensures CategoryNames() == SchemaKeys
  {
    var names := CategoryNames();
    assert |names| == |SchemaKeys|;
    forall i | 0 <= i < |SchemaKeys| ensures names[i] == SchemaKeys[i] {
      assert names[i] == Catalog[i].0;
    }
  }

  /** The nine keys of `categorySchema` are pairwise different. */
  lemma SchemaKeysDistinct()
    ensures Distinct(SchemaKeys)
  {
    var k := SchemaKeys;
    // Names of different lengths differ; the two pairs of equal length differ in their first letter.
    assert |k[0]| == 14 && |k[1]| == 5 && |k[2]| == 19 && |k[3]| == 13 && |k[4]| == 15;
    assert |k[5]| == 15 && |k[6]| == 4 && |k[7]| == 5 && |k[8]| == 22;
    assert k[1][0] != k[7][0] && k[4][0] != k[5][0];
    forall i, j | 0 <= i < j < |k| ensures k[i] != k[j] {
      if |k[i]| == |k[j]| {
        assert (i == 1 && j == 7) || (i == 4 && j == 5);
      }
    }
  }

  /** No category name is listed twice. */
  lemma CategoryNamesDistinct()
    ensures Distinct(CategoryNames())
  {
    CatalogKeysMatchSchema();
    SchemaKeysDistinct();
  }

  /** Every sub-category list is non-empty and has no repeated entry. */
  lemma SubCategoryListsWellFormed()
    ensures forall i :: 0 <= i < |Catalog| ==> |Catalog[i].1| > 0 && Distinct(Catalog[i].1)
  {
  }

  /** The lookup returns the catalog's own list for every category, and nothing for any other key. */
  lemma LookupMatchesCatalog(category: string)
    ensures forall i :: 0 <= i < |Catalog| ==> Lookup(Catalog[i].0) == Some(Catalog[i].1)
    ensures Lookup(category).Some? <==> category in CategoryNames()
  {
    CategoryNamesDistinct();
    forall i | 0 <= i < |Catalog| ensures Lookup(Catalog[i].0) == Some(Catalog[i].1) {
      LookupInFinds(Catalog, i);
    }
    if category in CategoryNames() {
      var i :| 0 <= i < |Catalog| && CategoryNames()[i] == category;
      LookupInFinds(Catalog, i);
    } else {
      LookupInMisses(Catalog, category);
    }
  }

  /** The miscellaneous category offers exactly one sub-category, "Other". */
  lemma MiscIsOther()
    ensures Lookup(MiscCategory) == Some(["Other"])
  {
    LookupMatchesCatalog(MiscCategory);
    assert Catalog[8].0 == MiscCategory;
  }

  /** Sub-category names are not unique: "Maintenance" is listed under exactly three categories. */
  lemma MaintenanceShared()
    ensures forall i :: 0 <= i < |Catalog| ==>
      ("Maintenance" in Catalog[i].1 <==> Catalog[i].0 in {"Transportation", "Rental Property", "Home"})
  {
  }

  // ---------------------------------------------------------------------
  // The amount rule: `!isNaN(parseFloat(val)) && parseFloat(val) > 0`
  // ---------------------------------------------------------------------

  predicate IsDigit(c: char) {
    '0' as int <= c as int <= '9' as int
  }

  predicate AllDigits(s: string) {
    forall i :: 0 <= i < |s| ==> IsDigit(s[i])
  }

  /** The white space and line terminators that `parseFloat` skips before the number. */
  predicate IsSpace(c: char) {
    c == '\t' || c == '\n' || c == '\U{000B}' || c == '\U{000C}' || c == '\r' || c == ' '
    || c == '\U{00A0}' || c == '\U{1680}' || ('\U{2000}' <= c <= '\U{200A}')
    || c == '\U{2028}' || c == '\U{2029}' || c == '\U{202F}' || c == '\U{205F}'
    || c == '\U{3000}' || c == '\U{FEFF}'
  }

  function DigitValue(c: char): nat
    requires IsDigit(c)
  {
    (c as int) - ('0' as int)
  }

  /** The natural number a string of decimal digits denotes. */
  function DigitsValue(d: string): nat
    requires AllDigits(d)
    decreases |d|
  {
    if d == [] then 0 else DigitsValue(d[..|d| - 1]) * 10 + DigitValue(d[|d| - 1])
  }

  predicate HasNonZeroDigit(d: string) {
    exists i :: 0 <= i < |d| && d[i] != '0'
  }

  /** The longest prefix of decimal digits. */
  function LeadingDigits(s: string): (r: string)
    ensures |r| <= |s| && r == s[..|r|]
    ensures AllDigits(r)
    ensures |r| == |s| || !IsDigit(s[|r|])
    decreases |s|
  {
    if s != [] && IsDigit(s[0]) then [s[0]] + LeadingDigits(s[1..]) else []
  }

  /** An exact decimal number: mantissa / 10^scale. */
  datatype Decimal = Decimal(mantissa: int, scale: nat)

  /**
   * The unsigned part of a number at the start of `u`: digits, an optional
   * `.` and digits, with at least one digit in all; whatever follows the
   * longest such prefix is ignored. None when there is no digit.
   */
  function ParseUnsigned(u: string): Option<Decimal> {
    var whole := LeadingDigits(u);
    var rest := u[|whole|..];
    var fraction := if |rest| > 0 && rest[0] == '.' then LeadingDigits(rest[1..]) else [];
    if |whole| + |fraction| == 0 then None
    else
      assert AllDigits(whole + fraction);
      Some(Decimal(DigitsValue(whole + fraction), |fraction|))
  }

  function Negate(n: Option<Decimal>): Option<Decimal> {
    match n
    case None => None
    case Some(d) => Some(Decimal(-d.mantissa, d.scale))
  }

  /**
   * `parseFloat`, restricted to the grammar: leading white space, an optional
   * sign, then the unsigned number that `ParseUnsigned` reads. None stands
   * for NaN. The value is kept exact rather than rounded to a double.
   */
  function ParseFloat(s: string): Option<Decimal>
    decreases |s|
  {
    if s != [] && IsSpace(s[0]) then ParseFloat(s[1..])
    else if s != [] && s[0] == '-' then Negate(ParseUnsigned(s[1..]))
    else if s != [] && s[0] == '+' then ParseUnsigned(s[1..])
    else ParseUnsigned(s)
  }

  /** The `refine` on `amount`: the parse is a number and it is greater than zero. */
  predicate AmountAccepted(val: string) {
    var n := ParseFloat(val);
    n.Some? && n.value.mantissa > 0
  }

  /** A digit string denotes a positive number exactly when one of its digits is not 0. */
  lemma {:induction false} DigitsValuePositive(d: string)
    requires AllDigits(d)
    ensures DigitsValue(d) > 0 <==> HasNonZeroDigit(d)
  {
    if d != [] {
      var p := d[..|d| - 1];
      assert AllDigits(p);
      DigitsValuePositive(p);
      if HasNonZeroDigit(p) {
        var i :| 0 <= i < |p| && p[i] != '0';
        assert d[i] == p[i];
      }
      if HasNonZeroDigit(d) && !HasNonZeroDigit(p) {
        assert forall k :: 0 <= k < |p| ==> p[k] == d[k];
        assert d[|d| - 1] != '0';
      }
    }
  }

  lemma LeadingDigitsOf(d: string, rest: string)
    requires AllDigits(d)
    requires rest == [] || !IsDigit(rest[0])
    ensures LeadingDigits(d + rest) == d
  {
    var s := d + rest;
    var r := LeadingDigits(s);
    assert forall i :: 0 <= i < |d| ==> s[i] == d[i];
    assert |d| < |s| ==> s[|d|] == rest[0];
    assert |r| == |d|;
  }

  /** A string that starts with a digit or a point is read by the unsigned parse alone. */
  lemma ParseFloatUnsigned(s: string)
    requires s != [] && (IsDigit(s[0]) || s[0] == '.')
    ensures ParseFloat(s) == ParseUnsigned(s)
  {
  }

  lemma ParseUnsignedInteger(whole: string, tail: string)
    requires AllDigits(whole) && |whole| > 0
    requires tail == [] || (!IsDigit(tail[0]) && tail[0] != '.')
    ensures ParseUnsigned(whole + tail) == Some(Decimal(DigitsValue(whole), 0))
  {
    LeadingDigitsOf(whole, tail);
    assert (whole + tail)[|whole|..] == tail;
    assert whole + [] == whole;
  }

  lemma ParseUnsignedDecimal(whole: string, fraction: string)
    requires AllDigits(whole) && AllDigits(fraction) && |whole| + |fraction| > 0
    ensures ParseUnsigned(whole + "." + fraction) == Some(Decimal(DigitsValue(whole + fraction), |fraction|))
  {
    var s := whole + "." + fraction;
    assert s == whole + ("." + fraction);
    LeadingDigitsOf(whole, "." + fraction);
    assert s[|whole|..] == "." + fraction;
    assert ("." + fraction)[1..] == fraction + [];
    LeadingDigitsOf(fraction, []);
  }

  /**
   * In the modelled grammar, which has no exponent, digits followed by
   * anything but a digit or a point parse as those digits: "45" and
   * "45 dollars" both parse as 45.
   */
  lemma UnsignedIntegerParsed(whole: string, tail: string)
    requires AllDigits(whole) && |whole| > 0
    requires tail == [] || (!IsDigit(tail[0]) && tail[0] != '.')
    ensures ParseFloat(whole + tail) == Some(Decimal(DigitsValue(whole), 0))
    ensures AmountAccepted(whole + tail) <==> HasNonZeroDigit(whole)
  {
    assert (whole + tail)[0] == whole[0];
    ParseFloatUnsigned(whole + tail);
    ParseUnsignedInteger(whole, tail);
    DigitsValuePositive(whole);
  }

  /** An unsigned decimal "digits.digits" parses exactly, with the fraction's length as scale. */
  lemma UnsignedDecimalParsed(whole: string, fraction: string)
    requires AllDigits(whole) && AllDigits(fraction) && |whole| + |fraction| > 0
    ensures ParseFloat(whole + "." + fraction) == Some(Decimal(DigitsValue(whole + fraction), |fraction|))
    ensures AmountAccepted(whole + "." + fraction) <==> HasNonZeroDigit(whole + fraction)
  {
    var s := whole + "." + fraction;
    assert s[0] == if |whole| > 0 then whole[0] else '.';
    ParseFloatUnsigned(s);
    ParseUnsignedDecimal(whole, fraction);
    assert AllDigits(whole + fraction);
    DigitsValuePositive(whole + fraction);
  }

  /** White space in front of the amount does not change its parse. */
  lemma {:induction false} LeadingSpaceIgnored(spaces: string, s: string)
    requires forall i :: 0 <= i < |spaces| ==> IsSpace(spaces[i])
    ensures ParseFloat(spaces + s) == ParseFloat(s)
  {
    if spaces != [] {
      var t := spaces + s;
      assert t[0] == spaces[0] && IsSpace(t[0]);
      assert ParseFloat(t) == ParseFloat(t[1..]);
      assert t[1..] == spaces[1..] + s;
      LeadingSpaceIgnored(spaces[1..], s);
    } else {
      assert spaces + s == s;
    }
  }

  /** No amount with a leading minus sign is accepted, whatever follows it. */
  lemma NegativeRejected(s: string)
    ensures !AmountAccepted("-" + s)
  {
  }

  /** "45.00" is accepted, and so is "12abc", whose trailing text the parse ignores. */
  lemma AcceptedExamples(val: string)
    requires val == "45.00" || val == "12abc"
    ensures AmountAccepted(val)
  {
    if val == "45.00" {
      assert val == "45" + "." + "00";
      assert ("45" + "00")[0] != '0';
      UnsignedDecimalParsed("45", "00");
    } else {
      assert val == "12" + "abc";
      assert "12"[0] != '0';
      UnsignedIntegerParsed("12", "abc");
    }
  }

  /** "-5", "0", "" and "abc" are all rejected. */
  lemma RejectedExamples(val: string)
    requires val == "-5" || val == "0" || val == "" || val == "abc"
    ensures !AmountAccepted(val)
  {
    if val == "-5" {
      assert val == "-" + "5";
      NegativeRejected("5");
    } else if val == "0" {
      assert val == "0" + "";
      UnsignedIntegerParsed("0", "");
    } else if val == "abc" {
      assert !IsSpace(val[0]) && !IsDigit(val[0]) && val[0] != '.';
      assert ParseFloat(val) == ParseUnsigned(val);
      LeadingDigitsOf([], val);
      assert [] + val == val;
    }
  }

  // ---------------------------------------------------------------------
  // The insert-record schema
  // ---------------------------------------------------------------------

  /**
   * A property value of a request body or form object, as the validator sees
   * it. `InvalidDateObj` is a Date object whose time is NaN, such as
   * `new Date("2024-13-45")`.
   */
  datatype Value = Str(s: string) | DateObj(d: Date) | InvalidDateObj | Null | Other

  /** An object to validate; a key that is absent is `undefined`. */
  type Body = map<string, Value>

  /** A validated insert record: the table's columns without `id` and `createdAt`. */
  datatype InsertExpense = InsertExpense(
    user: string,
    category: string,
    subCategory: string,
    description: Option<string>,
    amount: string,
    date: Date,
    receiptUrl: Option<string>,
    notes: Option<string>)

  /** The keys of the insert schema, in the order the validator checks them. */
  const FieldNames: seq<string> := [
    "user", "category", "subCategory", "description", "amount", "date", "receiptUrl", "notes"
  ]

  /** What was wrong with a field; the amount rule's failure carries the rule's own message. */
  datatype IssueKind = Missing | WrongType | InvalidDate | NotPositive(message: string)

  /** One validation failure: the field and what was wrong with it. */
  datatype Issue = Issue(field: string, kind: IssueKind)

  /** The message the amount rule reports. */
  const AmountMessage: string := "Amount must be a positive number"

  /** A `notNull` text column: a string must be present (the empty string is a string). */
  function TextIssue(b: Body, key: string): seq<Issue> {
    if key !in b then [Issue(key, Missing)]
    else if b[key].Str? then []
    else [Issue(key, WrongType)]
  }

  /** A nullable text column: absent, null or a string. */
  function NullableTextIssue(b: Body, key: string): seq<Issue> {
    if key !in b || b[key].Null? || b[key].Str? then [] else [Issue(key, WrongType)]
  }

  function AmountIssue(b: Body): seq<Issue> {
    if "amount" !in b then [Issue("amount", Missing)]
    else if !b["amount"].Str? then [Issue("amount", WrongType)]
    else if AmountAccepted(b["amount"].s) then []
    else [Issue("amount", NotPositive(AmountMessage))]
  }

  /** `z.date()`: a Date object must be present, and its time must not be NaN. */
  function DateIssue(b: Body): seq<Issue> {
    if "date" !in b then [Issue("date", Missing)]
    else if b["date"].DateObj? then []
    else if b["date"].InvalidDateObj? then [Issue("date", InvalidDate)]
    else [Issue("date", WrongType)]
  }

  /** Every field's failures, in field order. */
  function Issues(b: Body): seq<Issue> {
    TextIssue(b, "user") + TextIssue(b, "category") + TextIssue(b, "subCategory")
    + NullableTextIssue(b, "description") + AmountIssue(b) + DateIssue(b)
    + NullableTextIssue(b, "receiptUrl") + NullableTextIssue(b, "notes")
  }

  function NullableText(b: Body, key: string): Option<string> {
    if key in b && b[key].Str? then Some(b[key].s) else None
  }

  /**
   * `insertExpenseSchema.parse`: the record when every field passes, else the
   * list of failures. Keys outside the schema (`id`, `createdAt` among them)
   * are dropped.
   */
  function ParseInsert(b: Body): Result<InsertExpense, seq<Issue>> {
    var issues := Issues(b);
    if issues != [] then Err(issues)
    else
      assert TextIssue(b, "user") == [] && TextIssue(b, "category") == [] && TextIssue(b, "subCategory") == [];
      assert AmountIssue(b) == [] && DateIssue(b) == [];
      Ok(InsertExpense(
        b["user"].s, b["category"].s, b["subCategory"].s, NullableText(b, "description"),
        b["amount"].s, b["date"].d, NullableText(b, "receiptUrl"), NullableText(b, "notes")))
  }

  predicate IsText(b: Body, key: string) {
    key in b && b[key].Str?
  }

  predicate IsNullableText(b: Body, key: string) {
    key !in b || b[key].Null? || b[key].Str?
  }

  /**
   * A body is accepted exactly when user, category, subCategory and amount are
   * strings, the amount passes its rule, date is a Date, and description,
   * receiptUrl and notes are absent, null or strings. The record then carries
   * the body's values unchanged.
   */
  lemma ParseInsertAccepts(b: Body)
    ensures ParseInsert(b).Ok? <==>
      IsText(b, "user") && IsText(b, "category") && IsText(b, "subCategory")
      && IsText(b, "amount") && AmountAccepted(b["amount"].s)
      && "date" in b && b["date"].DateObj?
      && IsNullableText(b, "description") && IsNullableText(b, "receiptUrl") && IsNullableText(b, "notes")
    ensures ParseInsert(b).Ok? ==>
      var r := ParseInsert(b).value;
      && Str(r.user) == b["user"] && Str(r.category) == b["category"]
      && Str(r.subCategory) == b["subCategory"] && Str(r.amount) == b["amount"]
      && DateObj(r.date) == b["date"]
      && (r.description.Some? <==> IsText(b, "description"))
      && (r.description.Some? ==> Str(r.description.value) == b["description"])
      && (r.receiptUrl.Some? <==> IsText(b, "receiptUrl"))
      && (r.receiptUrl.Some? ==> Str(r.receiptUrl.value) == b["receiptUrl"])
      && (r.notes.Some? <==> IsText(b, "notes"))
      && (r.notes.Some? ==> Str(r.notes.value) == b["notes"])
    ensures ParseInsert(b).Err? ==> ParseInsert(b).error != []
  {
  }

  /** Two bodies that hold the same value, or none, under `key`. */
  predicate AgreeOn(b1: Body, b2: Body, key: string) {
    (key in b1 <==> key in b2) && (key in b1 ==> b1[key] == b2[key])
  }

  lemma SameFieldsSameParse(b1: Body, b2: Body)
    requires AgreeOn(b1, b2, "user") && AgreeOn(b1, b2, "category") && AgreeOn(b1, b2, "subCategory")
    requires AgreeOn(b1, b2, "description") && AgreeOn(b1, b2, "amount") && AgreeOn(b1, b2, "date")
    requires AgreeOn(b1, b2, "receiptUrl") && AgreeOn(b1, b2, "notes")
    ensures ParseInsert(b1) == ParseInsert(b2)
  {
    assert TextIssue(b1, "user") == TextIssue(b2, "user");
    assert TextIssue(b1, "category") == TextIssue(b2, "category");
    assert TextIssue(b1, "subCategory") == TextIssue(b2, "subCategory");
    assert NullableTextIssue(b1, "description") == NullableTextIssue(b2, "description");
    assert AmountIssue(b1) == AmountIssue(b2) by {
      if "amount" in b1 {
        assert b1["amount"] == b2["amount"];
      }
    }
    assert DateIssue(b1) == DateIssue(b2);
    assert NullableTextIssue(b1, "receiptUrl") == NullableTextIssue(b2, "receiptUrl");
    assert NullableTextIssue(b1, "notes") == NullableTextIssue(b2, "notes");
    assert Issues(b1) == Issues(b2);
  }

  /** Keys outside the schema never affect the outcome: setting or deleting one changes nothing. */
  lemma UnknownKeysIgnored(b: Body, key: string, v: Value)
    requires key !in FieldNames
    ensures ParseInsert(b[key := v]) == ParseInsert(b)
    ensures ParseInsert(b - {key}) == ParseInsert(b)
  {
    SameFieldsSameParse(b[key := v], b);
    SameFieldsSameParse(b - {key}, b);
  }

  /** An `id` or `createdAt` sent by a client is dropped before the record is built. */
  lemma IdAndCreatedAtDropped(b: Body)
    ensures ParseInsert(b - {"id", "createdAt"}) == ParseInsert(b)
  {
    UnknownKeysIgnored(b, "id", Null);
    UnknownKeysIgnored(b - {"id"}, "createdAt", Null);
    assert b - {"id"} - {"createdAt"} == b - {"id", "createdAt"};
  }

  /**
   * A date given as text, which is how JSON carries a date, is refused:
   * `z.date()` takes only a Date object, so such a body is never accepted.
   */
  lemma DateTextRejected(b: Body, text: string)
    ensures ParseInsert(b["date" := Str(text)]).Err?
    ensures Issue("date", WrongType) in ParseInsert(b["date" := Str(text)]).error
  {
    var b' := b["date" := Str(text)];
    assert DateIssue(b') == [Issue("date", WrongType)];
    var before := TextIssue(b', "user") + TextIssue(b', "category") + TextIssue(b', "subCategory")
      + NullableTextIssue(b', "description") + AmountIssue(b');
    var after := NullableTextIssue(b', "receiptUrl") + NullableTextIssue(b', "notes");
    assert Issues(b') == before + DateIssue(b') + after;
    assert Issues(b')[|before|] == Issue("date", WrongType);
  }

  /**
   * An Invalid Date is refused with its own issue: `z.date()` checks the
   * time, so a body that is otherwise accepted is rejected.
   */
  lemma InvalidDateRejected(b: Body)
    ensures ParseInsert(b["date" := InvalidDateObj]).Err?
    ensures Issue("date", InvalidDate) in ParseInsert(b["date" := InvalidDateObj]).error
  {
    var b' := b["date" := InvalidDateObj];
    assert DateIssue(b') == [Issue("date", InvalidDate)];
    var before := TextIssue(b', "user") + TextIssue(b', "category") + TextIssue(b', "subCategory")
      + NullableTextIssue(b', "description") + AmountIssue(b');
    var after := NullableTextIssue(b', "receiptUrl") + NullableTextIssue(b', "notes");
    assert Issues(b') == before + DateIssue(b') + after;
    assert Issues(b')[|before|] == Issue("date", InvalidDate);
  }

  /** Replacing category by any string keeps an accepted body accepted. */
  lemma CategoryReplaced(b: Body, category: string)
    requires ParseInsert(b).Ok?
    ensures var r := ParseInsert(b["category" := Str(category)]);
      r.Ok? && r.value == ParseInsert(b).value.(category := category)
  {
  }

  /** Replacing subCategory by any string keeps an accepted body accepted. */
  lemma SubCategoryReplaced(b: Body, subCategory: string)
    requires ParseInsert(b).Ok?
    ensures var r := ParseInsert(b["subCategory" := Str(subCategory)]);
      r.Ok? && r.value == ParseInsert(b).value.(subCategory := subCategory)
  {
  }

  /**
   * The schema does not tie category or subCategory to the catalog: in an
   * accepted body they can be replaced by any strings at all, even a
   * category the catalog does not hold, and the body is still accepted.
   */
  lemma CatalogNotEnforced(b: Body, category: string, subCategory: string)
    requires ParseInsert(b).Ok?
    ensures var r := ParseInsert(b["category" := Str(category)]["subCategory" := Str(subCategory)]);
      r.Ok? && r.value.category == category && r.value.subCategory == subCategory
  {
    CategoryReplaced(b, category);
    SubCategoryReplaced(b["category" := Str(category)], subCategory);
  }
}
