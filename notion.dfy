/**
 * The Notion mirror: how an expense becomes the properties of a new page in
 * the expenses database, and how a failed page creation is reported.
 */
module Notion {
  import opened Wrappers
  import opened Schema

  /**
   * The expense as the Notion service receives it. The optional text fields
   * may be absent, null or a string; absent and null are both `None`.
   */
  datatype NotionExpense = NotionExpense(
    user: string,
    category: string,
    subCategory: string,
    description: Option<string>,
    amount: string,
    date: string,
    receiptUrl: Option<string>,
    notes: Option<string>)

  /** The environment variables the payload reads; `None` when a variable is unset. */
  datatype Env = Env(replSlug: Option<string>, replOwner: Option<string>, databaseId: Option<string>)

  /** One entry of a files property: a named link to an external file. */
  datatype ExternalFile = ExternalFile(name: string, kind: string, url: string)

  /**
   * The page properties. `amount` is the Amount number, of a type `N` left
   * to the caller: whatever `parseFloat` makes of the amount text.
   */
  datatype Properties<N> = Properties(
    user: string,
    category: string,
    subCategory: string,
    description: string,
    amount: N,
    dateStart: string,
    receipt: seq<ExternalFile>,
    notes: string)

  /** The page-creation request: the parent database and the properties. */
  datatype PageRequest<N> = PageRequest(databaseId: Option<string>, properties: Properties<N>)

  /** What the Notion client answers: the created page, or a failure of any kind. */
  datatype CreateResult = PageCreated(response: string) | ApiError(reason: string)

  /** The one message every failure is reported with. */
  const NotionFailure: string := "Failed to save expense to Notion"

  /** JavaScript truthiness of an optional string: present and not empty. */
  predicate Truthy(o: Option<string>) {
    o.Some? && o.value != ""
  }

  /** `o || ""` for an optional string. */
  function OrEmpty(o: Option<string>): (r: string)
    ensures Truthy(o) ==> r == o.value
    ensures !Truthy(o) ==> r == ""
  {
    if o.Some? then o.value else ""
  }

  /** A template-literal substitution of an environment variable: unset reads as "undefined". */
  function Interpolate(o: Option<string>): string {
    if o.Some? then o.value else "undefined"
  }

  /** The host part of every receipt link, up to where the receipt path starts. */
  function ReceiptPrefix(env: Env): string {
    "https://" + Interpolate(env.replSlug) + "." + Interpolate(env.replOwner) + ".repl.co"
  }

  /** The public link of an uploaded receipt: the app's host followed by the stored path. */
  function ReceiptUrl(env: Env, path: string): (r: string)
    ensures |r| >= 8 && r[..8] == "https://"
    ensures |r| == |ReceiptPrefix(env)| + |path|
    ensures r[..|ReceiptPrefix(env)|] == ReceiptPrefix(env)
    ensures r[|ReceiptPrefix(env)|..] == path
  {
    ReceiptPrefix(env) + path
  }

  /**
   * The Receipt files list: empty unless the receipt path is truthy, else the
   * single external file named "Receipt" linking to it.
   */
  function ReceiptFiles(e: NotionExpense, env: Env): (r: seq<ExternalFile>)
    ensures r == [] <==> !Truthy(e.receiptUrl)
    ensures |r| <= 1
    ensures forall f :: f in r ==>
      && f.name == "Receipt" && f.kind == "external"
      && f.url == ReceiptUrl(env, e.receiptUrl.value)
  {
    if Truthy(e.receiptUrl) then [ExternalFile("Receipt", "external", ReceiptUrl(env, e.receiptUrl.value))] else []
  }

  /**
   * The request `addExpenseToNotion` sends for an expense; `number` stands
   * for `parseFloat`, which gives the Amount number.
   */
  function BuildPage<N>(e: NotionExpense, env: Env, number: string -> N): (r: PageRequest<N>)
    ensures r.databaseId == env.databaseId
    ensures r.properties.user == e.user
    ensures r.properties.category == e.category
    ensures r.properties.subCategory == e.subCategory
    ensures r.properties.dateStart == e.date
    ensures r.properties.amount == number(e.amount)
    ensures r.properties.description == (if Truthy(e.description) then e.description.value else "")
    ensures r.properties.notes == (if Truthy(e.notes) then e.notes.value else "")
    ensures r.properties.receipt == ReceiptFiles(e, env)
  {
    var props := Properties(
      e.user, e.category, e.subCategory,
      OrEmpty(e.description),
      number(e.amount),
      e.date,
      ReceiptFiles(e, env),
      OrEmpty(e.notes));
    PageRequest(env.databaseId, props)
  }

  /**
   * `addExpenseToNotion`, with the Notion client as a parameter: the client's
   * response when it creates the page; any failure it reports becomes the
   * single error with the fixed message, whatever its reason.
   */
  function AddExpenseToNotion<N>(e: NotionExpense, env: Env, number: string -> N, create: PageRequest<N> -> CreateResult): (r: Result<string, string>)
    ensures r.Ok? <==> create(BuildPage(e, env, number)).PageCreated?
    ensures r.Ok? ==> r.value == create(BuildPage(e, env, number)).response
    ensures r.Err? ==> r.error == NotionFailure
  {
    match create(BuildPage(e, env, number))
    case PageCreated(response) => Ok(response)
    case ApiError(_) => Err(NotionFailure)
  }

  /** Two failures with different reasons are reported identically. */
  lemma FailuresIndistinguishable<N>(e1: NotionExpense, e2: NotionExpense, env: Env, number: string -> N,
                                     c1: PageRequest<N> -> CreateResult, c2: PageRequest<N> -> CreateResult)
    requires c1(BuildPage(e1, env, number)).ApiError? && c2(BuildPage(e2, env, number)).ApiError?
    ensures AddExpenseToNotion(e1, env, number, c1) == AddExpenseToNotion(e2, env, number, c2) == Err(NotionFailure)
  {
  }

  /** A page's text: the empty string stands for a missing value. */
  function FromText(s: string): (r: Option<string>)
    ensures Truthy(r) <==> s != ""
    ensures OrEmpty(r) == s
  {
    if s == "" then None else Some(s)
  }

  /** The expense apart from how its amount is written, which the page does not keep. */
  function ApartFromAmount(e: NotionExpense): (r: NotionExpense)
    ensures r.amount == ""
    ensures r.(amount := e.amount) == e
  {
    e.(amount := "")
  }

  /**
   * What can be recovered from a page, given the environment the receipt
   * link was built with: the expense apart from its amount text, and the
   * Amount number.
   */
  function ReadBack<N>(p: Properties<N>, env: Env): (NotionExpense, N) {
    var prefix := |ReceiptPrefix(env)|;
    (NotionExpense(
       p.user, p.category, p.subCategory,
       FromText(p.description),
       "",
       p.dateStart,
       if p.receipt == [] || |p.receipt[0].url| < prefix then None else FromText(p.receipt[0].url[prefix..]),
       FromText(p.notes)),
     p.amount)
  }

  /** The expense with null, absent and empty optional text all written as absent. */
  function Canonical(e: NotionExpense): (r: NotionExpense)
    ensures Truthy(r.description) == Truthy(e.description) && OrEmpty(r.description) == OrEmpty(e.description)
    ensures Truthy(r.receiptUrl) == Truthy(e.receiptUrl) && OrEmpty(r.receiptUrl) == OrEmpty(e.receiptUrl)
    ensures Truthy(r.notes) == Truthy(e.notes) && OrEmpty(r.notes) == OrEmpty(e.notes)
    ensures r.description != Some("") && r.receiptUrl != Some("") && r.notes != Some("")
  {
    e.(description := FromText(OrEmpty(e.description)),
       receiptUrl := FromText(OrEmpty(e.receiptUrl)),
       notes := FromText(OrEmpty(e.notes)))
  }

  /**
   * The page keeps the expense up to two losses: the difference between
   * null, absent and empty optional text, and how the amount is written
   * beyond the number it denotes. Reading it back gives the canonical
   * expense apart from its amount, and the Amount number.
   */
  lemma ReadBackBuildPage<N>(e: NotionExpense, env: Env, number: string -> N)
    ensures ReadBack(BuildPage(e, env, number).properties, env) == (ApartFromAmount(Canonical(e)), number(e.amount))
  {
    var p := BuildPage(e, env, number).properties;
    if Truthy(e.receiptUrl) {
      var url := ReceiptUrl(env, e.receiptUrl.value);
      assert p.receipt == [ExternalFile("Receipt", "external", url)];
      assert url[|ReceiptPrefix(env)|..] == e.receiptUrl.value;
    }
  }

  /** Null, absent and empty optional text produce the same page. */
  lemma BuildPageIgnoresFalsyForm<N>(e: NotionExpense, env: Env, number: string -> N)
    ensures BuildPage(e, env, number) == BuildPage(Canonical(e), env, number)
  {
  }

  /**
   * Two expenses give the same page exactly when they agree in canonical
   * form apart from the amount text, and their amounts have the same number.
   */
  lemma SamePageIff<N>(e1: NotionExpense, e2: NotionExpense, env: Env, number: string -> N)
    ensures BuildPage(e1, env, number) == BuildPage(e2, env, number) <==>
      ApartFromAmount(Canonical(e1)) == ApartFromAmount(Canonical(e2)) && number(e1.amount) == number(e2.amount)
  {
    ReadBackBuildPage(e1, env, number);
    ReadBackBuildPage(e2, env, number);
    if ApartFromAmount(Canonical(e1)) == ApartFromAmount(Canonical(e2)) && number(e1.amount) == number(e2.amount) {
      BuildPageIgnoresFalsyForm(e1, env, number);
      BuildPageIgnoresFalsyForm(e2, env, number);
      assert Canonical(e2) == Canonical(e1).(amount := e2.amount);
    }
  }

  function Pow10(n: nat): (r: nat)
    ensures r > 0
  {
    if n == 0 then 1 else 10 * Pow10(n - 1)
  }

  /**
   * The number `parseFloat` reads from a text, kept exact rather than rounded
   * to a double; None for NaN. It is positive exactly for the amounts the
   * insert schema accepts.
   */
  function ExactNumber(s: string): (r: Option<real>)
    ensures r.Some? <==> ParseFloat(s).Some?
    ensures (r.Some? && r.value > 0.0) <==> AmountAccepted(s)
  {
    match ParseFloat(s)
    case None => None
    case Some(d) =>
      var q := d.mantissa as real / Pow10(d.scale) as real;
      assert q > 0.0 <==> d.mantissa > 0 by {
        var p := Pow10(d.scale) as real;
        assert q * p == d.mantissa as real;
      }
      Some(q)
  }

  /** "45", "45.00", " 45" and "45abc" all denote the number 45. */
  lemma FortyFive(s: string)
    requires s == "45" || s == "45.00" || s == " 45" || s == "45abc"
    ensures ParseFloat(s) == Some(Decimal(45, 0)) || ParseFloat(s) == Some(Decimal(4500, 2))
    ensures ExactNumber(s) == Some(45.0)
  {
    assert DigitsValue("45") == 45 by {
      assert "45"[..1] == "4";
      assert "4"[..0] == "";
    }
    if s == "45" {
      assert "45" + [] == "45";
      UnsignedIntegerParsed("45", []);
    } else if s == "45abc" {
      assert "45" + "abc" == "45abc";
      UnsignedIntegerParsed("45", "abc");
    } else if s == " 45" {
      assert "45" + [] == "45";
      UnsignedIntegerParsed("45", []);
      assert " " + "45" == " 45";
      LeadingSpaceIgnored(" ", "45");
    } else {
      assert DigitsValue("4500") == 4500 by {
        assert "4500"[..3] == "450";
        assert "450"[..2] == "45";
      }
      assert "45" + "." + "00" == "45.00";
      assert "45" + "00" == "4500";
      UnsignedDecimalParsed("45", "00");
      assert Pow10(2) == 100;
    }
  }

  /** Expenses differing only in how the amount 45 is written produce the same page. */
  lemma AmountSpellingsCollide(e: NotionExpense, env: Env, s: string)
    requires s == "45.00" || s == " 45" || s == "45abc"
    ensures BuildPage(e.(amount := "45"), env, ExactNumber) == BuildPage(e.(amount := s), env, ExactNumber)
  {
    FortyFive("45");
    FortyFive(s);
    SamePageIff(e.(amount := "45"), e.(amount := s), env, ExactNumber);
  }
}
