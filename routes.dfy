/** The server's expense endpoints over the primary store. */
module Routes {
  import opened Wrappers
  import opened Schema
  import opened Storage

  /** The JSON the handlers send back. */
  datatype ResponseBody =
    | ErrorJson(error: string)
    | ExpenseJson(expense: Expense)
    | ExpenseListJson(expenses: seq<Expense>)

  datatype Response = Response(status: int, body: ResponseBody)

  /** The error message of a rejected POST. */
  const InvalidExpenseData: string := "Invalid expense data"

  /**
   * POST /api/expenses: a body that fails the insert schema gets 400 with
   * the fixed error and the store is not touched; a valid one is stored
   * exactly once and the created record, new id included, is the reply.
   */
  method PostExpenses(store: MemStorage, body: Body, now: Date) returns (res: Response)
    requires store.Valid()
    modifies store
    ensures store.Valid()
    ensures ParseInsert(body).Err? ==>
      && res == Response(400, ErrorJson(InvalidExpenseData))
      && store.expenses == old(store.expenses) && store.currentId == old(store.currentId)
    ensures ParseInsert(body).Ok? ==>
      var created := Expense(old(store.currentId), ParseInsert(body).value, now);
      && res == Response(200, ExpenseJson(created))
      && store.currentId == old(store.currentId) + 1
      && store.Contents() == old(store.Contents()) + [created]
  {
    var parsed := ParseInsert(body);
    match parsed
    case Err(_) =>
      res := Response(400, ErrorJson(InvalidExpenseData));
    case Ok(expense) =>
      var created := store.CreateExpense(expense, now);
      res := Response(200, ExpenseJson(created));
  }

  /** GET /api/expenses: the store's list as it stands; nothing changes. */
  method GetExpenses(store: MemStorage) returns (res: Response)
    requires store.Valid()
    ensures res.status == 200 && res.body.ExpenseListJson?
    ensures res.body.expenses == store.Contents()
    ensures forall i, j :: 0 <= i < j < |res.body.expenses| ==> res.body.expenses[i].id < res.body.expenses[j].id
  {
    var expenses := store.GetExpenses();
    res := Response(200, ExpenseListJson(expenses));
  }

  /**
   * A valid POST followed by a GET: the listing is the earlier listing with
   * the created record appended, field for field as the POST answered it.
   */
  method PostThenGet(store: MemStorage, body: Body, now: Date) returns (posted: Response, listed: Response)
    requires store.Valid()
    requires ParseInsert(body).Ok?
    modifies store
    ensures posted.body.ExpenseJson? && listed.body.ExpenseListJson?
    ensures listed.body.expenses == old(store.Contents()) + [posted.body.expense]
    ensures posted.body.expense.fields == ParseInsert(body).value
  {
    posted := PostExpenses(store, body, now);
    listed := GetExpenses(store);
  }
}
