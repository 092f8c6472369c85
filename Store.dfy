/** The `expenses` table as the program changes it: one object holding the rows
    by id and the AUTOINCREMENT counter, with the five repository operations
    (expense_tracker.py:37-172) as methods. Each SQL statement is atomic and
    committed at once, so the object's state is the committed database. */
module Store {
  import opened Parse
  import opened Expenses
  import opened Aggregate

  /** The largest rowid SQLite can hand out (2^63 - 1). With AUTOINCREMENT,
      once it has been used every later INSERT fails with SQLITE_FULL. */
  const MaxRowId: int := 0x7FFF_FFFF_FFFF_FFFF

  /** Why an operation did not happen. NotANumber is the ValueError `float`
      raises; DatabaseFull is SQLITE_FULL; NoSuchExpense is "Expense not found." */
  datatype Failure = NotANumber | NoSuchExpense | DatabaseFull

  datatype Outcome<+T> = Success(value: T) | Fail(failure: Failure)

  /** A set of ids that is not empty has a member to pick. */
  lemma HasMember(ids: set<int>)
    ensures ids == {} || exists k :: k in ids
  {
    if forall k :: k !in ids {
      assert ids == {};
    }
  }

  class ExpenseStore {
    /** The rows of the table, by id. */
    var rows: Table
    /** One more than the largest id ever assigned: SQLite keeps that largest
        id in `sqlite_sequence` and never lowers it, not even when the row
        holding it is deleted. */
    var nextId: int

    /** Every row has an id the counter has already passed, so the next id is
        fresh; the counter stays within SQLite's rowid range. */
    ghost predicate Valid()
      reads this
    {
      && 1 <= nextId <= MaxRowId + 1
      && forall id :: id in rows ==> 1 <= id < nextId
    }

    /** `CREATE TABLE IF NOT EXISTS expenses (...)` on a new database file
        (expense_tracker.py:15-30): no rows, and the first id will be 1. */
    constructor ()
      ensures Valid()
      ensures rows == map[] && nextId == 1
    {
      rows := map[];
      nextId := 1;
    }

    /** add_expense (expense_tracker.py:37-55). The amount is converted before
        the INSERT runs, so a bad amount changes nothing; otherwise the new row
        gets the next id, larger than every id ever assigned. */
    method Add(date: string, category: string, amount: string, description: string)
      returns (r: Outcome<int>)
      requires Valid()
      modifies this
      ensures Valid()
      ensures ParseAmount(amount).None? ==>
        r == Fail(NotANumber) && rows == old(rows) && nextId == old(nextId)
      ensures ParseAmount(amount).Some? && old(nextId) > MaxRowId ==>
        r == Fail(DatabaseFull) && rows == old(rows) && nextId == old(nextId)
      ensures ParseAmount(amount).Some? && old(nextId) <= MaxRowId ==>
        && r == Success(old(nextId))
        && rows == old(rows)[r.value := Expense(date, category, ParseAmount(amount).value, description)]
        && nextId == old(nextId) + 1
      ensures r.Success? ==> r.value !in old(rows) && forall id :: id in old(rows) ==> id < r.value
      ensures r.Success? ==> |rows| == |old(rows)| + 1
      ensures r.Success? ==>
        FindById(rows, IntText(r.value)) == Some(Row(r.value, Expense(date, category, ParseAmount(amount).value, description)))
    {
      var parsed := ParseAmount(amount);
      if parsed.None? {
        return Fail(NotANumber);
      }
      if nextId > MaxRowId {
        return Fail(DatabaseFull);
      }
      r := Success(nextId);
      rows := rows[nextId := Expense(date, category, parsed.value, description)];
      nextId := nextId + 1;
      FindListedId(rows, r.value);
    }

    /** `SELECT * FROM expenses` and `fetchall()` (expense_tracker.py:65-66):
        every row once, in whatever order the scan visits them. */
    method ListAll() returns (rs: seq<Row>)
      ensures IsListing(rs, rows)
      ensures |rs| == |rows|
      ensures rs == [] <==> rows == map[]
    {
      rs := [];
      var pending := rows.Keys;
      while pending != {}
        invariant pending <= rows.Keys
        invariant forall i :: 0 <= i < |rs| ==>
          rs[i].id in rows && rows[rs[i].id] == rs[i].expense && rs[i].id !in pending
        invariant forall id :: id in rows ==> id in pending || exists i :: 0 <= i < |rs| && rs[i].id == id
        invariant DistinctIds(rs)
        decreases pending
      {
        HasMember(pending);
        var id :| id in pending;
        ghost var before := rs;
        rs := rs + [Row(id, rows[id])];
        pending := pending - {id};
        assert rs[|before|].id == id;
        forall k | k in rows && k !in pending ensures exists i :: 0 <= i < |rs| && rs[i].id == k {
          if k != id {
            var i :| 0 <= i < |before| && before[i].id == k;
            assert rs[i].id == k;
          }
        }
      }
      ListingSize(rs, rows);
    }

    /** update_expense (expense_tracker.py:87-118). An id text that denotes no
        row reports not-found; otherwise the row is merged with the answers
        (blank keeps the stored value). A non-blank amount that is not a number
        fails before the UPDATE runs. Only the matching row changes, and never
        its id. */
    method Update(idText: string, date: string, category: string, amount: string, description: string)
      returns (r: Outcome<Expense>)
      requires Valid()
      modifies this
      ensures Valid()
      ensures nextId == old(nextId)
      ensures FindById(old(rows), idText).None? ==> r == Fail(NoSuchExpense) && rows == old(rows)
      ensures FindById(old(rows), idText).Some? ==>
        var found := FindById(old(rows), idText).value;
        match Merge(found.expense, date, category, amount, description)
        case None => r == Fail(NotANumber) && rows == old(rows)
        case Some(e) => r == Success(e) && rows == old(rows)[found.id := e]
      ensures rows.Keys == old(rows).Keys
      ensures forall id :: id in old(rows) && Some(id) != ParseInteger(idText) ==> rows[id] == old(rows)[id]
    {
      var found := FindById(rows, idText);
      if found.None? {
        return Fail(NoSuchExpense);
      }
      var merged := Merge(found.value.expense, date, category, amount, description);
      if merged.None? {
        return Fail(NotANumber);
      }
      rows := rows[found.value.id := merged.value];
      r := Success(merged.value);
    }

    /** delete_expense (expense_tracker.py:125-141): `DELETE ... WHERE id = ?`
        removes the row the id text denotes, if there is one, and nothing
        else; `rowcount == 0` is the not-found report. The counter is kept,
        so a deleted id is never handed out again. */
    method Delete(idText: string) returns (deleted: bool)
      requires Valid()
      modifies this
      ensures Valid()
      ensures nextId == old(nextId)
      ensures deleted <==> FindById(old(rows), idText).Some?
      ensures deleted ==> rows == old(rows) - {FindById(old(rows), idText).value.id}
      ensures !deleted ==> rows == old(rows)
      ensures |rows| == if deleted then |old(rows)| - 1 else |old(rows)|
    {
      var found := FindById(rows, idText);
      deleted := found.Some?;
      if deleted {
        rows := rows - {found.value.id};
      }
    }

    /** view_summary's query (expense_tracker.py:153-158): one group per
        category present, whose count is the number of rows of that category
        and whose total is the SUM of their amounts over any scan order; the
        counts add up to the number of rows and the totals to the sum of all
        amounts. */
    method Summary() returns (s: map<string, Group>)
      ensures exists rs :: IsListing(rs, rows)
      ensures forall rs :: IsListing(rs, rows) ==> s == Summarize(rs)
      ensures s == map[] <==> rows == map[]
      ensures forall c :: c in s <==> Only(rows, c) != map[]
      ensures forall c :: c in s ==> s[c].count == |Only(rows, c)|
      ensures GroupSum(s).count == |rows|
      ensures forall rs :: IsListing(rs, rows) ==> GroupSum(s).total == Total(rs)
    {
      var scanned := ListAll();
      s := Summarize(scanned);
      forall rs | IsListing(rs, rows) ensures s == Summarize(rs) {
        ListingsArePermutations(scanned, rs, rows);
        SummaryOrderIrrelevant(scanned, rs);
      }
      forall c ensures (c in s <==> Only(rows, c) != map[]) && (c in s ==> s[c].count == |Only(rows, c)|) {
        CountIsCategorySize(scanned, rows, c);
      }
      SummaryAddsUp(scanned);
      forall rs | IsListing(rs, rows) ensures GroupSum(s).total == Total(rs) {
        ListingsArePermutations(scanned, rs, rows);
        TotalPermutation(scanned, rs);
      }
    }
  }
}
