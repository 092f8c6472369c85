/** The expense record, the table of records keyed by id, and the pure parts
    of the operations on it: the blank-keeps-current merge of an update, the
    point lookup by id, and what a listing of the whole table is. */
module Expenses {
  import opened Parse

  /** One row of the `expenses` table without its id (expense_tracker.py:21-29).
      The amount is the REAL column, modelled exactly (no floating-point rounding). */
  datatype Expense = Expense(date: string, category: string, amount: real, description: string)

  /** The table: each id that has a row maps to that row's other columns. */
  type Table = map<int, Expense>

  /** A row as `SELECT *` returns it: the id with the other columns. */
  datatype Row = Row(id: int, expense: Expense)

  /** Python's `answer or current` on strings: the empty answer is false, so
      the current value is kept; any other answer, even all spaces, replaces it. */
  function OrKeep(answer: string, current: string): string {
    if answer == "" then current else answer
  }

  /** The new row of an update (expense_tracker.py:104-115): each blank answer
      keeps the stored value, each other answer replaces it, and a non-blank
      amount answer is converted with `float`, which fails before anything is
      written. A kept amount is already a number and is never re-parsed. */
  function Merge(current: Expense, date: string, category: string, amount: string, description: string)
    : (r: Option<Expense>)
    ensures r.None? <==> amount != "" && ParseAmount(amount).None?
    ensures r.Some? ==> r.value.date == OrKeep(date, current.date)
    ensures r.Some? ==> r.value.category == OrKeep(category, current.category)
    ensures r.Some? ==> r.value.description == OrKeep(description, current.description)
    ensures r.Some? && amount == "" ==> r.value.amount == current.amount
    ensures r.Some? && amount != "" ==> Some(r.value.amount) == ParseAmount(amount)
    ensures date == category == amount == description == "" ==> r == Some(current)
  {
    var newAmount := if amount == "" then Some(current.amount) else ParseAmount(amount);
    match newAmount
    case None => None
    case Some(a) =>
      Some(Expense(OrKeep(date, current.date), OrKeep(category, current.category), a,
                   OrKeep(description, current.description)))
  }

  /** `SELECT * FROM expenses WHERE id = ?` with the typed id text
      (expense_tracker.py:96-97): the row whose id the text denotes, if any. */
  function FindById(t: Table, idText: string): (r: Option<Row>)
    ensures r.Some? <==> ParseInteger(idText).Some? && ParseInteger(idText).value in t
    ensures r.Some? ==> r.value.id == ParseInteger(idText).value && r.value.expense == t[r.value.id]
  {
    match ParseInteger(idText)
    case None => None
    case Some(id) => if id in t then Some(Row(id, t[id])) else None
  }

  /** Typing the id the listing shows finds that row. */
  lemma FindListedId(t: Table, id: int)
    requires id in t
    ensures FindById(t, IntText(id)) == Some(Row(id, t[id]))
  {
  }

  predicate DistinctIds(rs: seq<Row>) {
    forall i, j :: 0 <= i < j < |rs| ==> rs[i].id != rs[j].id
  }

  /** `rs` is what `SELECT * FROM expenses` may return for table `t`: every row
      of the table exactly once, in an order SQL leaves unspecified. */
  ghost predicate IsListing(rs: seq<Row>, t: Table) {
    && (forall i :: 0 <= i < |rs| ==> rs[i].id in t && t[rs[i].id] == rs[i].expense)
    && (forall id :: id in t ==> exists i :: 0 <= i < |rs| && rs[i].id == id)
    && DistinctIds(rs)
  }

  /** A listing has exactly as many rows as the table; in particular it is
      empty exactly when the table is (the "No expenses recorded yet." case). */
  lemma {:induction false} ListingSize(rs: seq<Row>, t: Table)
    requires IsListing(rs, t)
    ensures |rs| == |t|
    ensures rs == [] <==> t == map[]
  {
    if rs == [] {
      assert forall id :: id !in t;
      assert t.Keys == {};
    } else {
      var n := |rs| - 1;
      var last := rs[n];
      var front := rs[..n];
      var rest := t - {last.id};
      forall id | id in rest
        ensures exists i :: 0 <= i < |front| && front[i].id == id
      {
        var i :| 0 <= i < |rs| && rs[i].id == id;
        assert i != n;
        assert front[i].id == id;
      }
      assert IsListing(front, rest);
      ListingSize(front, rest);
      assert rest.Keys == t.Keys - {last.id};
    }
  }

  /** In a sequence of distinct ids every row occurs at most once. */
  lemma {:induction false} DistinctOccurrences(rs: seq<Row>, r: Row)
    requires DistinctIds(rs)
    ensures multiset(rs)[r] == if r in rs then 1 else 0
  {
    if rs != [] {
      var n := |rs| - 1;
      var front := rs[..n];
      assert rs == front + [rs[n]];
      DistinctOccurrences(front, r);
      if r == rs[n] {
        assert r !in front by {
          forall i | 0 <= i < n ensures front[i] != r {
            assert rs[i].id != rs[n].id;
          }
        }
      }
    }
  }

  /** Any two listings of the same table hold the same rows: they differ at
      most in order. */
  lemma ListingsArePermutations(a: seq<Row>, b: seq<Row>, t: Table)
    requires IsListing(a, t) && IsListing(b, t)
    ensures multiset(a) == multiset(b)
  {
    forall r: Row ensures multiset(a)[r] == multiset(b)[r] {
      DistinctOccurrences(a, r);
      DistinctOccurrences(b, r);
      ListedIn(a, b, t, r);
      ListedIn(b, a, t, r);
    }
  }

  /** A row one listing shows, every listing of the same table shows. */
  lemma ListedIn(a: seq<Row>, b: seq<Row>, t: Table, r: Row)
    requires IsListing(a, t) && IsListing(b, t)
    ensures r in a ==> r in b
  {
  }
}
