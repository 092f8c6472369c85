/** The category summary (expense_tracker.py:153-157): the query that groups
    the rows by category and reports COUNT(*) and SUM(amount) of each group,
    computed in one pass over the rows the query scans, the way a grouping
    aggregate accumulates, and related to an independent per-category
    definition (filter the rows, count them, add their amounts). */
module Aggregate {
  import opened Expenses

  /** COUNT(*) and SUM(amount) of one category. */
  datatype Group = Group(count: nat, total: real)

  function Plus(g: Group, h: Group): Group {
    Group(g.count + h.count, g.total + h.total)
  }

  /** The categories occurring among the rows. */
  function Categories(rs: seq<Row>): set<string> {
    set i | 0 <= i < |rs| :: rs[i].expense.category
  }

  /** The rows of one category, in scan order (the WHERE of the reference
      definition). */
  function Matching(rs: seq<Row>, c: string): (m: seq<Row>)
    ensures |m| <= |rs|
  {
    if rs == [] then []
    else
      var n := |rs| - 1;
      Matching(rs[..n], c) + (if rs[n].expense.category == c then [rs[n]] else [])
  }

  /** The filtered rows are exactly the rows of the category. */
  lemma {:induction false} MatchingMember(rs: seq<Row>, c: string, r: Row)
    ensures r in Matching(rs, c) <==> r in rs && r.expense.category == c
  {
    if rs != [] {
      var n := |rs| - 1;
      assert rs == rs[..n] + [rs[n]];
      MatchingMember(rs[..n], c, r);
    }
  }

  /** The sum of the amounts of the rows. */
  function Total(rs: seq<Row>): real {
    if rs == [] then 0.0 else Total(rs[..|rs| - 1]) + rs[|rs| - 1].expense.amount
  }

  /** Accumulate one row into its category's group. */
  function Tally(s: map<string, Group>, e: Expense): map<string, Group> {
    var c := e.category;
    if c in s then s[c := Group(s[c].count + 1, s[c].total + e.amount)]
    else s[c := Group(1, e.amount)]
  }

  /** The summary of the scanned rows: one group per category that occurs. */
  function Summarize(rs: seq<Row>): (s: map<string, Group>)
    ensures s.Keys == Categories(rs)
    ensures s == map[] <==> rs == []
  {
    if rs == [] then map[]
    else
      var n := |rs| - 1;
      CategoriesLast(rs);
      Tally(Summarize(rs[..n]), rs[n].expense)
  }

  /** Scanning one more row adds its category to those seen. */
  lemma CategoriesLast(rs: seq<Row>)
    requires rs != []
    ensures Categories(rs) == Categories(rs[..|rs| - 1]) + {rs[|rs| - 1].expense.category}
  {
  }

  /** Each group holds exactly the COUNT(*) and SUM(amount) of the rows of its
      category, and a category has a group exactly when some row has it. */
  lemma {:induction false} SummarizeIsGroupBy(rs: seq<Row>, c: string)
    ensures c in Summarize(rs) <==> Matching(rs, c) != []
    ensures c in Summarize(rs) ==> Summarize(rs)[c] == Group(|Matching(rs, c)|, Total(Matching(rs, c)))
  {
    if rs != [] {
      var n := |rs| - 1;
      var front, e := rs[..n], rs[n].expense;
      SummarizeIsGroupBy(front, c);
      var m := Matching(front, c);
      var s := Summarize(front);
      assert Summarize(rs) == Tally(s, e);
      if e.category == c {
        assert (m + [rs[n]])[..|m|] == m;
        assert Total(m + [rs[n]]) == Total(m) + e.amount;
        if c in s {
          assert Tally(s, e)[c] == Group(s[c].count + 1, s[c].total + e.amount);
        } else {
          assert Tally(s, e)[c] == Group(1, e.amount);
        }
      } else {
        assert Matching(rs, c) == m;
        assert c in Tally(s, e) ==> Tally(s, e)[c] == s[c];
      }
    }
  }

  /** Some category of a non-empty summary. */
  ghost function AnyCategory(s: map<string, Group>): (c: string)
    requires s != map[]
    ensures c in s
  {
    var c :| c in s; c
  }

  /** COUNT(*) and SUM(amount) added over all groups. */
  ghost function GroupSum(s: map<string, Group>): Group
    decreases |s|
  {
    if s == map[] then Group(0, 0.0)
    else
      var c := AnyCategory(s);
      Plus(s[c], GroupSum(s - {c}))
  }

  /** GroupSum may take out any group first. */
  lemma {:induction false} GroupSumRemove(s: map<string, Group>, c: string)
    requires c in s
    ensures GroupSum(s) == Plus(s[c], GroupSum(s - {c}))
    decreases |s|
  {
    var d := AnyCategory(s);
    if d != c {
      GroupSumRemove(s - {d}, c);
      GroupSumRemove(s - {c}, d);
      assert s - {d} - {c} == s - {c} - {d};
    }
  }

  /** The counts of the summary add up to the number of rows and its totals
      to the sum of all amounts. */
  lemma {:induction false} SummaryAddsUp(rs: seq<Row>)
    ensures GroupSum(Summarize(rs)) == Group(|rs|, Total(rs))
  {
    if rs != [] {
      var n := |rs| - 1;
      var front, e := rs[..n], rs[n].expense;
      var s := Summarize(front);
      SummaryAddsUp(front);
      var s' := Tally(s, e);
      assert Summarize(rs) == s';
      GroupSumRemove(s', e.category);
      if e.category in s {
        GroupSumRemove(s, e.category);
        assert s' - {e.category} == s - {e.category};
      } else {
        assert s' - {e.category} == s;
      }
    }
  }

  lemma {:induction false} TotalAppend(u: seq<Row>, v: seq<Row>)
    ensures Total(u + v) == Total(u) + Total(v)
  {
    if v == [] {
      assert u + v == u;
    } else {
      var n := |v| - 1;
      TotalAppend(u, v[..n]);
      assert (u + v)[..|u + v| - 1] == u + v[..n];
    }
  }

  /** SUM does not depend on the order of the rows. */
  lemma {:induction false} TotalPermutation(a: seq<Row>, b: seq<Row>)
    requires multiset(a) == multiset(b)
    ensures Total(a) == Total(b)
    decreases |a|
  {
    if a == [] {
      assert |multiset(b)| == 0;
    } else {
      var n := |a| - 1;
      var x := a[n];
      assert a == a[..n] + [x];
      assert x in multiset(b);
      var j :| 0 <= j < |b| && b[j] == x;
      var b1, b2 := b[..j], b[j + 1..];
      var b' := b1 + b2;
      assert b == b1 + [x] + b2;
      assert multiset(b) == multiset(b1) + multiset{x} + multiset(b2);
      assert multiset(a) == multiset(a[..n]) + multiset{x};
      assert multiset(b') == multiset(b1) + multiset(b2);
      assert multiset(a[..n]) == multiset(a) - multiset{x};
      assert multiset(b') == multiset(b) - multiset{x};
      TotalPermutation(a[..n], b');
      TotalAppend(b1 + [x], b2);
      TotalAppend(b1, [x]);
      TotalAppend(b1, b2);
      assert [x][..0] == [];
      assert Total([x]) == x.expense.amount;
      assert Total(a) == Total(a[..n]) + x.expense.amount;
    }
  }

  /** Filtering keeps every row of the category as often as it occurs. */
  lemma {:induction false} MatchingOccurrences(rs: seq<Row>, c: string, r: Row)
    ensures multiset(Matching(rs, c))[r] == if r.expense.category == c then multiset(rs)[r] else 0
  {
    if rs != [] {
      var n := |rs| - 1;
      assert rs == rs[..n] + [rs[n]];
      MatchingOccurrences(rs[..n], c, r);
    }
  }

  /** The summary does not depend on the order in which the rows are scanned. */
  lemma SummaryOrderIrrelevant(a: seq<Row>, b: seq<Row>)
    requires multiset(a) == multiset(b)
    ensures Summarize(a) == Summarize(b)
  {
    forall c ensures (c in Summarize(a) <==> c in Summarize(b))
      && (c in Summarize(a) ==> Summarize(a)[c] == Summarize(b)[c])
    {
      var ma, mb := Matching(a, c), Matching(b, c);
      forall r ensures multiset(ma)[r] == multiset(mb)[r] {
        MatchingOccurrences(a, c, r);
        MatchingOccurrences(b, c, r);
      }
      assert multiset(ma) == multiset(mb);
      assert |ma| == |multiset(ma)| == |multiset(mb)| == |mb|;
      TotalPermutation(ma, mb);
      SummarizeIsGroupBy(a, c);
      SummarizeIsGroupBy(b, c);
    }
  }

  /** The rows of category c of table t: the table restricted to c. */
  function Only(t: Table, c: string): Table {
    map id | id in t && t[id].category == c :: t[id]
  }

  lemma {:induction false} MatchingDistinct(rs: seq<Row>, c: string)
    requires DistinctIds(rs)
    ensures DistinctIds(Matching(rs, c))
  {
    if rs != [] {
      var n := |rs| - 1;
      var front, last := rs[..n], rs[n];
      MatchingDistinct(front, c);
      var m := Matching(front, c);
      if last.expense.category == c {
        forall i | 0 <= i < |m| ensures m[i].id != last.id {
          MatchingMember(front, c, m[i]);
          var k :| 0 <= k < n && front[k] == m[i];
          assert rs[k].id != rs[n].id;
        }
      }
    }
  }

  /** Filtering a listing of the table by category lists the rows of that
      category. */
  lemma MatchingIsListing(rs: seq<Row>, t: Table, c: string)
    requires IsListing(rs, t)
    ensures IsListing(Matching(rs, c), Only(t, c))
  {
    var m := Matching(rs, c);
    var u := Only(t, c);
    MatchingDistinct(rs, c);
    forall i | 0 <= i < |m| ensures m[i].id in u && u[m[i].id] == m[i].expense {
      MatchingMember(rs, c, m[i]);
    }
    forall id | id in u ensures exists j :: 0 <= j < |m| && m[j].id == id {
      var i :| 0 <= i < |rs| && rs[i].id == id;
      MatchingMember(rs, c, rs[i]);
      var j :| 0 <= j < |m| && m[j] == rs[i];
    }
  }

  /** On a listing of the table, the count of each group is the number of
      rows of the table with that category. */
  lemma CountIsCategorySize(rs: seq<Row>, t: Table, c: string)
    requires IsListing(rs, t)
    ensures c in Summarize(rs) ==> Summarize(rs)[c].count == |Only(t, c)|
    ensures c in Summarize(rs) <==> Only(t, c) != map[]
  {
    SummarizeIsGroupBy(rs, c);
    MatchingIsListing(rs, t, c);
    ListingSize(Matching(rs, c), Only(t, c));
  }

  /** Two Food rows and one Fuel row give one group per category. */
  lemma SummaryExample()
    ensures Summarize([Row(1, Expense("2024-01-01", "Food", 10.0, "")),
                       Row(2, Expense("2024-01-02", "Food", 5.0, "")),
                       Row(3, Expense("2024-01-03", "Fuel", 20.0, ""))])
            == map["Food" := Group(2, 15.0), "Fuel" := Group(1, 20.0)]
  {
  }
}
