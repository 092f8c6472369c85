/** The interactive shell (expense_tracker.py:179-220): read a choice, run the
    matching operation on the table, and loop until the user picks "6". The
    answers the user types at an operation's prompts are given up front with
    the choice; what the program prints becomes a Reply. */
module Menu {
  import opened Parse
  import opened Expenses
  import opened Aggregate
  import opened Store

  datatype Command = AddExpense | ViewExpenses | UpdateExpense | DeleteExpense | ViewSummary | Exit

  /** The menu number of each command (expense_tracker.py:190-195). */
  function MenuKey(c: Command): string {
    match c
    case AddExpense => "1"
    case ViewExpenses => "2"
    case UpdateExpense => "3"
    case DeleteExpense => "4"
    case ViewSummary => "5"
    case Exit => "6"
  }

  /** The `if choice == "1": ... elif ...` chain (expense_tracker.py:202-217):
      a choice selects the command whose number it is exactly, and any other
      text selects none. */
  function ParseChoice(choice: string): (r: Option<Command>)
    ensures r.Some? ==> MenuKey(r.value) == choice
    ensures r.None? <==> forall c :: MenuKey(c) != choice
  {
    if choice == "1" then Some(AddExpense)
    else if choice == "2" then Some(ViewExpenses)
    else if choice == "3" then Some(UpdateExpense)
    else if choice == "4" then Some(DeleteExpense)
    else if choice == "5" then Some(ViewSummary)
    else if choice == "6" then Some(Exit)
    else None
  }

  /** Running: showing the menu. Terminated: left through "6". Crashed: the
      process ended on an uncaught exception (ValueError from `float`, or the
      database's error when no id is left). */
  datatype Shell = Running | Terminated | Crashed

  /** What the user types at the prompts of one operation; each operation
      reads only the answers it prompts for. */
  datatype Answers = Answers(id: string, date: string, category: string, amount: string, description: string)

  /** What the program reports after one choice. */
  datatype Reply =
    | ExpenseAdded
    | NoExpensesYet
    | ExpenseList(listing: seq<Row>)
    | ExpenseUpdated
    | ExpenseDeleted
    | ExpenseNotFound
    | NoSummaryData
    | CategorySummary(groups: map<string, Group>)
    | Goodbye
    | InvalidSelection
    | Aborted(failure: Failure)

  /** Whether the menu is shown again after this reply. */
  predicate Continues(reply: Reply) {
    reply != Goodbye && !reply.Aborted?
  }

  /** The shell after a reply: Goodbye ends the loop, an uncaught exception
      ends the process, every other reply shows the menu again. */
  function ShellAfter(reply: Reply): Shell {
    if reply == Goodbye then Terminated else if reply.Aborted? then Crashed else Running
  }

  /** What one menu round does (expense_tracker.py:202-217), as a relation
      between the table and counter before (`t`, `n`), the choice and the
      answers, the table and counter after (`t'`, `n'`) and the reply. Each
      command is the function it calls: add_expense (:37-55), view_expenses
      (:62-80), update_expense (:87-118), delete_expense (:125-141) and
      view_summary (:148-172). */
  ghost predicate StepSpec(t: Table, n: int, choice: string, a: Answers, t': Table, n': int, reply: Reply) {
    CommandSpec(ParseChoice(choice), t, n, a, t', n', reply)
  }

  ghost predicate CommandSpec(command: Option<Command>, t: Table, n: int, a: Answers, t': Table, n': int, reply: Reply) {
    match command
    case None => reply == InvalidSelection && t' == t && n' == n
    case Some(AddExpense) => AddSpec(t, n, a, t', n', reply)
    case Some(ViewExpenses) => t' == t && n' == n && ViewSpec(t, reply)
    case Some(UpdateExpense) => n' == n && UpdateSpec(t, a, t', reply)
    case Some(DeleteExpense) => n' == n && DeleteSpec(t, a, t', reply)
    case Some(ViewSummary) => t' == t && n' == n && SummarySpec(t, reply)
    case Some(Exit) => reply == Goodbye && t' == t && n' == n
  }

  /** add_expense (expense_tracker.py:37-55). */
  ghost predicate AddSpec(t: Table, n: int, a: Answers, t': Table, n': int, reply: Reply) {
    if ParseAmount(a.amount).None? then reply == Aborted(NotANumber) && t' == t && n' == n
    else if n > MaxRowId then reply == Aborted(DatabaseFull) && t' == t && n' == n
    else
      && reply == ExpenseAdded
      && t' == t[n := Expense(a.date, a.category, ParseAmount(a.amount).value, a.description)]
      && n' == n + 1
  }

  /** view_expenses (expense_tracker.py:62-80). */
  ghost predicate ViewSpec(t: Table, reply: Reply) {
    if t == map[] then reply == NoExpensesYet else reply.ExpenseList? && IsListing(reply.listing, t)
  }

  /** update_expense (expense_tracker.py:87-118). */
  ghost predicate UpdateSpec(t: Table, a: Answers, t': Table, reply: Reply) {
    match FindById(t, a.id)
    case None => reply == ExpenseNotFound && t' == t
    case Some(found) =>
      match Merge(found.expense, a.date, a.category, a.amount, a.description)
      case None => reply == Aborted(NotANumber) && t' == t
      case Some(e) => reply == ExpenseUpdated && t' == t[found.id := e]
  }

  /** delete_expense (expense_tracker.py:125-141). */
  ghost predicate DeleteSpec(t: Table, a: Answers, t': Table, reply: Reply) {
    match FindById(t, a.id)
    case None => reply == ExpenseNotFound && t' == t
    case Some(found) => reply == ExpenseDeleted && t' == t - {found.id}
  }

  /** view_summary (expense_tracker.py:148-172). */
  ghost predicate SummarySpec(t: Table, reply: Reply) {
    if t == map[] then reply == NoSummaryData
    else reply.CategorySummary? && forall rs :: IsListing(rs, t) ==> reply.groups == Summarize(rs)
  }

  /** The choice alone decides whether a round ends the loop or is an invalid
      selection, and only adding and updating can crash (on a bad amount, or
      when no rowid is left). */
  lemma ChoiceDecidesShell(t: Table, n: int, choice: string, a: Answers, t': Table, n': int, reply: Reply)
    requires StepSpec(t, n, choice, a, t', n', reply)
    ensures ShellAfter(reply) == Terminated <==> ParseChoice(choice) == Some(Exit)
    ensures reply == InvalidSelection <==> ParseChoice(choice).None?
    ensures ShellAfter(reply) == Crashed ==> ParseChoice(choice) in {Some(AddExpense), Some(UpdateExpense)}
  {
  }

  /** A round keeps the AUTOINCREMENT invariant: every id stays below the
      counter, the counter never goes down, and a row that appears has an id
      the counter had not reached. */
  lemma StepKeepsIdsFresh(t: Table, n: int, choice: string, a: Answers, t': Table, n': int, reply: Reply)
    requires StepSpec(t, n, choice, a, t', n', reply)
    requires 1 <= n <= MaxRowId + 1 && forall id :: id in t ==> 1 <= id < n
    ensures 1 <= n' <= MaxRowId + 1 && forall id :: id in t' ==> 1 <= id < n'
    ensures n <= n' && forall id :: id in t' && id !in t ==> n <= id
  {
  }

  /** Only a reported add, update or delete changes the table or the counter:
      viewing, a summary, an invalid choice, a not-found id, "6" and a crash
      leave both as they were. */
  lemma OnlyWritesChange(t: Table, n: int, choice: string, a: Answers, t': Table, n': int, reply: Reply)
    requires StepSpec(t, n, choice, a, t', n', reply)
    ensures reply !in {ExpenseAdded, ExpenseUpdated, ExpenseDeleted} ==> t' == t && n' == n
  {
  }

  /** One pass of the `while True` body: dispatch on the choice. */
  method Step(store: ExpenseStore, choice: string, answers: Answers) returns (next: Shell, reply: Reply)
    requires store.Valid()
    modifies store
    ensures store.Valid()
    ensures StepSpec(old(store.rows), old(store.nextId), choice, answers, store.rows, store.nextId, reply)
    ensures next == ShellAfter(reply)
  {
    var command := ParseChoice(choice);
    match command
    case None =>
      next, reply := Running, InvalidSelection;
    case Some(AddExpense) =>
      var r := store.Add(answers.date, answers.category, answers.amount, answers.description);
      if r.Success? {
        next, reply := Running, ExpenseAdded;
      } else {
        next, reply := Crashed, Aborted(r.failure);
      }
    case Some(ViewExpenses) =>
      var rs := store.ListAll();
      if rs == [] {
        next, reply := Running, NoExpensesYet;
      } else {
        next, reply := Running, ExpenseList(rs);
      }
    case Some(UpdateExpense) =>
      var r := store.Update(answers.id, answers.date, answers.category, answers.amount, answers.description);
      if r.Success? {
        next, reply := Running, ExpenseUpdated;
      } else if r.failure == NoSuchExpense {
        next, reply := Running, ExpenseNotFound;
      } else {
        next, reply := Crashed, Aborted(r.failure);
      }
    case Some(DeleteExpense) =>
      var deleted := store.Delete(answers.id);
      next, reply := Running, if deleted then ExpenseDeleted else ExpenseNotFound;
    case Some(ViewSummary) =>
      var s := store.Summary();
      if s == map[] {
        next, reply := Running, NoSummaryData;
      } else {
        next, reply := Running, CategorySummary(s);
      }
    case Some(Exit) =>
      next, reply := Terminated, Goodbye;
  }

  /** `trace` and `replies` record the first |replies| rounds of `script`:
      round i takes `trace[i]` to `trace[i + 1]` with reply i, as StepSpec
      says. */
  ghost predicate Recorded(script: seq<(string, Answers)>, trace: seq<(Table, int)>, replies: seq<Reply>) {
    && |replies| <= |script| && |trace| == |replies| + 1
    && forall i {:trigger replies[i], script[i]} :: 0 <= i < |replies| ==>
         StepSpec(trace[i].0, trace[i].1, script[i].0, script[i].1, trace[i + 1].0, trace[i + 1].1, replies[i])
  }

  /** Recording one more round, from the last recorded state to `(t, n)`
      with `reply`, extends the record. */
  lemma RunExtends(script: seq<(string, Answers)>, trace: seq<(Table, int)>, replies: seq<Reply>,
                   t0: Table, n0: int, choice: string, a: Answers, t: Table, n: int, reply: Reply)
    requires Recorded(script, trace, replies) && |replies| < |script|
    requires trace[|replies|] == (t0, n0) && script[|replies|] == (choice, a)
    requires StepSpec(t0, n0, choice, a, t, n, reply)
    ensures Recorded(script, trace + [(t, n)], replies + [reply])
  {
    var trace', replies' := trace + [(t, n)], replies + [reply];
    forall i | 0 <= i < |replies'|
      ensures StepSpec(trace'[i].0, trace'[i].1, script[i].0, script[i].1, trace'[i + 1].0, trace'[i + 1].1, replies'[i])
    {
      if i < |replies| {
        assert replies'[i] == replies[i];
        assert trace'[i] == trace[i] && trace'[i + 1] == trace[i + 1];
      }
    }
  }

  /** The first m rounds of a record are a record. */
  lemma RecordedPrefix(script: seq<(string, Answers)>, trace: seq<(Table, int)>, replies: seq<Reply>, m: nat)
    requires Recorded(script, trace, replies) && m <= |replies|
    ensures Recorded(script, trace[..m + 1], replies[..m])
  {
    var front, steps := replies[..m], trace[..m + 1];
    forall i | 0 <= i < m
      ensures StepSpec(steps[i].0, steps[i].1, script[i].0, script[i].1, steps[i + 1].0, steps[i + 1].1, front[i])
    {
      assert front[i] == replies[i];
      assert steps[i] == trace[i] && steps[i + 1] == trace[i + 1];
    }
  }

  /** A run of rounds keeps the AUTOINCREMENT invariant from its first state
      to its last: the counter never goes down, and every row present at the
      end that was not there at the start has an id the counter had not
      reached. */
  lemma {:induction false} RunKeepsIdsFresh(script: seq<(string, Answers)>, trace: seq<(Table, int)>, replies: seq<Reply>)
    requires Recorded(script, trace, replies)
    requires 1 <= trace[0].1 <= MaxRowId + 1 && forall id :: id in trace[0].0 ==> 1 <= id < trace[0].1
    ensures 1 <= trace[|replies|].1 <= MaxRowId + 1
    ensures forall id :: id in trace[|replies|].0 ==> 1 <= id < trace[|replies|].1
    ensures trace[0].1 <= trace[|replies|].1
    ensures forall id :: id in trace[|replies|].0 && id !in trace[0].0 ==> trace[0].1 <= id
    decreases |replies|
  {
    if replies != [] {
      var m := |replies| - 1;
      var front, steps := replies[..m], trace[..m + 1];
      RecordedPrefix(script, trace, replies, m);
      RunKeepsIdsFresh(script, steps, front);
      assert steps[0] == trace[0] && steps[m] == trace[m];
      StepKeepsIdsFresh(trace[m].0, trace[m].1, script[m].0, script[m].1, trace[m + 1].0, trace[m + 1].1, replies[m]);
    }
  }

  /** In a run of rounds, a round says Goodbye exactly when its choice is "6". */
  lemma RunEndsOnExit(script: seq<(string, Answers)>, trace: seq<(Table, int)>, replies: seq<Reply>)
    requires Recorded(script, trace, replies)
    ensures forall i :: 0 <= i < |replies| ==> (replies[i] == Goodbye <==> ParseChoice(script[i].0) == Some(Exit))
  {
    forall i | 0 <= i < |replies| ensures replies[i] == Goodbye <==> ParseChoice(script[i].0) == Some(Exit) {
      ChoiceDecidesShell(trace[i].0, trace[i].1, script[i].0, script[i].1, trace[i + 1].0, trace[i + 1].1, replies[i]);
    }
  }

  /** One round of main's loop: the next script entry is played against the
      store, and the record grows by that round. */
  method Round(store: ExpenseStore, script: seq<(string, Answers)>, ghost trace: seq<(Table, int)>, replies: seq<Reply>)
    returns (next: Shell, reply: Reply, ghost trace': seq<(Table, int)>)
    requires store.Valid()
    requires Recorded(script, trace, replies) && |replies| < |script|
    requires trace[|replies|] == (store.rows, store.nextId)
    modifies store
    ensures store.Valid()
    ensures trace' == trace + [(store.rows, store.nextId)]
    ensures Recorded(script, trace', replies + [reply])
    ensures next == ShellAfter(reply)
  {
    var (choice, answers) := script[|replies|];
    ghost var rows0, next0 := store.rows, store.nextId;
    next, reply := Step(store, choice, answers);
    RunExtends(script, trace, replies, rows0, next0, choice, answers, store.rows, store.nextId, reply);
    trace' := trace + [(store.rows, store.nextId)];
  }

  /** main's loop over the choices the user makes (one script entry per menu
      round). It stops at "6" or at the first crash; if the script runs out
      first, the shell is still Running. `trace` holds the table and counter
      before each round and after the last: round i takes `trace[i]` to
      `trace[i + 1]` as StepSpec says. */
  method Session(store: ExpenseStore, script: seq<(string, Answers)>)
    returns (state: Shell, replies: seq<Reply>, ghost trace: seq<(Table, int)>)
    requires store.Valid()
    modifies store
    ensures store.Valid()
    ensures |replies| <= |script|
    ensures |trace| == |replies| + 1
    ensures trace[0] == (old(store.rows), old(store.nextId))
    ensures trace[|replies|] == (store.rows, store.nextId)
    ensures forall i {:trigger replies[i], script[i]} :: 0 <= i < |replies| ==>
      StepSpec(trace[i].0, trace[i].1, script[i].0, script[i].1, trace[i + 1].0, trace[i + 1].1, replies[i])
    ensures forall i :: 0 <= i < |replies| - 1 ==> Continues(replies[i])
    ensures state == if replies == [] then Running else ShellAfter(replies[|replies| - 1])
    ensures state == Running ==> |replies| == |script|
    ensures forall i :: 0 <= i < |replies| ==> (replies[i] == Goodbye <==> ParseChoice(script[i].0) == Some(Exit))
    ensures old(store.nextId) <= store.nextId
    ensures forall id :: id in store.rows && id !in old(store.rows) ==> old(store.nextId) <= id
  {
    state, replies := Running, [];
    trace := [(store.rows, store.nextId)];
    while state == Running && |replies| < |script|
      invariant store.Valid()
      invariant |replies| <= |script|
      invariant Recorded(script, trace, replies)
      invariant trace[0] == (old(store.rows), old(store.nextId))
      invariant trace[|replies|] == (store.rows, store.nextId)
      invariant forall i :: 0 <= i < |replies| - 1 ==> Continues(replies[i])
      invariant state == if replies == [] then Running else ShellAfter(replies[|replies| - 1])
      decreases |script| - |replies|
    {
      assert forall i :: 0 <= i < |replies| ==> Continues(replies[i]);
      var next, reply;
      next, reply, trace := Round(store, script, trace, replies);
      replies := replies + [reply];
      state := next;
    }
    RunKeepsIdsFresh(script, trace, replies);
    RunEndsOnExit(script, trace, replies);
  }
}
