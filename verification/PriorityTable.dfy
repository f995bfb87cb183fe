/** The priority table of config_server.h and its lookups in src/server/main.c.

  A rule gives a priority number, the updates an emergency of that priority
  waits before promotion and before timing out.  The level of a priority is the
  number of table entries below it; an unknown priority has level 0. */
module PriorityTable {

  const NO_TIMEOUT := -10
  const NO_PROMOTION := -10

  datatype Rule = Rule(number: int, promotion: int, timeout: int)

  /** The table the server ships with. */
  const SHIPPED := [Rule(0, 60, NO_TIMEOUT), Rule(1, NO_PROMOTION, 60), Rule(2, NO_PROMOTION, 30)]

  ghost predicate Ascending(table: seq<Rule>) {
    forall i, j :: 0 <= i < j < |table| ==> table[i].number < table[j].number
  }

  predicate Live(timer: int) {
    timer == -10 || timer > 0
  }

  /** The tables the server is meant for: ascending, nothing above the top row to
      be promoted to, and timers that are off or positive. */
  ghost predicate ValidTable(table: seq<Rule>) {
    && |table| > 0
    && Ascending(table)
    && table[|table| - 1].promotion == NO_PROMOTION
    && (forall i :: 0 <= i < |table| ==> Live(table[i].promotion) && Live(table[i].timeout))
  }

  lemma TableNotEmpty(table: seq<Rule>)
    requires ValidTable(table)
    ensures |table| > 0
  {
  }

  predicate Listed(table: seq<Rule>, priority: int) {
    exists i :: 0 <= i < |table| && table[i].number == priority
  }

  /** How many rows carry a lower number. */
  function Below(table: seq<Rule>, priority: int): nat {
    if table == [] then 0
    else Below(table[..|table| - 1], priority) + if table[|table| - 1].number < priority then 1 else 0
  }

  function Level(table: seq<Rule>, priority: int): nat {
    if Listed(table, priority) then Below(table, priority) else 0
  }

  function LevelToPriority(table: seq<Rule>, level: int): int
    requires |table| > 0
  {
    table[if level < 0 then 0 else if level >= |table| then |table| - 1 else level].number
  }

  function NextPriority(table: seq<Rule>, priority: int): int
    requires |table| > 0
  {
    var level := Level(table, priority);
    if level == |table| - 1 then priority else LevelToPriority(table, level + 1)
  }

  /** Row k is the row of the priority: the one that carries it, or the lowest if none does. */
  predicate RowOf(table: seq<Rule>, priority: int, k: nat) {
    k < |table| && (table[k].number == priority || (k == 0 && !Listed(table, priority)))
  }

  /** The timers are those of the priority's row. */
  ghost predicate TimersOf(table: seq<Rule>, priority: int, promotion: int, timeout: int) {
    forall k: nat :: RowOf(table, priority, k) ==> promotion == table[k].promotion && timeout == table[k].timeout
  }

  /** The priority `after` is that of the row above, and the same as `before` at the top. */
  ghost predicate IsNext(table: seq<Rule>, before: int, after: int) {
    forall k: nat :: RowOf(table, before, k) ==> after == if k + 1 < |table| then table[k + 1].number else before
  }

  lemma {:induction false} BelowRow(table: seq<Rule>, n: nat, i: nat)
    requires i < |table| && n <= |table| && Ascending(table)
    ensures Below(table[..n], table[i].number) == if n < i then n else i
  {
    if n == 0 {
    } else {
      assert table[..n][..n - 1] == table[..n - 1];
      BelowRow(table, n - 1, i);
    }
  }

  lemma RowLevel(table: seq<Rule>, i: nat)
    requires i < |table| && Ascending(table)
    ensures Level(table, table[i].number) == i
  {
    assert table[..|table|] == table;
    BelowRow(table, |table|, i);
  }

  /** The level of a priority is the number of its row, and there is one row for each. */
  lemma LevelIsRowOf(table: seq<Rule>, priority: int, k: nat)
    requires |table| > 0 && Ascending(table)
    ensures RowOf(table, priority, k) <==> k == Level(table, priority)
  {
    LevelIsRow(table, priority);
    if RowOf(table, priority, k) && table[k].number == priority {
      RowLevel(table, k);
    }
  }

  lemma RowTimers(table: seq<Rule>, priority: int, level: nat)
    requires |table| > 0 && Ascending(table) && level == Level(table, priority)
    ensures level < |table| && TimersOf(table, priority, table[level].promotion, table[level].timeout)
  {
    LevelIsRowOf(table, priority, level);
    forall k: nat | RowOf(table, priority, k) ensures k == level {
      LevelIsRowOf(table, priority, k);
    }
  }

  /** The next priority is that of the row above. */
  lemma NextIsNext(table: seq<Rule>, priority: int)
    requires |table| > 0 && Ascending(table)
    ensures IsNext(table, priority, NextPriority(table, priority))
  {
    LevelIsRow(table, priority);
    forall k: nat | RowOf(table, priority, k) ensures k == Level(table, priority) {
      LevelIsRowOf(table, priority, k);
    }
  }

  /** The level is a row of the table, and the row that carries the priority. */
  lemma LevelIsRow(table: seq<Rule>, priority: int)
    requires |table| > 0 && Ascending(table)
    ensures Level(table, priority) < |table|
    ensures Listed(table, priority) ==> table[Level(table, priority)].number == priority
  {
    if Listed(table, priority) {
      var i :| 0 <= i < |table| && table[i].number == priority;
      RowLevel(table, i);
    }
  }

  /** Promotion climbs exactly one level and stops at the top. */
  lemma NextPriorityClimbs(table: seq<Rule>, priority: int)
    requires |table| > 0 && Ascending(table)
    ensures Level(table, NextPriority(table, priority)) ==
            if Level(table, priority) == |table| - 1 then |table| - 1 else Level(table, priority) + 1
  {
    LevelIsRow(table, priority);
    if Level(table, priority) < |table| - 1 {
      RowLevel(table, Level(table, priority) + 1);
    }
  }

  /** get_priority_level */
  method GetPriorityLevel(priority: int, table: seq<Rule>) returns (level: nat)
    ensures level == Level(table, priority)
  {
    if |table| == 0 {
      return |table|;
    }
    var found := false;
    for i := 0 to |table|
      invariant !found
      invariant forall j :: 0 <= j < i ==> table[j].number != priority
    {
      if table[i].number == priority {
        found := true;
        break;
      }
    }
    if !found {
      return 0;
    }
    level := 0;
    for i := 0 to |table|
      invariant level == Below(table[..i], priority)
    {
      assert table[..i + 1][..i] == table[..i];
      if table[i].number < priority {
        level := level + 1;
      }
    }
    assert table[..|table|] == table;
  }

  lemma ShippedIsValid()
    ensures ValidTable(SHIPPED)
    ensures forall i: nat :: i < |SHIPPED| ==> Level(SHIPPED, i) == i
  {
    assert Ascending(SHIPPED);
    forall i: nat | i < |SHIPPED| ensures Level(SHIPPED, i) == i {
      RowLevel(SHIPPED, i);
    }
  }
}
