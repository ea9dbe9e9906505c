/** The three tabs of the to-do list and the rule that decides, from the
    selected tab, which tasks are shown. */
module Filter {
  import opened TaskModel

  /** The tab captions, in the order the tab bar shows them. */
  const Tabs: seq<string> := ["all", "active", "completed"]

  /** The tab selected when the list is built. */
  const InitialTab: nat := 0

  /** Whether a task with the given completion flag is shown under the tab
      captioned `status`. */
  function Shown(status: string, completed: bool): (r: bool)
    ensures status == "all" ==> r
    ensures status == "active" ==> (r <==> !completed)
    ensures status == "completed" ==> (r <==> completed)
    ensures status !in Tabs ==> !r
  {
    status == "all"
    || (status == "active" && !completed)
    || (status == "completed" && completed)
  }

  /** A task is shown under "active" exactly when it is not shown under
      "completed". */
  lemma ActiveCompletedComplement(completed: bool)
    ensures Shown("active", completed) == !Shown("completed", completed)
  {
  }

  /** `before_update`: every task's `visible` is set from the tab; nothing
      else about any task changes, and the list keeps its length and order. */
  function ApplyFilter(status: string, s: seq<TaskView>): (r: seq<TaskView>)
    ensures |r| == |s|
    ensures forall k :: 0 <= k < |s| ==> r[k] == s[k].(visible := Shown(status, s[k].completed))
  {
    if s == [] then []
    else [s[0].(visible := Shown(status, s[0].completed))] + ApplyFilter(status, s[1..])
  }

  /** Filtering twice under the same tab is filtering once. */
  lemma ApplyFilterIdempotent(status: string, s: seq<TaskView>)
    ensures ApplyFilter(status, ApplyFilter(status, s)) == ApplyFilter(status, s)
  {
  }

  /** Every task in `s` is shown exactly as the tab dictates. */
  predicate Filtered(status: string, s: seq<TaskView>)
  {
    forall k :: 0 <= k < |s| ==> s[k].visible == Shown(status, s[k].completed)
  }

  /** Filtering makes the list filtered, and a filtered list is its own filtering. */
  lemma ApplyFilterFiltered(status: string, s: seq<TaskView>)
    ensures Filtered(status, ApplyFilter(status, s))
    ensures Filtered(status, s) <==> ApplyFilter(status, s) == s
  {
  }

  /** The number of tasks the tab would show. */
  function CountShown(status: string, s: seq<TaskView>): (n: nat)
    ensures n <= |s|
  {
    if s == [] then 0
    else (if Shown(status, s[0].completed) then 1 else 0) + CountShown(status, s[1..])
  }

  /** The number of tasks currently shown. */
  function CountVisible(s: seq<TaskView>): (n: nat)
    ensures n <= |s|
  {
    if s == [] then 0 else (if s[0].visible then 1 else 0) + CountVisible(s[1..])
  }

  /** After filtering, the tasks shown are the ones the tab selects. */
  lemma {:induction false} FilteredCount(status: string, s: seq<TaskView>)
    ensures CountVisible(ApplyFilter(status, s)) == CountShown(status, s)
  {
    if s != [] {
      FilteredCount(status, s[1..]);
      assert ApplyFilter(status, s)[1..] == ApplyFilter(status, s[1..]);
    }
  }

  /** "all" shows every task, and "active" and "completed" split the list
      between them: every task appears under exactly one of the two. */
  lemma {:induction false} TabsPartition(s: seq<TaskView>)
    ensures CountShown("all", s) == |s|
    ensures CountShown("active", s) + CountShown("completed", s) == |s|
  {
    if s != [] {
      TabsPartition(s[1..]);
    }
  }
}
