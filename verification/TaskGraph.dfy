/**
 * The dependency checks of docs/specs/vnext/tools/spec_lint.py: three-colour cycle search and the
 * transitive closure of one task.
 */
module TaskGraph {
  import opened Prelude

  type Id = string

  /** The task dictionary: its keys in iteration order, and each task's dependency list. */
  datatype Tasks = Tasks(order: seq<Id>, deps: map<Id, seq<Id>>)

  ghost predicate Valid(g: Tasks) {
    Distinct(g.order) && forall t :: t in g.order <==> t in g.deps
  }

  /** A dependency on a task that is not in the dictionary is not an edge. */
  predicate Edge(g: Tasks, t: Id, d: Id) {
    t in g.deps && d in g.deps[t] && d in g.deps
  }

  ghost predicate IsPath(g: Tasks, p: seq<Id>) {
    |p| > 0 && p[0] in g.deps && forall k :: 0 <= k < |p| - 1 ==> Linked(g, p, k)
  }

  predicate Linked(g: Tasks, p: seq<Id>, k: nat) {
    k + 1 < |p| && Edge(g, p[k], p[k + 1])
  }

  lemma PathOn(g: Tasks, p: seq<Id>, d: Id)
    requires IsPath(g, p) && Edge(g, p[|p| - 1], d)
    ensures IsPath(g, p + [d])
  {
    forall k | 0 <= k < |p|
      ensures Linked(g, p + [d], k)
    {
      assert k < |p| - 1 ==> Linked(g, p, k);
    }
  }

  /** `x` can be reached from `t` by one or more dependency edges. */
  ghost predicate Reaches(g: Tasks, t: Id, x: Id) {
    exists p :: IsPath(g, p) && |p| >= 2 && p[0] == t && p[|p| - 1] == x
  }

  ghost predicate HasCycle(g: Tasks) {
    exists t :: Reaches(g, t, t)
  }

  // ---------------------------------------------------------------- find_cycles

  datatype Color = Gray | Black

  /** A reported list is a dependency path through different tasks that comes back to one of them. */
  ghost predicate IsReport(g: Tasks, c: seq<Id>) {
    IsPath(g, c) && |c| >= 2 && Distinct(c[..|c| - 1]) && c[|c| - 1] in c[..|c| - 1]
  }

  /** The last edge of the report is the one from `u` to `d`. */
  predicate EndsWith(c: seq<Id>, u: Id, d: Id) {
    |c| >= 2 && c[|c| - 2] == u && c[|c| - 1] == d
  }

  /** The report ends with an edge of one of these tasks. */
  predicate SourceIn(c: seq<Id>, tasks: set<Id>) {
    |c| >= 2 && c[|c| - 2] in tasks
  }

  ghost predicate Reported(cycles: seq<seq<Id>>, u: Id, d: Id) {
    exists n :: 0 <= n < |cycles| && EndsWith(cycles[n], u, d)
  }

  /** Every task comes after all tasks it depends on by an edge that no report ends with. */
  ghost predicate TopologicalBut(g: Tasks, done: seq<Id>, cycles: seq<seq<Id>>) {
    forall i, d :: 0 <= i < |done| && Edge(g, done[i], d) ==> d in done[..i] || Reported(cycles, done[i], d)
  }

  /** Every task comes after all tasks it depends on. */
  ghost predicate Topological(g: Tasks, done: seq<Id>) {
    forall i, d :: 0 <= i < |done| && Edge(g, done[i], d) ==> d in done[..i]
  }

  // ---------------------------------------------------------------- the search

  datatype Search = Search(color: map<Id, Color>, cycles: seq<seq<Id>>, finished: seq<Id>)

  /** The visit of a task that has no colour yet; `stack` is the path to it. */
  function Visited(g: Tasks, s: Search, t: Id, stack: seq<Id>): (r: Search)
    requires t in g.deps && t !in s.color
    ensures s.color.Keys + {t} <= r.color.Keys
    decreases g.deps.Keys - s.color.Keys, 0
  {
    var s1 := s.(color := s.color[t := Gray]);
    assert t in g.deps.Keys - s.color.Keys && t !in g.deps.Keys - s1.color.Keys;
    var r := Followed(g, s1, t, stack, |g.deps[t]|);
    r.(color := r.color[t := Black], finished := r.finished + [t])
  }

  /** After the first `k` dependencies of `t`. */
  function Followed(g: Tasks, s: Search, t: Id, stack: seq<Id>, k: nat): (r: Search)
    requires t in g.deps && k <= |g.deps[t]|
    ensures s.color.Keys <= r.color.Keys
    decreases g.deps.Keys - s.color.Keys, k
  {
    if k == 0 then s
    else
      var r, d := Followed(g, s, t, stack, k - 1), g.deps[t][k - 1];
      if d !in g.deps then r
      else if d in r.color && r.color[d] == Gray then r.(cycles := r.cycles + [stack + [d]])
      else if d !in r.color then Visited(g, r, d, stack + [d])
      else r
  }

  /** The first `n` tasks as roots. */
  function Searched(g: Tasks, n: nat): Search
    requires n <= |g.order| && forall t :: t in g.order ==> t in g.deps
  {
    if n == 0 then Search(map[], [], [])
    else
      var s, t := Searched(g, n - 1), g.order[n - 1];
      if t !in s.color then Visited(g, s, t, [t]) else s
  }

  class CycleSearch {
    const tasks: Tasks
    var color: map<Id, Color>
    var cycles: seq<seq<Id>>
    /** The order in which tasks turned black. */
    var finished: seq<Id>

    constructor (tasks: Tasks)
      ensures this.tasks == tasks && State() == Search(map[], [], [])
    {
      this.tasks := tasks;
      color, cycles, finished := map[], [], [];
    }

    function State(): Search
      reads this
    {
      Search(color, cycles, finished)
    }

    method Visit(t: Id, stack: seq<Id>)
      requires t in tasks.deps && t !in color
      modifies this
      ensures State() == Visited(tasks, old(State()), t, stack)
      decreases tasks.deps.Keys - color.Keys
    {
      color := color[t := Gray];
      ghost var s := State();
      var deps := tasks.deps[t];
      for k := 0 to |deps|
        invariant State() == Followed(tasks, s, t, stack, k)
      {
        var d := deps[k];
        if d in tasks.deps {
          if d in color && color[d] == Gray {
            cycles := cycles + [stack + [d]];
          } else if d !in color {
            assert t in tasks.deps.Keys - old(color.Keys) && t !in tasks.deps.Keys - color.Keys;
            Visit(d, stack + [d]);
          }
        }
      }
      color := color[t := Black];
      finished := finished + [t];
    }

    /**
     * Something is reported iff the dependencies have a cycle, every cycle has an edge that a report ends
     * with, and no edge is reported twice; the tasks turned black in an order that is topological but
     * for the reported edges.
     */
    method FindCycles()
      requires Valid(tasks) && State() == Search(map[], [], [])
      modifies this
      ensures forall k :: 0 <= k < |cycles| ==> IsReport(tasks, cycles[k])
      ensures forall p :: IsClosed(tasks, p) ==> IsCaught(cycles, p)
      ensures OneByOne(tasks) ==> EndsOnce(cycles)
      ensures cycles != [] <==> HasCycle(tasks)
      ensures Distinct(finished) && forall t :: t in finished <==> t in tasks.deps
      ensures TopologicalBut(tasks, finished, cycles) && (cycles == [] ==> Topological(tasks, finished))
    {
      for n := 0 to |tasks.order|
        invariant State() == Searched(tasks, n)
      {
        var t := tasks.order[n];
        if t !in color {
          Visit(t, [t]);
        }
      }
      SearchIsComplete(tasks);
    }
  }

  // ---------------------------------------------------------------- what the search keeps

  /** Between two steps of the search: the grey tasks are the ones on the stack. */
  ghost predicate SearchState(g: Tasks, s: Search, stack: seq<Id>) {
    && s.color.Keys <= g.deps.Keys
    && (forall t :: t in s.color && s.color[t] == Gray <==> t in stack)
    && (forall t :: t in s.color && s.color[t] == Black <==> t in s.finished)
    && Distinct(s.finished)
    && Distinct(stack)
    && (stack != [] ==> IsPath(g, stack))
    && (forall k :: 0 <= k < |s.cycles| ==> IsReport(g, s.cycles[k]) && SourceIn(s.cycles[k], s.color.Keys))
    && TopologicalBut(g, s.finished, s.cycles)
  }

  lemma TurnGray(g: Tasks, s: Search, stack: seq<Id>, t: Id)
    requires SearchState(g, s, stack)
    requires t in g.deps && t !in s.color && IsPath(g, stack + [t])
    ensures SearchState(g, s.(color := s.color[t := Gray]), stack + [t])
  {
  }

  lemma TurnBlack(g: Tasks, s: Search, stack: seq<Id>, t: Id)
    requires SearchState(g, s, stack + [t]) && t !in stack
    requires stack != [] ==> IsPath(g, stack)
    requires forall d :: Edge(g, t, d) ==> d in s.finished || Reported(s.cycles, t, d)
    ensures SearchState(g, s.(color := s.color[t := Black], finished := s.finished + [t]), stack)
  {
    var done := s.finished + [t];
    assert s.color[t] == Gray;
    assert forall k :: 0 <= k < |stack| ==> (stack + [t])[k] == stack[k];
    assert forall i :: 0 <= i < |done| ==> done[..i] == s.finished[..i];
    assert forall x :: x in stack + [t] <==> x in stack || x == t;
  }

  lemma ReportsStay(cycles: seq<seq<Id>>, cycles': seq<seq<Id>>, u: Id, d: Id)
    requires cycles <= cycles' && Reported(cycles, u, d)
    ensures Reported(cycles', u, d)
  {
    var n :| 0 <= n < |cycles| && EndsWith(cycles[n], u, d);
    assert EndsWith(cycles'[n], u, d);
  }

  lemma Report(g: Tasks, s: Search, stack: seq<Id>, d: Id)
    requires SearchState(g, s, stack)
    requires stack != [] && Edge(g, stack[|stack| - 1], d) && d in s.color && s.color[d] == Gray
    ensures SearchState(g, s.(cycles := s.cycles + [stack + [d]]), stack)
    ensures Reported(s.cycles + [stack + [d]], stack[|stack| - 1], d)
  {
    var cycles := s.cycles + [stack + [d]];
    PathOn(g, stack, d);
    assert (stack + [d])[..|stack|] == stack;
    assert IsReport(g, stack + [d]);
    forall u, x | Reported(s.cycles, u, x)
      ensures Reported(cycles, u, x)
    {
      ReportsStay(s.cycles, cycles, u, x);
    }
    assert EndsWith(cycles[|s.cycles|], stack[|stack| - 1], d);
  }

  /** No colour that was given is taken back, as long as the stack is the same and finished tasks stay finished. */
  lemma ColoursStay(g: Tasks, s: Search, s': Search, stack: seq<Id>)
    requires SearchState(g, s, stack) && SearchState(g, s', stack) && s.finished <= s'.finished
    ensures forall x :: x in s.color ==> x in s'.color && s'.color[x] == s.color[x]
  {
    forall x | x in s.color
      ensures x in s'.color && s'.color[x] == s.color[x]
    {
      if s.color[x] == Gray {
        assert x in stack;
      } else {
        assert x in s.finished && x in s'.finished;
      }
    }
  }

  /** The dependency is finished, reported from `t`, or not a task. */
  ghost predicate Handled(g: Tasks, s: Search, t: Id, d: Id) {
    d in g.deps ==> d in s.finished || Reported(s.cycles, t, d)
  }

  ghost predicate Goes(s: Search, s': Search) {
    s.finished <= s'.finished && s.cycles <= s'.cycles && s.color.Keys <= s'.color.Keys
  }

  lemma HandledStays(g: Tasks, s: Search, s': Search, t: Id, d: Id)
    requires Handled(g, s, t, d) && Goes(s, s')
    ensures Handled(g, s', t, d)
  {
    if Reported(s.cycles, t, d) {
      ReportsStay(s.cycles, s'.cycles, t, d);
    }
  }

  /** A path that comes back to where it began. */
  ghost predicate IsClosed(g: Tasks, p: seq<Id>) {
    IsPath(g, p) && |p| >= 2 && p[0] == p[|p| - 1]
  }

  /** Some report ends with an edge of this path. */
  ghost predicate IsCaught(cycles: seq<seq<Id>>, p: seq<Id>) {
    exists k {:trigger p[k]} :: 0 <= k && k + 1 < |p| && Reported(cycles, p[k], p[k + 1])
  }

  // ---------------------------------------------------------------- no edge is reported twice

  /** No task lists a dependency twice. */
  ghost predicate OneByOne(g: Tasks) {
    forall t {:trigger g.deps[t]} :: t in g.deps ==> Distinct(g.deps[t])
  }

  predicate SameEnd(a: seq<Id>, b: seq<Id>) {
    |a| >= 2 && EndsWith(b, a[|a| - 2], a[|a| - 1])
  }

  ghost predicate EndsOnce(cycles: seq<seq<Id>>) {
    forall m, n :: 0 <= m < n < |cycles| ==> !SameEnd(cycles[m], cycles[n])
  }

  /** The report ends with an edge of a task outside `before`, and if of `t`, to one of these. */
  predicate IsNew(c: seq<Id>, before: set<Id>, t: Id, seen: seq<Id>) {
    |c| >= 2 && c[|c| - 2] !in before && (c[|c| - 2] == t ==> c[|c| - 1] in seen)
  }

  /**
   * Between two dependencies of `t`, which was not in `before`: the first `from` reports were there
   * before `t` was visited, the others are new.
   */
  ghost predicate Reports(cycles: seq<seq<Id>>, from: nat, before: set<Id>, t: Id, seen: seq<Id>) {
    && from <= |cycles| && EndsOnce(cycles)
    && (forall n :: 0 <= n < from ==> SourceIn(cycles[n], before))
    && (forall n :: from <= n < |cycles| ==> IsNew(cycles[n], before, t, seen))
  }

  /** A report of the next dependency of `t`, if no dependency is listed twice. */
  lemma ReportIsNew(cycles: seq<seq<Id>>, from: nat, before: set<Id>, t: Id, deps: seq<Id>, k: nat, c: seq<Id>)
    requires k < |deps| && Distinct(deps) && t !in before && Reports(cycles, from, before, t, deps[..k])
    requires EndsWith(c, t, deps[k])
    ensures Reports(cycles + [c], from, before, t, deps[..k + 1])
  {
    var all := cycles + [c];
    assert deps[..k + 1] == deps[..k] + [deps[k]];
    forall m | 0 <= m < |cycles|
      ensures !SameEnd(cycles[m], c)
    {
      if m >= from {
        assert IsNew(cycles[m], before, t, deps[..k]);
      } else {
        assert SourceIn(cycles[m], before);
      }
    }
    forall n | from <= n < |all|
      ensures IsNew(all[n], before, t, deps[..k + 1])
    {
      assert n < |cycles| ==> IsNew(cycles[n], before, t, deps[..k]);
    }
  }

  lemma SeenMore(cycles: seq<seq<Id>>, from: nat, before: set<Id>, t: Id, deps: seq<Id>, k: nat)
    requires k < |deps| && Reports(cycles, from, before, t, deps[..k])
    ensures Reports(cycles, from, before, t, deps[..k + 1])
  {
    assert deps[..k + 1] == deps[..k] + [deps[k]];
    forall n | from <= n < |cycles|
      ensures IsNew(cycles[n], before, t, deps[..k + 1])
    {
      assert IsNew(cycles[n], before, t, deps[..k]);
    }
  }

  /** The visit of a dependency adds reports of tasks that were not coloured before it. */
  lemma VisitIsNew(cycles: seq<seq<Id>>, cycles': seq<seq<Id>>, from: nat, before: set<Id>, now: set<Id>, t: Id, d: Id, seen: seq<Id>, mine: seq<Id>)
    requires before <= now && t in now && Reports(cycles, from, before, t, mine)
    requires cycles <= cycles' && Reports(cycles', |cycles|, now, d, seen)
    ensures Reports(cycles', from, before, t, mine)
  {
    forall n | from <= n < |cycles'|
      ensures IsNew(cycles'[n], before, t, mine)
    {
      if n < |cycles| {
        assert IsNew(cycles[n], before, t, mine);
      } else {
        assert IsNew(cycles'[n], now, d, seen);
      }
    }
    forall n | 0 <= n < from
      ensures SourceIn(cycles'[n], before)
    {
      assert SourceIn(cycles[n], before);
    }
  }

  // ---------------------------------------------------------------- the search, step by step

  /** Where the visit of `t` stands after `k` dependencies; it found `from` reports and the tasks `before` coloured. */
  ghost predicate FollowOk(g: Tasks, s: Search, r: Search, t: Id, stack: seq<Id>, k: nat, before: set<Id>) {
    && t in g.deps && k <= |g.deps[t]|
    && SearchState(g, r, stack) && Goes(s, r)
    && (forall j :: 0 <= j < k ==> Handled(g, r, t, g.deps[t][j]))
    && (OneByOne(g) ==> Reports(r.cycles, |s.cycles|, before, t, g.deps[t][..k]))
  }

  ghost predicate VisitOk(g: Tasks, s: Search, r: Search, t: Id, stack: seq<Id>) {
    && t in g.deps && SearchState(g, r, stack) && Goes(s, r) && t in r.finished
    && (OneByOne(g) ==> Reports(r.cycles, |s.cycles|, s.color.Keys, t, g.deps[t]))
  }

  /** The next dependency, when nothing is to be done about it. */
  lemma SkipKeeps(g: Tasks, s: Search, r: Search, t: Id, stack: seq<Id>, k: nat, before: set<Id>)
    requires FollowOk(g, s, r, t, stack, k, before) && k < |g.deps[t]|
    requires Handled(g, r, t, g.deps[t][k])
    ensures FollowOk(g, s, r, t, stack, k + 1, before)
  {
    if OneByOne(g) {
      SeenMore(r.cycles, |s.cycles|, before, t, g.deps[t], k);
    }
  }

  lemma ReportKeeps(g: Tasks, s: Search, r: Search, t: Id, stack: seq<Id>, k: nat, before: set<Id>)
    requires FollowOk(g, s, r, t, stack, k, before) && k < |g.deps[t]| && t !in before
    requires stack != [] && stack[|stack| - 1] == t
    requires g.deps[t][k] in g.deps && g.deps[t][k] in r.color && r.color[g.deps[t][k]] == Gray
    ensures FollowOk(g, s, r.(cycles := r.cycles + [stack + [g.deps[t][k]]]), t, stack, k + 1, before)
  {
    var d := g.deps[t][k];
    var r' := r.(cycles := r.cycles + [stack + [d]]);
    assert Edge(g, t, d);
    Report(g, r, stack, d);
    forall j | 0 <= j < k
      ensures Handled(g, r', t, g.deps[t][j])
    {
      HandledStays(g, r, r', t, g.deps[t][j]);
    }
    if OneByOne(g) {
      ReportIsNew(r.cycles, |s.cycles|, before, t, g.deps[t], k, stack + [d]);
    }
  }

  lemma DescendKeeps(g: Tasks, s: Search, r: Search, r': Search, t: Id, stack: seq<Id>, k: nat, before: set<Id>)
    requires FollowOk(g, s, r, t, stack, k, before) && k < |g.deps[t]| && g.deps[t][k] in g.deps
    requires before <= r.color.Keys && t in r.color
    requires VisitOk(g, r, r', g.deps[t][k], stack)
    ensures FollowOk(g, s, r', t, stack, k + 1, before)
  {
    var d := g.deps[t][k];
    forall j | 0 <= j < k
      ensures Handled(g, r', t, g.deps[t][j])
    {
      HandledStays(g, r, r', t, g.deps[t][j]);
    }
    if OneByOne(g) {
      VisitIsNew(r.cycles, r'.cycles, |s.cycles|, before, r.color.Keys, t, d, g.deps[d], g.deps[t][..k]);
      SeenMore(r'.cycles, |s.cycles|, before, t, g.deps[t], k);
    }
  }

  ghost predicate FollowStart(g: Tasks, s: Search, t: Id, stack: seq<Id>, before: set<Id>) {
    && t in g.deps && stack != [] && stack[|stack| - 1] == t && SearchState(g, s, stack)
    && before == s.color.Keys - {t}
    && (OneByOne(g) ==> EndsOnce(s.cycles))
    && (forall n :: 0 <= n < |s.cycles| ==> SourceIn(s.cycles[n], before))
  }

  /** What the next dependency needs to be handled. */
  lemma FollowReady(g: Tasks, s: Search, r: Search, t: Id, stack: seq<Id>, k: nat, before: set<Id>)
    requires FollowStart(g, s, t, stack, before) && FollowOk(g, s, r, t, stack, k, before) && k < |g.deps[t]|
    ensures t in r.color && t !in before && before <= r.color.Keys
    ensures OneByOne(g) ==> EndsOnce(r.cycles)
    ensures
      var d := g.deps[t][k];
      if d !in g.deps || (d in r.color && r.color[d] != Gray) then Handled(g, r, t, d)
      else Edge(g, t, d) && IsPath(g, stack + [d])
  {
    var d := g.deps[t][k];
    assert t in s.color;
    if d in g.deps {
      assert Edge(g, t, d);
      PathOn(g, stack, d);
    }
  }

  lemma {:induction false} FollowKeeps(g: Tasks, s: Search, t: Id, stack: seq<Id>, k: nat, before: set<Id>)
    requires FollowStart(g, s, t, stack, before) && k <= |g.deps[t]|
    ensures FollowOk(g, s, Followed(g, s, t, stack, k), t, stack, k, before)
    decreases g.deps.Keys - s.color.Keys, k
  {
    if k == 0 {
      FollowNothing(g, s, t, stack, before);
    } else {
      FollowKeeps(g, s, t, stack, k - 1, before);
      var r, d := Followed(g, s, t, stack, k - 1), g.deps[t][k - 1];
      FollowReady(g, s, r, t, stack, k - 1, before);
      if d in g.deps && d !in r.color {
        VisitKeeps(g, r, d, stack + [d], stack);
      }
      FollowCase(g, s, r, t, stack, k - 1, before);
    }
  }

  lemma FollowNothing(g: Tasks, s: Search, t: Id, stack: seq<Id>, before: set<Id>)
    requires FollowStart(g, s, t, stack, before)
    ensures FollowOk(g, s, s, t, stack, 0, before)
  {
    assert g.deps[t][..0] == [];
  }

  lemma FollowCase(g: Tasks, s: Search, r: Search, t: Id, stack: seq<Id>, k: nat, before: set<Id>)
    requires FollowStart(g, s, t, stack, before) && FollowOk(g, s, r, t, stack, k, before) && k < |g.deps[t]|
    requires r == Followed(g, s, t, stack, k)
    requires
      var d := g.deps[t][k];
      d in g.deps && d !in r.color ==> VisitOk(g, r, Visited(g, r, d, stack + [d]), d, stack)
    ensures FollowOk(g, s, Followed(g, s, t, stack, k + 1), t, stack, k + 1, before)
  {
    var d := g.deps[t][k];
    FollowReady(g, s, r, t, stack, k, before);
    if d in g.deps && d in r.color && r.color[d] == Gray {
      ReportKeeps(g, s, r, t, stack, k, before);
    } else if d in g.deps && d !in r.color {
      DescendKeeps(g, s, r, Visited(g, r, d, stack + [d]), t, stack, k, before);
    } else {
      SkipKeeps(g, s, r, t, stack, k, before);
    }
  }

  lemma {:induction false} VisitKeeps(g: Tasks, s: Search, t: Id, stack: seq<Id>, above: seq<Id>)
    requires t in g.deps && t !in s.color && stack == above + [t] && IsPath(g, stack) && SearchState(g, s, above)
    requires OneByOne(g) ==> EndsOnce(s.cycles)
    ensures VisitOk(g, s, Visited(g, s, t, stack), t, above)
    decreases g.deps.Keys - s.color.Keys, 0
  {
    var s1 := s.(color := s.color[t := Gray]);
    TurnGray(g, s, above, t);
    assert s1.color.Keys - {t} == s.color.Keys;
    FollowKeeps(g, s1, t, stack, |g.deps[t]|, s.color.Keys);
    EndVisit(g, s, Followed(g, s1, t, stack, |g.deps[t]|), t, above);
  }

  /** A visit finishes its task, takes no colour back and drops no report. */
  lemma VisitFinishes(g: Tasks, s: Search, t: Id, stack: seq<Id>, above: seq<Id>)
    requires t in g.deps && t !in s.color && stack == above + [t] && IsPath(g, stack) && SearchState(g, s, above)
    requires OneByOne(g) ==> EndsOnce(s.cycles)
    ensures
      var r := Visited(g, s, t, stack);
      && SearchState(g, r, above) && t in r.finished && s.finished <= r.finished && s.cycles <= r.cycles
      && forall x :: x in s.color ==> x in r.color && r.color[x] == s.color[x]
  {
    VisitKeeps(g, s, t, stack, above);
    ColoursStay(g, s, Visited(g, s, t, stack), above);
  }

  lemma EndVisit(g: Tasks, s: Search, r: Search, t: Id, above: seq<Id>)
    requires t in g.deps && t !in s.color && SearchState(g, s, above)
    requires FollowOk(g, s.(color := s.color[t := Gray]), r, t, above + [t], |g.deps[t]|, s.color.Keys)
    ensures VisitOk(g, s, r.(color := r.color[t := Black], finished := r.finished + [t]), t, above)
  {
    assert g.deps[t][..|g.deps[t]|] == g.deps[t];
    forall d | Edge(g, t, d)
      ensures d in r.finished || Reported(r.cycles, t, d)
    {
      var j :| 0 <= j < |g.deps[t]| && g.deps[t][j] == d;
      assert Handled(g, r, t, g.deps[t][j]);
    }
    TurnBlack(g, r, above, t);
  }

  ghost predicate RootsOk(g: Tasks, s: Search, n: nat) {
    && n <= |g.order| && SearchState(g, s, []) && (OneByOne(g) ==> EndsOnce(s.cycles))
    && forall j :: 0 <= j < n ==> g.order[j] in s.color
  }

  lemma NextRoot(g: Tasks, s: Search, n: nat)
    requires RootsOk(g, s, n) && n < |g.order| && g.order[n] in g.deps && g.order[n] !in s.color
    ensures RootsOk(g, Visited(g, s, g.order[n], [g.order[n]]), n + 1)
  {
    var t := g.order[n];
    assert [t] == [] + [t];
    VisitKeeps(g, s, t, [t], []);
  }

  lemma {:induction false} RootsKeep(g: Tasks, n: nat)
    requires Valid(g) && n <= |g.order|
    ensures RootsOk(g, Searched(g, n), n)
  {
    if n > 0 {
      RootsKeep(g, n - 1);
      if g.order[n - 1] !in Searched(g, n - 1).color {
        NextRoot(g, Searched(g, n - 1), n - 1);
      }
    }
  }

  /** What the whole search comes to. */
  lemma SearchIsComplete(g: Tasks)
    requires Valid(g)
    ensures
      var r := Searched(g, |g.order|);
      && (forall k :: 0 <= k < |r.cycles| ==> IsReport(g, r.cycles[k]))
      && (forall p :: IsClosed(g, p) ==> IsCaught(r.cycles, p))
      && (OneByOne(g) ==> EndsOnce(r.cycles))
      && (r.cycles != [] <==> HasCycle(g))
      && Distinct(r.finished) && (forall t :: t in r.finished <==> t in g.deps)
      && TopologicalBut(g, r.finished, r.cycles) && (r.cycles == [] ==> Topological(g, r.finished))
  {
    var r := Searched(g, |g.order|);
    RootsKeep(g, |g.order|);
    forall t | t in g.deps
      ensures t in r.finished
    {
      var j :| 0 <= j < |g.order| && g.order[j] == t;
      assert r.color[t] != Gray;
    }
    forall p | IsClosed(g, p)
      ensures IsCaught(r.cycles, p)
    {
      ClosedIsCaught(g, r.finished, r.cycles, p);
    }
    if r.cycles == [] {
      TopologicalHasNoCycle(g, r.finished);
    } else {
      ReportIsCycle(g, r.cycles[0]);
    }
  }

  lemma ReportIsCycle(g: Tasks, c: seq<Id>)
    requires IsReport(g, c)
    ensures HasCycle(g)
  {
    var n := |c| - 1;
    var i :| 0 <= i < n && c[i] == c[n];
    var p := c[i..];
    assert forall k :: 0 <= k < |p| ==> p[k] == c[i + k];
    forall k | 0 <= k < |p| - 1
      ensures Linked(g, p, k)
    {
      assert Linked(g, c, i + k);
    }
    assert Linked(g, c, i);
    assert IsPath(g, p);
    assert Reaches(g, c[i], c[i]);
  }

  lemma RestOfPath(g: Tasks, p: seq<Id>)
    requires IsPath(g, p) && |p| >= 2
    ensures IsPath(g, p[1..])
  {
    assert Linked(g, p, 0);
    forall k | 0 <= k < |p| - 2
      ensures Linked(g, p[1..], k)
    {
      assert Linked(g, p, k + 1);
    }
  }

  /** Along a path from the task finished `i`-th every later task was finished before it. */
  lemma {:induction false} PathsGoBack(g: Tasks, done: seq<Id>, p: seq<Id>, i: nat)
    requires Topological(g, done) && IsPath(g, p) && i < |done| && p[0] == done[i]
    ensures p[|p| - 1] in done[..i + 1]
    ensures |p| >= 2 ==> p[|p| - 1] in done[..i]
  {
    if |p| >= 2 {
      assert Linked(g, p, 0) && p[1] in done[..i];
      var j :| 0 <= j < i && done[j] == p[1];
      RestOfPath(g, p);
      PathsGoBack(g, done, p[1..], j);
      assert p[1..][|p[1..]| - 1] == p[|p| - 1];
    }
  }

  lemma CaughtInRest(cycles: seq<seq<Id>>, p: seq<Id>)
    requires |p| > 0
    ensures IsCaught(cycles, p[1..]) ==> IsCaught(cycles, p)
  {
    var rest := p[1..];
    if k :| 0 <= k && k + 1 < |rest| && Reported(cycles, rest[k], rest[k + 1]) {
      assert rest[k] == p[k + 1] && rest[k + 1] == p[k + 2];
    }
  }

  /** Along a path that no report catches every later task was finished before the first. */
  lemma {:induction false} UncaughtGoesBack(g: Tasks, done: seq<Id>, cycles: seq<seq<Id>>, p: seq<Id>, i: nat)
    requires TopologicalBut(g, done, cycles) && IsPath(g, p) && i < |done| && p[0] == done[i]
    requires !IsCaught(cycles, p)
    ensures p[|p| - 1] in done[..i + 1]
    ensures |p| >= 2 ==> p[|p| - 1] in done[..i]
  {
    if |p| >= 2 {
      assert Linked(g, p, 0) && !Reported(cycles, p[0], p[1]);
      var j :| 0 <= j < i && done[j] == p[1];
      RestOfPath(g, p);
      CaughtInRest(cycles, p);
      UncaughtGoesBack(g, done, cycles, p[1..], j);
      assert p[1..][|p| - 2] == p[|p| - 1];
    }
  }

  /** Every closed path has an edge that some report ends with: without those edges there is no cycle. */
  lemma ClosedIsCaught(g: Tasks, done: seq<Id>, cycles: seq<seq<Id>>, p: seq<Id>)
    requires TopologicalBut(g, done, cycles) && Distinct(done) && IsClosed(g, p)
    requires forall t :: t in g.deps ==> t in done
    ensures IsCaught(cycles, p)
  {
    if !IsCaught(cycles, p) {
      var i :| 0 <= i < |done| && done[i] == p[0];
      UncaughtGoesBack(g, done, cycles, p, i);
      assert false;
    }
  }

  lemma TopologicalHasNoCycle(g: Tasks, done: seq<Id>)
    requires Topological(g, done) && Distinct(done)
    requires forall t :: t in g.deps ==> t in done
    ensures !HasCycle(g)
  {
    if HasCycle(g) {
      var t :| Reaches(g, t, t);
      var p :| IsPath(g, p) && |p| >= 2 && p[0] == t && p[|p| - 1] == t;
      var i :| 0 <= i < |done| && done[i] == t;
      PathsGoBack(g, done, p, i);
      assert false;
    }
  }

  // ---------------------------------------------------------------- ancestors

  class AncestorSearch {
    const tasks: Tasks
    var seen: set<Id>

    constructor (tasks: Tasks)
      ensures this.tasks == tasks && seen == {}
    {
      this.tasks := tasks;
      seen := {};
    }

    /** Every seen task but the open ones has all its dependencies seen. */
    ghost predicate ClosedBut(open: set<Id>)
      reads this
    {
      forall x, d :: x in seen && x !in open && Edge(tasks, x, d) ==> d in seen
    }

    ghost predicate FromRoot(root: Id)
      reads this
    {
      forall x :: x in seen ==> x in tasks.deps && Reaches(tasks, root, x)
    }

    method Visit(t: Id, ghost root: Id, ghost open: set<Id>)
      requires t in tasks.deps && (t == root || t in seen)
      requires FromRoot(root) && ClosedBut(open + {t})
      modifies this
      ensures old(seen) <= seen
      ensures FromRoot(root) && ClosedBut(open)
      ensures forall d :: Edge(tasks, t, d) ==> d in seen
      decreases tasks.deps.Keys - seen
    {
      var deps := tasks.deps[t];
      for k := 0 to |deps|
        invariant old(seen) <= seen
        invariant FromRoot(root) && ClosedBut(open + {t})
        invariant forall j :: 0 <= j < k && deps[j] in tasks.deps ==> deps[j] in seen
      {
        var d := deps[k];
        if d in tasks.deps && d !in seen {
          OneFurther(tasks, root, t, d);
          seen := seen + {d};
          Visit(d, root, open + {t});
        }
      }
    }

    /** The closure of one task: exactly what it reaches by one or more dependencies. */
    method Ancestors(tid: Id)
      requires tid in tasks.deps && seen == {}
      modifies this
      ensures forall x :: x in seen <==> Reaches(tasks, tid, x)
    {
      Visit(tid, tid, {});
      forall x | Reaches(tasks, tid, x)
        ensures x in seen
      {
        var p :| IsPath(tasks, p) && |p| >= 2 && p[0] == tid && p[|p| - 1] == x;
        assert Linked(tasks, p, 0);
        RestOfPath(tasks, p);
        ClosedHasPath(tasks, seen, p[1..]);
      }
    }
  }

  lemma OneFurther(g: Tasks, root: Id, t: Id, d: Id)
    requires root in g.deps && (t == root || Reaches(g, root, t)) && Edge(g, t, d)
    ensures Reaches(g, root, d)
  {
    if Reaches(g, root, t) {
      var p :| IsPath(g, p) && |p| >= 2 && p[0] == root && p[|p| - 1] == t;
      PathOn(g, p, d);
      assert (p + [d])[|p|] == d;
    } else {
      assert Linked(g, [root, d], 0) && IsPath(g, [root, d]);
    }
  }

  lemma {:induction false} ClosedHasPath(g: Tasks, seen: set<Id>, p: seq<Id>)
    requires forall x, d :: x in seen && Edge(g, x, d) ==> d in seen
    requires IsPath(g, p) && p[0] in seen
    ensures p[|p| - 1] in seen
  {
    if |p| > 1 {
      var n := |p| - 1;
      forall k | 0 <= k < n - 1
        ensures Linked(g, p[..n], k)
      {
        assert Linked(g, p, k);
      }
      ClosedHasPath(g, seen, p[..n]);
      assert Linked(g, p, n - 1);
    }
  }
}
