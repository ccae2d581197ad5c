/** The "did you mean" distance of src/config_v1.rs, against edit scripts. */
module EditDistance {
  import opened Prelude

  // ---------------------------------------------------------------- edit scripts

  /** One step over the source text, left to right. */
  datatype Edit = Keep | Substitute(c: char) | Insert(c: char) | Delete

  /** What a script makes of `a`; `None` if it does not consume `a` exactly. */
  function Apply(script: seq<Edit>, a: string): Option<string> {
    if script == [] then
      if a == "" then Some("") else None
    else
      var n := |script| - 1;
      if script[n].Insert? then
        var r := Apply(script[..n], a);
        if r.Some? then Some(r.value + [script[n].c]) else None
      else if a == "" then None
      else
        var r := Apply(script[..n], a[..|a| - 1]);
        if r.None? then None
        else match script[n]
          case Keep => Some(r.value + [a[|a| - 1]])
          case Substitute(c) => Some(r.value + [c])
          case Delete => r
  }

  /** The inserts, deletes and substitutions of a script. */
  function Cost(script: seq<Edit>): nat {
    if script == [] then 0
    else Cost(script[..|script| - 1]) + if script[|script| - 1].Keep? then 0 else 1
  }

  lemma ApplyLast(script: seq<Edit>, e: Edit, a: string)
    ensures Cost(script + [e]) == Cost(script) + if e.Keep? then 0 else 1
    ensures e.Insert? ==> (Apply(script + [e], a).Some? <==> Apply(script, a).Some?)
    ensures e.Insert? && Apply(script, a).Some? ==> Apply(script + [e], a) == Some(Apply(script, a).value + [e.c])
    ensures !e.Insert? && a != "" && Apply(script, a[..|a| - 1]).Some? ==>
      Apply(script + [e], a) == Some(
        Apply(script, a[..|a| - 1]).value +
        match e case Keep => [a[|a| - 1]] case Substitute(c) => [c] case _ => [])
  {
    assert (script + [e])[..|script|] == script;
    assert forall s: string :: s + [] == s;
  }

  // ---------------------------------------------------------------- the distance

  function Min(x: nat, y: nat): nat {
    if x < y then x else y
  }

  /** The recurrence the table of `edit_distance` fills in, over prefixes. */
  function Distance(a: string, b: string): nat
    decreases |a| + |b|
  {
    if |a| == 0 then |b|
    else if |b| == 0 then |a|
    else
      var a', b' := a[..|a| - 1], b[..|b| - 1];
      var cost := if a[|a| - 1] == b[|b| - 1] then 0 else 1;
      Min(Min(Distance(a', b') + cost, Distance(a', b) + 1), Distance(a, b') + 1)
  }

  /** One cell of the table from its three neighbours. */
  lemma Cell(a: string, x: char, b: string, y: char)
    ensures Distance(a + [x], b + [y]) ==
      Min(Min(Distance(a, b) + (if x == y then 0 else 1), Distance(a, b + [y]) + 1), Distance(a + [x], b) + 1)
  {
    assert (a + [x])[..|a|] == a && (b + [y])[..|b|] == b;
  }

  /** The table's row for `a`. */
  ghost predicate IsRow(row: seq<nat>, a: string, b: string) {
    |row| == |b| + 1 && forall j {:trigger row[j]} :: 0 <= j <= |b| ==> row[j] == Distance(a, b[..j])
  }

  /** How a row is made from the one before it. */
  ghost predicate Follows(row: seq<nat>, prev: seq<nat>, x: char, b: string) {
    && |row| == |prev| == |b| + 1
    && row[0] == prev[0] + 1
    && forall j {:trigger row[j + 1]} :: 0 <= j < |b| ==>
      row[j + 1] == Min(Min(prev[j] + (if x == b[j] then 0 else 1), prev[j + 1] + 1), row[j] + 1)
  }

  lemma RowExists(prev: seq<nat>, a: string, x: char, b: string) returns (row: seq<nat>)
    requires IsRow(prev, a, b)
    ensures IsRow(row, a + [x], b) && Follows(row, prev, x, b)
  {
    row := seq(|b| + 1, j requires 0 <= j <= |b| => Distance(a + [x], b[..j]));
    forall j | 0 <= j < |b|
      ensures row[j + 1] == Min(Min(prev[j] + (if x == b[j] then 0 else 1), prev[j + 1] + 1), row[j] + 1)
    {
      assert b[..j + 1] == b[..j] + [b[j]];
      Cell(a, x, b[..j], b[j]);
    }
  }

  /** The inner loop: the next row, cell by cell. */
  method NextRow(i: nat, x: char, b: string, prev: seq<nat>, ghost row: seq<nat>) returns (cur: seq<nat>)
    requires Follows(row, prev, x, b) && prev[0] == i
    ensures cur == row
  {
    cur := [i + 1];
    for j := 0 to |b|
      invariant cur == row[..j + 1]
    {
      var cost := if x != b[j] then 1 else 0;
      cur := cur + [Min(Min(prev[j] + cost, prev[j + 1] + 1), cur[j] + 1)];
    }
  }

  method EditDistance(a: string, b: string) returns (d: nat)
    ensures d == Distance(a, b)
  {
    var prev: seq<nat> := seq(|b| + 1, j requires 0 <= j => j);
    for i := 0 to |a|
      invariant IsRow(prev, a[..i], b)
    {
      ghost var row := RowExists(prev, a[..i], a[i], b);
      prev := NextRow(i, a[i], b, prev, row);
      assert a[..i + 1] == a[..i] + [a[i]];
    }
    assert a[..|a|] == a && b[..|b|] == b;
    return prev[|b|];
  }

  lemma {:induction false} InsertLast(a: string, b: string) returns (script: seq<Edit>)
    requires b != ""
    ensures Apply(script, a) == Some(b) && Cost(script) == Distance(a, b[..|b| - 1]) + 1
    decreases |a| + |b|, 0
  {
    var s := BestScript(a, b[..|b| - 1]);
    assert b == b[..|b| - 1] + [b[|b| - 1]];
    ApplyLast(s, Insert(b[|b| - 1]), a);
    script := s + [Insert(b[|b| - 1])];
  }

  lemma {:induction false} DeleteLast(a: string, b: string) returns (script: seq<Edit>)
    requires a != ""
    ensures Apply(script, a) == Some(b) && Cost(script) == Distance(a[..|a| - 1], b) + 1
    decreases |a| + |b|, 0
  {
    var s := BestScript(a[..|a| - 1], b);
    ApplyLast(s, Delete, a);
    script := s + [Delete];
  }

  lemma {:induction false} MatchLast(a: string, b: string) returns (script: seq<Edit>)
    requires a != "" && b != ""
    ensures Apply(script, a) == Some(b)
    ensures Cost(script) == Distance(a[..|a| - 1], b[..|b| - 1]) + if a[|a| - 1] == b[|b| - 1] then 0 else 1
    decreases |a| + |b|, 0
  {
    var s := BestScript(a[..|a| - 1], b[..|b| - 1]);
    assert b == b[..|b| - 1] + [b[|b| - 1]];
    var e := if a[|a| - 1] == b[|b| - 1] then Keep else Substitute(b[|b| - 1]);
    ApplyLast(s, e, a);
    script := s + [e];
  }

  /** A script that costs exactly the distance. */
  lemma {:induction false} BestScript(a: string, b: string) returns (script: seq<Edit>)
    ensures Apply(script, a) == Some(b) && Cost(script) == Distance(a, b)
    decreases |a| + |b|, 1
  {
    if a == "" && b == "" {
      script := [];
    } else if a == "" || (b != "" && Distance(a, b) == Distance(a, b[..|b| - 1]) + 1) {
      script := InsertLast(a, b);
    } else if b == "" || Distance(a, b) == Distance(a[..|a| - 1], b) + 1 {
      script := DeleteLast(a, b);
    } else {
      script := MatchLast(a, b);
    }
  }

  /** No script that turns `a` into `b` costs less. */
  lemma {:induction false} NoCheaperScript(script: seq<Edit>, a: string, b: string)
    requires Apply(script, a) == Some(b)
    ensures Distance(a, b) <= Cost(script)
    decreases |script|
  {
    if script != [] {
      var n := |script| - 1;
      match script[n]
      case Insert(c) => NoCheaperScript(script[..n], a, b[..|b| - 1]);
      case Delete => NoCheaperScript(script[..n], a[..|a| - 1], b);
      case _ => NoCheaperScript(script[..n], a[..|a| - 1], b[..|b| - 1]);
    }
  }

  /** The distance is the least number of edits: some script achieves it and none beats it. */
  lemma DistanceIsLeastCost(a: string, b: string)
    ensures exists script :: Apply(script, a) == Some(b) && Cost(script) == Distance(a, b)
    ensures forall script :: Apply(script, a) == Some(b) ==> Distance(a, b) <= Cost(script)
  {
    var best := BestScript(a, b);
    forall script | Apply(script, a) == Some(b)
      ensures Distance(a, b) <= Cost(script)
    {
      NoCheaperScript(script, a, b);
    }
  }

  // ---------------------------------------------------------------- metric laws

  lemma {:induction false} ZeroIffEqual(a: string, b: string)
    ensures Distance(a, b) == 0 <==> a == b
    decreases |a| + |b|
  {
    if a != "" && b != "" {
      ZeroIffEqual(a[..|a| - 1], b[..|b| - 1]);
      assert a == a[..|a| - 1] + [a[|a| - 1]] && b == b[..|b| - 1] + [b[|b| - 1]];
    }
  }

  lemma {:induction false} Symmetric(a: string, b: string)
    ensures Distance(a, b) == Distance(b, a)
    decreases |a| + |b|
  {
    if a != "" && b != "" {
      Symmetric(a[..|a| - 1], b[..|b| - 1]);
      Symmetric(a[..|a| - 1], b);
      Symmetric(a, b[..|b| - 1]);
    }
  }

  lemma {:induction false} Bounds(a: string, b: string)
    ensures |a| - |b| <= Distance(a, b) && |b| - |a| <= Distance(a, b)
    ensures Distance(a, b) <= if |a| < |b| then |b| else |a|
    decreases |a| + |b|
  {
    if a != "" && b != "" {
      Bounds(a[..|a| - 1], b[..|b| - 1]);
      Bounds(a[..|a| - 1], b);
      Bounds(a, b[..|b| - 1]);
    }
  }

  /** Two scripts in a row can be done as one that costs no more than both. */
  lemma {:induction false} Compose(s: seq<Edit>, t: seq<Edit>, a: string, b: string, c: string) returns (u: seq<Edit>)
    requires Apply(s, a) == Some(b) && Apply(t, b) == Some(c)
    ensures Apply(u, a) == Some(c) && Cost(u) <= Cost(s) + Cost(t)
    decreases |s| + |t|
  {
    var m, n := |s| - 1, |t| - 1;
    if t != [] && t[n].Insert? {
      var v := Compose(s, t[..n], a, b, c[..|c| - 1]);
      ApplyLast(v, t[n], a);
      u := v + [t[n]];
    } else if s != [] && s[m].Delete? {
      var v := Compose(s[..m], t, a[..|a| - 1], b, c);
      ApplyLast(v, Delete, a);
      u := v + [Delete];
    } else if s == [] {
      u := [];
    } else {
      u := ComposeMet(s, t, a, b, c);
    }
  }

  /** The last edit of `s` makes the character the last edit of `t` takes. */
  lemma {:induction false} ComposeMet(s: seq<Edit>, t: seq<Edit>, a: string, b: string, c: string) returns (u: seq<Edit>)
    requires Apply(s, a) == Some(b) && Apply(t, b) == Some(c)
    requires s != [] && t != [] && !s[|s| - 1].Delete? && !t[|t| - 1].Insert?
    ensures Apply(u, a) == Some(c) && Cost(u) <= Cost(s) + Cost(t)
    decreases |s| + |t|, 0
  {
    var m, n := |s| - 1, |t| - 1;
    var a' := if s[m].Insert? then a else a[..|a| - 1];
    var c' := if t[n].Delete? then c else c[..|c| - 1];
    var v := Compose(s[..m], t[..n], a', b[..|b| - 1], c');
    if s[m].Insert? && t[n].Delete? {
      u := v;
    } else {
      var e :=
        if t[n].Keep? then s[m]
        else if t[n].Substitute? && s[m].Insert? then Insert(t[n].c)
        else t[n];
      ApplyLast(v, e, a);
      u := v + [e];
    }
  }

  lemma Triangle(a: string, b: string, c: string)
    ensures Distance(a, c) <= Distance(a, b) + Distance(b, c)
  {
    var s := BestScript(a, b);
    var t := BestScript(b, c);
    var u := Compose(s, t, a, b, c);
    NoCheaperScript(u, a, c);
  }

  // ---------------------------------------------------------------- the suggestion

  /** The candidates within three edits, and of those the first of least distance. */
  function Closest(field: string, known: seq<string>): Option<string> {
    if known == [] then None
    else
      var best, k := Closest(field, known[..|known| - 1]), known[|known| - 1];
      if Distance(field, k) <= 3 && (best.None? || Distance(field, k) < Distance(field, best.value)) then Some(k) else best
  }

  function Distances(field: string, known: seq<string>): seq<nat> {
    seq(|known|, j requires 0 <= j < |known| => Distance(field, known[j]))
  }

  ghost predicate FirstLeast(d: seq<nat>, i: nat) {
    && i < |d|
    && (forall j :: 0 <= j < |d| ==> d[i] <= d[j])
    && (forall j :: 0 <= j < i ==> d[i] < d[j])
  }

  lemma {:induction false} FirstLeastExists(d: seq<nat>) returns (i: nat)
    requires d != []
    ensures FirstLeast(d, i)
  {
    i := 0;
    var n := |d| - 1;
    if n > 0 {
      i := FirstLeastExists(d[..n]);
      if d[n] < d[i] {
        i := n;
      }
    }
  }

  lemma DistancesPrefix(field: string, known: seq<string>, n: nat)
    requires n <= |known|
    ensures Distances(field, known[..n]) == Distances(field, known)[..n]
  {
  }

  /** A key is suggested iff some known key is within three edits, and then it is the first nearest one. */
  lemma {:induction false} ClosestIsFirstNearest(field: string, known: seq<string>, i: nat)
    requires FirstLeast(Distances(field, known), i)
    ensures Closest(field, known) == if Distance(field, known[i]) <= 3 then Some(known[i]) else None
  {
    var d, n := Distances(field, known), |known| - 1;
    assert d[n] == Distance(field, known[n]) && d[i] == Distance(field, known[i]);
    DistancesPrefix(field, known, n);
    if i < n {
      ClosestIsFirstNearest(field, known[..n], i);
    } else if n > 0 {
      var j := FirstLeastExists(d[..n]);
      ClosestIsFirstNearest(field, known[..n], j);
    }
  }

  lemma NoSuggestionIffAllFar(field: string, known: seq<string>)
    ensures Closest(field, known).None? <==> forall k :: k in known ==> Distance(field, k) > 3
  {
    if known != [] {
      var i := FirstLeastExists(Distances(field, known));
      ClosestIsFirstNearest(field, known, i);
      forall k | k in known
        ensures Distance(field, known[i]) <= Distance(field, k)
      {
        var j :| 0 <= j < |known| && known[j] == k;
        assert Distances(field, known)[j] == Distance(field, k);
      }
    }
  }
}
