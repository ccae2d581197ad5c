/**
 * The router's list of loaded models (tools/fake-llama-server/src/engine.rs): bounded by
 * `max_loaded`, first in, first out.
 */
module RouterResidency {
  import opened Prelude

  type Model = string

  /** The last `max` entries: what is left after removing from the front until the bound is met. */
  function Trim(l: seq<Model>, max: Option<nat>): seq<Model> {
    if max.Some? && |l| > max.value then l[|l| - max.value..] else l
  }

  function Load(l: seq<Model>, max: Option<nat>, id: Model): seq<Model> {
    if id in l then l else Trim(l + [id], max)
  }

  function Without(l: seq<Model>, id: Model): seq<Model> {
    if l == [] then []
    else (if l[0] == id then [] else [l[0]]) + Without(l[1..], id)
  }

  /** The models a scenario marks as loaded from the start; nothing bounds their number. */
  function InitiallyLoaded(models: seq<(Model, bool)>): seq<Model> {
    if models == [] then []
    else
      var last := models[|models| - 1];
      InitiallyLoaded(models[..|models| - 1]) + if last.1 then [last.0] else []
  }

  /** `at` says where each entry of `loaded` comes from: all marked models and no other, in their order. */
  ghost predicate AreMarkedAt(loaded: seq<Model>, models: seq<(Model, bool)>, at: seq<nat>) {
    && |at| == |loaded|
    && (forall k :: 0 <= k < |at| ==> at[k] < |models| && models[at[k]] == (loaded[k], true))
    && (forall j, k :: 0 <= j < k < |at| ==> at[j] < at[k])
    && (forall i: nat :: i < |models| && models[i].1 ==> i in at)
  }

  lemma MarkedGrows(loaded: seq<Model>, models: seq<(Model, bool)>, at: seq<nat>, model: (Model, bool))
    requires AreMarkedAt(loaded, models, at)
    ensures
      if model.1 then AreMarkedAt(loaded + [model.0], models + [model], at + [|models|])
      else AreMarkedAt(loaded, models + [model], at)
  {
    var at' := if model.1 then at + [|models|] else at;
    forall i: nat | i <= |models| && (models + [model])[i].1
      ensures i in at'
    {
      if i < |models| {
        assert models[i].1 && i in at;
      } else {
        assert at'[|at|] == i;
      }
    }
  }

  lemma {:induction false} InitialKeepsOrder(models: seq<(Model, bool)>) returns (at: seq<nat>)
    ensures AreMarkedAt(InitiallyLoaded(models), models, at)
  {
    if models == [] {
      at := [];
    } else {
      var n := |models| - 1;
      at := InitialKeepsOrder(models[..n]);
      MarkedGrows(InitiallyLoaded(models[..n]), models[..n], at, models[n]);
      assert models == models[..n] + [models[n]];
      at := if models[n].1 then at + [n] else at;
    }
  }

  /** With different ids the list starts duplicate-free, and within any bound that is not exceeded by the marks. */
  lemma InitialFits(models: seq<(Model, bool)>, max: Option<nat>)
    requires forall i, j :: 0 <= i < j < |models| ==> models[i].0 != models[j].0
    ensures Distinct(InitiallyLoaded(models))
    ensures Fits(InitiallyLoaded(models), max) <==> max.None? || |InitiallyLoaded(models)| <= max.value
  {
    var at := InitialKeepsOrder(models);
    var l := InitiallyLoaded(models);
    forall j, k | 0 <= j < k < |l|
      ensures l[j] != l[k]
    {
      assert models[at[j]].0 != models[at[k]].0;
    }
  }

  class Shared {
    var loaded: seq<Model>
    const maxLoaded: Option<nat>

    constructor (models: seq<(Model, bool)>, maxLoaded: Option<nat>)
      ensures this.maxLoaded == maxLoaded
      ensures loaded == InitiallyLoaded(models)
      ensures exists at :: AreMarkedAt(loaded, models, at)
    {
      this.maxLoaded := maxLoaded;
      loaded := [];
      new;
      for n := 0 to |models|
        invariant loaded == InitiallyLoaded(models[..n])
      {
        assert models[..n + 1][..n] == models[..n];
        if models[n].1 {
          loaded := loaded + [models[n].0];
        }
      }
      assert models[..|models|] == models;
      ghost var at := InitialKeepsOrder(models);
    }

    method LoadModel(id: Model)
      modifies this`loaded
      ensures loaded == Load(old(loaded), maxLoaded, id)
    {
      if id in loaded {
        return;
      }
      loaded := loaded + [id];
      if maxLoaded.Some? {
        var max := maxLoaded.value;
        ghost var all := loaded;
        ghost var dropped := 0;
        while |loaded| > max
          invariant 0 <= dropped <= |all| && loaded == all[dropped..]
          invariant dropped > 0 ==> |loaded| >= max
        {
          loaded := loaded[1..];
          dropped := dropped + 1;
        }
      }
    }

    method Unload(id: Model)
      modifies this`loaded
      ensures loaded == Without(old(loaded), id)
    {
      var kept: seq<Model> := [];
      var n := 0;
      while n < |loaded|
        invariant 0 <= n <= |loaded|
        invariant Without(loaded, id) == kept + Without(loaded[n..], id)
      {
        assert loaded[n..][0] == loaded[n] && loaded[n..][1..] == loaded[n + 1..];
        if loaded[n] != id {
          kept := kept + [loaded[n]];
        }
        n := n + 1;
      }
      assert loaded[n..] == [];
      loaded := kept;
    }
  }

  // ---------------------------------------------------------------- histories

  datatype Op = LoadOp(id: Model) | UnloadOp(id: Model)

  /** The list after the first `n` operations. */
  function After(init: seq<Model>, max: Option<nat>, ops: seq<Op>, n: nat): seq<Model>
    requires n <= |ops|
  {
    if n == 0 then init
    else
      var before := After(init, max, ops, n - 1);
      match ops[n - 1]
      case LoadOp(id) => Load(before, max, id)
      case UnloadOp(id) => Without(before, id)
  }

  /** When the residency of `id` that is current after `n` operations began; 0 is "from the start". */
  function Began(init: seq<Model>, max: Option<nat>, ops: seq<Op>, n: nat, id: Model): nat
    requires n <= |ops|
  {
    if n == 0 then 0
    else if id in After(init, max, ops, n - 1) then Began(init, max, ops, n - 1, id)
    else n
  }

  ghost predicate Fits(l: seq<Model>, max: Option<nat>) {
    Distinct(l) && (max.Some? ==> |l| <= max.value)
  }

  /** When each entry of the list began to be resident. */
  function Dates(init: seq<Model>, max: Option<nat>, ops: seq<Op>, n: nat): (d: seq<nat>)
    requires n <= |ops|
    ensures |d| == |After(init, max, ops, n)|
  {
    var l := After(init, max, ops, n);
    seq(|l|, i requires 0 <= i < |l| => Began(init, max, ops, n, l[i]))
  }

  /** Rising, and strictly so after the start; nothing began after now. */
  ghost predicate Rising(d: seq<nat>, now: nat) {
    && (forall i, j :: 0 <= i < j < |d| ==> d[i] <= d[j] && (d[j] > 0 ==> d[i] < d[j]))
    && (forall i :: 0 <= i < |d| ==> d[i] <= now)
  }

  /** Earlier in the list means resident for longer. */
  ghost predicate OldestFirst(init: seq<Model>, max: Option<nat>, ops: seq<Op>, n: nat)
    requires n <= |ops|
  {
    Rising(Dates(init, max, ops, n), n)
  }

  /** Where each entry of `Without(l, id)` sits in `l`: order is kept. */
  lemma {:induction false} WithoutPositions(l: seq<Model>, id: Model) returns (at: seq<nat>)
    ensures |at| == |Without(l, id)|
    ensures forall k :: 0 <= k < |at| ==> at[k] < |l| && Without(l, id)[k] == l[at[k]] && l[at[k]] != id
    ensures forall j, k :: 0 <= j < k < |at| ==> at[j] < at[k]
    ensures forall x :: x in Without(l, id) <==> x in l && x != id
  {
    if l == [] {
      at := [];
    } else {
      var rest := WithoutPositions(l[1..], id);
      var shifted := seq(|rest|, k requires 0 <= k < |rest| => rest[k] + 1);
      at := (if l[0] == id then [] else [0]) + shifted;
      assert l == [l[0]] + l[1..];
    }
  }

  /**
   * A load of a resident model changes nothing; any other load puts the model last and, only when the
   * list is full, drops the first entry and nothing else.
   */
  lemma LoadEvictsTheFirst(l: seq<Model>, max: Option<nat>, id: Model)
    requires Fits(l, max)
    ensures Fits(Load(l, max, id), max)
    ensures id in Load(l, max, id) <==> id in l || max != Some(0)
    ensures forall x :: x in Load(l, max, id) ==> x in l || x == id
    ensures id in l ==> Load(l, max, id) == l
    ensures id !in l && (max.None? || |l| < max.value) ==> Load(l, max, id) == l + [id]
    ensures id !in l && max.Some? && 0 < |l| == max.value ==> Load(l, max, id) == l[1..] + [id]
  {
    var l' := Load(l, max, id);
    if id !in l && max != Some(0) {
      assert l'[|l'| - 1] == id;
    }
  }

  /** A list that started over the bound is cut down by the first load of a new model, and only then. */
  lemma BoundAfterLoad(l: seq<Model>, max: nat, id: Model)
    ensures |Load(l, Some(max), id)| <= max <==> id !in l || |l| <= max
  {
  }

  lemma RisingPicked(d: seq<nat>, d': seq<nat>, at: seq<nat>, now: nat)
    requires Rising(d, now) && |d'| == |at|
    requires forall k :: 0 <= k < |at| ==> at[k] < |d| && d'[k] == d[at[k]]
    requires forall j, k :: 0 <= j < k < |at| ==> at[j] < at[k]
    ensures Rising(d', now + 1)
  {
  }

  lemma RisingPushed(d: seq<nat>, k: nat, now: nat)
    requires Rising(d, now) && k <= |d|
    ensures Rising(d[k..] + [now + 1], now + 1)
  {
    var d' := d[k..] + [now + 1];
    forall i | 0 <= i < |d'|
      ensures d'[i] == if i < |d| - k then d[i + k] else now + 1
    {
    }
  }

  lemma DistinctPicked(l: seq<Model>, l': seq<Model>, at: seq<nat>)
    requires Distinct(l) && |at| == |l'|
    requires forall k :: 0 <= k < |at| ==> at[k] < |l| && l'[k] == l[at[k]]
    requires forall j, k :: 0 <= j < k < |at| ==> at[j] < at[k]
    ensures Distinct(l') && |l'| <= |l|
  {
    Positions(l, l', at);
  }

  lemma UnloadKeepsOrder(init: seq<Model>, max: Option<nat>, ops: seq<Op>, n: nat)
    requires n < |ops| && ops[n].UnloadOp? && IsFifoAfter(init, max, ops, n)
    ensures IsFifoAfter(init, max, ops, n + 1)
  {
    var l, l' := After(init, max, ops, n), After(init, max, ops, n + 1);
    var d, d' := Dates(init, max, ops, n), Dates(init, max, ops, n + 1);
    var at := WithoutPositions(l, ops[n].id);
    DistinctPicked(l, l', at);
    forall i | 0 <= i < |l'|
      ensures d'[i] == d[at[i]]
    {
      assert l'[i] in l;
    }
    RisingPicked(d, d', at, n);
  }

  /** A list picked from another at rising positions is no longer than it. */
  lemma {:induction false} Positions(l: seq<Model>, l': seq<Model>, at: seq<nat>)
    requires |at| == |l'|
    requires forall k :: 0 <= k < |at| ==> at[k] < |l|
    requires forall j, k :: 0 <= j < k < |at| ==> at[j] < at[k]
    ensures |l'| <= |l|
    ensures |at| > 0 ==> at[|at| - 1] >= |at| - 1
  {
    if |at| > 0 {
      Positions(l, l'[..|at| - 1], at[..|at| - 1]);
      assert at[|at| - 1] < |l|;
    }
  }

  /** What is left of the old list keeps its dates; the new model is dated now. */
  lemma LoadDates(init: seq<Model>, max: Option<nat>, ops: seq<Op>, n: nat) returns (k: nat)
    requires n < |ops| && ops[n].LoadOp? && Fits(After(init, max, ops, n), max)
    requires ops[n].id !in After(init, max, ops, n) && max != Some(0)
    ensures k <= |After(init, max, ops, n)|
    ensures Dates(init, max, ops, n + 1) == Dates(init, max, ops, n)[k..] + [n + 1]
  {
    var l, id := After(init, max, ops, n), ops[n].id;
    var d, d' := Dates(init, max, ops, n), Dates(init, max, ops, n + 1);
    k := LoadDrops(l, max, id);
    forall i | 0 <= i < |d'|
      ensures d'[i] == (d[k..] + [n + 1])[i]
    {
      NextDate(init, max, ops, n, Load(l, max, id)[i]);
    }
  }

  lemma LoadDrops(l: seq<Model>, max: Option<nat>, id: Model) returns (k: nat)
    requires Fits(l, max) && id !in l && max != Some(0)
    ensures k <= |l| && Load(l, max, id) == l[k..] + [id]
  {
    LoadEvictsTheFirst(l, max, id);
    k := if max.Some? && |l| == max.value then 1 else 0;
  }

  lemma NextDate(init: seq<Model>, max: Option<nat>, ops: seq<Op>, n: nat, x: Model)
    requires n < |ops|
    ensures Began(init, max, ops, n + 1, x) == if x in After(init, max, ops, n) then Began(init, max, ops, n, x) else n + 1
  {
  }

  lemma LoadKeepsOrder(init: seq<Model>, max: Option<nat>, ops: seq<Op>, n: nat)
    requires n < |ops| && ops[n].LoadOp? && IsFifoAfter(init, max, ops, n)
    ensures IsFifoAfter(init, max, ops, n + 1)
  {
    var l, id := After(init, max, ops, n), ops[n].id;
    LoadEvictsTheFirst(l, max, id);
    if id in l {
      assert Dates(init, max, ops, n + 1) == Dates(init, max, ops, n);
    } else if max != Some(0) {
      var k := LoadDates(init, max, ops, n);
      RisingPushed(Dates(init, max, ops, n), k, n);
    }
  }

  ghost predicate IsFifoAfter(init: seq<Model>, max: Option<nat>, ops: seq<Op>, n: nat)
    requires n <= |ops|
  {
    Fits(After(init, max, ops, n), max) && OldestFirst(init, max, ops, n)
  }

  lemma StartIsFifo(init: seq<Model>, max: Option<nat>, ops: seq<Op>)
    requires Fits(init, max)
    ensures IsFifoAfter(init, max, ops, 0)
  {
  }

  lemma OperationKeepsFifo(init: seq<Model>, max: Option<nat>, ops: seq<Op>, n: nat)
    requires n < |ops| && IsFifoAfter(init, max, ops, n)
    ensures IsFifoAfter(init, max, ops, n + 1)
  {
    if ops[n].LoadOp? {
      LoadKeepsOrder(init, max, ops, n);
    } else {
      UnloadKeepsOrder(init, max, ops, n);
    }
  }

  /**
   * After any operations the list has no duplicates, meets the bound, and is ordered by when each
   * current residency began.
   */
  lemma {:induction false} ResidencyIsFifo(init: seq<Model>, max: Option<nat>, ops: seq<Op>, n: nat)
    requires Fits(init, max) && n <= |ops|
    ensures IsFifoAfter(init, max, ops, n)
  {
    if n == 0 {
      StartIsFifo(init, max, ops);
    } else {
      ResidencyIsFifo(init, max, ops, n - 1);
      OperationKeepsFifo(init, max, ops, n - 1);
    }
  }

  /** What a load takes away is the first entry, alone. */
  lemma OnlyTheFirstGoes(l: seq<Model>, max: Option<nat>, id: Model, x: Model)
    requires Fits(l, max) && max != Some(0) && x in l && x !in Load(l, max, id)
    ensures x == l[0] && forall y :: y in l && y != x ==> y in Load(l, max, id)
  {
    LoadEvictsTheFirst(l, max, id);
    assert Load(l, max, id) == l[1..] + [id];
    assert l == [l[0]] + l[1..];
  }

  lemma FirstIsOldest(init: seq<Model>, max: Option<nat>, ops: seq<Op>, n: nat, y: Model)
    requires n <= |ops| && OldestFirst(init, max, ops, n) && y in After(init, max, ops, n)
    ensures Began(init, max, ops, n, After(init, max, ops, n)[0]) <= Began(init, max, ops, n, y)
  {
    var l, d := After(init, max, ops, n), Dates(init, max, ops, n);
    var j :| 0 <= j < |l| && l[j] == y;
    assert d[0] <= d[j];
  }

  /** What one operation of a history takes away: an unloaded model, or the one resident the longest. */
  lemma EvictionTakesTheOldest(init: seq<Model>, max: Option<nat>, ops: seq<Op>, n: nat, x: Model)
    requires Fits(init, max) && max != Some(0) && n < |ops|
    requires x in After(init, max, ops, n) && x !in After(init, max, ops, n + 1)
    ensures ops[n] == UnloadOp(x) ||
            (ops[n].LoadOp? && forall y :: y in After(init, max, ops, n) && y != x ==>
              y in After(init, max, ops, n + 1) && Began(init, max, ops, n, x) <= Began(init, max, ops, n, y))
  {
    ResidencyIsFifo(init, max, ops, n);
    var l := After(init, max, ops, n);
    match ops[n]
    case LoadOp(id) =>
      OnlyTheFirstGoes(l, max, id, x);
      forall y | y in l
        ensures Began(init, max, ops, n, x) <= Began(init, max, ops, n, y)
      {
        FirstIsOldest(init, max, ops, n, y);
      }
    case UnloadOp(id) => var at := WithoutPositions(l, id);
  }
}
