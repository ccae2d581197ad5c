/** `runtime_tree` (src/process.rs): the runtime's main PID and everything below it. */
module RuntimeTree {
  import opened Prelude

  /** One reading of /proc: the PIDs in listing order, and the `PPid:` of those that could be read. */
  datatype Snapshot = Snapshot(pids: seq<nat>, ppid: map<nat, nat>)

  predicate IsChild(snap: Snapshot, parent: nat, pid: nat) {
    pid in snap.pids && pid in snap.ppid && snap.ppid[pid] == parent
  }

  // ---------------------------------------------------------------- what the list is

  /**
   * A walk over `tree` that read `seen[i]` to expand `tree[i]`, as far as it got: no PID twice, no
   * child left out of an expanded PID, and nothing but the root and children of earlier entries.
   */
  ghost predicate IsListing(tree: seq<nat>, seen: seq<Snapshot>, root: nat) {
    && 0 < |tree| && |seen| <= |tree| && tree[0] == root
    && Distinct(tree)
    && (forall i, c :: 0 <= i < |seen| && IsChild(seen[i], tree[i], c) ==> c in tree)
    && (forall k :: 0 < k < |tree| ==> HasParent(tree, seen, k))
  }

  ghost predicate HasParent(tree: seq<nat>, seen: seq<Snapshot>, k: nat)
    requires k < |tree|
  {
    exists i :: 0 <= i < k && i < |seen| && IsChild(seen[i], tree[i], tree[k])
  }

  ghost predicate IsWholeListing(tree: seq<nat>, seen: seq<Snapshot>, root: nat) {
    IsListing(tree, seen, root) && |seen| == |tree|
  }

  /** `chain` starts at `root`, and each later entry is, at every reading, a child of the one before it. */
  ghost predicate IsStandingChain(seen: seq<Snapshot>, root: nat, chain: seq<nat>) {
    && |chain| > 0
    && chain[0] == root
    && forall n, k :: 0 <= n < |seen| && 0 < k < |chain| ==> IsChild(seen[n], chain[k - 1], chain[k])
  }

  /** Below the root, by the same links, for as long as the walk took. */
  ghost predicate StandsInTree(seen: seq<Snapshot>, root: nat, pid: nat) {
    exists chain :: IsStandingChain(seen, root, chain) && chain[|chain| - 1] == pid
  }

  /** Each entry of `chain` after the root was, at some reading, a child of the one before it. */
  ghost predicate IsSeenChain(seen: seq<Snapshot>, root: nat, chain: seq<nat>) {
    && |chain| > 0
    && chain[0] == root
    && forall k :: 0 < k < |chain| ==> SeenLink(seen, chain[k - 1], chain[k])
  }

  ghost predicate SeenLink(seen: seq<Snapshot>, parent: nat, pid: nat) {
    exists n :: 0 <= n < |seen| && IsChild(seen[n], parent, pid)
  }

  ghost predicate SeenInTree(seen: seq<Snapshot>, root: nat, pid: nat) {
    exists chain :: IsSeenChain(seen, root, chain) && chain[|chain| - 1] == pid
  }

  // ---------------------------------------------------------------- the walk

  /** One pass over the listing: the children of `parent` that are not in the list yet go to its end. */
  function WithChildren(tree: seq<nat>, pids: seq<nat>, snap: Snapshot, parent: nat): seq<nat> {
    if pids == [] then tree
    else
      var n := |pids| - 1;
      var before := WithChildren(tree, pids[..n], snap, parent);
      var pid := pids[n];
      if pid in snap.ppid && snap.ppid[pid] == parent && pid !in before then before + [pid] else before
  }

  function Expand(tree: seq<nat>, snap: Snapshot, parent: nat): seq<nat> {
    WithChildren(tree, snap.pids, snap, parent)
  }

  lemma {:induction false} ChildrenAreAdded(tree: seq<nat>, pids: seq<nat>, snap: Snapshot, parent: nat)
    requires Distinct(tree)
    ensures
      var tree' := WithChildren(tree, pids, snap, parent);
      && Distinct(tree') && tree <= tree'
      && forall p :: p in tree' <==> p in tree || (p in pids && p in snap.ppid && snap.ppid[p] == parent)
  {
    if pids != [] {
      var n := |pids| - 1;
      ChildrenAreAdded(tree, pids[..n], snap, parent);
      assert pids == pids[..n] + [pids[n]];
    }
  }

  method AddChildren(snap: Snapshot, parent: nat, tree0: seq<nat>) returns (tree: seq<nat>)
    requires Distinct(tree0)
    ensures tree == Expand(tree0, snap, parent)
    ensures Distinct(tree)
    ensures tree0 <= tree
    ensures forall p :: p in tree <==> p in tree0 || IsChild(snap, parent, p)
  {
    tree := tree0;
    for n := 0 to |snap.pids|
      invariant tree == WithChildren(tree0, snap.pids[..n], snap, parent)
    {
      assert snap.pids[..n + 1][..n] == snap.pids[..n];
      var pid := snap.pids[n];
      if pid in snap.ppid && snap.ppid[pid] == parent && pid !in tree {
        tree := tree + [pid];
      }
    }
    assert snap.pids[..|snap.pids|] == snap.pids;
    ChildrenAreAdded(tree0, snap.pids, snap, parent);
  }

  lemma RootIsListing(root: nat)
    ensures IsListing([root], [], root)
  {
  }

  /** Expanding the next entry keeps the list a listing, whatever /proc says by then. */
  lemma ExpandKeepsListing(tree: seq<nat>, seen: seq<Snapshot>, root: nat, snap: Snapshot)
    requires IsListing(tree, seen, root) && |seen| < |tree|
    ensures IsListing(Expand(tree, snap, tree[|seen|]), seen + [snap], root)
  {
    var n := |seen|;
    var tree', seen' := Expand(tree, snap, tree[n]), seen + [snap];
    ChildrenAreAdded(tree, snap.pids, snap, tree[n]);
    forall k | 0 < k < |tree'|
      ensures HasParent(tree', seen', k)
    {
      if k < |tree| {
        assert HasParent(tree, seen, k);
        var i :| 0 <= i < k && i < |seen| && IsChild(seen[i], tree[i], tree[k]);
        assert IsChild(seen'[i], tree'[i], tree'[k]);
      } else {
        assert tree'[k] !in tree;
        assert IsChild(seen'[n], tree'[n], tree'[k]);
      }
    }
    forall i, c | 0 <= i < |seen'| && IsChild(seen'[i], tree'[i], c)
      ensures c in tree'
    {
      assert i < n ==> IsChild(seen[i], tree[i], c);
    }
  }

  /** Nothing is listed but the root and PIDs that some reading showed. */
  lemma ListedIsKnown(tree: seq<nat>, seen: seq<Snapshot>, root: nat, pids: set<nat>)
    requires IsListing(tree, seen, root)
    requires forall n, p :: 0 <= n < |seen| && p in seen[n].pids ==> p in pids
    ensures |tree| <= |pids + {root}|
  {
    forall p | p in tree
      ensures p in pids + {root}
    {
      var k :| 0 <= k < |tree| && tree[k] == p;
      assert k > 0 ==> HasParent(tree, seen, k);
    }
    DistinctFits(tree, pids + {root});
  }

  /**
   * `proc(i)` is what /proc says while `tree[i]` is expanded; it may change in between. The list grows
   * while the index walks it, and stops because there are only so many PIDs. A missing or zero main PID
   * gives the empty list.
   */
  method Walk(mainPid: Option<nat>, proc: nat -> Snapshot, ghost pids: set<nat>) returns (tree: seq<nat>)
    requires forall i: nat, p :: p in proc(i).pids ==> p in pids
    ensures mainPid.None? || mainPid.value == 0 ==> tree == []
    ensures mainPid.Some? && mainPid.value > 0 ==> IsWholeListing(tree, seq(|tree|, i requires 0 <= i < |tree| => proc(i)), mainPid.value)
  {
    if mainPid.None? || mainPid.value == 0 {
      return [];
    }
    var root := mainPid.value;
    tree := [root];
    var i := 0;
    ghost var seen: seq<Snapshot> := [];
    while i < |tree|
      invariant 0 <= i <= |tree| && |seen| == i
      invariant forall n :: 0 <= n < i ==> seen[n] == proc(n)
      invariant IsListing(tree, seen, root)
      decreases |pids + {root}| - i
    {
      ListedIsKnown(tree, seen, root, pids);
      ExpandKeepsListing(tree, seen, root, proc(i));
      tree := AddChildren(proc(i), tree[i], tree);
      seen := seen + [proc(i)];
      i := i + 1;
    }
    assert seen == seq(|tree|, i requires 0 <= i < |tree| => proc(i));
  }

  // ---------------------------------------------------------------- what the list means

  /** Whatever is below the root throughout the walk is listed. */
  lemma {:induction false} StandingIsListed(tree: seq<nat>, seen: seq<Snapshot>, root: nat, chain: seq<nat>)
    requires IsWholeListing(tree, seen, root) && IsStandingChain(seen, root, chain)
    ensures chain[|chain| - 1] in tree
  {
    if |chain| > 1 {
      var n := |chain| - 1;
      StandingIsListed(tree, seen, root, chain[..n]);
      var i :| 0 <= i < |tree| && tree[i] == chain[n - 1];
      assert IsChild(seen[i], chain[n - 1], chain[n]);
    }
  }

  /** Whatever is listed was linked to the root, each link at some reading. */
  lemma {:induction false} ListedIsSeen(tree: seq<nat>, seen: seq<Snapshot>, root: nat, k: nat)
    requires IsListing(tree, seen, root) && k < |tree|
    ensures SeenInTree(seen, root, tree[k])
    decreases k
  {
    if k == 0 {
      assert IsSeenChain(seen, root, [root]);
    } else {
      assert HasParent(tree, seen, k);
      var i :| 0 <= i < k && i < |seen| && IsChild(seen[i], tree[i], tree[k]);
      ListedIsSeen(tree, seen, root, i);
      var chain :| IsSeenChain(seen, root, chain) && chain[|chain| - 1] == tree[i];
      var longer := chain + [tree[k]];
      assert SeenLink(seen, tree[i], tree[k]);
      assert IsSeenChain(seen, root, longer) && longer[|longer| - 1] == tree[k];
    }
  }

  /**
   * Between the two: all that stood below the root is listed, and nothing that was never linked to it.
   * While the processes stay as they are, both are the tree.
   */
  lemma ListingIsTheTree(tree: seq<nat>, seen: seq<Snapshot>, root: nat, pid: nat)
    requires IsWholeListing(tree, seen, root)
    ensures StandsInTree(seen, root, pid) ==> pid in tree
    ensures pid in tree ==> SeenInTree(seen, root, pid)
    ensures (forall n :: 0 <= n < |seen| ==> seen[n] == seen[0]) ==> (pid in tree <==> StandsInTree(seen, root, pid))
  {
    if StandsInTree(seen, root, pid) {
      var chain :| IsStandingChain(seen, root, chain) && chain[|chain| - 1] == pid;
      StandingIsListed(tree, seen, root, chain);
    }
    if pid in tree {
      var k :| 0 <= k < |tree| && tree[k] == pid;
      ListedIsSeen(tree, seen, root, k);
      if forall n :: 0 <= n < |seen| ==> seen[n] == seen[0] {
        SeenStands(seen, root, pid);
      }
    }
  }

  lemma SeenStands(seen: seq<Snapshot>, root: nat, pid: nat)
    requires SeenInTree(seen, root, pid) && forall n :: 0 <= n < |seen| ==> seen[n] == seen[0]
    ensures StandsInTree(seen, root, pid)
  {
    var chain :| IsSeenChain(seen, root, chain) && chain[|chain| - 1] == pid;
    forall n, k | 0 <= n < |seen| && 0 < k < |chain|
      ensures IsChild(seen[n], chain[k - 1], chain[k])
    {
      assert SeenLink(seen, chain[k - 1], chain[k]);
    }
    assert IsStandingChain(seen, root, chain);
  }
}
