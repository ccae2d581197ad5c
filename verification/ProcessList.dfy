/** The process table (src/process.rs) and the operator's cursor in its two panes (src/app.rs). */
module ProcessList {
  import opened Prelude

  datatype ProcessInfo = ProcessInfo(
    pid: nat, name: string, memoryBytes: nat, gpuMemoryBytes: Option<nat>, gpuMemoryReason: Option<string>,
    command: Option<string>, startTimeTicks: nat, uid: nat)

  datatype GpuApp = GpuApp(pid: nat, name: string, usedMemoryBytes: Option<nat>, reason: Option<string>)

  datatype Identity = Identity(startTimeTicks: nat, uid: nat)

  const NOT_A_GPU_PROCESS := "not a GPU process"

  function Pids(rows: seq<ProcessInfo>): (r: seq<nat>)
    ensures |r| == |rows| && forall i :: 0 <= i < |rows| ==> r[i] == rows[i].pid
  {
    seq(|rows|, i requires 0 <= i < |rows| => rows[i].pid)
  }

  /** One row per PID. */
  ghost predicate OnePerPid(rows: seq<ProcessInfo>) {
    Distinct(Pids(rows))
  }

  /** The first row with the PID. */
  function Position(rows: seq<ProcessInfo>, pid: nat): (r: Option<nat>)
    ensures r.Some? ==> r.value < |rows| && rows[r.value].pid == pid
    ensures forall i :: 0 <= i < (if r.Some? then r.value else |rows|) ==> rows[i].pid != pid
  {
    if rows == [] then None
    else if rows[0].pid == pid then Some(0)
    else
      var r := Position(rows[1..], pid);
      if r.Some? then Some(r.value + 1) else None
  }

  // ---------------------------------------------------------------- table

  function Deduplicated(raw: seq<ProcessInfo>): seq<ProcessInfo> {
    if raw == [] then []
    else
      var n := |raw| - 1;
      var rows := Deduplicated(raw[..n]);
      if Position(rows, raw[n].pid).Some? then rows else rows + [raw[n]]
  }

  function WithGpu(p: ProcessInfo, g: GpuApp): ProcessInfo {
    p.(gpuMemoryBytes := g.usedMemoryBytes, gpuMemoryReason := g.reason)
  }

  function Merged(rows: seq<ProcessInfo>, g: GpuApp, ids: map<nat, Identity>): seq<ProcessInfo> {
    var at := Position(rows, g.pid);
    if at.Some? then rows[at.value := WithGpu(rows[at.value], g)]
    else if g.pid in ids then
      rows + [ProcessInfo(g.pid, g.name, 0, g.usedMemoryBytes, g.reason, None, ids[g.pid].startTimeTicks, ids[g.pid].uid)]
    else rows
  }

  function Table(raw: seq<ProcessInfo>, gpu: seq<GpuApp>, ids: map<nat, Identity>): seq<ProcessInfo> {
    if gpu == [] then Deduplicated(raw)
    else Merged(Table(raw, gpu[..|gpu| - 1], ids), gpu[|gpu| - 1], ids)
  }

  /** `ids` stands for the identities /proc gives for PIDs only nvidia-smi knows. */
  method BuildTable(raw: seq<ProcessInfo>, gpu: seq<GpuApp>, ids: map<nat, Identity>) returns (out: seq<ProcessInfo>)
    ensures out == Table(raw, gpu, ids)
  {
    var seen: set<nat> := {};
    out := [];
    for n := 0 to |raw|
      invariant out == Deduplicated(raw[..n])
      invariant forall p :: p in seen <==> p in Pids(out)
    {
      assert raw[..n + 1][..n] == raw[..n];
      var before := out;
      if raw[n].pid !in seen {
        seen := seen + {raw[n].pid};
        out := out + [raw[n]];
        assert Pids(out) == Pids(before) + [raw[n].pid];
      }
    }
    assert raw[..|raw|] == raw;
    for n := 0 to |gpu|
      invariant out == Table(raw, gpu[..n], ids)
    {
      assert gpu[..n + 1][..n] == gpu[..n];
      var g := gpu[n];
      var at := Position(out, g.pid);
      if at.Some? {
        out := out[at.value := WithGpu(out[at.value], g)];
      } else if g.pid in ids {
        out := out + [ProcessInfo(g.pid, g.name, 0, g.usedMemoryBytes, g.reason, None, ids[g.pid].startTimeTicks, ids[g.pid].uid)];
      }
    }
    assert gpu[..|gpu|] == gpu;
  }

  lemma {:induction false} DeduplicatedIsOnePerPid(raw: seq<ProcessInfo>)
    ensures OnePerPid(Deduplicated(raw))
    ensures forall p :: p in Pids(Deduplicated(raw)) <==> p in Pids(raw)
    ensures forall i :: 0 <= i < |raw| && (forall j :: 0 <= j < i ==> raw[j].pid != raw[i].pid) ==> raw[i] in Deduplicated(raw)
  {
    if raw != [] {
      var n := |raw| - 1;
      DeduplicatedIsOnePerPid(raw[..n]);
      var rows := Deduplicated(raw[..n]);
      assert Pids(raw) == Pids(raw[..n]) + [raw[n].pid];
      assert Pids(rows + [raw[n]]) == Pids(rows) + [raw[n].pid];
      var at := Position(rows, raw[n].pid);
      if at.Some? {
        assert Pids(rows)[at.value] in Pids(rows);
        assert raw[n].pid in Pids(raw[..n]);
      }
    }
  }

  lemma MergedIsOnePerPid(rows: seq<ProcessInfo>, g: GpuApp, ids: map<nat, Identity>)
    requires OnePerPid(rows)
    ensures OnePerPid(Merged(rows, g, ids))
    ensures Pids(rows) <= Pids(Merged(rows, g, ids))
    ensures |Merged(rows, g, ids)| <= |rows| + 1
    ensures |Merged(rows, g, ids)| > |rows| ==> Pids(Merged(rows, g, ids))[|rows|] == g.pid
  {
  }

  /** The table has one row per PID, and one for every PID listed; GPU data never moves a row. */
  lemma {:induction false} TableIsOnePerPid(raw: seq<ProcessInfo>, gpu: seq<GpuApp>, ids: map<nat, Identity>)
    ensures OnePerPid(Table(raw, gpu, ids))
    ensures Pids(Deduplicated(raw)) <= Pids(Table(raw, gpu, ids))
  {
    if gpu == [] {
      DeduplicatedIsOnePerPid(raw);
    } else {
      TableIsOnePerPid(raw, gpu[..|gpu| - 1], ids);
      MergedIsOnePerPid(Table(raw, gpu[..|gpu| - 1], ids), gpu[|gpu| - 1], ids);
    }
  }

  /** The identity a signal is checked against comes from the row's own source, never from GPU data. */
  lemma {:induction false} TableKeepsIdentity(raw: seq<ProcessInfo>, gpu: seq<GpuApp>, ids: map<nat, Identity>, i: nat)
    requires i < |Table(raw, gpu, ids)|
    ensures
      var row := Table(raw, gpu, ids)[i];
      || (i < |Deduplicated(raw)| && row == Deduplicated(raw)[i].(gpuMemoryBytes := row.gpuMemoryBytes, gpuMemoryReason := row.gpuMemoryReason))
      || (row.pid in ids && ids[row.pid] == Identity(row.startTimeTicks, row.uid))
  {
    if gpu != [] && i < |Table(raw, gpu[..|gpu| - 1], ids)| {
      TableKeepsIdentity(raw, gpu[..|gpu| - 1], ids, i);
    }
  }

  lemma MergedReports(rows: seq<ProcessInfo>, g: GpuApp, ids: map<nat, Identity>, i: nat)
    requires OnePerPid(rows) && i < |Merged(rows, g, ids)|
    ensures
      var row := Merged(rows, g, ids)[i];
      if row.pid == g.pid then row.gpuMemoryBytes == g.usedMemoryBytes && row.gpuMemoryReason == g.reason
      else i < |rows| && row == rows[i]
  {
    var at := Position(rows, g.pid);
    if at.Some? && i != at.value {
      assert Pids(rows)[i] != Pids(rows)[at.value];
    }
  }

  /** A row shows the last thing nvidia-smi said about its PID. */
  lemma {:induction false} LastReportWins(raw: seq<ProcessInfo>, gpu: seq<GpuApp>, ids: map<nat, Identity>, k: nat, i: nat)
    requires k < |gpu| && i < |Table(raw, gpu, ids)| && Table(raw, gpu, ids)[i].pid == gpu[k].pid
    requires forall n :: k < n < |gpu| ==> gpu[n].pid != gpu[k].pid
    ensures Table(raw, gpu, ids)[i].gpuMemoryBytes == gpu[k].usedMemoryBytes
    ensures Table(raw, gpu, ids)[i].gpuMemoryReason == gpu[k].reason
  {
    var n := |gpu| - 1;
    TableIsOnePerPid(raw, gpu[..n], ids);
    MergedReports(Table(raw, gpu[..n], ids), gpu[n], ids, i);
    if k < n {
      LastReportWins(raw, gpu[..n], ids, k, i);
    }
  }

  /** The reports about a PID, and which of them came first. */
  predicate IsFirstReport(gpu: seq<GpuApp>, pid: nat, k: nat) {
    k < |gpu| && gpu[k].pid == pid && forall j :: 0 <= j < k ==> gpu[j].pid != pid
  }

  predicate IsReported(gpu: seq<GpuApp>, pid: nat) {
    exists k :: 0 <= k < |gpu| && gpu[k].pid == pid
  }

  lemma LastReported(gpu: seq<GpuApp>, pid: nat)
    requires gpu != []
    ensures IsReported(gpu, pid) <==> IsReported(gpu[..|gpu| - 1], pid) || gpu[|gpu| - 1].pid == pid
  {
    var n := |gpu| - 1;
    if k :| 0 <= k < n && gpu[..n][k].pid == pid {
      assert gpu[k].pid == pid;
    }
    if k :| 0 <= k < |gpu| && gpu[k].pid == pid && k < n {
      assert gpu[..n][k].pid == pid;
    }
  }

  lemma MergedHas(rows: seq<ProcessInfo>, g: GpuApp, ids: map<nat, Identity>, pid: nat)
    ensures pid in Pids(Merged(rows, g, ids)) <==> pid in Pids(rows) || (pid == g.pid && pid in ids)
  {
    var out := Merged(rows, g, ids);
    var at := Position(rows, g.pid);
    if at.Some? {
      assert Pids(out) == Pids(rows);
      assert Pids(rows)[at.value] == g.pid;
    } else if g.pid in ids {
      assert Pids(out) == Pids(rows) + [g.pid];
    }
  }

  /** Everyone is in the table: the PIDs of the raw list, and those only nvidia-smi knows that have an identity. */
  lemma {:induction false} TableHasEveryone(raw: seq<ProcessInfo>, gpu: seq<GpuApp>, ids: map<nat, Identity>, pid: nat)
    ensures pid in Pids(Table(raw, gpu, ids)) <==> pid in Pids(raw) || (IsReported(gpu, pid) && pid in ids)
  {
    if gpu == [] {
      DeduplicatedIsOnePerPid(raw);
    } else {
      var n := |gpu| - 1;
      TableHasEveryone(raw, gpu[..n], ids, pid);
      LastReported(gpu, pid);
      MergedHas(Table(raw, gpu[..n], ids), gpu[n], ids, pid);
    }
  }

  /** A row of the raw list that nvidia-smi says nothing about is as it was. */
  lemma {:induction false} UnreportedIsAsBefore(raw: seq<ProcessInfo>, gpu: seq<GpuApp>, ids: map<nat, Identity>, i: nat)
    requires i < |Deduplicated(raw)| && !IsReported(gpu, Deduplicated(raw)[i].pid)
    ensures i < |Table(raw, gpu, ids)| && Table(raw, gpu, ids)[i] == Deduplicated(raw)[i]
  {
    if gpu != [] {
      var n := |gpu| - 1;
      LastReported(gpu, Deduplicated(raw)[i].pid);
      UnreportedIsAsBefore(raw, gpu[..n], ids, i);
    }
  }

  /** What nvidia-smi alone knows: the name it gave first, no memory and no command, and the identity of /proc. */
  predicate IsGpuOnly(row: ProcessInfo, gpu: seq<GpuApp>, ids: map<nat, Identity>, k: nat) {
    && IsFirstReport(gpu, row.pid, k) && row.pid in ids
    && row.name == gpu[k].name && row.memoryBytes == 0 && row.command.None?
    && Identity(row.startTimeTicks, row.uid) == ids[row.pid]
  }

  lemma {:induction false} NewRowsAreGpuOnly(raw: seq<ProcessInfo>, gpu: seq<GpuApp>, ids: map<nat, Identity>, i: nat) returns (k: nat)
    requires |Deduplicated(raw)| <= i < |Table(raw, gpu, ids)|
    ensures IsGpuOnly(Table(raw, gpu, ids)[i], gpu, ids, k)
  {
    var n := |gpu| - 1;
    var before := Table(raw, gpu[..n], ids);
    if i < |before| {
      k := NewRowsAreGpuOnly(raw, gpu[..n], ids, i);
      assert forall j :: 0 <= j <= k ==> gpu[..n][j] == gpu[j];
    } else {
      k := n;
      var pid := gpu[n].pid;
      TableHasEveryone(raw, gpu[..n], ids, pid);
      NoPositionNoPid(before, pid);
      forall j | 0 <= j < n
        ensures gpu[j].pid != pid
      {
        assert gpu[..n][j] == gpu[j];
      }
    }
  }

  predicate IsFirstRow(raw: seq<ProcessInfo>, k: nat) {
    k < |raw| && forall j :: 0 <= j < k ==> raw[j].pid != raw[k].pid
  }

  /** `at` says where each of the rows was: rising, and the first of its PID. */
  ghost predicate AreKeptAt(rows: seq<ProcessInfo>, raw: seq<ProcessInfo>, at: seq<nat>) {
    && |at| == |rows|
    && (forall k :: 0 <= k < |at| ==> IsFirstRow(raw, at[k]) && rows[k] == raw[at[k]])
    && (forall j, k :: 0 <= j < k < |at| ==> at[j] < at[k])
  }

  lemma FirstRowStays(raw: seq<ProcessInfo>, x: ProcessInfo, k: nat)
    requires IsFirstRow(raw, k)
    ensures IsFirstRow(raw + [x], k) && (raw + [x])[k] == raw[k]
  {
  }

  lemma KeptGrows(rows: seq<ProcessInfo>, raw: seq<ProcessInfo>, at: seq<nat>, x: ProcessInfo)
    requires AreKeptAt(rows, raw, at)
    ensures AreKeptAt(rows, raw + [x], at)
    ensures x.pid !in Pids(raw) ==> AreKeptAt(rows + [x], raw + [x], at + [|raw|])
  {
    forall k | 0 <= k < |at|
      ensures IsFirstRow(raw + [x], at[k]) && (raw + [x])[at[k]] == raw[at[k]]
    {
      FirstRowStays(raw, x, at[k]);
    }
    if x.pid !in Pids(raw) {
      forall j | 0 <= j < |raw|
        ensures raw[j].pid != x.pid
      {
        assert Pids(raw)[j] == raw[j].pid;
      }
      assert IsFirstRow(raw + [x], |raw|);
    }
  }

  lemma IsListed(raw: seq<ProcessInfo>, pid: nat)
    ensures Position(Deduplicated(raw), pid).None? <==> pid !in Pids(raw)
  {
    DeduplicatedIsOnePerPid(raw);
    NoPositionNoPid(Deduplicated(raw), pid);
  }

  lemma OneRowMore(raw: seq<ProcessInfo>, x: ProcessInfo)
    ensures Deduplicated(raw + [x]) == if x.pid in Pids(raw) then Deduplicated(raw) else Deduplicated(raw) + [x]
  {
    assert (raw + [x])[..|raw|] == raw;
    IsListed(raw, x.pid);
  }

  lemma NextKept(rows: seq<ProcessInfo>, raw: seq<ProcessInfo>, at: seq<nat>, x: ProcessInfo, rows': seq<ProcessInfo>) returns (at': seq<nat>)
    requires AreKeptAt(rows, raw, at)
    requires rows' == if x.pid in Pids(raw) then rows else rows + [x]
    ensures AreKeptAt(rows', raw + [x], at')
  {
    KeptGrows(rows, raw, at, x);
    at' := if x.pid in Pids(raw) then at else at + [|raw|];
  }

  /** The rows kept of the raw list: the first of each PID, in the order they were in. */
  lemma {:induction false} DeduplicatedKeepsOrder(raw: seq<ProcessInfo>) returns (at: seq<nat>)
    ensures AreKeptAt(Deduplicated(raw), raw, at)
  {
    if |raw| == 0 {
      at := [];
    } else {
      var init, x := raw[..|raw| - 1], raw[|raw| - 1];
      var before := DeduplicatedKeepsOrder(init);
      OneRowMore(init, x);
      at := NextKept(Deduplicated(init), init, before, x, Deduplicated(init + [x]));
      assert raw == init + [x];
    }
  }

  lemma NoPositionNoPid(rows: seq<ProcessInfo>, pid: nat)
    ensures Position(rows, pid).None? <==> pid !in Pids(rows)
  {
    var at := Position(rows, pid);
    assert at.Some? ==> Pids(rows)[at.value] == pid;
  }

  // ---------------------------------------------------------------- rows of a pane

  predicate IsGpuRow(p: ProcessInfo) {
    p.gpuMemoryBytes.Some? || (p.gpuMemoryReason.Some? && p.gpuMemoryReason.value != NOT_A_GPU_PROCESS)
  }

  predicate IsRamRow(p: ProcessInfo) {
    p.memoryBytes > 1_048_576
  }

  function Filter(keep: ProcessInfo -> bool, rows: seq<ProcessInfo>): seq<ProcessInfo> {
    if rows == [] then []
    else (if keep(rows[0]) then [rows[0]] else []) + Filter(keep, rows[1..])
  }

  function InsertByMemory(p: ProcessInfo, sorted: seq<ProcessInfo>): seq<ProcessInfo> {
    if sorted == [] || p.memoryBytes >= sorted[0].memoryBytes then [p] + sorted
    else [sorted[0]] + InsertByMemory(p, sorted[1..])
  }

  /** The stable sort, largest first. */
  function SortByMemory(rows: seq<ProcessInfo>): seq<ProcessInfo> {
    if rows == [] then [] else InsertByMemory(rows[0], SortByMemory(rows[1..]))
  }

  function GpuRows(all: seq<ProcessInfo>): seq<ProcessInfo> {
    Filter(IsGpuRow, all)
  }

  function RamRows(all: seq<ProcessInfo>): seq<ProcessInfo> {
    SortByMemory(Filter(IsRamRow, all))
  }

  lemma TailIsOnePerPid(rows: seq<ProcessInfo>)
    requires rows != [] && OnePerPid(rows)
    ensures OnePerPid(rows[1..])
    ensures forall r :: r in rows[1..] ==> r.pid != rows[0].pid
  {
    var all := Pids(rows);
    assert forall i :: 0 <= i < |rows| - 1 ==> Pids(rows[1..])[i] == all[i + 1] && rows[1..][i].pid == all[i + 1];
  }

  lemma OnePidMore(x: ProcessInfo, rows: seq<ProcessInfo>)
    requires OnePerPid(rows) && forall i :: 0 <= i < |rows| ==> rows[i].pid != x.pid
    ensures OnePerPid([x] + rows)
  {
    assert Pids([x] + rows) == [x.pid] + Pids(rows);
  }

  lemma {:induction false} FilterKeeps(keep: ProcessInfo -> bool, rows: seq<ProcessInfo>)
    requires OnePerPid(rows)
    ensures OnePerPid(Filter(keep, rows))
    ensures forall p :: p in Filter(keep, rows) <==> p in rows && keep(p)
  {
    if |rows| > 0 {
      var f := Filter(keep, rows[1..]);
      TailIsOnePerPid(rows);
      FilterKeeps(keep, rows[1..]);
      assert rows == [rows[0]] + rows[1..];
      forall i | 0 <= i < |f|
        ensures f[i].pid != rows[0].pid
      {
        assert f[i] in rows[1..];
      }
      OnePidMore(rows[0], f);
      assert [] + f == f;
    }
  }

  /** A filter goes through the rows in order and keeps or drops each. */
  lemma {:induction false} FilterAppends(keep: ProcessInfo -> bool, a: seq<ProcessInfo>, b: seq<ProcessInfo>)
    ensures Filter(keep, a + b) == Filter(keep, a) + Filter(keep, b)
  {
    if |a| == 0 {
      assert a + b == b;
    } else {
      var first := if keep(a[0]) then [a[0]] else [];
      FilterAppends(keep, a[1..], b);
      FilterFirst(keep, a[0], a[1..] + b);
      FilterFirst(keep, a[0], a[1..]);
      assert a + b == [a[0]] + (a[1..] + b) && a == [a[0]] + a[1..];
      assert first + (Filter(keep, a[1..]) + Filter(keep, b)) == first + Filter(keep, a[1..]) + Filter(keep, b);
    }
  }

  lemma FilterFirst(keep: ProcessInfo -> bool, x: ProcessInfo, rest: seq<ProcessInfo>)
    ensures Filter(keep, [x] + rest) == (if keep(x) then [x] else []) + Filter(keep, rest)
  {
    assert ([x] + rest)[1..] == rest;
  }

  ghost predicate Descending(rows: seq<ProcessInfo>) {
    forall i, j :: 0 <= i < j < |rows| ==> rows[i].memoryBytes >= rows[j].memoryBytes
  }

  /** The rows using exactly `m` bytes, in order. */
  function OfSize(rows: seq<ProcessInfo>, m: nat): seq<ProcessInfo> {
    if rows == [] then []
    else (if rows[0].memoryBytes == m then [rows[0]] else []) + OfSize(rows[1..], m)
  }

  lemma {:induction false} InsertMultiset(p: ProcessInfo, sorted: seq<ProcessInfo>)
    ensures multiset(InsertByMemory(p, sorted)) == multiset{p} + multiset(sorted)
  {
    if sorted != [] && p.memoryBytes < sorted[0].memoryBytes {
      InsertMultiset(p, sorted[1..]);
      assert sorted == [sorted[0]] + sorted[1..];
    }
  }

  lemma {:induction false} InsertDescending(p: ProcessInfo, sorted: seq<ProcessInfo>)
    requires Descending(sorted)
    ensures Descending(InsertByMemory(p, sorted))
    ensures forall k: nat :: k < |InsertByMemory(p, sorted)| ==>
      InsertByMemory(p, sorted)[k].memoryBytes <=
        if sorted == [] || p.memoryBytes >= sorted[0].memoryBytes then p.memoryBytes else sorted[0].memoryBytes
  {
    if sorted != [] && p.memoryBytes < sorted[0].memoryBytes {
      InsertDescending(p, sorted[1..]);
    }
  }

  lemma {:induction false} InsertOfSize(p: ProcessInfo, sorted: seq<ProcessInfo>, m: nat)
    requires Descending(sorted)
    ensures OfSize(InsertByMemory(p, sorted), m) == (if p.memoryBytes == m then [p] else []) + OfSize(sorted, m)
  {
    if sorted != [] && p.memoryBytes < sorted[0].memoryBytes {
      InsertOfSize(p, sorted[1..], m);
      assert InsertByMemory(p, sorted)[1..] == InsertByMemory(p, sorted[1..]);
      if p.memoryBytes == m {
        assert sorted[0].memoryBytes != m;
      }
    }
  }

  /** The sort is a descending rearrangement that never swaps rows of equal size. */
  lemma {:induction false} SortIsStable(rows: seq<ProcessInfo>, m: nat)
    ensures Descending(SortByMemory(rows))
    ensures multiset(SortByMemory(rows)) == multiset(rows)
    ensures OfSize(SortByMemory(rows), m) == OfSize(rows, m)
  {
    if rows != [] {
      SortIsStable(rows[1..], m);
      var tail := SortByMemory(rows[1..]);
      InsertDescending(rows[0], tail);
      InsertMultiset(rows[0], tail);
      InsertOfSize(rows[0], tail, m);
      assert rows == [rows[0]] + rows[1..];
    }
  }

  lemma {:induction false} InsertIsOnePerPid(p: ProcessInfo, sorted: seq<ProcessInfo>)
    requires OnePerPid([p] + sorted)
    ensures OnePerPid(InsertByMemory(p, sorted))
    ensures forall r :: r in InsertByMemory(p, sorted) <==> r == p || r in sorted
  {
    if sorted != [] && p.memoryBytes < sorted[0].memoryBytes {
      var rest := InsertByMemory(p, sorted[1..]);
      assert sorted == [sorted[0]] + sorted[1..];
      var all := Pids([p] + sorted);
      assert all == [p.pid] + Pids(sorted);
      assert OnePerPid([p] + sorted[1..]) by {
        var some := Pids([p] + sorted[1..]);
        assert forall i :: 0 <= i < |some| ==> some[i] == all[if i == 0 then 0 else i + 1];
      }
      InsertIsOnePerPid(p, sorted[1..]);
      forall i | 0 <= i < |rest|
        ensures rest[i].pid != sorted[0].pid
      {
        assert rest[i] in rest;
        if rest[i] == p {
          assert all[0] != all[1];
        } else {
          var j :| 0 <= j < |sorted| - 1 && sorted[1..][j] == rest[i];
          assert all[j + 2] != all[1];
        }
      }
    }
  }

  lemma {:induction false} SortIsOnePerPid(rows: seq<ProcessInfo>)
    requires OnePerPid(rows)
    ensures OnePerPid(SortByMemory(rows))
    ensures forall r :: r in SortByMemory(rows) <==> r in rows
  {
    if rows != [] {
      var tail := SortByMemory(rows[1..]);
      assert rows == [rows[0]] + rows[1..];
      TailIsOnePerPid(rows);
      SortIsOnePerPid(rows[1..]);
      forall i | 0 <= i < |tail|
        ensures tail[i].pid != rows[0].pid
      {
        assert tail[i] in rows[1..];
      }
      InsertIsOnePerPid(rows[0], tail);
    }
  }

  /** Both panes show each PID at most once, and exactly the rows of the table they are about. */
  lemma PaneRowsAreOnePerPid(raw: seq<ProcessInfo>, gpu: seq<GpuApp>, ids: map<nat, Identity>)
    ensures
      var all := Table(raw, gpu, ids);
      && OnePerPid(GpuRows(all)) && OnePerPid(RamRows(all)) && Descending(RamRows(all))
      && (forall p :: p in GpuRows(all) <==>
        (p in all && (p.gpuMemoryBytes.Some? || (p.gpuMemoryReason.Some? && p.gpuMemoryReason.value != "not a GPU process"))))
      && (forall p :: p in RamRows(all) <==> p in all && p.memoryBytes > 1024 * 1024)
  {
    var all := Table(raw, gpu, ids);
    TableIsOnePerPid(raw, gpu, ids);
    FilterKeeps(IsGpuRow, all);
    FilterKeeps(IsRamRow, all);
    SortIsOnePerPid(Filter(IsRamRow, all));
    SortIsStable(Filter(IsRamRow, all), 0);
  }

  // ---------------------------------------------------------------- the cursor of one pane

  datatype Pane = Pane(rows: seq<ProcessInfo>, selected: Option<nat>, index: Option<nat>)

  /** The cursor is on the row of the selected PID, or on nothing. */
  ghost predicate PaneOk(p: Pane) {
    && OnePerPid(p.rows)
    && (p.index.Some? <==> p.selected.Some?)
    && (p.index.Some? ==> p.index.value < |p.rows| && p.rows[p.index.value].pid == p.selected.value)
  }

  /** `refind`, after a poll brought new rows. */
  function Refind(p: Pane, rows: seq<ProcessInfo>): Pane {
    if p.selected.None? then Pane(rows, None, None)
    else
      var at := Position(rows, p.selected.value);
      Pane(rows, if at.Some? then p.selected else None, at)
  }

  function NextIndex(index: Option<nat>, count: nat, forward: bool): nat {
    var last := if count == 0 then 0 else count - 1;
    if index.None? then 0
    else if forward then (if index.value >= last then 0 else index.value + 1)
    else if index.value == 0 then last
    else index.value - 1
  }

  function MoveCursor(p: Pane, forward: bool): Pane {
    var next := NextIndex(p.index, |p.rows|, forward);
    if next < |p.rows| then p.(selected := Some(p.rows[next].pid), index := Some(next))
    else p.(selected := None, index := None)
  }

  function SelectedRow(p: Pane): Option<ProcessInfo> {
    if p.selected.None? then None
    else
      var at := Position(p.rows, p.selected.value);
      if at.Some? then Some(p.rows[at.value]) else None
  }

  /** A poll keeps the selected PID wherever it moved to, or clears it because it left; it never picks another. */
  lemma PollKeepsOrClears(p: Pane, rows: seq<ProcessInfo>)
    requires OnePerPid(rows)
    ensures PaneOk(Refind(p, rows)) && Refind(p, rows).rows == rows
    ensures p.selected.None? ==> Refind(p, rows).selected.None?
    ensures p.selected.Some? ==>
      Refind(p, rows).selected == if p.selected.value in Pids(rows) then p.selected else None
  {
    if p.selected.Some? && p.selected.value in Pids(rows) {
      var i :| 0 <= i < |rows| && Pids(rows)[i] == p.selected.value;
      assert rows[i].pid == p.selected.value;
    }
  }

  /** What the keys act on is the row under the cursor. */
  lemma SelectedIsUnderCursor(p: Pane)
    requires PaneOk(p)
    ensures SelectedRow(p) == if p.index.Some? then Some(p.rows[p.index.value]) else None
  {
    if p.index.Some? {
      var at := Position(p.rows, p.selected.value);
      assert Pids(p.rows)[p.index.value] == p.selected.value;
      assert at.Some? ==> Pids(p.rows)[at.value] == p.selected.value;
    }
  }

  lemma MoveKeepsOk(p: Pane, forward: bool)
    requires PaneOk(p)
    ensures PaneOk(MoveCursor(p, forward)) && MoveCursor(p, forward).rows == p.rows
    ensures MoveCursor(p, forward).selected.Some? <==> p.rows != []
    ensures p.index.None? && p.rows != [] ==> MoveCursor(p, forward).index == Some(0)
  {
  }

  /** From a selected row, a step and a step back are no move; from none, back is not where one was. */
  lemma StepAndBack(p: Pane, forward: bool)
    requires PaneOk(p)
    ensures MoveCursor(MoveCursor(p, forward), !forward) == p <==> p.index.Some? || p.rows == []
  {
  }

  function MoveTimes(p: Pane, k: nat): Pane {
    if k == 0 then p else MoveCursor(MoveTimes(p, k - 1), true)
  }

  /** Moving down goes through the rows in order and, past the last, starts over. */
  lemma {:induction false} MovesCycle(p: Pane, k: nat)
    requires PaneOk(p) && p.index.Some? && k <= |p.rows|
    ensures PaneOk(MoveTimes(p, k)) && MoveTimes(p, k).rows == p.rows
    ensures
      var i := p.index.value + k;
      MoveTimes(p, k).index == Some(if i < |p.rows| then i else i - |p.rows|)
    ensures k == |p.rows| ==> MoveTimes(p, k) == p
  {
    if k > 0 {
      MovesCycle(p, k - 1);
      MoveKeepsOk(MoveTimes(p, k - 1), true);
    }
  }

  // ---------------------------------------------------------------- both panes, over any run

  datatype ProcPane = Gpu | Sys

  class App {
    var gpuProcesses: seq<ProcessInfo>
    var sysProcesses: seq<ProcessInfo>
    var gpuSelectedPid: Option<nat>
    var sysSelectedPid: Option<nat>
    var gpuIndex: Option<nat>
    var sysIndex: Option<nat>

    constructor ()
      ensures PaneOf(Gpu) == PaneOf(Sys) == Pane([], None, None)
    {
      gpuProcesses, sysProcesses := [], [];
      gpuSelectedPid, sysSelectedPid, gpuIndex, sysIndex := None, None, None, None;
    }

    function PaneOf(pane: ProcPane): Pane
      reads this
    {
      match pane
      case Gpu => Pane(gpuProcesses, gpuSelectedPid, gpuIndex)
      case Sys => Pane(sysProcesses, sysSelectedPid, sysIndex)
    }

    method SetProcesses(processes: seq<ProcessInfo>)
      modifies this
      ensures PaneOf(Gpu) == Refind(old(PaneOf(Gpu)), GpuRows(processes))
      ensures PaneOf(Sys) == Refind(old(PaneOf(Sys)), RamRows(processes))
    {
      gpuProcesses := GpuRows(processes);
      sysProcesses := RamRows(processes);
      gpuIndex, gpuSelectedPid := RefindIn(gpuSelectedPid, gpuProcesses);
      sysIndex, sysSelectedPid := RefindIn(sysSelectedPid, sysProcesses);
    }

    static method RefindIn(selected: Option<nat>, rows: seq<ProcessInfo>) returns (index: Option<nat>, kept: Option<nat>)
      ensures Pane(rows, kept, index) == Refind(Pane(rows, selected, None), rows)
    {
      if selected.None? {
        return None, None;
      }
      index := Position(rows, selected.value);
      kept := if index.Some? then selected else None;
    }

    method MoveProcCursor(pane: ProcPane, forward: bool)
      modifies this
      ensures PaneOf(pane) == MoveCursor(old(PaneOf(pane)), forward)
      ensures forall other :: other != pane ==> PaneOf(other) == old(PaneOf(other))
    {
      var moved := MoveCursor(PaneOf(pane), forward);
      match pane
      case Gpu => gpuSelectedPid, gpuIndex := moved.selected, moved.index;
      case Sys => sysSelectedPid, sysIndex := moved.selected, moved.index;
    }
  }

  datatype Step = Poll(raw: seq<ProcessInfo>, gpu: seq<GpuApp>, ids: map<nat, Identity>) | Move(pane: ProcPane, forward: bool)

  /** One pane after a step of the application. */
  function StepPane(which: ProcPane, p: Pane, step: Step): Pane {
    match step
    case Poll(raw, gpu, ids) =>
      Refind(p, if which.Gpu? then GpuRows(Table(raw, gpu, ids)) else RamRows(Table(raw, gpu, ids)))
    case Move(pane, forward) => if pane == which then MoveCursor(p, forward) else p
  }

  function RunPane(which: ProcPane, p: Pane, steps: seq<Step>): Pane {
    if steps == [] then p
    else StepPane(which, RunPane(which, p, steps[..|steps| - 1]), steps[|steps| - 1])
  }

  lemma StepKeepsOk(which: ProcPane, p: Pane, step: Step)
    requires PaneOk(p)
    ensures PaneOk(StepPane(which, p, step))
    ensures step.Poll? ==> StepPane(which, p, step).selected == p.selected || StepPane(which, p, step).selected == None
  {
    match step
    case Poll(raw, gpu, ids) =>
      PaneRowsAreOnePerPid(raw, gpu, ids);
      PollKeepsOrClears(p, if which.Gpu? then GpuRows(Table(raw, gpu, ids)) else RamRows(Table(raw, gpu, ids)));
    case Move(_, forward) => MoveKeepsOk(p, forward);
  }

  /** Over any polls and moves the cursor is set iff a PID is selected, and is on that PID's only row. */
  lemma {:induction false} CursorFollowsPid(which: ProcPane, steps: seq<Step>)
    ensures PaneOk(RunPane(which, Pane([], None, None), steps))
  {
    if steps != [] {
      CursorFollowsPid(which, steps[..|steps| - 1]);
      StepKeepsOk(which, RunPane(which, Pane([], None, None), steps[..|steps| - 1]), steps[|steps| - 1]);
    }
  }

  /** Between two of the operator's own moves the selection is the PID picked by the first, or nothing. */
  lemma {:induction false} OnlyMovesSelect(which: ProcPane, p: Pane, polls: seq<Step>)
    requires PaneOk(p) && forall k :: 0 <= k < |polls| ==> polls[k].Poll? || polls[k].pane != which
    ensures PaneOk(RunPane(which, p, polls))
    ensures RunPane(which, p, polls).selected == p.selected || RunPane(which, p, polls).selected == None
  {
    if polls != [] {
      var n := |polls| - 1;
      OnlyMovesSelect(which, p, polls[..n]);
      StepKeepsOk(which, RunPane(which, p, polls[..n]), polls[n]);
    }
  }
}
