/**
 * PID-based process control (src/process.rs, src/main.rs) as a state machine: the kernel's PID
 * table, the operator's keys, and any number of signal jobs, interleaved at every single read.
 *
 * An incarnation is one process life. Incarnations are numbered by birth, so "the same process" is
 * equality of numbers and a reused PID is a PID whose number grew. Times are numbers of events.
 */
module ProcessControl {
  import opened Prelude
  import opened RuntimeTree

  // ---------------------------------------------------------------- the kernel

  /** What never changes in a life: its PID, its start ticks, and the PID of its thread group's leader. */
  datatype Life = Life(pid: nat, start: nat, leader: nat)

  /** Who holds a PID now, and what can change of it. A zombie keeps its PID until it is reaped. */
  datatype Slot = Slot(inc: nat, uid: nat, ppid: nat, zombie: bool)

  datatype World = World(lives: seq<Life>, slots: map<nat, Slot>)

  predicate Holds(w: World, inc: nat) {
    && inc < |w.lives|
    && w.lives[inc].pid in w.slots
    && w.slots[w.lives[inc].pid].inc == inc
  }

  predicate Running(w: World, inc: nat) {
    Holds(w, inc) && !w.slots[w.lives[inc].pid].zombie
  }

  predicate IsWhole(w: World, inc: nat) {
    inc < |w.lives| && w.lives[inc].leader == w.lives[inc].pid
  }

  /** The holder of a PID is the latest incarnation born under it. */
  ghost predicate LatestHolds(w: World) {
    && (forall p :: p in w.slots ==> w.slots[p].inc < |w.lives| && w.lives[w.slots[p].inc].pid == p)
    && (forall i :: 0 <= i < |w.lives| && w.lives[i].pid in w.slots ==> i <= w.slots[w.lives[i].pid].inc)
  }

  ghost predicate StartsUnique(w: World) {
    forall i, j :: 0 <= i < j < |w.lives| && w.lives[i].pid == w.lives[j].pid ==> w.lives[i].start != w.lives[j].start
  }

  predicate LeaderHeld(w: World, p: nat)
    requires p in w.slots
  {
    var inc := w.slots[p].inc;
    inc < |w.lives| && w.lives[inc].leader in w.slots && IsWhole(w, w.slots[w.lives[inc].leader].inc)
  }

  /** A leader keeps its PID as long as its group has a thread. */
  ghost predicate GroupsHeld(w: World) {
    forall p {:trigger LeaderHeld(w, p)} :: p in w.slots ==> LeaderHeld(w, p)
  }

  ghost predicate WorldOk(w: World) {
    LatestHolds(w) && StartsUnique(w) && GroupsHeld(w)
  }

  // ---------------------------------------------------------------- targets and the guard

  datatype Identity = Identity(start: nat, uid: nat)

  datatype ProcessError = Changed | Protected | Signal

  /**
   * A table row: the PID with the identity read when the row was built. `inc` is the process it was
   * read from; it is history, and nothing reads it.
   */
  datatype Row = Row(pid: nat, identity: Identity, inc: nat)

  /** `pidfd` names the incarnation it was opened on. */
  datatype Target = Target(row: Row, pidfd: Option<nat>, openError: Option<ProcessError>)

  /** `mainPid` is where the walk for `runtimePids` began; it read `seen[n]` at time `at[n]`. */
  datatype Guard = Guard(
    ownUids: seq<nat>, selfPid: nat, runtimePids: seq<nat>, mainPid: Option<nat>, seen: seq<Snapshot>, at: seq<nat>)

  /** How `pidfd_open(2)` answers where it is not settled by the PID table. */
  datatype OpenReply = Supported | NoSys | OtherErrno

  /**
   * `open_pidfd`: only a kernel without pidfds leaves the target without one and without an error.
   * A PID that is not a thread-group leader is an error of `pidfd_open(2)`.
   */
  function Select(w: World, row: Row, reply: OpenReply): Target {
    if row.pid == 0 then
      Target(row, None, Some(Changed))
    else if reply.NoSys? then
      Target(row, None, None)
    else if row.pid !in w.slots then
      Target(row, None, Some(Changed))
    else if reply.OtherErrno? || !IsWhole(w, w.slots[row.pid].inc) then
      Target(row, None, Some(Signal))
    else
      Target(row, Some(w.slots[row.pid].inc), None)
  }

  /** `check`, over the answers its two /proc readers gave. */
  function Check(t: Target, g: Guard, tgid: Option<nat>, now: Option<Identity>): (e: Option<ProcessError>) {
    var leader := if tgid.Some? then tgid.value else t.row.pid;
    if leader == 1 then Some(Protected)
    else if leader == g.selfPid then Some(Protected)
    else if leader in g.runtimePids then Some(Protected)
    else if leader != t.row.pid then Some(Protected)
    else if t.openError.Some? then t.openError
    else if now.None? then Some(Changed)
    else if now.value != t.row.identity then Some(Changed)
    else if t.row.identity.uid !in g.ownUids then Some(Protected)
    else None
  }

  /** PID 1, saltnitor itself and the runtime's tree are off limits. */
  predicate OffLimits(g: Guard, pid: nat) {
    pid == 1 || pid == g.selfPid || pid in g.runtimePids
  }

  // ---------------------------------------------------------------- jobs, keys, the whole state

  datatype Sig = Term | Kill

  /** A passed check: its guard, the `Tgid:` it read, and when it read the start ticks and the owner. */
  datatype Pass = Pass(guard: Guard, tgid: Option<nat>, statAt: nat, checkAt: nat)

  /** Where a signal job stands between two reads. */
  datatype Pc =
    | Started
    | Listing(mainPid: nat, tree: seq<nat>, seen: seq<Snapshot>, at: seq<nat>)
    | Guarded(guard: Guard)
    | HaveTgid(guard: Guard, tgid: Option<nat>)
    | HaveStat(guard: Guard, tgid: Option<nat>, start: Option<nat>, statAt: nat)
    | Cleared(pass: Pass)
    | Waiting(pass: Pass, sentAt: nat)
    | PollStat(pass: Pass, sentAt: nat, aliveAt: nat)
    | PollAlive(pass: Pass, sentAt: nat, aliveAt: nat)
    | Refused(error: ProcessError)
    | SignalFailed
    | Killed
    | Exited(pass: Pass, sentAt: nat, readable: bool, endAt: nat)
    | StillRunning(pass: Pass, sentAt: nat, aliveAt: nat)

  datatype Job = Job(target: Target, sig: Sig, pc: Pc)

  datatype Key = KeyTerminate(row: Row, reply: OpenReply) | KeyKill(row: Row, reply: OpenReply) | KeyYes | KeyOther

  /** What the key handler did with each key, in order. */
  datatype Handled = Armed(target: Target) | Confirmed(target: Target) | Cancelled | Terminated(target: Target) | Ignored

  /** A signal the kernel delivered: `via` is the process the pidfd or the PID named, `hit` its group's leader. */
  datatype Delivery = Delivery(key: nat, target: Target, sig: Sig, pass: Pass, sentAt: nat, via: nat, hit: nat)

  /** An event of the run, and the world it found. */
  datatype Moment = Moment(world: World, event: Event)

  /**
   * `past` is the run so far and `guards` every guard a job has built; nothing reads them. `jobs` is
   * keyed by the position in `handled` of the key that started the job.
   */
  datatype State = State(
    world: World, past: seq<Moment>, rows: seq<Row>, pending: Option<Target>, handled: seq<Handled>,
    jobs: map<nat, Job>, guards: set<Guard>, sent: seq<Delivery>, ownUids: seq<nat>, selfPid: nat)

  datatype Event =
    | Fork(pid: nat, start: nat, leader: nat, uid: nat, ppid: nat)
    | Exit(pid: nat)
    | Reap(pid: nat)
    | SetUid(pid: nat, uid: nat)
    | Reparent(pid: nat, ppid: nat)
    | Refresh(pid: nat, uid: nat)
    | Press(key: Key)
    | ReadMainPid(job: nat, mainPid: Option<nat>)
    | ListChildren(job: nat, snap: Snapshot)
    | ReadTgid(job: nat, readable: bool)
    | ReadStat(job: nat, readable: bool)
    | ReadStatus(job: nat, readable: bool)
    | Send(job: nat, accepted: bool)
    | Wake(job: nat, deadline: bool)

  predicate IsKernelEvent(e: Event) {
    e.Fork? || e.Exit? || e.Reap? || e.SetUid? || e.Reparent?
  }

  predicate IsJobEvent(e: Event) {
    !IsKernelEvent(e) && !e.Press? && !e.Refresh?
  }

  /** What a reading of /proc shows is so; it may miss anything. Threads are not listed. */
  predicate Shows(w: World, snap: Snapshot) {
    forall p :: p in snap.ppid ==> p in w.slots && w.slots[p].ppid == snap.ppid[p] && IsWhole(w, w.slots[p].inc)
  }

  /**
   * Fork takes a free PID and, as assumed of the kernel, a start tick that PID never had before. A
   * thread joins a group whose leader is there, and a leader is not reaped before its threads.
   */
  ghost predicate CanHappen(w: World, e: Event)
    requires IsKernelEvent(e)
  {
    match e
    case Fork(pid, start, leader, _, _) =>
      && pid !in w.slots
      && (forall i :: 0 <= i < |w.lives| && w.lives[i].pid == pid ==> w.lives[i].start != start)
      && (leader == pid || (leader in w.slots && IsWhole(w, w.slots[leader].inc)))
    case Exit(pid) => pid in w.slots && !w.slots[pid].zombie
    case Reap(pid) => pid in w.slots && w.slots[pid].zombie && forall p :: p in w.slots && p != pid ==> !IsThreadOf(w, p, pid)
    case SetUid(pid, _) => pid in w.slots && !w.slots[pid].zombie
    case Reparent(pid, _) => pid in w.slots
  }

  /** The holder of `p` is a thread of the group that `leader` leads. */
  predicate IsThreadOf(w: World, p: nat, leader: nat)
    requires p in w.slots
  {
    w.slots[p].inc < |w.lives| && w.lives[w.slots[p].inc].leader == leader
  }

  predicate Awaits(w: World, pc: Pc, e: Event)
    requires IsJobEvent(e)
  {
    match e
    case ReadMainPid(_, _) => pc.Started?
    case ListChildren(_, snap) => pc.Listing? && Shows(w, snap)
    case ReadTgid(_, _) => pc.Guarded?
    case ReadStat(_, _) => pc.HaveTgid? || pc.Waiting?
    case ReadStatus(_, _) => pc.HaveStat? || pc.PollStat?
    case Send(_, _) => pc.Cleared?
    case Wake(_, _) => pc.PollAlive?
  }

  ghost predicate Enabled(s: State, e: Event) {
    if IsKernelEvent(e) then CanHappen(s.world, e)
    else if IsJobEvent(e) then e.job in s.jobs && Awaits(s.world, s.jobs[e.job].pc, e)
    else match e
      case Refresh(pid, _) => pid in s.world.slots && !s.world.slots[pid].zombie
      case Press(KeyTerminate(row, _)) => row in s.rows
      case Press(KeyKill(row, _)) => row in s.rows
      case _ => true
  }

  // ---------------------------------------------------------------- what each read sees

  function TgidAnswer(w: World, pid: nat, readable: bool): Option<nat> {
    if readable && pid in w.slots && w.slots[pid].inc < |w.lives| then Some(w.lives[w.slots[pid].inc].leader) else None
  }

  /** `/proc/<pid>/stat`: a zombie counts as gone. */
  function StartAnswer(w: World, pid: nat, readable: bool): Option<nat> {
    if readable && pid in w.slots && !w.slots[pid].zombie && w.slots[pid].inc < |w.lives|
    then Some(w.lives[w.slots[pid].inc].start) else None
  }

  /** `/proc/<pid>/status`, a second read: whoever holds the PID by then. */
  function UidAnswer(w: World, pid: nat, readable: bool): Option<nat> {
    if readable && pid in w.slots then Some(w.slots[pid].uid) else None
  }

  function IdentityAnswer(start: Option<nat>, uid: Option<nat>): Option<Identity> {
    if start.Some? && uid.Some? then Some(Identity(start.value, uid.value)) else None
  }

  /** Whom `send` names: a pidfd only its own incarnation, `kill(2)` whoever holds the PID. */
  function Reached(w: World, t: Target): Option<nat> {
    match t.pidfd
    case Some(fd) => if Holds(w, fd) then Some(fd) else None
    case None => if t.row.pid in w.slots then Some(w.slots[t.row.pid].inc) else None
  }

  /** A signal goes to the whole thread group of the process it names. */
  function GroupOf(w: World, inc: nat): nat {
    if inc < |w.lives| && w.lives[inc].leader in w.slots then w.slots[w.lives[inc].leader].inc else inc
  }

  // ---------------------------------------------------------------- steps

  function KernelStep(w: World, e: Event): World
    requires IsKernelEvent(e)
  {
    match e
    case Fork(pid, start, leader, uid, ppid) =>
      World(w.lives + [Life(pid, start, leader)], w.slots[pid := Slot(|w.lives|, uid, ppid, false)])
    case Exit(pid) => if pid in w.slots then w.(slots := w.slots[pid := w.slots[pid].(zombie := true)]) else w
    case Reap(pid) => w.(slots := w.slots - {pid})
    case SetUid(pid, uid) => if pid in w.slots then w.(slots := w.slots[pid := w.slots[pid].(uid := uid)]) else w
    case Reparent(pid, ppid) => if pid in w.slots then w.(slots := w.slots[pid := w.slots[pid].(ppid := ppid)]) else w
  }

  function SetPc(s: State, j: nat, pc: Pc): State
    requires j in s.jobs
  {
    s.(jobs := s.jobs[j := s.jobs[j].(pc := pc)])
  }

  /** The key handler: a pending confirmation swallows the next key, whatever it is. */
  function PressKey(s: State, key: Key): State {
    var n := |s.handled|;
    if s.pending.Some? then
      if key.KeyYes? then
        s.(pending := None, handled := s.handled + [Confirmed(s.pending.value)],
           jobs := s.jobs[n := Job(s.pending.value, Kill, Started)])
      else
        s.(pending := None, handled := s.handled + [Cancelled])
    else
      match key
      case KeyTerminate(row, reply) =>
        var t := Select(s.world, row, reply);
        s.(handled := s.handled + [Terminated(t)], jobs := s.jobs[n := Job(t, Term, Started)])
      case KeyKill(row, reply) =>
        var t := Select(s.world, row, reply);
        s.(handled := s.handled + [Armed(t)], pending := Some(t))
      case _ => s.(handled := s.handled + [Ignored])
  }

  function AfterMainPid(s: State, mainPid: Option<nat>): Pc {
    if mainPid.Some? && mainPid.value > 0 then Listing(mainPid.value, [mainPid.value], [], [])
    else Guarded(Guard(s.ownUids, s.selfPid, [], mainPid, [], []))
  }

  function AfterChildren(s: State, pc: Pc, snap: Snapshot, now: nat): Pc
    requires pc.Listing?
  {
    if |pc.seen| >= |pc.tree| then pc
    else
      var tree := Expand(pc.tree, snap, pc.tree[|pc.seen|]);
      if |pc.seen| + 1 < |tree| then Listing(pc.mainPid, tree, pc.seen + [snap], pc.at + [now])
      else Guarded(Guard(s.ownUids, s.selfPid, tree, Some(pc.mainPid), pc.seen + [snap], pc.at + [now]))
  }

  function AfterCheckRead(w: World, job: Job, e: Event, now: nat): Pc {
    var t, pc := job.target, job.pc;
    if e.ReadTgid? && pc.Guarded? then
      HaveTgid(pc.guard, TgidAnswer(w, t.row.pid, e.readable))
    else if e.ReadStat? && pc.HaveTgid? then
      HaveStat(pc.guard, pc.tgid, StartAnswer(w, t.row.pid, e.readable), now)
    else if e.ReadStatus? && pc.HaveStat? then
      var refusal := Check(t, pc.guard, pc.tgid, IdentityAnswer(pc.start, UidAnswer(w, t.row.pid, e.readable)));
      if refusal.Some? then Refused(refusal.value) else Cleared(Pass(pc.guard, pc.tgid, pc.statAt, now))
    else pc
  }

  function AfterSend(w: World, job: Job, accepted: bool, now: nat): Pc
    requires job.pc.Cleared?
  {
    if !accepted || Reached(w, job.target).None? then SignalFailed
    else if job.sig.Kill? then Killed
    else Waiting(job.pc.pass, now)
  }

  function AfterPoll(w: World, job: Job, e: Event, now: nat): Pc {
    var row, pc := job.target.row, job.pc;
    if e.ReadStat? && pc.Waiting? then
      if StartAnswer(w, row.pid, e.readable) == Some(row.identity.start)
      then PollStat(pc.pass, pc.sentAt, now)
      else Exited(pc.pass, pc.sentAt, e.readable, now)
    else if e.ReadStatus? && pc.PollStat? then
      if UidAnswer(w, row.pid, e.readable) == Some(row.identity.uid)
      then PollAlive(pc.pass, pc.sentAt, pc.aliveAt)
      else Exited(pc.pass, pc.sentAt, e.readable, now)
    else if e.Wake? && pc.PollAlive? then
      if e.deadline then StillRunning(pc.pass, pc.sentAt, pc.aliveAt) else Waiting(pc.pass, pc.sentAt)
    else pc
  }

  predicate IsChecking(pc: Pc) {
    pc.Guarded? || pc.HaveTgid? || pc.HaveStat?
  }

  function NextPc(s: State, e: Event, job: Job, now: nat): Pc {
    if e.ReadMainPid? then AfterMainPid(s, e.mainPid)
    else if e.ListChildren? && job.pc.Listing? then AfterChildren(s, job.pc, e.snap, now)
    else if e.Send? && job.pc.Cleared? then AfterSend(s.world, job, e.accepted, now)
    else if IsChecking(job.pc) then AfterCheckRead(s.world, job, e, now)
    else AfterPoll(s.world, job, e, now)
  }

  /** The signal a job sends, if this is the step that sends it and the kernel delivers it. */
  function Delivered(s: State, e: Event, job: Job, now: nat): seq<Delivery> {
    if e.Send? && e.accepted && job.pc.Cleared? && Reached(s.world, job.target).Some? then
      var via := Reached(s.world, job.target).value;
      [Delivery(e.job, job.target, job.sig, job.pc.pass, now, via, GroupOf(s.world, via))]
    else []
  }

  function WithGuard(s: State, pc: Pc): State {
    if pc.Guarded? then s.(guards := s.guards + {pc.guard}) else s
  }

  function JobStep(s: State, e: Event, now: nat): State
    requires IsJobEvent(e) && e.job in s.jobs
  {
    var job := s.jobs[e.job];
    var pc := NextPc(s, e, job, now);
    SetPc(WithGuard(s, pc), e.job, pc).(sent := s.sent + Delivered(s, e, job, now))
  }

  function Record(s: State, e: Event): State {
    s.(past := s.past + [Moment(s.world, e)])
  }

  /** A row's start ticks and uid come from two reads, so its uid may be anybody's. */
  function RefreshRow(s: State, pid: nat, uid: nat): State {
    var start := StartAnswer(s.world, pid, true);
    if start.Some? then s.(rows := s.rows + [Row(pid, Identity(start.value, uid), s.world.slots[pid].inc)]) else s
  }

  function Step(s: State, e: Event): State
    requires Enabled(s, e)
  {
    var s1 := Record(s, e);
    if IsKernelEvent(e) then s1.(world := KernelStep(s.world, e))
    else if e.Press? then PressKey(s1, e.key)
    else if e.Refresh? then RefreshRow(s1, e.pid, e.uid)
    else JobStep(s1, e, |s.past|)
  }

  /** Any processes may already be running; nothing has been selected, pressed or signalled. */
  ghost predicate Init(s: State) {
    && WorldOk(s.world)
    && s.past == [] && s.rows == [] && s.pending.None? && s.handled == [] && s.jobs == map[] && s.guards == {} && s.sent == []
  }

  /** `es` is a run from `s0` to `s`: every interleaving of the events above is one. */
  ghost predicate IsRun(s0: State, es: seq<Event>, s: State)
    decreases |es|
  {
    if es == [] then s0 == s
    else Enabled(s0, es[0]) && IsRun(Step(s0, es[0]), es[1..], s)
  }

  // ---------------------------------------------------------------- how the kernel moves

  /** Lives are only added, and what ended or lost its PID does not come back. */
  ghost predicate Grows(w: World, w': World) {
    && w.lives <= w'.lives
    && (forall i :: 0 <= i < |w.lives| && Holds(w', i) ==> Holds(w, i))
    && (forall i :: 0 <= i < |w.lives| && Running(w', i) ==> Running(w, i))
  }

  function Birth(e: Event): seq<Life> {
    if e.Fork? then [Life(e.pid, e.start, e.leader)] else []
  }

  ghost predicate Follows(w: World, e: Event, w': World) {
    Grows(w, w') && w'.lives == w.lives + Birth(e)
  }

  /** The world the `k`-th event found; the last one is the world now. */
  function WorldAt(s: State, k: nat): World {
    if k < |s.past| then s.past[k].world else s.world
  }

  /** The past is a history of this kernel. */
  ghost predicate Chronicle(s: State) {
    Linked(s) && forall k :: 0 <= k <= |s.past| ==> WorldOk(WorldAt(s, k))
  }

  ghost predicate Linked(s: State) {
    forall k :: 0 <= k < |s.past| ==> Follows(WorldAt(s, k), s.past[k].event, WorldAt(s, k + 1))
  }

  lemma ForkKeepsHolders(w: World, e: Event)
    requires LatestHolds(w) && e.Fork? && CanHappen(w, e)
    ensures LatestHolds(KernelStep(w, e))
  {
  }

  lemma ForkKeepsStarts(w: World, e: Event)
    requires StartsUnique(w) && e.Fork? && CanHappen(w, e)
    ensures StartsUnique(KernelStep(w, e))
  {
  }

  lemma ForkKeepsGroups(w: World, e: Event)
    requires LatestHolds(w) && GroupsHeld(w) && e.Fork? && CanHappen(w, e)
    ensures GroupsHeld(KernelStep(w, e))
  {
    var w' := KernelStep(w, e);
    forall p | p in w'.slots
      ensures LeaderHeld(w', p)
    {
      if p != e.pid {
        assert LeaderHeld(w, p);
      }
    }
  }

  lemma ForkFollows(w: World, e: Event)
    requires LatestHolds(w) && e.Fork? && CanHappen(w, e)
    ensures Follows(w, e, KernelStep(w, e))
  {
    var w' := KernelStep(w, e);
    forall i | 0 <= i < |w.lives|
      ensures w'.lives[i] == w.lives[i]
    {
    }
  }

  lemma ReapKeepsHolders(w: World, e: Event)
    requires LatestHolds(w) && e.Reap?
    ensures LatestHolds(KernelStep(w, e)) && Follows(w, e, KernelStep(w, e))
  {
    assert w.lives + [] == w.lives;
  }

  lemma ReapKeepsGroups(w: World, e: Event)
    requires GroupsHeld(w) && e.Reap? && CanHappen(w, e)
    ensures GroupsHeld(KernelStep(w, e))
  {
    var w' := KernelStep(w, e);
    forall p | p in w'.slots
      ensures LeaderHeld(w', p)
    {
      assert LeaderHeld(w, p);
    }
  }

  ghost predicate SameHolders(w: World, w': World) {
    w'.lives == w.lives && w'.slots.Keys == w.slots.Keys && forall p :: p in w.slots ==> w'.slots[p].inc == w.slots[p].inc
  }

  lemma SameHoldersSameGroups(w: World, w': World)
    requires GroupsHeld(w) && SameHolders(w, w')
    ensures GroupsHeld(w')
  {
    forall p | p in w'.slots
      ensures LeaderHeld(w', p)
    {
      assert LeaderHeld(w, p);
    }
  }

  /** Rewriting the slot of a held PID without changing its holder moves nothing else. */
  lemma SameHolder(w: World, w': World, pid: nat)
    requires LatestHolds(w) && SameHolders(w, w') && pid in w.slots
    requires w.slots[pid].zombie ==> w'.slots[pid].zombie
    requires forall p :: p in w.slots && p != pid ==> w'.slots[p] == w.slots[p]
    ensures LatestHolds(w') && Grows(w, w')
  {
  }

  lemma ChangeKeepsWorld(w: World, e: Event)
    requires WorldOk(w) && (e.Exit? || e.SetUid? || e.Reparent?) && e.pid in w.slots
    ensures WorldOk(KernelStep(w, e)) && Follows(w, e, KernelStep(w, e))
  {
    ChangeKeepsHolders(w, e);
    SameHolder(w, KernelStep(w, e), e.pid);
    SameHoldersSameGroups(w, KernelStep(w, e));
    assert w.lives + [] == w.lives;
  }

  lemma ChangeKeepsHolders(w: World, e: Event)
    requires (e.Exit? || e.SetUid? || e.Reparent?) && e.pid in w.slots
    ensures SameHolders(w, KernelStep(w, e))
  {
  }

  lemma ForkKeepsWorld(w: World, e: Event)
    requires WorldOk(w) && e.Fork? && CanHappen(w, e)
    ensures WorldOk(KernelStep(w, e)) && Follows(w, e, KernelStep(w, e))
  {
    ForkKeepsHolders(w, e);
    ForkKeepsStarts(w, e);
    ForkKeepsGroups(w, e);
    ForkFollows(w, e);
  }

  lemma ReapKeepsWorld(w: World, e: Event)
    requires WorldOk(w) && e.Reap? && CanHappen(w, e)
    ensures WorldOk(KernelStep(w, e)) && Follows(w, e, KernelStep(w, e))
  {
    ReapKeepsHolders(w, e);
    ReapKeepsGroups(w, e);
  }

  lemma KernelFollows(w: World, e: Event)
    requires WorldOk(w) && IsKernelEvent(e) && CanHappen(w, e)
    ensures WorldOk(KernelStep(w, e)) && Follows(w, e, KernelStep(w, e))
  {
    if e.Fork? {
      ForkKeepsWorld(w, e);
    } else if e.Reap? {
      ReapKeepsWorld(w, e);
    } else {
      ChangeKeepsWorld(w, e);
    }
  }

  lemma NothingMoves(w: World)
    ensures Grows(w, w)
  {
  }

  lemma StepFollows(s: State, e: Event)
    requires WorldOk(s.world) && Enabled(s, e)
    ensures WorldOk(Step(s, e).world) && Follows(s.world, e, Step(s, e).world)
    ensures Step(s, e).past == s.past + [Moment(s.world, e)]
  {
    if IsKernelEvent(e) {
      KernelFollows(s.world, e);
    } else {
      NothingMoves(s.world);
    }
  }

  lemma ChronicleGrows(s: State, s': State, e: Event)
    requires Chronicle(s) && s'.past == s.past + [Moment(s.world, e)]
    requires WorldOk(s'.world) && Follows(s.world, e, s'.world)
    ensures Chronicle(s')
  {
    forall k | 0 <= k <= |s.past|
      ensures WorldAt(s', k) == WorldAt(s, k)
    {
    }
  }

  lemma StepKeepsChronicle(s: State, e: Event)
    requires Chronicle(s) && Enabled(s, e)
    ensures Chronicle(Step(s, e))
  {
    assert WorldOk(WorldAt(s, |s.past|));
    StepFollows(s, e);
    ChronicleGrows(s, Step(s, e), e);
  }

  lemma GrowsOn(w: World, w': World, w'': World)
    requires Grows(w, w') && Grows(w', w'')
    ensures Grows(w, w'')
  {
    forall i | 0 <= i < |w.lives|
      ensures Holds(w'', i) ==> Holds(w, i)
      ensures Running(w'', i) ==> Running(w, i)
    {
    }
  }

  lemma {:induction false} GrowsBetween(s: State, a: nat, b: nat)
    requires Linked(s) && a <= b <= |s.past|
    ensures Grows(WorldAt(s, a), WorldAt(s, b))
    decreases b - a
  {
    if a == b {
      NothingMoves(WorldAt(s, a));
    } else {
      GrowsBetween(s, a, b - 1);
      assert Follows(WorldAt(s, b - 1), s.past[b - 1].event, WorldAt(s, b - 1 + 1));
      GrowsOn(WorldAt(s, a), WorldAt(s, b - 1), WorldAt(s, b));
    }
  }

  lemma NextLives(s: State, k: nat)
    requires Linked(s) && k < |s.past|
    ensures WorldAt(s, k + 1).lives == WorldAt(s, k).lives + Birth(s.past[k].event)
  {
    assert Follows(WorldAt(s, k), s.past[k].event, WorldAt(s, k + 1));
  }

  /** Every life that is new at time `b` was forked since time `a`. */
  lemma {:induction false} BornByFork(s: State, a: nat, b: nat, i: nat) returns (k: nat)
    requires Linked(s) && a <= b <= |s.past| && |WorldAt(s, a).lives| <= i < |WorldAt(s, b).lives|
    ensures a <= k < b && s.past[k].event.Fork? && s.past[k].event.pid == WorldAt(s, b).lives[i].pid
    decreases b - a
  {
    assert a < b;
    NextLives(s, b - 1);
    if i < |WorldAt(s, b - 1).lives| {
      k := BornByFork(s, a, b - 1, i);
    } else {
      k := b - 1;
    }
  }

  /** Every fork since time `a` made a life that is new at time `b`. */
  lemma ForkGivesBirth(s: State, a: nat, b: nat, k: nat) returns (i: nat)
    requires Linked(s) && a <= k < b <= |s.past| && s.past[k].event.Fork?
    ensures |WorldAt(s, a).lives| <= i < |WorldAt(s, b).lives| && WorldAt(s, b).lives[i].pid == s.past[k].event.pid
  {
    i := |WorldAt(s, k).lives|;
    GrowsBetween(s, a, k);
    NextLives(s, k);
    GrowsBetween(s, k + 1, b);
  }

  // ---------------------------------------------------------------- the invariant

  ghost predicate RowOk(w: World, row: Row) {
    row.inc < |w.lives| && w.lives[row.inc].pid == row.pid && w.lives[row.inc].start == row.identity.start
  }

  /** The row was read before the pidfd was opened, so the pidfd's process is not the older one. */
  ghost predicate TargetOk(w: World, t: Target) {
    && RowOk(w, t.row)
    && (t.pidfd.Some? ==>
      && t.openError.None?
      && t.row.inc <= t.pidfd.value < |w.lives|
      && w.lives[t.pidfd.value].pid == t.row.pid == w.lives[t.pidfd.value].leader)
  }

  ghost predicate WalkOk(s: State, mainPid: nat, tree: seq<nat>, seen: seq<Snapshot>, at: seq<nat>) {
    && IsListing(tree, seen, mainPid)
    && |at| == |seen|
    && (forall n :: 0 <= n < |at| ==> at[n] < |s.past| && Shows(s.past[at[n]].world, seen[n]))
  }

  ghost predicate GuardOk(s: State, g: Guard) {
    && g.ownUids == s.ownUids && g.selfPid == s.selfPid
    && (if g.mainPid.Some? && g.mainPid.value > 0
        then WalkOk(s, g.mainPid.value, g.runtimePids, g.seen, g.at) && |g.seen| == |g.runtimePids|
        else g.runtimePids == [])
  }

  /** The process that gave the `Tgid:` was not born before the one of the row. */
  ghost predicate TgidSeen(w: World, t: Target, tgid: Option<nat>) {
    tgid.Some? ==> exists h: nat :: IsGroupMember(w, h, t.row.pid, tgid.value) && t.row.inc <= h
  }

  predicate IsGroupMember(w: World, inc: nat, pid: nat, leader: nat) {
    inc < |w.lives| && w.lives[inc].pid == pid && w.lives[inc].leader == leader
  }

  /** The start ticks were read off the process of the row, which is the pidfd's and gave the `Tgid:`. */
  ghost predicate StatSeen(s: State, j: nat, t: Target, tgid: Option<nat>, statAt: nat) {
    && statAt < |s.past| && s.past[statAt].event == ReadStat(j, true)
    && Running(s.past[statAt].world, t.row.inc)
    && (t.pidfd.Some? ==> t.pidfd.value == t.row.inc)
    && (tgid.Some? ==> IsGroupMember(s.world, t.row.inc, t.row.pid, tgid.value))
  }

  predicate HasUid(w: World, pid: nat, uid: nat) {
    pid in w.slots && w.slots[pid].uid == uid
  }

  ghost predicate PassOk(s: State, j: nat, t: Target, pass: Pass) {
    && pass.guard in s.guards
    && !OffLimits(pass.guard, t.row.pid) && t.row.identity.uid in pass.guard.ownUids
    && (pass.tgid.Some? ==> pass.tgid.value == t.row.pid)
    && StatSeen(s, j, t, pass.tgid, pass.statAt)
    && pass.statAt < pass.checkAt < |s.past| && s.past[pass.checkAt].event == ReadStatus(j, true)
    && HasUid(s.past[pass.checkAt].world, t.row.pid, t.row.identity.uid)
  }

  predicate SendSeen(s: State, j: nat, pass: Pass, sentAt: nat) {
    pass.checkAt < sentAt < |s.past| && s.past[sentAt].event == Send(j, true)
  }

  ghost predicate AliveSeen(s: State, t: Target, sentAt: nat, aliveAt: nat) {
    sentAt < aliveAt < |s.past| && Running(s.past[aliveAt].world, t.row.inc)
  }

  /** At this time the process of the row was not running, or not its uid's. */
  ghost predicate EndSeen(s: State, t: Target, endAt: nat) {
    endAt < |s.past| && (Running(s.past[endAt].world, t.row.inc) ==> !HasUid(s.past[endAt].world, t.row.pid, t.row.identity.uid))
  }

  predicate HasGuard(pc: Pc) {
    pc.Guarded? || pc.HaveTgid? || pc.HaveStat?
  }

  predicate HasSent(pc: Pc) {
    pc.Waiting? || pc.PollStat? || pc.PollAlive? || pc.StillRunning? || pc.Exited?
  }

  predicate HasAlive(pc: Pc) {
    pc.PollStat? || pc.PollAlive? || pc.StillRunning?
  }

  ghost predicate CheckOk(s: State, j: nat, t: Target, pc: Pc) {
    && (HasGuard(pc) ==> pc.guard in s.guards)
    && (pc.HaveTgid? ==> TgidSeen(s.world, t, pc.tgid))
    && (pc.HaveStat? ==> pc.statAt < |s.past| && (pc.start == Some(t.row.identity.start) ==> StatSeen(s, j, t, pc.tgid, pc.statAt)))
  }

  ghost predicate SentOk(s: State, j: nat, t: Target, pc: Pc) {
    && (pc.Cleared? || HasSent(pc) ==> PassOk(s, j, t, pc.pass))
    && (HasSent(pc) ==> SendSeen(s, j, pc.pass, pc.sentAt))
    && (HasAlive(pc) ==> AliveSeen(s, t, pc.sentAt, pc.aliveAt))
    && (pc.Exited? ==> pc.sentAt < pc.endAt && (pc.readable ==> EndSeen(s, t, pc.endAt)))
  }

  ghost predicate ListingOk(s: State, pc: Pc) {
    pc.Listing? ==> pc.mainPid > 0 && |pc.seen| < |pc.tree| && WalkOk(s, pc.mainPid, pc.tree, pc.seen, pc.at)
  }

  ghost predicate JobOk(s: State, j: nat, job: Job) {
    && TargetOk(s.world, job.target)
    && ListingOk(s, job.pc) && CheckOk(s, j, job.target, job.pc) && SentOk(s, j, job.target, job.pc)
  }

  predicate Unsent(pc: Pc) {
    || pc.Started? || pc.Listing? || pc.Guarded? || pc.HaveTgid? || pc.HaveStat? || pc.Cleared? || pc.Refused?
    || pc.SignalFailed?
  }

  /** The keys that lead to a job: one SIGTERM key, or an arming key and then at once a confirming one. */
  predicate Keyed(handled: seq<Handled>, key: nat, t: Target, sig: Sig) {
    && key < |handled|
    && (sig.Term? ==> handled[key] == Terminated(t))
    && (sig.Kill? ==> key > 0 && handled[key - 1] == Armed(t) && handled[key] == Confirmed(t))
  }

  ghost predicate DeliveryOk(s: State, d: Delivery) {
    && TargetOk(s.world, d.target)
    && PassOk(s, d.key, d.target, d.pass)
    && SendSeen(s, d.key, d.pass, d.sentAt)
    && Reached(s.past[d.sentAt].world, d.target) == Some(d.via)
    && d.hit == GroupOf(s.past[d.sentAt].world, d.via)
    && Keyed(s.handled, d.key, d.target, d.sig)
  }

  ghost predicate GuardsOk(s: State) {
    forall g :: g in s.guards ==> GuardOk(s, g)
  }

  ghost predicate RowsOk(s: State) {
    forall k :: 0 <= k < |s.rows| ==> RowOk(s.world, s.rows[k])
  }

  ghost predicate PendingOk(s: State) {
    s.pending.Some? ==>
      && TargetOk(s.world, s.pending.value)
      && |s.handled| > 0
      && s.handled[|s.handled| - 1] == Armed(s.pending.value)
  }

  ghost predicate JobsOk(s: State) {
    forall j :: j in s.jobs ==> JobOk(s, j, s.jobs[j]) && Keyed(s.handled, j, s.jobs[j].target, s.jobs[j].sig)
  }

  ghost predicate DeliveriesOk(s: State) {
    forall n :: 0 <= n < |s.sent| ==> DeliveryOk(s, s.sent[n])
  }

  ghost predicate SentByJobs(s: State) {
    && (forall n :: 0 <= n < |s.sent| ==> s.sent[n].key in s.jobs && !Unsent(s.jobs[s.sent[n].key].pc))
    && (forall m, n :: 0 <= m < n < |s.sent| ==> s.sent[m].key != s.sent[n].key)
  }

  /** What the operator, the jobs and the deliveries know of the world. */
  ghost predicate Known(s: State) {
    RowsOk(s) && PendingOk(s) && GuardsOk(s) && JobsOk(s) && DeliveriesOk(s) && SentByJobs(s)
  }

  ghost predicate Inv(s: State) {
    Chronicle(s) && Known(s)
  }

  // ---------------------------------------------------------------- what is known stays known

  ghost predicate Later(s: State, s': State) {
    && s.past <= s'.past && s.world.lives <= s'.world.lives && s.handled <= s'.handled && s.guards <= s'.guards
    && s'.ownUids == s.ownUids && s'.selfPid == s.selfPid
  }

  lemma GuardStays(s: State, s': State, g: Guard)
    requires Later(s, s') && GuardOk(s, g)
    ensures GuardOk(s', g)
  {
  }

  lemma TgidStays(w: World, w': World, t: Target, tgid: Option<nat>)
    requires w.lives <= w'.lives && TgidSeen(w, t, tgid)
    ensures TgidSeen(w', t, tgid)
  {
    if tgid.Some? {
      var h: nat :| IsGroupMember(w, h, t.row.pid, tgid.value) && t.row.inc <= h;
      assert IsGroupMember(w', h, t.row.pid, tgid.value);
    }
  }

  lemma PassStays(s: State, s': State, j: nat, t: Target, pass: Pass)
    requires Later(s, s') && TargetOk(s.world, t) && PassOk(s, j, t, pass)
    ensures PassOk(s', j, t, pass)
  {
  }

  lemma SentStays(s: State, s': State, j: nat, t: Target, pc: Pc)
    requires Later(s, s') && TargetOk(s.world, t) && SentOk(s, j, t, pc)
    ensures SentOk(s', j, t, pc)
  {
    if pc.Cleared? || HasSent(pc) {
      PassStays(s, s', j, t, pc.pass);
    }
  }

  lemma CheckStays(s: State, s': State, j: nat, t: Target, pc: Pc)
    requires Later(s, s') && TargetOk(s.world, t) && CheckOk(s, j, t, pc)
    ensures CheckOk(s', j, t, pc)
  {
    if pc.HaveTgid? {
      TgidStays(s.world, s'.world, t, pc.tgid);
    }
  }

  lemma JobStays(s: State, s': State, j: nat, job: Job)
    requires Later(s, s') && JobOk(s, j, job)
    ensures JobOk(s', j, job)
  {
    CheckStays(s, s', j, job.target, job.pc);
    SentStays(s, s', j, job.target, job.pc);
  }

  lemma DeliveryStays(s: State, s': State, d: Delivery)
    requires Later(s, s') && DeliveryOk(s, d)
    ensures DeliveryOk(s', d)
  {
    PassStays(s, s', d.key, d.target, d.pass);
  }

  /** A selection opens a pidfd on the holder, or has none for want of pidfds, or comes with an error. */
  lemma SelectOpens(w: World, row: Row, reply: OpenReply)
    ensures
      var t := Select(w, row, reply);
      var there := row.pid != 0 && row.pid in w.slots && IsWhole(w, w.slots[row.pid].inc);
      && t.row == row
      && (t.pidfd.Some? <==> reply.Supported? && there)
      && (t.pidfd.Some? ==> t.openError.None? && t.pidfd.value == w.slots[row.pid].inc)
      && (t.pidfd.None? && t.openError.None? <==> reply.NoSys? && row.pid != 0)
      && (t.openError == Some(Changed) <==> row.pid == 0 || (!reply.NoSys? && row.pid !in w.slots))
  {
  }

  lemma RecordsStay(s: State, s': State)
    requires Later(s, s') && GuardsOk(s) && JobsOk(s) && DeliveriesOk(s)
    ensures forall j :: j in s.jobs ==> JobOk(s', j, s.jobs[j]) && Keyed(s'.handled, j, s.jobs[j].target, s.jobs[j].sig)
    ensures forall n :: 0 <= n < |s.sent| ==> DeliveryOk(s', s.sent[n])
    ensures forall g :: g in s.guards ==> GuardOk(s', g)
  {
    forall j | j in s.jobs
      ensures JobOk(s', j, s.jobs[j])
    {
      JobStays(s, s', j, s.jobs[j]);
    }
    forall n | 0 <= n < |s.sent|
      ensures DeliveryOk(s', s.sent[n])
    {
      DeliveryStays(s, s', s.sent[n]);
    }
    forall g | g in s.guards
      ensures GuardOk(s', g)
    {
      GuardStays(s, s', g);
    }
  }

  /** Time passing, alone, costs nobody what they know. */
  lemma KnownStays(s: State, s': State)
    requires Later(s, s') && Known(s)
    requires s'.rows == s.rows && s'.pending == s.pending && s'.handled == s.handled
    requires s'.jobs == s.jobs && s'.guards == s.guards && s'.sent == s.sent
    ensures Known(s')
  {
    RecordsStay(s, s');
  }

  // ---------------------------------------------------------------- keys

  lemma SelectIsOk(w: World, row: Row, reply: OpenReply)
    requires WorldOk(w) && RowOk(w, row)
    ensures TargetOk(w, Select(w, row, reply))
  {
  }

  lemma ConfirmKeepsKnown(s: State, key: Key)
    requires Known(s) && s.pending.Some?
    ensures Known(PressKey(s, key))
  {
    RecordsStay(s, PressKey(s, key));
    assert |s.handled| !in s.jobs;
  }

  lemma PickKeepsKnown(s: State, key: Key, row: Row, reply: OpenReply)
    requires WorldOk(s.world) && Known(s) && s.pending.None? && row in s.rows
    requires key == KeyTerminate(row, reply) || key == KeyKill(row, reply)
    ensures Known(PressKey(s, key))
  {
    RecordsStay(s, PressKey(s, key));
    SelectIsOk(s.world, row, reply);
    assert |s.handled| !in s.jobs;
  }

  lemma PressKeepsKnown(s: State, key: Key)
    requires WorldOk(s.world) && Known(s) && Enabled(s, Press(key))
    ensures Known(PressKey(s, key))
  {
    if s.pending.Some? {
      ConfirmKeepsKnown(s, key);
    } else {
      match key
      case KeyTerminate(row, reply) => PickKeepsKnown(s, key, row, reply);
      case KeyKill(row, reply) => PickKeepsKnown(s, key, row, reply);
      case _ => RecordsStay(s, PressKey(s, key));
    }
  }

  // ---------------------------------------------------------------- jobs

  /** The moment of the step: the last one recorded, in the world as it is. */
  ghost predicate Now(s: State, e: Event, now: nat) {
    |s.past| == now + 1 && s.past[now] == Moment(s.world, e)
  }

  lemma CheckPasses(t: Target, g: Guard, tgid: Option<nat>, now: Option<Identity>)
    ensures Check(t, g, tgid, now).None? <==>
      && (tgid == Some(t.row.pid) || tgid.None?)
      && t.openError.None?
      && now == Some(t.row.identity)
      && !OffLimits(g, t.row.pid) && t.row.identity.uid in g.ownUids
  {
  }

  /**
   * What a refusal says: nothing off limits, and no thread, is reported as changed; a target that is
   * neither, and opened, is "changed" exactly when another identity, or none, was read.
   */
  lemma RefusalsTell(t: Target, g: Guard, tgid: Option<nat>, now: Option<Identity>)
    ensures
      var e := Check(t, g, tgid, now);
      var leader := if tgid.Some? then tgid.value else t.row.pid;
      && (OffLimits(g, leader) || leader != t.row.pid ==> e == Some(Protected))
      && (!OffLimits(g, t.row.pid) && leader == t.row.pid && t.openError.Some? ==> e == t.openError)
      && (!OffLimits(g, t.row.pid) && leader == t.row.pid && t.openError.None? ==>
        && (e == Some(Changed) <==> now != Some(t.row.identity))
        && (e == Some(Protected) <==> now == Some(t.row.identity) && t.row.identity.uid !in g.ownUids))
  {
  }

  /** The start ticks a read finds are those of the row only if its process still runs and holds the PID. */
  lemma StartTicksTell(w: World, t: Target, readable: bool)
    requires WorldOk(w) && TargetOk(w, t)
    ensures StartAnswer(w, t.row.pid, readable) == Some(t.row.identity.start) <==> readable && Running(w, t.row.inc)
  {
  }

  /** A holder that is the row's process is the last of its PID, and so the pidfd's. */
  lemma StatSeesSelected(s: State, j: nat, t: Target, tgid: Option<nat>, readable: bool, now: nat)
    requires Now(s, ReadStat(j, readable), now) && WorldOk(s.world) && TargetOk(s.world, t) && TgidSeen(s.world, t, tgid)
    requires StartAnswer(s.world, t.row.pid, readable) == Some(t.row.identity.start)
    ensures StatSeen(s, j, t, tgid, now)
  {
    StartTicksTell(s.world, t, readable);
    if tgid.Some? {
      var h: nat :| IsGroupMember(s.world, h, t.row.pid, tgid.value) && t.row.inc <= h;
      assert h == t.row.inc;
    }
  }

  lemma WalkGoesOn(s: State, e: Event, now: nat, mainPid: nat, tree: seq<nat>, seen: seq<Snapshot>, at: seq<nat>)
    requires e.ListChildren? && Now(s, e, now) && Shows(s.world, e.snap)
    requires WalkOk(s, mainPid, tree, seen, at) && |seen| < |tree|
    ensures WalkOk(s, mainPid, Expand(tree, e.snap, tree[|seen|]), seen + [e.snap], at + [now])
    ensures |seen| + 1 <= |Expand(tree, e.snap, tree[|seen|])|
  {
    ExpandKeepsListing(tree, seen, mainPid, e.snap);
  }

  lemma ChildrenKeepJob(s: State, j: nat, job: Job, snap: Snapshot, now: nat)
    requires WorldOk(s.world) && JobOk(s, j, job) && Now(s, ListChildren(j, snap), now)
    requires job.pc.Listing? && Shows(s.world, snap)
    ensures var pc := AfterChildren(s, job.pc, snap, now);
      JobOk(WithGuard(s, pc), j, job.(pc := pc)) && (pc.Guarded? ==> GuardOk(s, pc.guard))
  {
    WalkGoesOn(s, ListChildren(j, snap), now, job.pc.mainPid, job.pc.tree, job.pc.seen, job.pc.at);
  }

  lemma MainPidKeepsJob(s: State, j: nat, job: Job, mainPid: Option<nat>)
    requires TargetOk(s.world, job.target)
    ensures var pc := AfterMainPid(s, mainPid);
      JobOk(WithGuard(s, pc), j, job.(pc := pc)) && (pc.Guarded? ==> GuardOk(s, pc.guard))
  {
    if mainPid.Some? {
      RootIsListing(mainPid.value);
    }
  }

  lemma TgidTells(w: World, t: Target, readable: bool)
    requires WorldOk(w) && TargetOk(w, t)
    ensures TgidSeen(w, t, TgidAnswer(w, t.row.pid, readable))
  {
    if TgidAnswer(w, t.row.pid, readable).Some? {
      assert IsGroupMember(w, w.slots[t.row.pid].inc, t.row.pid, TgidAnswer(w, t.row.pid, readable).value);
    }
  }

  lemma CheckReadKeepsJob(s: State, e: Event, job: Job, now: nat)
    requires IsJobEvent(e) && WorldOk(s.world) && JobOk(s, e.job, job) && Now(s, e, now)
    requires IsChecking(job.pc) && Awaits(s.world, job.pc, e)
    ensures JobOk(s, e.job, job.(pc := AfterCheckRead(s.world, job, e, now)))
  {
    var t := job.target;
    if e.ReadTgid? {
      TgidTells(s.world, t, e.readable);
    } else if e.ReadStat? {
      if StartAnswer(s.world, t.row.pid, e.readable) == Some(t.row.identity.start) {
        StatSeesSelected(s, e.job, t, job.pc.tgid, e.readable, now);
      }
    } else {
      StatusKeepsJob(s, e, job, now);
    }
  }

  lemma StatusKeepsJob(s: State, e: Event, job: Job, now: nat)
    requires e.ReadStatus? && WorldOk(s.world) && JobOk(s, e.job, job) && Now(s, e, now)
    requires job.pc.HaveStat?
    ensures JobOk(s, e.job, job.(pc := AfterCheckRead(s.world, job, e, now)))
  {
    var t := job.target;
    var uid := UidAnswer(s.world, t.row.pid, e.readable);
    CheckPasses(t, job.pc.guard, job.pc.tgid, IdentityAnswer(job.pc.start, uid));
  }

  lemma SendKeepsJob(s: State, j: nat, job: Job, accepted: bool, now: nat)
    requires JobOk(s, j, job) && Now(s, Send(j, accepted), now) && job.pc.Cleared?
    ensures JobOk(s, j, job.(pc := AfterSend(s.world, job, accepted, now)))
  {
  }

  /** A poll that does not find the identity has seen the end, or another owner. */
  lemma PollTells(s: State, e: Event, t: Target, now: nat)
    requires WorldOk(s.world) && TargetOk(s.world, t) && Now(s, e, now)
    ensures StartAnswer(s.world, t.row.pid, true) != Some(t.row.identity.start) ==> EndSeen(s, t, now)
    ensures UidAnswer(s.world, t.row.pid, true) != Some(t.row.identity.uid) ==> EndSeen(s, t, now)
  {
    StartTicksTell(s.world, t, true);
  }

  lemma WaitKeepsJob(s: State, e: Event, job: Job, now: nat)
    requires e.ReadStat? && WorldOk(s.world) && JobOk(s, e.job, job) && Now(s, e, now) && job.pc.Waiting?
    ensures JobOk(s, e.job, job.(pc := AfterPoll(s.world, job, e, now)))
  {
    PollTells(s, e, job.target, now);
    StartTicksTell(s.world, job.target, e.readable);
  }

  lemma StatusPollKeepsJob(s: State, e: Event, job: Job, now: nat)
    requires e.ReadStatus? && WorldOk(s.world) && JobOk(s, e.job, job) && Now(s, e, now) && job.pc.PollStat?
    ensures JobOk(s, e.job, job.(pc := AfterPoll(s.world, job, e, now)))
  {
    PollTells(s, e, job.target, now);
  }

  lemma PollKeepsJob(s: State, e: Event, job: Job, now: nat)
    requires IsJobEvent(e) && WorldOk(s.world) && JobOk(s, e.job, job) && Now(s, e, now)
    requires Awaits(s.world, job.pc, e) && (job.pc.Waiting? || job.pc.PollStat? || job.pc.PollAlive?)
    ensures JobOk(s, e.job, job.(pc := AfterPoll(s.world, job, e, now)))
  {
    if job.pc.Waiting? {
      WaitKeepsJob(s, e, job, now);
    } else if job.pc.PollStat? {
      StatusPollKeepsJob(s, e, job, now);
    }
  }

  lemma ReadingKeepsJob(s: State, e: Event, job: Job, now: nat)
    requires IsJobEvent(e) && !e.ReadMainPid? && !e.ListChildren?
    requires WorldOk(s.world) && JobOk(s, e.job, job) && Awaits(s.world, job.pc, e) && Now(s, e, now)
    ensures var pc := NextPc(s, e, job, now); !pc.Guarded? && JobOk(s, e.job, job.(pc := pc))
  {
    if e.Send? {
      SendKeepsJob(s, e.job, job, e.accepted, now);
    } else if IsChecking(job.pc) {
      CheckReadKeepsJob(s, e, job, now);
    } else {
      PollKeepsJob(s, e, job, now);
    }
  }

  lemma NextPcIsOk(s: State, e: Event, now: nat)
    requires WorldOk(s.world) && JobsOk(s) && IsJobEvent(e) && Enabled(s, e) && Now(s, e, now)
    ensures var job := s.jobs[e.job];
      var pc := NextPc(s, e, job, now);
      JobOk(WithGuard(s, pc), e.job, job.(pc := pc)) && (pc.Guarded? ==> GuardOk(s, pc.guard))
  {
    var job := s.jobs[e.job];
    assert JobOk(s, e.job, job);
    if e.ReadMainPid? {
      MainPidKeepsJob(s, e.job, job, e.mainPid);
    } else if e.ListChildren? {
      ChildrenKeepJob(s, e.job, job, e.snap, now);
    } else {
      ReadingKeepsJob(s, e, job, now);
    }
  }

  lemma DeliveredIsOk(s: State, e: Event, now: nat)
    requires WorldOk(s.world) && JobsOk(s) && IsJobEvent(e) && Enabled(s, e) && Now(s, e, now)
    ensures forall d :: d in Delivered(s, e, s.jobs[e.job], now) ==> d.key == e.job && DeliveryOk(s, d)
  {
    assert JobOk(s, e.job, s.jobs[e.job]);
  }

  /** A job sends once: before, it has not sent, and after, it has. */
  lemma SendingIsOnce(s: State, e: Event, now: nat)
    requires IsJobEvent(e) && Enabled(s, e)
    ensures
      var pc, pc' := s.jobs[e.job].pc, NextPc(s, e, s.jobs[e.job], now);
      var sent := Delivered(s, e, s.jobs[e.job], now);
      && |sent| <= 1
      && (sent != [] ==> Unsent(pc) && !Unsent(pc'))
      && (!Unsent(pc) ==> !Unsent(pc'))
  {
  }

  lemma JobStepIsLater(s: State, e: Event, now: nat)
    requires IsJobEvent(e) && e.job in s.jobs
    ensures Later(s, JobStep(s, e, now)) && Later(WithGuard(s, NextPc(s, e, s.jobs[e.job], now)), JobStep(s, e, now))
  {
  }

  lemma JobStepKeepsJobs(s: State, e: Event, now: nat)
    requires WorldOk(s.world) && Known(s) && IsJobEvent(e) && Enabled(s, e) && Now(s, e, now)
    ensures var s' := JobStep(s, e, now); JobsOk(s') && GuardsOk(s')
  {
    var s' := JobStep(s, e, now);
    var s1 := WithGuard(s, NextPc(s, e, s.jobs[e.job], now));
    JobStepIsLater(s, e, now);
    NextPcIsOk(s, e, now);
    RecordsStay(s, s');
    JobStays(s1, s', e.job, s'.jobs[e.job]);
    forall g | g in s'.guards
      ensures GuardOk(s', g)
    {
      if g !in s.guards {
        GuardStays(s, s', g);
      }
    }
  }

  lemma JobStepKeepsDeliveries(s: State, e: Event, now: nat)
    requires WorldOk(s.world) && Known(s) && IsJobEvent(e) && Enabled(s, e) && Now(s, e, now)
    ensures DeliveriesOk(JobStep(s, e, now))
  {
    var s' := JobStep(s, e, now);
    JobStepIsLater(s, e, now);
    DeliveredIsOk(s, e, now);
    RecordsStay(s, s');
    forall d | d in Delivered(s, e, s.jobs[e.job], now)
      ensures DeliveryOk(s', d)
    {
      DeliveryStays(s, s', d);
    }
  }

  lemma SendersGrow(s: State, s': State, j: nat, sent: seq<Delivery>)
    requires SentByJobs(s) && j in s.jobs
    requires s'.jobs.Keys == s.jobs.Keys && (forall i :: i in s.jobs && i != j ==> s'.jobs[i] == s.jobs[i])
    requires s'.sent == s.sent + sent && |sent| <= 1
    requires sent != [] ==> sent[0].key == j && Unsent(s.jobs[j].pc) && !Unsent(s'.jobs[j].pc)
    requires !Unsent(s.jobs[j].pc) ==> !Unsent(s'.jobs[j].pc)
    ensures SentByJobs(s')
  {
  }

  lemma JobStepKeepsSenders(s: State, e: Event, now: nat)
    requires SentByJobs(s) && IsJobEvent(e) && Enabled(s, e)
    ensures SentByJobs(JobStep(s, e, now))
  {
    SendingIsOnce(s, e, now);
    SendersGrow(s, JobStep(s, e, now), e.job, Delivered(s, e, s.jobs[e.job], now));
  }

  lemma JobStepKeepsRows(s: State, e: Event, now: nat)
    requires RowsOk(s) && PendingOk(s) && IsJobEvent(e) && e.job in s.jobs
    ensures RowsOk(JobStep(s, e, now)) && PendingOk(JobStep(s, e, now))
  {
  }

  lemma JobStepKeepsKnown(s: State, e: Event, now: nat)
    requires WorldOk(s.world) && Known(s) && IsJobEvent(e) && Enabled(s, e) && Now(s, e, now)
    ensures Known(JobStep(s, e, now))
  {
    JobStepKeepsRows(s, e, now);
    JobStepKeepsJobs(s, e, now);
    JobStepKeepsDeliveries(s, e, now);
    JobStepKeepsSenders(s, e, now);
  }

  lemma RefreshKeepsKnown(s: State, pid: nat, uid: nat)
    requires WorldOk(s.world) && Known(s)
    ensures Known(RefreshRow(s, pid, uid))
  {
    RecordsStay(s, RefreshRow(s, pid, uid));
  }

  lemma StepKeepsInv(s: State, e: Event)
    requires Inv(s) && Enabled(s, e)
    ensures Inv(Step(s, e))
  {
    var s1 := Record(s, e);
    assert WorldOk(WorldAt(s, |s.past|));
    StepKeepsChronicle(s, e);
    KnownStays(s, s1);
    if IsKernelEvent(e) {
      KernelFollows(s.world, e);
      KnownStays(s1, Step(s, e));
    } else if e.Press? {
      PressKeepsKnown(s1, e.key);
    } else if e.Refresh? {
      RefreshKeepsKnown(s1, e.pid, e.uid);
    } else {
      JobStepKeepsKnown(s1, e, |s.past|);
    }
  }

  lemma {:induction false} RunKeepsInv(s0: State, es: seq<Event>, s: State)
    requires Inv(s0) && IsRun(s0, es, s)
    ensures Inv(s)
    decreases |es|
  {
    if es != [] {
      StepKeepsInv(s0, es[0]);
      RunKeepsInv(Step(s0, es[0]), es[1..], s);
    }
  }

  // ---------------------------------------------------------------- what every run keeps

  lemma InitIsInv(s: State)
    requires Init(s)
    ensures Inv(s)
  {
  }

  lemma ReachableInv(s0: State, es: seq<Event>, s: State)
    requires Init(s0) && IsRun(s0, es, s)
    ensures Inv(s)
  {
    InitIsInv(s0);
    RunKeepsInv(s0, es, s);
  }

  lemma StepRecords(s: State, e: Event)
    requires Enabled(s, e)
    ensures Step(s, e).past == s.past + [Moment(s.world, e)]
  {
  }

  /** The past is the run: its `k`-th moment is the `k`-th event, in the world the first `k` events led to. */
  lemma {:induction false} PastIsTheRun(s0: State, es: seq<Event>, s: State)
    requires IsRun(s0, es, s)
    ensures s0.past <= s.past && |s.past| == |s0.past| + |es|
    ensures forall k :: 0 <= k < |es| ==> s.past[|s0.past| + k].event == es[k]
    ensures forall k :: 0 <= k < |es| ==> LedTo(s0, es[..k], s.past[|s0.past| + k].world)
    decreases |es|
  {
    if es != [] {
      var s1 := Step(s0, es[0]);
      StepRecords(s0, es[0]);
      PastIsTheRun(s1, es[1..], s);
      forall k | 0 <= k < |es|
        ensures s.past[|s0.past| + k].event == es[k]
        ensures LedTo(s0, es[..k], s.past[|s0.past| + k].world)
      {
        LedOn(s0, es, k, s.past[|s0.past| + k].world);
      }
    }
  }

  ghost predicate LedTo(s0: State, es: seq<Event>, w: World) {
    exists s :: IsRun(s0, es, s) && s.world == w
  }

  lemma LedOn(s0: State, es: seq<Event>, k: nat, w: World)
    requires k < |es| && Enabled(s0, es[0])
    requires if k == 0 then w == s0.world else LedTo(Step(s0, es[0]), es[1..][..k - 1], w)
    ensures LedTo(s0, es[..k], w)
  {
    if k == 0 {
      assert IsRun(s0, es[..k], s0);
    } else {
      var s :| IsRun(Step(s0, es[0]), es[1..][..k - 1], s) && s.world == w;
      assert es[..k][1..] == es[1..][..k - 1];
      assert IsRun(s0, es[..k], s);
    }
  }

  /** The process of the row, by what the row says: there is no other with this PID and start ticks. */
  ghost predicate IsTheProcessOf(w: World, row: Row, inc: nat) {
    RowOk(w, row) && forall i: nat :: RowOk(w, row.(inc := i)) <==> i == inc
  }

  predicate OwnedBy(w: World, inc: nat, uid: nat) {
    Holds(w, inc) && w.slots[w.lives[inc].pid].uid == uid
  }

  /** No process was given this PID between the two events. */
  predicate NoForkOf(es: seq<Event>, pid: nat, from: nat, to: nat)
    requires from <= to <= |es|
  {
    forall k :: from < k < to && es[k].Fork? ==> es[k].pid != pid
  }

  /** The reads behind a delivery, as events of the run. */
  predicate ReadsOf(es: seq<Event>, d: Delivery) {
    && d.pass.statAt < d.pass.checkAt < d.sentAt < |es|
    && es[d.pass.statAt] == ReadStat(d.key, true)
    && es[d.pass.checkAt] == ReadStatus(d.key, true)
    && es[d.sentAt] == Send(d.key, true)
  }

  lemma ReadsAreEvents(s: State, es: seq<Event>, d: Delivery)
    requires DeliveryOk(s, d) && |s.past| == |es|
    requires forall k :: 0 <= k < |es| ==> s.past[k].event == es[k]
    ensures ReadsOf(es, d)
  {
  }

  lemma DeliveryOfRun(s0: State, es: seq<Event>, s: State, n: nat)
    requires Init(s0) && IsRun(s0, es, s) && n < |s.sent|
    ensures Chronicle(s) && GuardsOk(s) && |s.past| == |es| && DeliveryOk(s, s.sent[n]) && ReadsOf(es, s.sent[n])
    ensures forall k :: 0 <= k < |es| ==> s.past[k].event == es[k]
  {
    ReachableInv(s0, es, s);
    PastIsTheRun(s0, es, s);
    ReadsAreEvents(s, es, s.sent[n]);
  }

  lemma RowIsOfOneProcess(w: World, row: Row)
    requires StartsUnique(w) && RowOk(w, row)
    ensures IsTheProcessOf(w, row, row.inc)
  {
  }

  /** As long as the row's process holds its PID, the uid read at the check was its own. */
  lemma OwnerAtCheck(s: State, d: Delivery)
    requires Chronicle(s) && DeliveryOk(s, d) && Holds(s.past[d.sentAt].world, d.target.row.inc)
    ensures OwnedBy(s.past[d.pass.checkAt].world, d.target.row.inc, d.target.row.identity.uid)
  {
    GrowsBetween(s, d.pass.statAt, d.pass.checkAt);
    GrowsBetween(s, d.pass.checkAt, d.sentAt);
    GrowsBetween(s, d.sentAt, |s.past|);
  }

  lemma PidfdHit(s: State, d: Delivery)
    requires Chronicle(s) && DeliveryOk(s, d) && d.target.pidfd.Some?
    ensures d.via == d.hit == d.target.row.inc
    ensures Holds(s.past[d.sentAt].world, d.hit) && IsWhole(s.past[d.sentAt].world, d.hit)
  {
    GrowsBetween(s, d.sentAt, |s.past|);
    assert Holds(s.past[d.sentAt].world, d.via);
  }

  /**
   * With a pidfd, whatever exits, forks, is reaped or changes owner between any two reads: a signal
   * that arrives arrives at the one process of the selected row, which is a whole process, belonged,
   * when the check read its owner, to the uid of the row, one of the operator's, and is not PID 1,
   * saltnitor or a runtime PID.
   */
  lemma PidfdHitsTheSelectedProcess(s0: State, es: seq<Event>, s: State, n: nat)
    requires Init(s0) && IsRun(s0, es, s)
    requires n < |s.sent| && s.sent[n].target.pidfd.Some?
    ensures
      var d := s.sent[n];
      var row, g := d.target.row, d.pass.guard;
      && ReadsOf(es, d) && |s.past| == |es|
      && IsTheProcessOf(s.world, row, d.hit)
      && IsWhole(s.past[d.sentAt].world, d.hit)
      && OwnedBy(s.past[d.pass.checkAt].world, d.hit, row.identity.uid) && row.identity.uid in s.ownUids
      && row.pid != 1 && row.pid != s.selfPid && row.pid !in g.runtimePids
  {
    var d := s.sent[n];
    DeliveryOfRun(s0, es, s, n);
    PidfdHit(s, d);
    OwnerAtCheck(s, d);
    assert WorldOk(WorldAt(s, |s.past|));
    RowIsOfOneProcess(s.world, d.target.row);
    assert GuardOk(s, d.pass.guard);
  }

  ghost predicate IsLastOf(w: World, pid: nat, inc: nat) {
    && inc < |w.lives| && w.lives[inc].pid == pid
    && forall i :: 0 <= i < |w.lives| && w.lives[i].pid == pid ==> i <= inc
  }

  lemma HolderIsLast(w: World, inc: nat)
    requires LatestHolds(w) && Holds(w, inc)
    ensures IsLastOf(w, w.lives[inc].pid, inc)
  {
  }

  lemma LatestAt(s: State, d: Delivery)
    requires Chronicle(s) && DeliveryOk(s, d) && d.target.pidfd.None?
    ensures IsLastOf(WorldAt(s, d.pass.statAt), d.target.row.pid, d.target.row.inc)
    ensures IsLastOf(WorldAt(s, d.sentAt), d.target.row.pid, d.via)
  {
    assert WorldOk(WorldAt(s, d.pass.statAt)) && WorldOk(WorldAt(s, d.sentAt));
    GrowsBetween(s, d.pass.statAt, |s.past|);
    HolderIsLast(WorldAt(s, d.pass.statAt), d.target.row.inc);
    HolderIsLast(WorldAt(s, d.sentAt), d.via);
  }

  predicate NoForkSeen(s: State, pid: nat, from: nat, to: nat)
    requires from <= to <= |s.past|
  {
    forall k :: from < k < to && s.past[k].event.Fork? ==> s.past[k].event.pid != pid
  }

  /** The latest life of a PID is another one at a later time iff the PID was forked in between. */
  lemma LatestChanges(s: State, a: nat, b: nat, inc: nat, via: nat, pid: nat)
    requires Linked(s) && a < b <= |s.past| && !s.past[a].event.Fork?
    requires IsLastOf(WorldAt(s, a), pid, inc) && IsLastOf(WorldAt(s, b), pid, via)
    ensures via == inc <==> NoForkSeen(s, pid, a, b)
  {
    GrowsBetween(s, a, b);
    if via != inc {
      var k := BornByFork(s, a, b, via);
    }
    if !NoForkSeen(s, pid, a, b) {
      var k :| a < k < b && s.past[k].event.Fork? && s.past[k].event.pid == pid;
      var i := ForkGivesBirth(s, a, b, k);
    }
  }

  lemma SeenIsRun(s: State, es: seq<Event>, pid: nat, a: nat, b: nat)
    requires |s.past| == |es| && a <= b <= |es|
    requires forall k :: 0 <= k < |es| ==> s.past[k].event == es[k]
    ensures NoForkSeen(s, pid, a, b) <==> NoForkOf(es, pid, a, b)
  {
  }

  /** `kill(2)` names the row's process unless its PID was forked anew since the start ticks were read. */
  lemma PidNamesUnlessForked(s: State, es: seq<Event>, d: Delivery)
    requires Chronicle(s) && DeliveryOk(s, d) && d.target.pidfd.None? && |s.past| == |es| && ReadsOf(es, d)
    requires forall k :: 0 <= k < |es| ==> s.past[k].event == es[k]
    ensures d.via == d.target.row.inc <==> NoForkOf(es, d.target.row.pid, d.pass.statAt, d.sentAt)
  {
    LatestAt(s, d);
    LatestChanges(s, d.pass.statAt, d.sentAt, d.target.row.inc, d.via, d.target.row.pid);
    SeenIsRun(s, es, d.target.row.pid, d.pass.statAt, d.sentAt);
  }

  /** A signal to the PID reaches a group whose leader is the row's process iff it names a whole process. */
  lemma GroupIsTheProcess(s: State, d: Delivery)
    requires Chronicle(s) && DeliveryOk(s, d) && d.target.pidfd.None?
    ensures d.hit == d.target.row.inc <==> d.via == d.target.row.inc && IsWhole(s.world, d.target.row.inc)
    ensures d.hit < |s.world.lives| && d.via < |s.world.lives| && s.world.lives[d.hit].pid == s.world.lives[d.via].leader
    ensures d.via == d.target.row.inc ==> Holds(s.past[d.sentAt].world, d.target.row.inc)
  {
    var w := s.past[d.sentAt].world;
    assert WorldOk(WorldAt(s, d.sentAt));
    GrowsBetween(s, d.sentAt, |s.past|);
    assert LeaderHeld(w, d.target.row.pid);
  }

  /**
   * Without a pidfd the signal goes to the PID, and from there to the whole thread group. It reaches
   * the process of the row exactly when that is a whole process and its PID was not given away between
   * the reading of its start ticks and the signal. A `Tgid:` that could be read makes sure of the
   * first; otherwise the leader of the thread's group is hit.
   */
  lemma FallbackHitsUnlessReused(s0: State, es: seq<Event>, s: State, n: nat)
    requires Init(s0) && IsRun(s0, es, s)
    requires n < |s.sent| && s.sent[n].target.pidfd.None?
    ensures
      var d := s.sent[n];
      var row := d.target.row;
      && ReadsOf(es, d) && |s.past| == |es|
      && IsTheProcessOf(s.world, row, row.inc)
      && (d.hit == row.inc <==> IsWhole(s.world, row.inc) && NoForkOf(es, row.pid, d.pass.statAt, d.sentAt))
      && (d.pass.tgid.Some? ==> IsWhole(s.world, row.inc))
      && (NoForkOf(es, row.pid, d.pass.statAt, d.sentAt) ==>
        && d.hit < |s.world.lives| && s.world.lives[d.hit].pid == s.world.lives[row.inc].leader
        && OwnedBy(s.past[d.pass.checkAt].world, row.inc, row.identity.uid) && row.identity.uid in s.ownUids)
  {
    var d := s.sent[n];
    DeliveryOfRun(s0, es, s, n);
    PidNamesUnlessForked(s, es, d);
    GroupIsTheProcess(s, d);
    assert WorldOk(WorldAt(s, |s.past|));
    RowIsOfOneProcess(s.world, d.target.row);
    assert GuardOk(s, d.pass.guard);
    if d.via == d.target.row.inc {
      OwnerAtCheck(s, d);
    }
  }

  // ---------------------------------------------------------------- the runtime's tree

  /** At each reading of the walk `pid` was a child of `parent`, and could be read. */
  ghost predicate StoodBelow(s: State, g: Guard, parent: nat, pid: nat) {
    forall n :: 0 <= n < |g.at| && n < |g.seen| ==>
      var w := WorldAt(s, g.at[n]);
      && pid in w.slots && w.slots[pid].ppid == parent
      && pid in g.seen[n].pids && pid in g.seen[n].ppid
  }

  /** From the runtime's main PID down to the end of `chain`, throughout the walk. */
  ghost predicate StoodInTree(s: State, g: Guard, chain: seq<nat>) {
    && |chain| > 0 && g.mainPid == Some(chain[0]) && chain[0] > 0
    && forall k :: 0 < k < |chain| ==> StoodBelow(s, g, chain[k - 1], chain[k])
  }

  lemma TreeIsOffLimits(s: State, g: Guard, chain: seq<nat>)
    requires GuardOk(s, g) && StoodInTree(s, g, chain)
    ensures chain[|chain| - 1] in g.runtimePids
  {
    forall n, k | 0 <= n < |g.seen| && 0 < k < |chain|
      ensures IsChild(g.seen[n], chain[k - 1], chain[k])
    {
      assert StoodBelow(s, g, chain[k - 1], chain[k]);
    }
    StandingIsListed(g.runtimePids, g.seen, chain[0], chain);
  }

  /**
   * No signal through a pidfd, and none to a PID whose `Tgid:` could be read and that was not given
   * away, reaches PID 1, saltnitor, a listed runtime PID, or any process that stood below the runtime's
   * main PID while it was listed.
   */
  lemma RuntimeTreeIsSpared(s0: State, es: seq<Event>, s: State, n: nat, chain: seq<nat>)
    requires Init(s0) && IsRun(s0, es, s) && n < |s.sent|
    requires
      var d := s.sent[n];
      || d.target.pidfd.Some?
      || (d.pass.tgid.Some? && d.pass.statAt <= d.sentAt <= |es| && NoForkOf(es, d.target.row.pid, d.pass.statAt, d.sentAt))
    ensures
      var d := s.sent[n];
      && d.hit < |s.world.lives|
      && !OffLimits(d.pass.guard, s.world.lives[d.hit].pid)
      && (StoodInTree(s, d.pass.guard, chain) ==> s.world.lives[d.hit].pid != chain[|chain| - 1])
  {
    var d := s.sent[n];
    DeliveryOfRun(s0, es, s, n);
    assert GuardOk(s, d.pass.guard);
    if d.target.pidfd.Some? {
      PidfdHit(s, d);
    } else {
      PidNamesUnlessForked(s, es, d);
      GroupIsTheProcess(s, d);
    }
    if StoodInTree(s, d.pass.guard, chain) {
      TreeIsOffLimits(s, d.pass.guard, chain);
    }
  }

  // ---------------------------------------------------------------- keys and outcomes

  /** The keys of a run, in order. */
  function Keys(es: seq<Event>): seq<Key> {
    if es == [] then [] else (if es[0].Press? then [es[0].key] else []) + Keys(es[1..])
  }

  /** Key `n` answers a question: the key before it armed a kill, and was no answer itself. */
  predicate Answers(keys: seq<Key>, n: nat)
    requires n <= |keys|
  {
    n > 0 && keys[n - 1].KeyKill? && !Answers(keys, n - 1)
  }

  /** Key `n` starts a SIGTERM: a terminate key that answers nothing. */
  predicate AsksTerm(keys: seq<Key>, n: nat) {
    n < |keys| && !Answers(keys, n) && keys[n].KeyTerminate?
  }

  /** Key `n` starts a SIGKILL: a `y` that answers the key before it. */
  predicate AsksKill(keys: seq<Key>, n: nat) {
    n < |keys| && Answers(keys, n) && keys[n].KeyYes?
  }

  /** When the keys of a run were pressed; the run began at `from`. */
  function KeyTimes(es: seq<Event>, from: nat): (at: seq<nat>)
    ensures |at| == |Keys(es)|
  {
    if es == [] then [] else (if es[0].Press? then [from] else []) + KeyTimes(es[1..], from + 1)
  }

  /** What key `n` selected, in the world it was pressed in. */
  predicate Selects(keys: seq<Key>, at: seq<nat>, s: State, n: nat, t: Target) {
    && n < |keys| && n < |at| && at[n] < |s.past|
    && (keys[n].KeyTerminate? || keys[n].KeyKill?)
    && t == Select(s.past[at[n]].world, keys[n].row, keys[n].reply)
  }

  /** The keys that ask for this signal: the SIGTERM key itself, or the kill key before the `y`. */
  predicate AsksFor(keys: seq<Key>, at: seq<nat>, s: State, n: nat, sig: Sig, t: Target) {
    match sig
    case Term => AsksTerm(keys, n) && Selects(keys, at, s, n, t)
    case Kill => AsksKill(keys, n) && n > 0 && Selects(keys, at, s, n - 1, t)
  }

  /** Where the handler stands after these keys. */
  ghost predicate KeysOk(keys: seq<Key>, at: seq<nat>, s: State) {
    && |s.handled| == |keys| == |at|
    && (s.pending.Some? <==> Answers(keys, |keys|))
    && (s.pending.Some? ==> |keys| > 0 && Selects(keys, at, s, |keys| - 1, s.pending.value))
    && (forall j :: j in s.jobs <==> AsksTerm(keys, j) || AsksKill(keys, j))
    && (forall j :: j in s.jobs ==> AsksFor(keys, at, s, j, s.jobs[j].sig, s.jobs[j].target))
  }

  lemma {:induction false} AnswersStays(keys: seq<Key>, key: Key, n: nat)
    requires n <= |keys|
    ensures Answers(keys + [key], n) <==> Answers(keys, n)
  {
    if n > 0 {
      AnswersStays(keys, key, n - 1);
    }
  }

  lemma SelectsStays(keys: seq<Key>, at: seq<nat>, s: State, key: Key, k: nat, s': State, n: nat, t: Target)
    requires Selects(keys, at, s, n, t) && s.past <= s'.past
    ensures Selects(keys, at, s', n, t) && Selects(keys + [key], at + [k], s', n, t)
  {
  }

  lemma AsksStay(keys: seq<Key>, key: Key, j: nat)
    requires j < |keys|
    ensures AsksTerm(keys + [key], j) <==> AsksTerm(keys, j)
    ensures AsksKill(keys + [key], j) <==> AsksKill(keys, j)
  {
    AnswersStays(keys, key, j);
  }

  lemma AsksForStays(keys: seq<Key>, at: seq<nat>, s: State, key: Key, k: nat, s': State, j: nat, sig: Sig, t: Target)
    requires AsksFor(keys, at, s, j, sig, t) && s.past <= s'.past
    ensures AsksFor(keys, at, s', j, sig, t) && AsksFor(keys + [key], at + [k], s', j, sig, t)
  {
    AsksStay(keys, key, j);
    SelectsStays(keys, at, s, key, k, s', if sig.Term? then j else j - 1, t);
  }

  lemma NextAnswers(keys: seq<Key>, key: Key)
    ensures Answers(keys + [key], |keys|) <==> Answers(keys, |keys|)
    ensures Answers(keys + [key], |keys| + 1) <==> key.KeyKill? && !Answers(keys, |keys|)
  {
    AnswersStays(keys, key, |keys|);
  }

  lemma PastKeepsKeys(keys: seq<Key>, at: seq<nat>, s: State, s': State)
    requires KeysOk(keys, at, s) && s.past <= s'.past
    requires s'.handled == s.handled && s'.pending == s.pending && s'.jobs.Keys == s.jobs.Keys
    requires forall j :: j in s.jobs ==> s'.jobs[j].sig == s.jobs[j].sig && s'.jobs[j].target == s.jobs[j].target
    ensures KeysOk(keys, at, s')
  {
    forall j | j in s'.jobs
      ensures AsksFor(keys, at, s', j, s'.jobs[j].sig, s'.jobs[j].target)
    {
      AsksForStays(keys, at, s, KeyOther, 0, s', j, s.jobs[j].sig, s.jobs[j].target);
    }
  }

  lemma PressStartsJob(keys: seq<Key>, at: seq<nat>, s: State, key: Key, k: nat)
    requires KeysOk(keys, at, s) && k < |s.past| && s.past[k].world == s.world
    ensures
      var s', n := PressKey(s, key), |keys|;
      && s'.past == s.past && |s'.handled| == n + 1
      && (n in s'.jobs <==> AsksTerm(keys + [key], n) || AsksKill(keys + [key], n))
      && (n in s'.jobs ==> AsksFor(keys + [key], at + [k], s', n, s'.jobs[n].sig, s'.jobs[n].target))
      && (s'.pending.Some? <==> key.KeyKill? && !Answers(keys, n))
      && (s'.pending.Some? ==> Selects(keys + [key], at + [k], s', n, s'.pending.value))
  {
    NextAnswers(keys, key);
    assert forall j :: j in s.jobs ==> j < |keys|;
    if s.pending.Some? {
      SelectsStays(keys, at, s, key, k, s, |keys| - 1, s.pending.value);
    }
  }

  lemma PressKeepsOld(s: State, key: Key, j: nat)
    requires j != |s.handled|
    ensures j in PressKey(s, key).jobs <==> j in s.jobs
    ensures j in s.jobs ==> PressKey(s, key).jobs[j] == s.jobs[j]
  {
  }

  lemma PressFollowsKeys(keys: seq<Key>, at: seq<nat>, s: State, key: Key, k: nat)
    requires KeysOk(keys, at, s) && k < |s.past| && s.past[k].world == s.world
    ensures KeysOk(keys + [key], at + [k], PressKey(s, key))
  {
    var s', n := PressKey(s, key), |keys|;
    NextAnswers(keys, key);
    PressStartsJob(keys, at, s, key, k);
    forall j: nat
      ensures j in s'.jobs <==> AsksTerm(keys + [key], j) || AsksKill(keys + [key], j)
      ensures j in s'.jobs ==> AsksFor(keys + [key], at + [k], s', j, s'.jobs[j].sig, s'.jobs[j].target)
    {
      if j < n {
        AsksStay(keys, key, j);
        PressKeepsOld(s, key, j);
        if j in s.jobs {
          AsksForStays(keys, at, s, key, k, s', j, s.jobs[j].sig, s.jobs[j].target);
        }
      } else if j > n {
        PressKeepsOld(s, key, j);
      }
    }
  }

  lemma OtherStepStands(s: State, e: Event)
    requires Enabled(s, e) && !e.Press?
    ensures
      var s' := Step(s, e);
      && s.past <= s'.past && s'.handled == s.handled && s'.pending == s.pending && s'.jobs.Keys == s.jobs.Keys
      && forall j :: j in s.jobs ==> s'.jobs[j].sig == s.jobs[j].sig && s'.jobs[j].target == s.jobs[j].target
  {
  }

  lemma StepFollowsKeys(keys: seq<Key>, at: seq<nat>, s: State, e: Event)
    requires KeysOk(keys, at, s) && Enabled(s, e)
    ensures if e.Press? then KeysOk(keys + [e.key], at + [|s.past|], Step(s, e)) else KeysOk(keys, at, Step(s, e))
  {
    if e.Press? {
      var s1 := Record(s, e);
      PastKeepsKeys(keys, at, s, s1);
      PressFollowsKeys(keys, at, s1, e.key, |s.past|);
    } else {
      OtherStepStands(s, e);
      PastKeepsKeys(keys, at, s, Step(s, e));
    }
  }

  lemma AppendThree<T>(a: seq<T>, b: seq<T>, c: seq<T>)
    ensures a + b + c == a + (b + c)
  {
  }

  /** What one event adds to the keys and their times. */
  lemma FirstKey(keys: seq<Key>, at: seq<nat>, s: State, e: Event)
    requires KeysOk(keys, at, s) && Enabled(s, e)
    ensures KeysOk(keys + if e.Press? then [e.key] else [], at + if e.Press? then [|s.past|] else [], Step(s, e))
  {
    StepFollowsKeys(keys, at, s, e);
    assert keys + [] == keys && at + [] == at;
  }

  lemma FirstStep(s0: State, keys: seq<Key>, at: seq<nat>, es: seq<Event>, s: State)
      returns (s1: State, keys1: seq<Key>, at1: seq<nat>)
    requires KeysOk(keys, at, s0) && IsRun(s0, es, s) && es != []
    ensures IsRun(s1, es[1..], s) && |s1.past| == |s0.past| + 1 && KeysOk(keys + keys1, at + at1, s1)
    ensures Keys(es) == keys1 + Keys(es[1..])
    ensures KeyTimes(es, |s0.past|) == at1 + KeyTimes(es[1..], |s0.past| + 1)
  {
    s1 := Step(s0, es[0]);
    keys1, at1 := if es[0].Press? then [es[0].key] else [], if es[0].Press? then [|s0.past|] else [];
    FirstKey(keys, at, s0, es[0]);
    StepRecords(s0, es[0]);
  }

  lemma {:induction false} RunFollowsKeys(s0: State, keys: seq<Key>, at: seq<nat>, es: seq<Event>, s: State)
    requires KeysOk(keys, at, s0) && IsRun(s0, es, s)
    ensures KeysOk(keys + Keys(es), at + KeyTimes(es, |s0.past|), s)
    decreases |es|
  {
    if es == [] {
      assert keys + [] == keys && at + [] == at;
    } else {
      var s1, keys1, at1 := FirstStep(s0, keys, at, es, s);
      RunFollowsKeys(s1, keys + keys1, at + at1, es[1..], s);
      AppendThree(keys, keys1, Keys(es[1..]));
      AppendThree(at, at1, KeyTimes(es[1..], |s0.past| + 1));
    }
  }

  lemma KeysOfRun(s0: State, es: seq<Event>, s: State)
    requires Init(s0) && IsRun(s0, es, s)
    ensures KeysOk(Keys(es), KeyTimes(es, 0), s)
  {
    RunFollowsKeys(s0, [], [], es, s);
    assert [] + Keys(es) == Keys(es) && [] + KeyTimes(es, 0) == KeyTimes(es, 0);
  }

  /**
   * Over the keys alone: a job is started by a terminate key that answers nothing, or by a `y` right
   * after a kill key that answers nothing, and by no other key; its target is what that row key
   * selected at the time it was pressed.
   */
  lemma JobsAreAskedFor(s0: State, es: seq<Event>, s: State)
    requires Init(s0) && IsRun(s0, es, s)
    ensures forall j :: j in s.jobs <==> AsksTerm(Keys(es), j) || AsksKill(Keys(es), j)
    ensures forall j :: j in s.jobs ==> AsksFor(Keys(es), KeyTimes(es, 0), s, j, s.jobs[j].sig, s.jobs[j].target)
  {
    KeysOfRun(s0, es, s);
  }

  /** No key causes two signals, and each signal is the one its key asked for, on the target selected then. */
  lemma SignalsAreAskedFor(s0: State, es: seq<Event>, s: State)
    requires Init(s0) && IsRun(s0, es, s)
    ensures forall m, n :: 0 <= m < n < |s.sent| ==> s.sent[m].key != s.sent[n].key
    ensures forall n :: 0 <= n < |s.sent| ==>
      AsksFor(Keys(es), KeyTimes(es, 0), s, s.sent[n].key, s.sent[n].sig, s.sent[n].target)
  {
    ReachableInv(s0, es, s);
    JobsAreAskedFor(s0, es, s);
    forall n | 0 <= n < |s.sent|
      ensures AsksFor(Keys(es), KeyTimes(es, 0), s, s.sent[n].key, s.sent[n].sig, s.sent[n].target)
    {
      SentAsTheJob(s, n);
    }
  }

  /** A delivery and the job of its key agree on target and signal: one key, one entry. */
  lemma SentAsTheJob(s: State, n: nat)
    requires Known(s) && n < |s.sent|
    ensures
      var d := s.sent[n];
      d.key in s.jobs && s.jobs[d.key].target == d.target && s.jobs[d.key].sig == d.sig
  {
    var d := s.sent[n];
    assert DeliveryOk(s, d);
    assert Keyed(s.handled, d.key, s.jobs[d.key].target, s.jobs[d.key].sig);
  }

  /** With a kill armed, `y` starts it and any other key loses it; either way nothing stays armed. */
  lemma OnlyYesConfirms(s0: State, es: seq<Event>, s: State, key: Key)
    requires Init(s0) && IsRun(s0, es, s) && s.pending.Some? && Enabled(s, Press(key))
    ensures Step(s, Press(key)).pending.None?
    ensures Step(s, Press(key)).jobs ==
      if key.KeyYes? then s.jobs[|Keys(es)| := Job(s.pending.value, Kill, Started)] else s.jobs
  {
    KeysOfRun(s0, es, s);
  }

  /** The check found the process under the row's uid, and the poll under another. */
  predicate ChangedOwner(s: State, t: Target, checkAt: nat, endAt: nat) {
    && checkAt < endAt
    && OwnedBy(WorldAt(s, checkAt), t.row.inc, t.row.identity.uid)
    && Holds(WorldAt(s, endAt), t.row.inc) && !OwnedBy(WorldAt(s, endAt), t.row.inc, t.row.identity.uid)
  }

  lemma EndIsTrue(s: State, j: nat, t: Target, pc: Pc)
    requires Chronicle(s) && TargetOk(s.world, t) && pc.Exited? && SentOk(s, j, t, pc) && pc.readable
    ensures !Running(s.world, t.row.inc) || ChangedOwner(s, t, pc.pass.checkAt, pc.endAt)
  {
    var c, e := pc.pass.checkAt, pc.endAt;
    GrowsBetween(s, pc.pass.statAt, c);
    GrowsBetween(s, c, e);
    GrowsBetween(s, e, |s.past|);
  }

  lemma JobOutcome(s: State, j: nat, job: Job)
    requires Chronicle(s) && JobOk(s, j, job)
    ensures
      var t, pc := job.target, job.pc;
      && IsTheProcessOf(s.world, t.row, t.row.inc)
      && (pc.Exited? && pc.readable ==>
        !Running(s.world, t.row.inc) || ChangedOwner(s, t, pc.pass.checkAt, pc.endAt))
      && (pc.StillRunning? ==>
        && pc.sentAt < pc.aliveAt < |s.past| && s.past[pc.sentAt].event == Send(j, true)
        && Running(WorldAt(s, pc.aliveAt), t.row.inc))
  {
    assert WorldOk(WorldAt(s, |s.past|));
    RowIsOfOneProcess(s.world, job.target.row);
    if job.pc.Exited? && job.pc.readable {
      EndIsTrue(s, j, job.target, job.pc);
    }
  }

  lemma JobOfRun(s0: State, es: seq<Event>, s: State, j: nat)
    requires Init(s0) && IsRun(s0, es, s) && j in s.jobs
    ensures Chronicle(s) && JobOk(s, j, s.jobs[j]) && |s.past| == |es|
    ensures forall k :: 0 <= k < |es| ==> s.past[k].event == es[k]
  {
    ReachableInv(s0, es, s);
    PastIsTheRun(s0, es, s);
  }

  /**
   * The two outcomes of SIGTERM are true. "Exited": the process of the row has stopped running, or its
   * owner changed between the check and the last poll, or /proc could not be read. "Still running": it
   * ran after the signal was sent.
   */
  lemma OutcomesAreTrue(s0: State, es: seq<Event>, s: State, j: nat)
    requires Init(s0) && IsRun(s0, es, s) && j in s.jobs
    ensures
      var t, pc := s.jobs[j].target, s.jobs[j].pc;
      && IsTheProcessOf(s.world, t.row, t.row.inc)
      && (pc.Exited? && pc.readable ==>
        !Running(s.world, t.row.inc) || ChangedOwner(s, t, pc.pass.checkAt, pc.endAt))
      && (pc.StillRunning? ==>
        pc.sentAt < pc.aliveAt < |es| && es[pc.sentAt] == Send(j, true) && Running(WorldAt(s, pc.aliveAt), t.row.inc))
  {
    JobOfRun(s0, es, s, j);
    JobOutcome(s, j, s.jobs[j]);
  }

  /**
   * Which poll ends a wait: one that reads no start ticks, or others than the row's, that is, unless it
   * could read them off the running process; and one that then reads another uid. The deadline ends it
   * as "still running".
   */
  lemma PollsDecide(w: World, job: Job, e: Event, now: nat)
    requires WorldOk(w) && TargetOk(w, job.target) && IsJobEvent(e)
    ensures job.pc.Waiting? && e.ReadStat? ==>
      var pc := AfterPoll(w, job, e, now);
      if e.readable && Running(w, job.target.row.inc) then pc == PollStat(job.pc.pass, job.pc.sentAt, now)
      else pc == Exited(job.pc.pass, job.pc.sentAt, e.readable, now)
    ensures job.pc.PollStat? && e.ReadStatus? ==>
      var pc := AfterPoll(w, job, e, now);
      if e.readable && HasUid(w, job.target.row.pid, job.target.row.identity.uid) then pc.PollAlive? else pc.Exited?
    ensures job.pc.PollAlive? && e.Wake? ==> (AfterPoll(w, job, e, now).StillRunning? <==> e.deadline)
  {
    if e.ReadStat? {
      StartTicksTell(w, job.target, e.readable);
    }
  }

  /** A job that nothing refuses, on a process that runs under the row's uid. */
  predicate IsFair(s: State, j: nat) {
    && j in s.jobs && s.jobs[j].pc.Started?
    && var t := s.jobs[j].target;
    && Running(s.world, t.row.inc) && IsWhole(s.world, t.row.inc)
    && OwnedBy(s.world, t.row.inc, t.row.identity.uid) && t.row.identity.uid in s.ownUids
    && t.row.pid != 1 && t.row.pid != s.selfPid
    && t.openError.None? && (t.pidfd.Some? ==> t.pidfd.value == t.row.inc)
  }

  /** The same job later on, with the world as it was and nothing sent. */
  predicate StandsAt(s: State, s': State, j: nat, pc: Pc) {
    && s'.world == s.world && s'.sent == s.sent
    && j in s.jobs && j in s'.jobs && s'.jobs[j] == s.jobs[j].(pc := pc)
  }

  lemma RunOn(s0: State, es: seq<Event>, s: State, e: Event)
    requires IsRun(s0, es, s) && Enabled(s, e)
    ensures IsRun(s0, es + [e], Step(s, e))
    decreases |es|
  {
    if es == [] {
      assert [e][1..] == [] && [] + [e] == [e];
      assert IsRun(Step(s, e), [], Step(s, e));
    } else {
      assert (es + [e])[1..] == es[1..] + [e];
      RunOn(Step(s0, es[0]), es[1..], s, e);
    }
  }

  lemma FairJobIsGuarded(s: State, j: nat) returns (es: seq<Event>, s': State, g: Guard)
    requires IsFair(s, j) && TargetOk(s.world, s.jobs[j].target)
    ensures IsRun(s, es, s') && StandsAt(s, s', j, HaveTgid(g, Some(s.jobs[j].target.row.pid)))
    ensures g.ownUids == s.ownUids && g.selfPid == s.selfPid && g.runtimePids == []
  {
    var e1, e2 := ReadMainPid(j, None), ReadTgid(j, true);
    g := Guard(s.ownUids, s.selfPid, [], None, [], []);
    assert IsRun(s, [], s);
    RunOn(s, [], s, e1);
    var s1 := Step(s, e1);
    assert StandsAt(s, s1, j, Guarded(g));
    RunOn(s, [] + [e1], s1, e2);
    es, s' := [] + [e1] + [e2], Step(s1, e2);
  }

  lemma FairJobIsCleared(s: State, j: nat, s1: State, g: Guard) returns (es: seq<Event>, s': State, pass: Pass)
    requires IsFair(s, j) && WorldOk(s.world) && TargetOk(s.world, s.jobs[j].target)
    requires StandsAt(s, s1, j, HaveTgid(g, Some(s.jobs[j].target.row.pid)))
    requires g.ownUids == s.ownUids && g.selfPid == s.selfPid && g.runtimePids == []
    ensures IsRun(s1, es, s') && StandsAt(s, s', j, Cleared(pass))
  {
    var t := s.jobs[j].target;
    var e1, e2 := ReadStat(j, true), ReadStatus(j, true);
    assert IsRun(s1, [], s1);
    RunOn(s1, [], s1, e1);
    var s2 := Step(s1, e1);
    assert StandsAt(s, s2, j, HaveStat(g, Some(t.row.pid), Some(t.row.identity.start), |s1.past|));
    RunOn(s1, [] + [e1], s2, e2);
    CheckPasses(t, g, Some(t.row.pid), Some(t.row.identity));
    pass := Pass(g, Some(t.row.pid), |s1.past|, |s2.past|);
    es, s' := [] + [e1] + [e2], Step(s2, e2);
  }

  lemma {:induction false} AppendRun(s0: State, a: seq<Event>, s1: State, b: seq<Event>, s2: State)
    requires IsRun(s0, a, s1) && IsRun(s1, b, s2)
    ensures IsRun(s0, a + b, s2)
    decreases |a|
  {
    if a == [] {
      assert a + b == b;
    } else {
      assert (a + b)[1..] == a[1..] + b;
      AppendRun(Step(s0, a[0]), a[1..], s1, b, s2);
    }
  }

  lemma ClearedJobSends(s: State, j: nat, s2: State, pass: Pass)
    requires IsFair(s, j) && TargetOk(s.world, s.jobs[j].target) && StandsAt(s, s2, j, Cleared(pass))
    ensures Enabled(s2, Send(j, true))
    ensures
      var s', job := Step(s2, Send(j, true)), s.jobs[j];
      && s'.sent == s.sent + [Delivery(j, job.target, job.sig, pass, |s2.past|, job.target.row.inc, job.target.row.inc)]
      && s'.jobs[j].pc == if job.sig.Kill? then Killed else Waiting(pass, |s2.past|)
  {
  }

  /** The guards are not in the way of anything else: such a job can, alone, signal its process. */
  lemma FairJobSends(s: State, j: nat) returns (es: seq<Event>, s': State)
    requires IsFair(s, j) && WorldOk(s.world) && TargetOk(s.world, s.jobs[j].target)
    ensures IsRun(s, es, s') && |s'.sent| == |s.sent| + 1 && s.sent <= s'.sent
    ensures
      var d := s'.sent[|s.sent|];
      d.key == j && d.target == s.jobs[j].target && d.sig == s.jobs[j].sig && d.hit == d.target.row.inc
  {
    var es1, s1, g := FairJobIsGuarded(s, j);
    var es2, s2, pass := FairJobIsCleared(s, j, s1, g);
    ClearedJobSends(s, j, s2, pass);
    AppendRun(s, es1, s1, es2, s2);
    RunOn(s, es1 + es2, s2, Send(j, true));
    es, s' := es1 + es2 + [Send(j, true)], Step(s2, Send(j, true));
  }

  // ---------------------------------------------------------------- where the fallback fails

  lemma {:induction false} ChainIsRun(states: seq<State>, es: seq<Event>)
    requires |states| == |es| + 1
    requires forall n :: 0 <= n < |es| ==> Enabled(states[n], es[n]) && Step(states[n], es[n]) == states[n + 1]
    ensures IsRun(states[0], es, states[|es|])
    decreases |es|
  {
    if es != [] {
      ChainIsRun(states[1..], es[1..]);
    }
  }

  /**
   * PID 5 is the runtime's main PID; PID 7 is selected and passes every guard. Either PID 7 is a thread
   * of PID 5 and its `Tgid:` cannot be read, or it exits, is reaped, and becomes a thread of PID 5
   * before the signal.
   */
  datatype Race = Thread | Reuse(reply: OpenReply)

  predicate IsRace(r: Race) {
    r.Reuse? ==> r.reply.NoSys? || r.reply.Supported?
  }

  function RaceReply(r: Race): OpenReply {
    if r.Thread? then NoSys else r.reply
  }

  function RaceLength(r: Race): nat {
    if r.Thread? then 8 else 11
  }

  const RACE_ROW := Row(7, Identity(100, 1000), 1)

  function RaceSnap(): Snapshot {
    Snapshot([5], map[5 := 1])
  }

  function RaceEvent(r: Race, n: nat): Event
    requires n < 11
  {
    match n
    case 0 => Refresh(7, 1000)
    case 1 => Press(KeyTerminate(RACE_ROW, RaceReply(r)))
    case 2 => ReadMainPid(0, Some(5))
    case 3 => ListChildren(0, RaceSnap())
    case 4 => ReadTgid(0, !r.Thread?)
    case 5 => ReadStat(0, true)
    case 6 => ReadStatus(0, true)
    case 7 => if r.Thread? then Send(0, true) else Exit(7)
    case 8 => Reap(7)
    case 9 => Fork(7, 200, 5, 1000, 1)
    case _ => Send(0, true)
  }

  function RaceTarget(r: Race): Target {
    Target(RACE_ROW, if RaceReply(r).Supported? then Some(1) else None, None)
  }

  function RaceGuard(): Guard {
    Guard([1000], 3, [5], Some(5), [RaceSnap()], [3])
  }

  function RacePass(r: Race): Pass {
    Pass(RaceGuard(), if r.Thread? then None else Some(7), 5, 6)
  }

  function RacePc(r: Race, n: nat): Pc {
    if n <= 2 then Started
    else if n == 3 then Listing(5, [5], [], [])
    else if n == 4 then Guarded(RaceGuard())
    else if n == 5 then HaveTgid(RaceGuard(), RacePass(r).tgid)
    else if n == 6 then HaveStat(RaceGuard(), RacePass(r).tgid, Some(100), 5)
    else if n < RaceLength(r) then Cleared(RacePass(r))
    else if RaceReply(r).Supported? then SignalFailed
    else Waiting(RacePass(r), RaceLength(r) - 1)
  }

  function RaceLives(r: Race, n: nat): seq<Life> {
    var main, seven := Life(5, 50, 5), Life(7, 100, if r.Thread? then 5 else 7);
    if n < 10 then [main, seven] else [main, seven, Life(7, 200, 5)]
  }

  function RaceWorld(r: Race, n: nat): World {
    var main := Slot(0, 1000, 1, false);
    World(RaceLives(r, n),
          if n <= 7 || r.Thread? then map[5 := main, 7 := Slot(1, 1000, 1, false)]
          else if n == 8 then map[5 := main, 7 := Slot(1, 1000, 1, true)]
          else if n == 9 then map[5 := main]
          else map[5 := main, 7 := Slot(2, 1000, 1, false)])
  }

  function RacePast(r: Race, n: nat): seq<Moment>
    requires n <= RaceLength(r)
  {
    seq(n, k requires 0 <= k < n => Moment(RaceWorld(r, k), RaceEvent(r, k)))
  }

  function RaceSent(r: Race): Delivery {
    Delivery(0, RaceTarget(r), Term, RacePass(r), RaceLength(r) - 1, if r.Thread? then 1 else 2, 0)
  }

  function RaceState(r: Race, n: nat): State
    requires n <= RaceLength(r)
  {
    var t := RaceTarget(r);
    State(RaceWorld(r, n),
          RacePast(r, n),
          if n == 0 then [] else [RACE_ROW],
          None,
          if n < 2 then [] else [Terminated(t)],
          if n < 2 then map[] else map[0 := Job(t, Term, RacePc(r, n))],
          if n < 4 then {} else {RaceGuard()},
          if n == RaceLength(r) && !RaceReply(r).Supported? then [RaceSent(r)] else [],
          [1000], 3)
  }

  lemma RacePastGrows(r: Race, n: nat)
    requires n < RaceLength(r)
    ensures RacePast(r, n + 1) == RacePast(r, n) + [Moment(RaceWorld(r, n), RaceEvent(r, n))]
  {
  }

  ghost predicate RaceGoesOn(r: Race, n: nat)
    requires n < RaceLength(r)
  {
    Enabled(RaceState(r, n), RaceEvent(r, n)) && Step(RaceState(r, n), RaceEvent(r, n)) == RaceState(r, n + 1)
  }

  lemma RaceSelects(r: Race, n: nat)
    requires IsRace(r) && n < 2
    ensures RaceGoesOn(r, n)
  {
    RacePastGrows(r, n);
  }

  lemma RaceTree(s: State)
    requires s.ownUids == [1000] && s.selfPid == 3
    ensures AfterChildren(s, Listing(5, [5], [], []), RaceSnap(), 3) == Guarded(RaceGuard())
  {
    assert [5][..0] == [];
    assert WithChildren([5], [5], RaceSnap(), 5) == [5];
    assert Expand([5], RaceSnap(), 5) == [5];
  }

  /** The reads of the job, one by one. */
  lemma RaceListsPc(r: Race, s: State)
    requires s.ownUids == [1000] && s.selfPid == 3
    ensures AfterMainPid(s, Some(5)) == RacePc(r, 3)
    ensures AfterChildren(s, RacePc(r, 3), RaceSnap(), 3) == RacePc(r, 4)
  {
    RaceTree(s);
  }

  lemma RaceReadsPc(r: Race, n: nat)
    requires IsRace(r) && 4 <= n < 6
    ensures AfterCheckRead(RaceWorld(r, n), Job(RaceTarget(r), Term, RacePc(r, n)), RaceEvent(r, n), n) == RacePc(r, n + 1)
  {
  }

  lemma RaceClearsPc(r: Race)
    requires IsRace(r)
    ensures AfterCheckRead(RaceWorld(r, 6), Job(RaceTarget(r), Term, RacePc(r, 6)), RaceEvent(r, 6), 6) == RacePc(r, 7)
  {
  }

  lemma RacePcGoesOn(r: Race, s: State, n: nat)
    requires IsRace(r) && 2 <= n < 7 && s.ownUids == [1000] && s.selfPid == 3 && s.world == RaceWorld(r, n)
    ensures NextPc(s, RaceEvent(r, n), Job(RaceTarget(r), Term, RacePc(r, n)), n) == RacePc(r, n + 1)
  {
    if n < 4 {
      RaceListsPc(r, s);
    } else if n < 6 {
      RaceReadsPc(r, n);
    } else {
      RaceClearsPc(r);
    }
  }

  lemma OneJobStep(s: State, e: Event, job: Job, now: nat)
    requires IsJobEvent(e) && e.job == 0 && s.jobs == map[0 := job]
    ensures
      var pc := NextPc(s, e, job, now);
      JobStep(s, e, now) == s.(
        jobs := map[0 := job.(pc := pc)], guards := WithGuard(s, pc).guards, sent := s.sent + Delivered(s, e, job, now))
  {
  }

  /** A step of the job: what it comes to, put together. */
  lemma RaceJobGoesOn(r: Race, n: nat)
    requires IsRace(r) && 2 <= n < RaceLength(r) && RaceWorld(r, n + 1) == RaceWorld(r, n)
    requires
      var s, e, job := Record(RaceState(r, n), RaceEvent(r, n)), RaceEvent(r, n), Job(RaceTarget(r), Term, RacePc(r, n));
      && IsJobEvent(e) && e.job == 0 && Awaits(s.world, job.pc, e)
      && NextPc(s, e, job, n) == RacePc(r, n + 1)
      && Delivered(s, e, job, n) == RaceState(r, n + 1).sent
      && WithGuard(s, RacePc(r, n + 1)).guards == RaceState(r, n + 1).guards
    ensures RaceGoesOn(r, n)
  {
    RacePastGrows(r, n);
    var s, e := RaceState(r, n), RaceEvent(r, n);
    OneJobStep(Record(s, e), e, Job(RaceTarget(r), Term, RacePc(r, n)), n);
    assert s.sent + RaceState(r, n + 1).sent == RaceState(r, n + 1).sent;
    assert |s.past| == n && Step(s, e) == JobStep(Record(s, e), e, n);
  }

  lemma RaceReads(r: Race, n: nat)
    requires IsRace(r) && 2 <= n < 7
    ensures RaceGoesOn(r, n)
  {
    RacePcGoesOn(r, Record(RaceState(r, n), RaceEvent(r, n)), n);
    RaceAwaits(r, n);
    RaceJobGoesOn(r, n);
  }

  lemma RaceAwaits(r: Race, n: nat)
    requires IsRace(r) && 2 <= n < 7
    ensures IsJobEvent(RaceEvent(r, n)) && !RaceEvent(r, n).Send? && RaceEvent(r, n).job == 0
    ensures Awaits(RaceWorld(r, n), RacePc(r, n), RaceEvent(r, n))
    ensures RacePc(r, n + 1).Guarded? ==> n == 3 && RacePc(r, n + 1).guard == RaceGuard()
    ensures n == 3 ==> RacePc(r, n + 1).Guarded?
  {
  }

  lemma RaceExits(r: Race)
    requires IsRace(r) && r.Reuse?
    ensures RaceGoesOn(r, 7)
  {
    RacePastGrows(r, 7);
  }

  lemma RaceReaps(r: Race)
    requires IsRace(r) && r.Reuse?
    ensures RaceGoesOn(r, 8)
  {
    RacePastGrows(r, 8);
  }

  lemma RaceReuses(r: Race)
    requires IsRace(r) && r.Reuse?
    ensures RaceGoesOn(r, 9)
  {
    RacePastGrows(r, 9);
  }

  lemma RaceHits(r: Race, s: State, n: nat)
    requires IsRace(r) && n == RaceLength(r) - 1 && s.world == RaceWorld(r, n)
    ensures
      var job := Job(RaceTarget(r), Term, RacePc(r, n));
      && RaceEvent(r, n) == Send(0, true)
      && AfterSend(s.world, job, true, n) == RacePc(r, n + 1)
      && Delivered(s, Send(0, true), job, n) == if RaceReply(r).Supported? then [] else [RaceSent(r)]
  {
  }

  lemma RaceSends(r: Race)
    requires IsRace(r)
    ensures RaceGoesOn(r, RaceLength(r) - 1)
  {
    var n := RaceLength(r) - 1;
    RaceHits(r, Record(RaceState(r, n), RaceEvent(r, n)), n);
    RaceJobGoesOn(r, n);
  }

  function RaceEvents(r: Race): seq<Event> {
    seq(RaceLength(r), n requires 0 <= n < RaceLength(r) => RaceEvent(r, n))
  }

  lemma RaceSteps(r: Race, n: nat)
    requires IsRace(r) && n < RaceLength(r)
    ensures RaceGoesOn(r, n)
  {
    if n == RaceLength(r) - 1 {
      RaceSends(r);
    } else if n < 2 {
      RaceSelects(r, n);
    } else if n < 7 {
      RaceReads(r, n);
    } else if n == 7 {
      RaceExits(r);
    } else if n == 8 {
      RaceReaps(r);
    } else {
      RaceReuses(r);
    }
  }

  lemma RaceRuns(r: Race)
    requires IsRace(r)
    ensures IsRun(RaceState(r, 0), RaceEvents(r), RaceState(r, RaceLength(r)))
  {
    var length := RaceLength(r);
    var states := seq(length + 1, n requires 0 <= n <= length => RaceState(r, n));
    var es := RaceEvents(r);
    forall n | 0 <= n < length
      ensures Enabled(states[n], es[n]) && Step(states[n], es[n]) == states[n + 1]
    {
      RaceSteps(r, n);
    }
    ChainIsRun(states, es);
  }

  lemma RaceStarts(r: Race)
    ensures Init(RaceState(r, 0))
  {
  }

  /**
   * The two ways the fallback misses, each needed in its condition: on both schedules every guard
   * passed and the signal for PID 7 hits the runtime's main PID, which the guard lists. On the same
   * reuse schedule a pidfd signals nobody.
   */
  lemma FallbackHitsTheRuntime(r: Race)
    requires IsRace(r)
    ensures Init(RaceState(r, 0)) && IsRun(RaceState(r, 0), RaceEvents(r), RaceState(r, RaceLength(r)))
    ensures
      var s := RaceState(r, RaceLength(r));
      if RaceReply(r).NoSys? then
        && s.sent == [RaceSent(r)]
        && s.world.lives[s.sent[0].hit].pid == 5 && 5 in s.sent[0].pass.guard.runtimePids
        && s.sent[0].hit != s.sent[0].target.row.inc
        && (r.Thread? ==> RaceSent(r).pass.tgid.None? && NoForkOf(RaceEvents(r), 7, 5, 7))
        && (r.Reuse? ==> IsWhole(s.world, RACE_ROW.inc) && RaceSent(r).pass.tgid.Some?)
      else s.sent == [] && s.jobs[0].pc == SignalFailed
  {
    RaceStarts(r);
    RaceRuns(r);
  }
}
