/**
 * Ensure-then-forward (src/control_api.rs) as a state machine: any number of clients, one ensure
 * lock, the oracle, and the router behind them. Requests to the router travel on their own: the
 * router may serve one long after its client gave up on it, and chat forwards go out after the lock
 * is released.
 */
module EnsureProtocol {
  import opened Prelude
  import opened RouterResidency

  // ---------------------------------------------------------------- the oracle

  /** What the oracle knows of a profile; `paramsB` and `bpw` are read off the file name. */
  datatype Meta = Meta(offload: bool, estVram: Option<real>, estRam: Option<real>, paramsB: Option<real>, bpw: real)

  /** One decimal, halves away from zero. */
  function Round1(x: real): real {
    if x >= 0.0 then (x * 10.0 + 0.5).Floor as real / 10.0 else -((-x * 10.0 + 0.5).Floor as real / 10.0)
  }

  function Weights(p: Meta): real {
    (if p.paramsB.Some? then p.paramsB.value else 8.0) * p.bpw / 8.0
  }

  /** Needed GB of VRAM and of RAM. */
  function EstimateFootprint(p: Meta): (real, real) {
    if p.estVram.Some? && p.estRam.Some? then (p.estVram.value, p.estRam.value)
    else if p.offload then
      var vram := if p.estVram.Some? then p.estVram.value else 0.0;
      (Round1(Weights(p) * 0.15 + if vram > 2.0 then vram else 2.0), Round1(Weights(p) * 0.85))
    else (Round1(Weights(p) + 1.5), 0.0)
  }

  predicate IsTenths(x: real) {
    x * 10.0 == (x * 10.0).Floor as real
  }

  /** The nearest tenth; a tie goes away from zero. */
  lemma RoundingErr(x: real)
    ensures IsTenths(Round1(x)) && x - 0.05 <= Round1(x) <= x + 0.05
    ensures x >= 0.0 ==> x - 0.05 < Round1(x)
    ensures x <= 0.0 ==> Round1(x) < x + 0.05
  {
    if x >= 0.0 {
      var f := (x * 10.0 + 0.5).Floor;
      assert x * 10.0 - 0.5 < f as real <= x * 10.0 + 0.5;
      assert Round1(x) * 10.0 == f as real;
    } else {
      var f := (-x * 10.0 + 0.5).Floor;
      assert -x * 10.0 - 0.5 < f as real <= -x * 10.0 + 0.5;
      assert Round1(x) * 10.0 == (-f) as real;
    }
  }

  /** In tenths, and within half of one. */
  predicate IsNearly(x: real, y: real) {
    IsTenths(x) && y - 0.05 <= x <= y + 0.05
  }

  /** The weights in GB: parameters in billions times bits, 8 billion if the name does not say. */
  lemma WeightsInBytes(p: Meta)
    ensures Weights(p) * 8.0 == (match p.paramsB case Some(b) => b case None => 8.0) * p.bpw
  {
  }

  /**
   * Two configured estimates are taken as they are. Otherwise, with offload, 85% of the weights are RAM,
   * and the rest with the configured VRAM, of at least 2 GB, is VRAM; without, all of them and 1.5 GB.
   */
  lemma FootprintSplits(p: Meta, weights: real, given: real)
    requires weights == Weights(p) && given == match p.estVram case Some(v) => v case None => 0.0
    ensures
      var (vram, ram) := EstimateFootprint(p);
      if p.estVram.Some? && p.estRam.Some? then vram == p.estVram.value && ram == p.estRam.value
      else if p.offload then IsNearly(vram, weights * 0.15 + if given >= 2.0 then given else 2.0) && IsNearly(ram, weights * 0.85)
      else IsNearly(vram, weights + 1.5) && ram == 0.0
  {
    RoundingErr(weights + 1.5);
    RoundingErr(weights * 0.85);
    RoundingErr(weights * 0.15 + if given >= 2.0 then given else 2.0);
  }

  /**
   * Splitting a model over VRAM and RAM loses none of it: unless both estimates are given, the two
   * needs together cover the weights and at least 1.5 GB on top, up to the rounding.
   */
  lemma FootprintCoversTheWeights(p: Meta)
    requires p.estVram.None? || p.estRam.None?
    ensures EstimateFootprint(p).0 + EstimateFootprint(p).1 >= Weights(p) + 1.4
    ensures !p.offload ==> EstimateFootprint(p).0 >= Weights(p) + 1.45 && EstimateFootprint(p).1 == 0.0
  {
    RoundingErr(Weights(p) + 1.5);
    RoundingErr(Weights(p) * 0.85);
    var vram := if p.estVram.Some? then p.estVram.value else 0.0;
    RoundingErr(Weights(p) * 0.15 + if vram > 2.0 then vram else 2.0);
  }

  /** The machine: profiles, reserves, true capacities, and the router's bound. */
  datatype Config = Config(
    profiles: map<Model, Meta>, reserveVram: real, reserveRam: real, totalVram: real, totalRam: real, max: Option<nat>)

  predicate Oracle(cfg: Config, p: Meta, vram: real, ram: real) {
    EstimateFootprint(p).0 + cfg.reserveVram <= vram && EstimateFootprint(p).1 + cfg.reserveRam <= ram
  }

  /** The model alone leaves both reserves free. */
  predicate FitsAlone(cfg: Config, m: Model) {
    m in cfg.profiles && Oracle(cfg, cfg.profiles[m], cfg.totalVram, cfg.totalRam)
  }

  // ---------------------------------------------------------------- clients, router, state

  /** Who asks: a JSON client, a stream client, or a chat, which is forwarded after its ensure. */
  datatype Kind = Json | Stream | Chat

  datatype Request = Request(profile: Model, force: bool, kind: Kind)

  datatype Outcome = Loaded | AlreadyResident | OomRejected | Bad | Failed

  datatype Frame = Received | OracleOk | Loading | DoneLoaded | DoneAlreadyResident | Oom | Error

  /** `Stage::from_outcome`. */
  function Terminal(o: Outcome): Frame {
    match o
    case Loaded => DoneLoaded
    case AlreadyResident => DoneAlreadyResident
    case OomRejected => Oom
    case Bad => Error
    case Failed => Error
  }

  /**
   * `AwaitReply` names the request on the wire; `Returned` is `ensure` done and the lock released;
   * `Gone` is a client that hung up, and whose handler was dropped where it stood.
   */
  datatype Pc =
    | Arrived
    | AwaitLock
    | Checking
    | Asking
    | Admitted
    | AwaitReply(request: nat)
    | Returned(outcome: Outcome)
    | Closed(outcome: Outcome)
    | Gone

  /** `frames` is what its ensure emitted; only a stream client is sent it. */
  datatype Client = Client(req: Request, pc: Pc, frames: seq<Frame>)

  datatype Wire = Wire(model: Model, served: bool)

  /**
   * `everResident`, `forced` and the counters are history: models that were ever on the router's list,
   * models an ensure was forced for, warm loads sent, those that failed or lost their client, and those
   * that succeeded.
   */
  datatype State = State(
    cfg: Config, loaded: seq<Model>, wire: seq<Wire>, lock: Option<nat>, clients: map<nat, Client>,
    everResident: set<Model>, forced: set<Model>, warmLoads: nat, failures: nat, successes: nat)

  datatype Event =
    | Arrive(c: nat, req: Request)
    | Lookup(c: nat)
    | Lock(c: nat)
    | CheckResident(c: nat, seen: set<Model>)
    | AskOracle(c: nat, vram: real, ram: real)
    | StartLoad(c: nat)
    | Reply(c: nat, ok: bool)
    | Report(c: nat)
    | Forward(c: nat)
    | Drop(c: nat)
    | Serve(request: nat)
    | Evict(m: Model)

  predicate At(s: State, c: nat, pc: Pc) {
    c in s.clients && s.clients[c].pc == pc
  }

  /**
   * The router's model list may miss loaded models (a failed or unparsable query reports none) but
   * invents none; a capacity reading may fall back to less than there is, never to more. Chats never
   * force; the ensure of a stream runs on when its client leaves.
   */
  predicate Enabled(s: State, e: Event) {
    match e
    case Arrive(c, req) => c !in s.clients && (req.kind.Chat? ==> !req.force)
    case Lookup(c) => At(s, c, Arrived)
    case Lock(c) => At(s, c, AwaitLock) && s.lock.None?
    case CheckResident(c, seen) => At(s, c, Checking) && forall m :: m in seen ==> m in s.loaded
    case AskOracle(c, vram, ram) => At(s, c, Asking) && vram <= s.cfg.totalVram && ram <= s.cfg.totalRam
    case StartLoad(c) => At(s, c, Admitted)
    case Reply(c, ok) =>
      && c in s.clients && s.clients[c].pc.AwaitReply?
      && s.clients[c].pc.request < |s.wire|
      && (ok ==> s.wire[s.clients[c].pc.request].served)
    case Report(c) => c in s.clients && s.clients[c].pc.Returned?
    case Forward(c) =>
      && c in s.clients && s.clients[c].req.kind.Chat? && s.clients[c].pc.Closed?
      && (s.clients[c].pc.outcome.Loaded? || s.clients[c].pc.outcome.AlreadyResident?)
    case Drop(c) => c in s.clients && !s.clients[c].req.kind.Stream? && !s.clients[c].pc.Closed? && !s.clients[c].pc.Gone?
    case Serve(k) => k < |s.wire| && !s.wire[k].served
    case Evict(m) => m in s.loaded
  }

  function Move(s: State, c: nat, pc: Pc, frames: seq<Frame>): State
    requires c in s.clients
  {
    s.(clients := s.clients[c := s.clients[c].(pc := pc, frames := s.clients[c].frames + frames)])
  }

  function Return(s: State, c: nat, o: Outcome): State
    requires c in s.clients
  {
    Move(s, c, Returned(o), []).(lock := None)
  }

  function Step(s: State, e: Event): State
    requires Enabled(s, e)
  {
    match e
    case Arrive(c, req) =>
      s.(clients := s.clients[c := Client(req, Arrived, [])], forced := s.forced + if req.force then {req.profile} else {})
    case Lookup(c) =>
      if s.clients[c].req.profile in s.cfg.profiles then Move(s, c, AwaitLock, [Received])
      else Move(s, c, Returned(Bad), [])
    case Lock(c) => Move(s, c, Checking, []).(lock := Some(c))
    case CheckResident(c, seen) =>
      if s.clients[c].req.profile in seen then Return(s, c, AlreadyResident) else Move(s, c, Asking, [])
    case AskOracle(c, vram, ram) =>
      var req := s.clients[c].req;
      if req.profile in s.cfg.profiles && Oracle(s.cfg, s.cfg.profiles[req.profile], vram, ram) then
        Move(s, c, Admitted, [OracleOk])
      else if req.force then Move(s, c, Admitted, [])
      else Return(s, c, OomRejected)
    case StartLoad(c) =>
      Move(s, c, AwaitReply(|s.wire|), [Loading]).(
        wire := s.wire + [Wire(s.clients[c].req.profile, false)], warmLoads := s.warmLoads + 1)
    case Reply(c, ok) =>
      if ok then Return(s, c, Loaded).(successes := s.successes + 1)
      else Return(s, c, Failed).(failures := s.failures + 1)
    case Report(c) => Move(s, c, Closed(s.clients[c].pc.outcome), [Terminal(s.clients[c].pc.outcome)])
    case Forward(c) => s.(wire := s.wire + [Wire(s.clients[c].req.profile, false)])
    case Drop(c) =>
      Move(s, c, Gone, []).(
        lock := if s.lock == Some(c) then None else s.lock,
        failures := s.failures + if s.clients[c].pc.AwaitReply? then 1 else 0)
    case Serve(k) =>
      var loaded := Load(s.loaded, s.cfg.max, s.wire[k].model);
      s.(wire := s.wire[k := s.wire[k].(served := true)], loaded := loaded,
         everResident := s.everResident + set m | m in loaded)
    case Evict(m) => s.(loaded := Without(s.loaded, m))
  }

  /** Nobody has come yet; what the router already holds, if anything, fits. */
  ghost predicate Init(s: State) {
    && Fits(s.loaded, s.cfg.max)
    && s.everResident == (set m | m in s.loaded)
    && (forall m :: m in s.loaded ==> FitsAlone(s.cfg, m))
    && s.wire == [] && s.lock == None && s.clients == map[] && s.forced == {}
    && s.warmLoads == s.failures == s.successes == 0
  }

  ghost predicate IsRun(s0: State, es: seq<Event>, s: State)
    decreases |es|
  {
    if es == [] then s0 == s
    else Enabled(s0, es[0]) && IsRun(Step(s0, es[0]), es[1..], s)
  }

  // ---------------------------------------------------------------- frames

  /** A whole stream: `Error | Received (Done | Oom | [OracleOk] Loading (Done | Error))`. */
  predicate WholeStream(frames: seq<Frame>, force: bool) {
    || frames == [Error]
    || frames == [Received, DoneAlreadyResident]
    || (!force && frames == [Received, Oom])
    || frames == [Received, OracleOk, Loading, DoneLoaded]
    || frames == [Received, OracleOk, Loading, Error]
    || (force && frames == [Received, Loading, DoneLoaded])
    || (force && frames == [Received, Loading, Error])
  }

  predicate IsTerminal(f: Frame) {
    f.DoneLoaded? || f.DoneAlreadyResident? || f.Oom? || f.Error?
  }

  /** The frames a client at this point has been sent. */
  predicate FramesAt(frames: seq<Frame>, force: bool, pc: Pc) {
    var admitted := [Received, OracleOk];
    match pc
    case Arrived => frames == []
    case AwaitLock => frames == [Received]
    case Checking => frames == [Received]
    case Asking => frames == [Received]
    case Admitted => frames == [Received, OracleOk] || (force && frames == [Received])
    case AwaitReply(_) => frames == [Received, OracleOk, Loading] || (force && frames == [Received, Loading])
    case Returned(o) => WholeStream(frames + [Terminal(o)], force) && (forall f :: f in frames ==> !IsTerminal(f))
    case Closed(o) => WholeStream(frames, force) && frames[|frames| - 1] == Terminal(o)
    case Gone => forall f :: f in frames ==> !IsTerminal(f)
  }

  // ---------------------------------------------------------------- the invariant

  predicate Admissible(s: State, m: Model) {
    FitsAlone(s.cfg, m) || m in s.forced
  }

  predicate Critical(pc: Pc) {
    pc.Checking? || pc.Asking? || pc.Admitted? || pc.AwaitReply?
  }

  ghost predicate LockOk(s: State) {
    && (s.lock.Some? ==> s.lock.value in s.clients)
    && (forall c :: c in s.clients ==> (Critical(s.clients[c].pc) <==> s.lock == Some(c)))
  }

  ghost predicate ClientOk(s: State, client: Client) {
    && FramesAt(client.frames, client.req.force, client.pc)
    && (client.req.force ==> client.req.profile in s.forced)
    && (client.pc.Admitted? || client.pc.AwaitReply? ==> Admissible(s, client.req.profile))
    && ((client.pc.Returned? || client.pc.Closed?) && (client.pc.outcome.Loaded? || client.pc.outcome.AlreadyResident?)
        ==> Admissible(s, client.req.profile))
  }

  ghost predicate RouterOk(s: State) {
    && Fits(s.loaded, s.cfg.max)
    && (forall m :: m in s.loaded ==> m in s.everResident)
    && (forall m :: m in s.everResident ==> Admissible(s, m))
    && (forall k :: 0 <= k < |s.wire| ==> Admissible(s, s.wire[k].model))
  }

  ghost predicate Inv(s: State) {
    LockOk(s) && RouterOk(s) && forall c :: c in s.clients ==> ClientOk(s, s.clients[c])
  }

  lemma StepKeepsLock(s: State, e: Event)
    requires LockOk(s) && Enabled(s, e)
    ensures LockOk(Step(s, e))
  {
  }

  lemma WithoutKeepsFit(l: seq<Model>, max: Option<nat>, id: Model)
    requires Fits(l, max)
    ensures Fits(Without(l, id), max)
    ensures forall m :: m in Without(l, id) ==> m in l
  {
    var at := WithoutPositions(l, id);
    Positions(l, Without(l, id), at);
  }

  lemma ServeKeepsRouter(s: State, e: Event)
    requires RouterOk(s) && Enabled(s, e) && e.Serve?
    ensures RouterOk(Step(s, e))
  {
    LoadEvictsTheFirst(s.loaded, s.cfg.max, s.wire[e.request].model);
  }

  lemma EvictKeepsRouter(s: State, e: Event)
    requires RouterOk(s) && Enabled(s, e) && e.Evict?
    ensures RouterOk(Step(s, e))
  {
    WithoutKeepsFit(s.loaded, s.cfg.max, e.m);
  }

  /** A request goes on the wire only for an admitted model, or for one whose ensure came back well. */
  lemma SendKeepsRouter(s: State, e: Event)
    requires Inv(s) && Enabled(s, e) && (e.StartLoad? || e.Forward?)
    ensures RouterOk(Step(s, e))
  {
    assert ClientOk(s, s.clients[e.c]);
  }

  lemma StepKeepsRouter(s: State, e: Event)
    requires Inv(s) && Enabled(s, e)
    ensures RouterOk(Step(s, e))
  {
    if e.Serve? {
      ServeKeepsRouter(s, e);
    } else if e.Evict? {
      EvictKeepsRouter(s, e);
    } else if e.StartLoad? || e.Forward? {
      SendKeepsRouter(s, e);
    } else {
      var s' := Step(s, e);
      assert s'.loaded == s.loaded && s'.wire == s.wire && s'.everResident == s.everResident && s.forced <= s'.forced;
    }
  }

  predicate IsClientEvent(e: Event) {
    !e.Serve? && !e.Evict?
  }

  /** A client is judged by its own record and by what is admissible, which only grows. */
  lemma ClientStaysOk(s: State, s': State, client: Client)
    requires s'.cfg == s.cfg && s.forced <= s'.forced
    requires ClientOk(s, client)
    ensures ClientOk(s', client)
  {
  }

  lemma QueueingKeepsClient(s: State, e: Event)
    requires Inv(s) && Enabled(s, e) && (e.Arrive? || e.Lookup? || e.Lock? || e.CheckResident?)
    ensures e.c in Step(s, e).clients && ClientOk(Step(s, e), Step(s, e).clients[e.c])
  {
    if !e.Arrive? {
      assert ClientOk(s, s.clients[e.c]);
    }
  }

  lemma LoadingKeepsClient(s: State, e: Event)
    requires Inv(s) && Enabled(s, e) && (e.AskOracle? || e.StartLoad?)
    ensures e.c in Step(s, e).clients && ClientOk(Step(s, e), Step(s, e).clients[e.c])
  {
    assert ClientOk(s, s.clients[e.c]);
  }

  lemma ReplyKeepsClient(s: State, e: Event)
    requires Inv(s) && Enabled(s, e) && e.Reply?
    ensures e.c in Step(s, e).clients && ClientOk(Step(s, e), Step(s, e).clients[e.c])
  {
    assert ClientOk(s, s.clients[e.c]);
    assert s.clients[e.c].frames + [] == s.clients[e.c].frames;
  }

  lemma EndingKeepsClient(s: State, e: Event)
    requires Inv(s) && Enabled(s, e) && (e.Reply? || e.Report? || e.Forward?)
    ensures e.c in Step(s, e).clients && ClientOk(Step(s, e), Step(s, e).clients[e.c])
  {
    if e.Reply? {
      ReplyKeepsClient(s, e);
    } else {
      assert ClientOk(s, s.clients[e.c]);
    }
  }

  lemma DropKeepsClient(s: State, e: Event)
    requires Inv(s) && Enabled(s, e) && e.Drop?
    ensures e.c in Step(s, e).clients && ClientOk(Step(s, e), Step(s, e).clients[e.c])
  {
    var client := s.clients[e.c];
    assert ClientOk(s, client);
    assert forall f :: f in client.frames ==> !IsTerminal(f);
    assert client.frames + [] == client.frames;
  }

  lemma EventKeepsClient(s: State, e: Event)
    requires Inv(s) && Enabled(s, e) && IsClientEvent(e)
    ensures e.c in Step(s, e).clients && ClientOk(Step(s, e), Step(s, e).clients[e.c])
  {
    if e.Arrive? || e.Lookup? || e.Lock? || e.CheckResident? {
      QueueingKeepsClient(s, e);
    } else if e.AskOracle? || e.StartLoad? {
      LoadingKeepsClient(s, e);
    } else if e.Drop? {
      DropKeepsClient(s, e);
    } else {
      EndingKeepsClient(s, e);
    }
  }

  /** A step moves the client it is about, and no other. */
  lemma OthersStand(s: State, e: Event, c: nat)
    requires Enabled(s, e) && c in Step(s, e).clients && (IsClientEvent(e) ==> c != e.c)
    ensures c in s.clients && Step(s, e).clients[c] == s.clients[c]
    ensures Step(s, e).cfg == s.cfg && s.forced <= Step(s, e).forced
  {
  }

  lemma StepKeepsClients(s: State, e: Event)
    requires Inv(s) && Enabled(s, e)
    ensures forall c :: c in Step(s, e).clients ==> ClientOk(Step(s, e), Step(s, e).clients[c])
  {
    var s' := Step(s, e);
    forall c | c in s'.clients
      ensures ClientOk(s', s'.clients[c])
    {
      if IsClientEvent(e) && c == e.c {
        EventKeepsClient(s, e);
      } else {
        OthersStand(s, e, c);
        ClientStaysOk(s, s', s.clients[c]);
      }
    }
  }

  lemma {:induction false} RunKeepsInv(s0: State, es: seq<Event>, s: State)
    requires Inv(s0) && IsRun(s0, es, s)
    ensures Inv(s)
    decreases |es|
  {
    if es != [] {
      StepKeepsLock(s0, es[0]);
      StepKeepsRouter(s0, es[0]);
      StepKeepsClients(s0, es[0]);
      RunKeepsInv(Step(s0, es[0]), es[1..], s);
    }
  }

  lemma InitIsInv(s: State)
    requires Init(s)
    ensures Inv(s)
  {
  }

  // ---------------------------------------------------------------- what every run keeps

  /** No request of the run asks to skip the oracle. */
  predicate NoForce(es: seq<Event>) {
    forall n :: 0 <= n < |es| && es[n].Arrive? ==> !es[n].req.force
  }

  lemma {:induction false} ForcedMeansAsked(s0: State, es: seq<Event>, s: State)
    requires IsRun(s0, es, s) && NoForce(es)
    ensures s.forced == s0.forced && s.cfg == s0.cfg
    decreases |es|
  {
    if es != [] {
      assert es[0].Arrive? ==> !es[0].req.force;
      assert NoForce(es[1..]);
      ForcedMeansAsked(Step(s0, es[0]), es[1..], s);
    }
  }

  /**
   * Every model that is ever resident fits next to the reserves, or an ensure was forced for it: warm
   * loads, late warm loads nobody waits for, and forwards outside the lock included.
   */
  lemma EverResidentFits(s0: State, es: seq<Event>, s: State)
    requires Init(s0) && IsRun(s0, es, s)
    ensures forall m :: m in s.everResident ==> FitsAlone(s.cfg, m) || m in s.forced
    ensures NoForce(es) ==> forall m :: m in s.everResident ==> FitsAlone(s.cfg, m)
  {
    InitIsInv(s0);
    RunKeepsInv(s0, es, s);
    if NoForce(es) {
      ForcedMeansAsked(s0, es, s);
    }
  }

  function VramNeeded(cfg: Config, l: seq<Model>): real {
    if l == [] then 0.0
    else VramNeeded(cfg, l[1..]) + if l[0] in cfg.profiles then EstimateFootprint(cfg.profiles[l[0]]).0 else 0.0
  }

  function RamNeeded(cfg: Config, l: seq<Model>): real {
    if l == [] then 0.0
    else RamNeeded(cfg, l[1..]) + if l[0] in cfg.profiles then EstimateFootprint(cfg.profiles[l[0]]).1 else 0.0
  }

  /** The needs of a list are the sum of its models' needs. */
  lemma {:induction false} NeedsAdd(cfg: Config, a: seq<Model>, m: Model)
    requires m in cfg.profiles
    ensures VramNeeded(cfg, a + [m]) == VramNeeded(cfg, a) + EstimateFootprint(cfg.profiles[m]).0
    ensures RamNeeded(cfg, a + [m]) == RamNeeded(cfg, a) + EstimateFootprint(cfg.profiles[m]).1
    ensures VramNeeded(cfg, []) == RamNeeded(cfg, []) == 0.0
  {
    if a == [] {
      assert [] + [m] == [m] && [m][1..] == [];
    } else {
      assert (a + [m])[1..] == a[1..] + [m];
      NeedsAdd(cfg, a[1..], m);
    }
  }

  predicate SetFits(cfg: Config, l: seq<Model>) {
    VramNeeded(cfg, l) + cfg.reserveVram <= cfg.totalVram && RamNeeded(cfg, l) + cfg.reserveRam <= cfg.totalRam
  }

  /** With a router bound of one, what is resident together fits too. */
  lemma ResidentSetFits(s0: State, es: seq<Event>, s: State)
    requires Init(s0) && IsRun(s0, es, s) && NoForce(es)
    requires s0.cfg.max == Some(1) && s.loaded != []
    ensures SetFits(s.cfg, s.loaded)
  {
    InitIsInv(s0);
    RunKeepsInv(s0, es, s);
    ForcedMeansAsked(s0, es, s);
    var m := s.loaded[0];
    assert s.loaded == [m];
    assert m in s.loaded && FitsAlone(s.cfg, m);
    assert VramNeeded(s.cfg, s.loaded[1..]) == 0.0 && RamNeeded(s.cfg, s.loaded[1..]) == 0.0;
  }

  /** From the resident check to the load reply there is one ensure at a time, whoever hangs up. */
  lemma EnsuresAreSerial(s0: State, es: seq<Event>, s: State, c: nat, d: nat)
    requires Init(s0) && IsRun(s0, es, s)
    requires c in s.clients && d in s.clients && Critical(s.clients[c].pc) && Critical(s.clients[d].pc)
    ensures c == d && s.lock == Some(c)
  {
    InitIsInv(s0);
    RunKeepsInv(s0, es, s);
  }

  lemma OneTerminalFrame(frames: seq<Frame>, force: bool, pc: Pc)
    requires FramesAt(frames, force, pc)
    ensures forall k :: 0 <= k < |frames| && IsTerminal(frames[k]) ==> pc.Closed? && k == |frames| - 1
  {
  }

  /**
   * Every stream that ended has the grammar's form, with its one terminal frame last; no stream that
   * has not ended has one.
   */
  lemma StreamsAreWellFormed(s0: State, es: seq<Event>, s: State, c: nat)
    requires Init(s0) && IsRun(s0, es, s) && c in s.clients
    ensures
      var frames, pc := s.clients[c].frames, s.clients[c].pc;
      && (pc.Closed? ==> WholeStream(frames, s.clients[c].req.force) && frames[|frames| - 1] == Terminal(pc.outcome))
      && (forall k :: 0 <= k < |frames| && IsTerminal(frames[k]) ==> pc.Closed? && k == |frames| - 1)
  {
    InitIsInv(s0);
    RunKeepsInv(s0, es, s);
    var client := s.clients[c];
    assert ClientOk(s, client);
    OneTerminalFrame(client.frames, client.req.force, client.pc);
  }

  // ---------------------------------------------------------------- outcomes, from the events

  /** The reading leaves the reserves free next to what the profile needs. */
  predicate Leaves(cfg: Config, m: Model, vram: real, ram: real) {
    && m in cfg.profiles
    && EstimateFootprint(cfg.profiles[m]).0 + cfg.reserveVram <= vram
    && EstimateFootprint(cfg.profiles[m]).1 + cfg.reserveRam <= ram
  }

  predicate FindsIt(e: Event, c: nat, m: Model) {
    e.CheckResident? && e.c == c && m in e.seen
  }

  predicate LeavesEnough(e: Event, c: nat, cfg: Config, m: Model) {
    e.AskOracle? && e.c == c && Leaves(cfg, m, e.vram, e.ram)
  }

  predicate Refuses(e: Event, c: nat, cfg: Config, m: Model) {
    e.AskOracle? && e.c == c && !Leaves(cfg, m, e.vram, e.ram)
  }

  /** A run in which the model was found resident for client `c`. */
  ghost predicate Found(es: seq<Event>, c: nat, m: Model) {
    exists k :: 0 <= k < |es| && FindsIt(es[k], c, m)
  }

  ghost predicate Fitted(es: seq<Event>, c: nat, cfg: Config, m: Model) {
    exists k :: 0 <= k < |es| && LeavesEnough(es[k], c, cfg, m)
  }

  ghost predicate Refused(es: seq<Event>, c: nat, cfg: Config, m: Model) {
    exists k :: 0 <= k < |es| && Refuses(es[k], c, cfg, m)
  }

  predicate Replied(es: seq<Event>, c: nat, ok: bool) {
    Reply(c, ok) in es
  }

  /** What the events of a run so far say about one client. */
  datatype Trace = Trace(found: bool, fitted: bool, refused: bool, good: bool, bad: bool)

  ghost function TraceOf(es: seq<Event>, c: nat, cfg: Config, m: Model): Trace {
    Trace(Found(es, c, m), Fitted(es, c, cfg, m), Refused(es, c, cfg, m), Replied(es, c, true), Replied(es, c, false))
  }

  const BLANK := Trace(false, false, false, false, false)

  /** A client admitted by the oracle, or by force against it. */
  predicate WasAdmitted(t: Trace, force: bool) {
    !t.found && t.fitted != t.refused && (t.refused ==> force)
  }

  predicate OutcomeIs(t: Trace, o: Outcome, known: bool, force: bool) {
    match o
    case Loaded => known && WasAdmitted(t, force) && t.good && !t.bad
    case Failed => known && WasAdmitted(t, force) && t.bad && !t.good
    case AlreadyResident => known && t == BLANK.(found := true)
    case OomRejected => known && !force && t == BLANK.(refused := true)
    case Bad => !known && t == BLANK
  }

  predicate TraceIs(t: Trace, pc: Pc, known: bool, force: bool) {
    match pc
    case Arrived => t == BLANK
    case AwaitLock => known && t == BLANK
    case Checking => known && t == BLANK
    case Asking => known && t == BLANK
    case Admitted => known && WasAdmitted(t, force) && !t.good && !t.bad
    case AwaitReply(_) => known && WasAdmitted(t, force) && !t.good && !t.bad
    case Returned(o) => OutcomeIs(t, o, known, force)
    case Closed(o) => OutcomeIs(t, o, known, force)
    case Gone => true
  }

  ghost predicate TraceOk(past: seq<Event>, cfg: Config, c: nat, client: Client) {
    var t := TraceOf(past, c, cfg, client.req.profile);
    && TraceIs(t, client.pc, client.req.profile in cfg.profiles, client.req.force)
    && (OracleOk in client.frames <==> t.fitted)
  }

  predicate IsAbout(e: Event, c: nat) {
    IsClientEvent(e) && e.c == c
  }

  /** A chat is forwarded only after its ensure found the model resident or had a good reply. */
  ghost predicate ForwardOk(past: seq<Event>, s: State, k: nat)
    requires k < |past|
  {
    past[k].Forward? ==>
      && past[k].c in s.clients && s.clients[past[k].c].req.kind.Chat?
      && (Found(past[..k], past[k].c, s.clients[past[k].c].req.profile) || Replied(past[..k], past[k].c, true))
  }

  ghost predicate TraceInv(past: seq<Event>, s: State) {
    && (forall c :: c in s.clients ==> TraceOk(past, s.cfg, c, s.clients[c]))
    && (forall k :: 0 <= k < |past| && IsClientEvent(past[k]) ==> past[k].c in s.clients)
    && (forall k :: 0 <= k < |past| ==> ForwardOk(past, s, k))
  }

  lemma TraceGrows(past: seq<Event>, e: Event, c: nat, cfg: Config, m: Model)
    ensures
      var t := TraceOf(past, c, cfg, m);
      TraceOf(past + [e], c, cfg, m) == Trace(
        t.found || FindsIt(e, c, m), t.fitted || LeavesEnough(e, c, cfg, m), t.refused || Refuses(e, c, cfg, m),
        t.good || e == Reply(c, true), t.bad || e == Reply(c, false))
  {
    var es := past + [e];
    assert es[|past|] == e && forall k :: 0 <= k < |past| ==> es[k] == past[k];
  }

  lemma NoEventNoTrace(past: seq<Event>, c: nat, cfg: Config, m: Model)
    requires forall k :: 0 <= k < |past| ==> !IsAbout(past[k], c)
    ensures TraceOf(past, c, cfg, m) == BLANK
  {
  }

  lemma QueueingKeepsTrace(past: seq<Event>, s: State, e: Event)
    requires TraceInv(past, s) && Enabled(s, e) && (e.Arrive? || e.Lookup? || e.Lock? || e.Drop?)
    ensures e.c in Step(s, e).clients && TraceOk(past + [e], s.cfg, e.c, Step(s, e).clients[e.c])
  {
    var client := Step(s, e).clients[e.c];
    TraceGrows(past, e, e.c, s.cfg, client.req.profile);
    if e.Arrive? {
      NoEventNoTrace(past, e.c, s.cfg, client.req.profile);
    } else {
      assert TraceOk(past, s.cfg, e.c, s.clients[e.c]);
    }
  }

  lemma AskingKeepsTrace(past: seq<Event>, s: State, e: Event)
    requires TraceInv(past, s) && Enabled(s, e) && (e.CheckResident? || e.AskOracle?)
    ensures e.c in Step(s, e).clients && TraceOk(past + [e], s.cfg, e.c, Step(s, e).clients[e.c])
  {
    TraceGrows(past, e, e.c, s.cfg, s.clients[e.c].req.profile);
    assert TraceOk(past, s.cfg, e.c, s.clients[e.c]);
  }

  lemma LoadingKeepsTrace(past: seq<Event>, s: State, e: Event)
    requires TraceInv(past, s) && Enabled(s, e) && (e.StartLoad? || e.Reply? || e.Report? || e.Forward?)
    ensures e.c in Step(s, e).clients && TraceOk(past + [e], s.cfg, e.c, Step(s, e).clients[e.c])
  {
    TraceGrows(past, e, e.c, s.cfg, s.clients[e.c].req.profile);
    assert TraceOk(past, s.cfg, e.c, s.clients[e.c]);
  }

  lemma OthersKeepTrace(past: seq<Event>, s: State, e: Event, c: nat)
    requires TraceInv(past, s) && Enabled(s, e) && c in Step(s, e).clients && !IsAbout(e, c)
    ensures TraceOk(past + [e], Step(s, e).cfg, c, Step(s, e).clients[c])
  {
    OthersStand(s, e, c);
    TraceGrows(past, e, c, s.cfg, s.clients[c].req.profile);
    assert TraceOk(past, s.cfg, c, s.clients[c]);
  }

  lemma RequestsStand(s: State, e: Event)
    requires Enabled(s, e)
    ensures Step(s, e).cfg == s.cfg
    ensures forall c :: c in s.clients ==> c in Step(s, e).clients && Step(s, e).clients[c].req == s.clients[c].req
    ensures IsClientEvent(e) ==> e.c in Step(s, e).clients
  {
  }

  lemma ForwardsStayOk(past: seq<Event>, s: State, e: Event, k: nat)
    requires TraceInv(past, s) && Enabled(s, e) && k <= |past|
    ensures ForwardOk(past + [e], Step(s, e), k)
  {
    RequestsStand(s, e);
    if k < |past| {
      assert ForwardOk(past, s, k) && (past + [e])[..k] == past[..k];
    } else {
      assert (past + [e])[..k] == past;
      if e.Forward? {
        assert TraceOk(past, s.cfg, e.c, s.clients[e.c]);
      }
    }
  }

  lemma StepKeepsTrace(past: seq<Event>, s: State, e: Event)
    requires TraceInv(past, s) && Enabled(s, e)
    ensures TraceInv(past + [e], Step(s, e))
  {
    var s' := Step(s, e);
    RequestsStand(s, e);
    forall c | c in s'.clients
      ensures TraceOk(past + [e], s'.cfg, c, s'.clients[c])
    {
      if !IsAbout(e, c) {
        OthersKeepTrace(past, s, e, c);
      } else if e.Arrive? || e.Lookup? || e.Lock? || e.Drop? {
        QueueingKeepsTrace(past, s, e);
      } else if e.CheckResident? || e.AskOracle? {
        AskingKeepsTrace(past, s, e);
      } else {
        LoadingKeepsTrace(past, s, e);
      }
    }
    forall k | 0 <= k < |past + [e]|
      ensures ForwardOk(past + [e], s', k)
    {
      ForwardsStayOk(past, s, e, k);
    }
  }

  lemma {:induction false} RunKeepsTrace(s0: State, past: seq<Event>, es: seq<Event>, s: State)
    requires TraceInv(past, s0) && IsRun(s0, es, s)
    ensures TraceInv(past + es, s)
    decreases |es|
  {
    if es == [] {
      assert past + es == past;
    } else {
      StepKeepsTrace(past, s0, es[0]);
      RunKeepsTrace(Step(s0, es[0]), past + [es[0]], es[1..], s);
      assert past + [es[0]] + es[1..] == past + es;
    }
  }

  lemma TraceOfRun(s0: State, es: seq<Event>, s: State)
    requires Init(s0) && IsRun(s0, es, s)
    ensures TraceInv(es, s)
  {
    RunKeepsTrace(s0, [], es, s);
    assert [] + es == es;
  }

  /** Outcomes and frames mean what they say. */
  ghost predicate Meant(es: seq<Event>, cfg: Config, c: nat, req: Request, o: Outcome) {
    var m := req.profile;
    && (o.Loaded? <==> Replied(es, c, true))
    && (o.Failed? <==> Replied(es, c, false))
    && (o.AlreadyResident? <==> Found(es, c, m))
    && (o.Bad? <==> m !in cfg.profiles)
    && (o.OomRejected? <==> !req.force && Refused(es, c, cfg, m))
  }

  /**
   * In every run an ensure that came back came back `Loaded` iff its warm load had a good reply, `Failed`
   * iff it had a bad one, `AlreadyResident` iff its check found the profile in the model list, `Bad` iff
   * the profile is unknown, and `OomRejected` iff it did not force and a reading left too little.
   * `OracleOk` is sent iff a reading left enough, and the last frame is the outcome's own.
   */
  lemma OutcomesAreTrue(s0: State, es: seq<Event>, s: State, c: nat)
    requires Init(s0) && IsRun(s0, es, s) && c in s.clients
    ensures
      var client := s.clients[c];
      && (client.pc.Returned? || client.pc.Closed? ==> Meant(es, s.cfg, c, client.req, client.pc.outcome))
      && (OracleOk in client.frames <==> Fitted(es, c, s.cfg, client.req.profile))
      && (client.pc.Closed? ==>
        && |client.frames| > 0
        && client.frames[|client.frames| - 1] ==
          if Replied(es, c, true) then DoneLoaded
          else if Found(es, c, client.req.profile) then DoneAlreadyResident
          else if Replied(es, c, false) || client.req.profile !in s.cfg.profiles then Error
          else Oom)
  {
    TraceOfRun(s0, es, s);
    StreamsAreWellFormed(s0, es, s, c);
    assert TraceOk(es, s.cfg, c, s.clients[c]);
  }

  /** A chat goes to the router only after its own good reply, or its own check that found the model. */
  lemma ForwardsFollowSuccess(s0: State, es: seq<Event>, s: State, k: nat)
    requires Init(s0) && IsRun(s0, es, s) && k < |es| && es[k].Forward?
    ensures es[k].c in s.clients && s.clients[es[k].c].req.kind.Chat?
    ensures Found(es[..k], es[k].c, s.clients[es[k].c].req.profile) || Replied(es[..k], es[k].c, true)
  {
    TraceOfRun(s0, es, s);
    assert ForwardOk(es, s, k);
  }

  /** Only a served request or an outside unload moves the router's list, and just so. */
  lemma OnlyTheRouterMoves(s: State, e: Event)
    requires Enabled(s, e)
    ensures !e.Serve? && !e.Evict? ==> Step(s, e).loaded == s.loaded
    ensures e.Serve? && s.cfg.max != Some(0) ==> s.wire[e.request].model in Step(s, e).loaded
    ensures e.Evict? ==> e.m !in Step(s, e).loaded && forall m :: m in s.loaded && m != e.m ==> m in Step(s, e).loaded
    ensures e.StartLoad? || e.Forward? ==> Step(s, e).wire == s.wire + [Wire(s.clients[e.c].req.profile, false)]
  {
    if e.Serve? && s.cfg.max != Some(0) {
      LoadKeepsLoaded(s.loaded, s.cfg.max, s.wire[e.request].model);
    }
    if e.Evict? {
      var at := WithoutPositions(s.loaded, e.m);
    }
  }

  // ---------------------------------------------------------------- many ensures of one profile

  /** Only `p` is asked for, the model list is complete, and nothing is unloaded from outside. */
  predicate Quiet(s: State, e: Event, p: Model) {
    && (e.Arrive? ==> e.req.profile == p)
    && (e.CheckResident? ==> forall m :: m in s.loaded ==> m in e.seen)
    && !e.Evict?
  }

  ghost predicate IsQuietRun(s0: State, es: seq<Event>, s: State, p: Model)
    decreases |es|
  {
    if es == [] then s0 == s
    else Enabled(s0, es[0]) && Quiet(s0, es[0], p) && IsQuietRun(Step(s0, es[0]), es[1..], s, p)
  }

  predicate Loads(s: State, c: nat) {
    c in s.clients && s.clients[c].pc.AwaitReply?
  }

  predicate PastCheck(pc: Pc) {
    pc.Asking? || pc.Admitted? || pc.AwaitReply?
  }

  /** `first` says whether `p` was resident from the start. */
  ghost predicate OneProfile(s: State, p: Model, first: bool) {
    && LockOk(s)
    && s.cfg.max != Some(0)
    && (forall c :: c in s.clients ==> s.clients[c].req.profile == p)
    && (forall k :: 0 <= k < |s.wire| ==> s.wire[k].model == p)
    && (forall k :: 0 <= k < |s.wire| && s.wire[k].served ==> p in s.loaded)
    && (s.successes > 0 || first ==> p in s.loaded)
    && (forall c :: c in s.clients && PastCheck(s.clients[c].pc) ==> s.successes == 0 && !first)
    && s.successes <= 1
    && s.warmLoads == s.failures + s.successes + (if s.lock.Some? && Loads(s, s.lock.value) then 1 else 0)
    && (first ==> s.warmLoads == 0)
  }

  lemma QuietArrival(s: State, e: Event, p: Model, first: bool)
    requires OneProfile(s, p, first) && Enabled(s, e) && Quiet(s, e, p)
    requires e.Arrive?
    ensures OneProfile(Step(s, e), p, first)
  {
    StepKeepsLock(s, e);
  }

  lemma QuietLookup(s: State, e: Event, p: Model, first: bool)
    requires OneProfile(s, p, first) && Enabled(s, e) && Quiet(s, e, p)
    requires e.Lookup?
    ensures OneProfile(Step(s, e), p, first)
  {
    StepKeepsLock(s, e);
  }

  lemma QuietLock(s: State, e: Event, p: Model, first: bool)
    requires OneProfile(s, p, first) && Enabled(s, e) && Quiet(s, e, p)
    requires e.Lock?
    ensures OneProfile(Step(s, e), p, first)
  {
    StepKeepsLock(s, e);
  }

  lemma QuietCheck(s: State, e: Event, p: Model, first: bool)
    requires OneProfile(s, p, first) && Enabled(s, e) && Quiet(s, e, p)
    requires e.CheckResident? || e.AskOracle?
    ensures OneProfile(Step(s, e), p, first)
  {
    StepKeepsLock(s, e);
  }

  lemma QuietLoad(s: State, e: Event, p: Model, first: bool)
    requires OneProfile(s, p, first) && Enabled(s, e) && Quiet(s, e, p)
    requires e.StartLoad? || e.Forward?
    ensures OneProfile(Step(s, e), p, first)
  {
    StepKeepsLock(s, e);
  }

  lemma QuietEnd(s: State, e: Event, p: Model, first: bool)
    requires OneProfile(s, p, first) && Enabled(s, e) && Quiet(s, e, p)
    requires e.Reply? || e.Report?
    ensures OneProfile(Step(s, e), p, first)
  {
    StepKeepsLock(s, e);
  }

  lemma QuietDrop(s: State, e: Event, p: Model, first: bool)
    requires OneProfile(s, p, first) && Enabled(s, e) && Quiet(s, e, p)
    requires e.Drop?
    ensures OneProfile(Step(s, e), p, first)
  {
    StepKeepsLock(s, e);
  }

  lemma QuietServe(s: State, e: Event, p: Model, first: bool)
    requires OneProfile(s, p, first) && Enabled(s, e) && Quiet(s, e, p)
    requires e.Serve?
    ensures OneProfile(Step(s, e), p, first)
  {
    StepKeepsLock(s, e);
    LoadKeepsLoaded(s.loaded, s.cfg.max, p);
  }

  lemma QuietStep(s: State, e: Event, p: Model, first: bool)
    requires OneProfile(s, p, first) && Enabled(s, e) && Quiet(s, e, p)
    ensures OneProfile(Step(s, e), p, first)
  {
    if e.Arrive? {
      QuietArrival(s, e, p, first);
    } else if e.Lookup? {
      QuietLookup(s, e, p, first);
    } else if e.Lock? {
      QuietLock(s, e, p, first);
    } else if e.CheckResident? || e.AskOracle? {
      QuietCheck(s, e, p, first);
    } else if e.StartLoad? || e.Forward? {
      QuietLoad(s, e, p, first);
    } else if e.Reply? || e.Report? {
      QuietEnd(s, e, p, first);
    } else if e.Drop? {
      QuietDrop(s, e, p, first);
    } else {
      QuietServe(s, e, p, first);
    }
  }

  lemma LoadKeepsLoaded(l: seq<Model>, max: Option<nat>, p: Model)
    requires max != Some(0)
    ensures p in Load(l, max, p)
  {
    var l' := Load(l, max, p);
    if p !in l {
      assert l'[|l'| - 1] == p;
    }
  }

  lemma {:induction false} QuietRun(s0: State, es: seq<Event>, s: State, p: Model, first: bool)
    requires OneProfile(s0, p, first) && IsQuietRun(s0, es, s, p)
    ensures OneProfile(s, p, first)
    decreases |es|
  {
    if es != [] {
      QuietStep(s0, es[0], p, first);
      QuietRun(Step(s0, es[0]), es[1..], s, p, first);
    }
  }

  /**
   * However many clients ensure the same profile at once, it is loaded once: a second warm load is only
   * sent after one failed or lost its client, and none at all if the model was there.
   */
  lemma OneWarmLoad(s0: State, es: seq<Event>, s: State, p: Model)
    requires Init(s0) && s0.cfg.max != Some(0) && IsQuietRun(s0, es, s, p)
    ensures s.warmLoads <= s.failures + 1
    ensures s.failures == 0 ==> s.warmLoads <= 1
    ensures p in s0.loaded ==> s.warmLoads == 0
  {
    QuietRun(s0, es, s, p, p in s0.loaded);
  }

  // ---------------------------------------------------------------- exactly when the resident set fits

  lemma {:induction false} AppendRun(s0: State, a: seq<Event>, s1: State, b: seq<Event>, s2: State)
    requires IsRun(s0, a, s1) && IsRun(s1, b, s2)
    ensures IsRun(s0, a + b, s2)
    decreases |a|
  {
    if a == [] {
      assert a + b == b;
    } else {
      assert (a + b)[1..] == a[1..] + b;
      AppendRun(Step(s0, a[0]), a[1..], s1, b, s2);
    }
  }

  lemma RunOn(s0: State, es: seq<Event>, s: State, e: Event)
    requires IsRun(s0, es, s) && Enabled(s, e)
    ensures IsRun(s0, es + [e], Step(s, e))
  {
    assert IsRun(Step(s, e), [], Step(s, e));
    assert [e][1..] == [];
    assert IsRun(s, [e], Step(s, e));
    AppendRun(s0, es, s, [e], Step(s, e));
  }

  /** Client `c` has come to `s` for `b`, without force, and stands at `pc`; the router is as it was. */
  predicate CameTo(s0: State, s: State, c: nat, b: Model, pc: Pc) {
    && s.cfg == s0.cfg && s.loaded == s0.loaded
    && s.clients.Keys == s0.clients.Keys + {c}
    && s.clients[c].req == Request(b, false, Json) && s.clients[c].pc == pc
  }

  lemma Queues(s0: State, c: nat, b: Model) returns (es: seq<Event>, s: State)
    requires s0.lock.None? && c !in s0.clients && b in s0.cfg.profiles
    ensures IsRun(s0, es, s) && NoForce(es) && CameTo(s0, s, c, b, Checking) && s.lock == Some(c)
  {
    var arrive := Arrive(c, Request(b, false, Json));
    assert IsRun(s0, [], s0);
    RunOn(s0, [], s0, arrive);
    var s1 := Step(s0, arrive);
    RunOn(s0, [] + [arrive], s1, Lookup(c));
    var s2 := Step(s1, Lookup(c));
    RunOn(s0, [] + [arrive] + [Lookup(c)], s2, Lock(c));
    es, s := [] + [arrive] + [Lookup(c)] + [Lock(c)], Step(s2, Lock(c));
  }

  lemma IsAdmitted(s0: State, s1: State, c: nat, b: Model) returns (es: seq<Event>, s: State)
    requires CameTo(s0, s1, c, b, Checking) && s1.lock == Some(c) && FitsAlone(s0.cfg, b)
    ensures IsRun(s1, es, s) && NoForce(es) && CameTo(s0, s, c, b, Admitted) && s.lock == Some(c)
  {
    var ask := AskOracle(c, s0.cfg.totalVram, s0.cfg.totalRam);
    assert IsRun(s1, [], s1);
    RunOn(s1, [], s1, CheckResident(c, {}));
    var s2 := Step(s1, CheckResident(c, {}));
    RunOn(s1, [] + [CheckResident(c, {})], s2, ask);
    es, s := [] + [CheckResident(c, {})] + [ask], Step(s2, ask);
  }

  lemma IsLoaded(s0: State, s1: State, c: nat, b: Model) returns (es: seq<Event>, s: State)
    requires CameTo(s0, s1, c, b, Admitted) && s1.lock == Some(c)
    requires b !in s0.loaded && (s0.cfg.max.Some? ==> |s0.loaded| < s0.cfg.max.value)
    ensures IsRun(s1, es, s) && NoForce(es)
    ensures s.cfg == s0.cfg && s.lock.None? && s.clients.Keys == s0.clients.Keys + {c} && s.loaded == s0.loaded + [b]
  {
    var n := |s1.wire|;
    assert IsRun(s1, [], s1);
    RunOn(s1, [], s1, StartLoad(c));
    var s2 := Step(s1, StartLoad(c));
    RunOn(s1, [] + [StartLoad(c)], s2, Serve(n));
    var s3 := Step(s2, Serve(n));
    RunOn(s1, [] + [StartLoad(c)] + [Serve(n)], s3, Reply(c, true));
    es, s := [] + [StartLoad(c)] + [Serve(n)] + [Reply(c, true)], Step(s3, Reply(c, true));
  }

  /** One ensure, alone, adds one model that fits alone to a router with room. */
  lemma OneMoreResident(s0: State, c: nat, b: Model) returns (es: seq<Event>, s: State)
    requires s0.lock.None? && c !in s0.clients && FitsAlone(s0.cfg, b)
    requires b !in s0.loaded && (s0.cfg.max.Some? ==> |s0.loaded| < s0.cfg.max.value)
    ensures IsRun(s0, es, s) && NoForce(es)
    ensures s.cfg == s0.cfg && s.lock.None? && s.clients.Keys == s0.clients.Keys + {c} && s.loaded == s0.loaded + [b]
  {
    var es1, s1 := Queues(s0, c, b);
    var es2, s2 := IsAdmitted(s0, s1, c, b);
    var es3, s3 := IsLoaded(s0, s2, c, b);
    AppendRun(s0, es1, s1, es2, s2);
    AppendRun(s0, es1 + es2, s2, es3, s3);
    es, s := es1 + es2 + es3, s3;
  }

  /** As many as the bound allows, all different, and each fits alone. */
  ghost predicate EachFits(cfg: Config, l: seq<Model>) {
    Fits(l, cfg.max) && forall k :: 0 <= k < |l| ==> FitsAlone(cfg, l[k])
  }

  ghost predicate RunsTo(cfg: Config, s0: State, es: seq<Event>, s: State) {
    Init(s0) && s0.cfg == cfg && IsRun(s0, es, s) && NoForce(es)
  }

  /** From an empty router ensures without force make any such list resident. */
  lemma {:induction false} AnyListCanBeResident(cfg: Config, l: seq<Model>) returns (s0: State, es: seq<Event>, s: State)
    requires EachFits(cfg, l)
    ensures RunsTo(cfg, s0, es, s) && s0.loaded == [] && s.loaded == l
    ensures s.cfg == cfg && s.lock.None? && forall c :: c in s.clients ==> c < |l|
  {
    if l == [] {
      s0 := State(cfg, [], [], None, map[], {}, {}, 0, 0, 0);
      es, s := [], s0;
    } else {
      var n := |l| - 1;
      var es1, s1, es2;
      assert forall k :: 0 <= k < n ==> l[..n][k] == l[k];
      s0, es1, s1 := AnyListCanBeResident(cfg, l[..n]);
      es2, s := OneMoreResident(s1, n, l[n]);
      AppendRun(s0, es1, s1, es2, s);
      es := es1 + es2;
      assert l[..n] + [l[n]] == l;
    }
  }

  lemma RunsToEachFits(cfg: Config, s0: State, es: seq<Event>, s: State)
    requires RunsTo(cfg, s0, es, s)
    ensures EachFits(cfg, s.loaded)
  {
    InitIsInv(s0);
    RunKeepsInv(s0, es, s);
    ForcedMeansAsked(s0, es, s);
    forall k | 0 <= k < |s.loaded|
      ensures FitsAlone(cfg, s.loaded[k])
    {
      assert s.loaded[k] in s.loaded;
    }
  }

  /**
   * Whatever the bound: what is resident together always fits, without force, exactly when every list
   * of that many profiles that fit alone fits together.
   */
  lemma ResidentSetsFitIff(cfg: Config)
    ensures (forall s0, es, s :: RunsTo(cfg, s0, es, s) ==> SetFits(cfg, s.loaded)) <==>
            (forall l :: EachFits(cfg, l) ==> SetFits(cfg, l))
  {
    if forall l :: EachFits(cfg, l) ==> SetFits(cfg, l) {
      forall s0, es, s | RunsTo(cfg, s0, es, s)
        ensures SetFits(cfg, s.loaded)
      {
        RunsToEachFits(cfg, s0, es, s);
      }
    }
    if forall s0, es, s :: RunsTo(cfg, s0, es, s) ==> SetFits(cfg, s.loaded) {
      forall l | EachFits(cfg, l)
        ensures SetFits(cfg, l)
      {
        var s0, es, s := AnyListCanBeResident(cfg, l);
      }
    }
  }

  lemma PairNeed(cfg: Config, a: Model, b: Model)
    requires a in cfg.profiles && b in cfg.profiles
    ensures VramNeeded(cfg, [a, b]) == EstimateFootprint(cfg.profiles[a]).0 + EstimateFootprint(cfg.profiles[b]).0
    ensures RamNeeded(cfg, [a, b]) == EstimateFootprint(cfg.profiles[a]).1 + EstimateFootprint(cfg.profiles[b]).1
  {
    assert [a, b][1..] == [b] && [b][1..] == [];
    assert VramNeeded(cfg, [b]) == EstimateFootprint(cfg.profiles[b]).0 && RamNeeded(cfg, [b]) == EstimateFootprint(cfg.profiles[b]).1;
  }

  /** So with a bound of two or more any two profiles that fit alone can be resident together. */
  lemma AnyPairCanBeResident(cfg: Config, a: Model, b: Model) returns (s0: State, es: seq<Event>, s: State)
    requires a != b && FitsAlone(cfg, a) && FitsAlone(cfg, b) && (cfg.max.Some? ==> cfg.max.value >= 2)
    ensures RunsTo(cfg, s0, es, s) && s.loaded == [a, b]
    ensures
      var (va, ra) := EstimateFootprint(cfg.profiles[a]);
      var (vb, rb) := EstimateFootprint(cfg.profiles[b]);
      SetFits(cfg, s.loaded) <==> va + vb + cfg.reserveVram <= cfg.totalVram && ra + rb + cfg.reserveRam <= cfg.totalRam
  {
    s0, es, s := AnyListCanBeResident(cfg, [a, b]);
    PairNeed(cfg, a, b);
  }
}
