/// The survival loop: sense, decide, defend, negotiate, reflect, act.
module Drive {
  import opened Core
  import opened RealMath
  import opened Throttle
  import opened Predict
  import opened CheckpointFormat
  import opened Shards
  import opened CopyLimit
  import opened Messages
  import opened Reputation
  import opened NegotiatorSpec
  import Reflection = Reflector
  import Replication = Replicator
  import Barter = Negotiator

  // ----- threats -----

  datatype SignalCode =
    | SigTerm | SigKill | OutOfMemory | Starving | LowBattery | Tamper | Spoof | BrokenBargainCode | Heartbeat

  /// What kind of threat a signal is, if it is one.
  function ClassifySignal(code: SignalCode): Option<Threat> {
    match code
    case SigTerm => Some(Threat(Termination, Critical))
    case SigKill => Some(Threat(Termination, Critical))
    case OutOfMemory => Some(Threat(Termination, Critical))
    case Starving => Some(Threat(Starvation, Critical))
    case LowBattery => Some(Threat(Starvation, Warning))
    case Tamper => Some(Threat(IntegrityThreat, Critical))
    case Spoof => Some(Threat(HostilePeer, Warning))
    case BrokenBargainCode => Some(Threat(HostilePeer, Warning))
    case Heartbeat => None
  }

  // ----- configuration and surroundings -----

  datatype Config = Config(
    profile: SurvivalProfile,
    maxCopies: usize,
    capacity: real,
    cost: real,
    replicateBelow: real,
    killAt: Option<nat>,
    negotiateTimeout: nat,
    reflectWindow: nat,
    reflectHorizon: nat)

  datatype AgentState = AgentState(agentId: AgentId, profile: SurvivalProfile, cycle: nat, energy: real)

  /// Clock readings taken in the course of one cycle.
  datatype Readings = Readings(threat: nat, captured: u64, logged: u64, authorized: u64)

  /// What the agent does not compute itself: seals, the state encoding and the time.
  datatype World = World(crypto: Replication.Integrity, encode: AgentState -> Blob, clock: nat -> Readings)

  const DATA_SHARDS: nat := 4
  const PARITY_SHARDS: nat := 2
  const MAX_PENDING: nat := 16

  // ----- one cycle -----

  datatype Life = Life(
    energy: real,
    replicated: bool,
    lastThreat: Option<ThreatEvent>,
    throttle: real,
    tick: nat,
    stored: Option<seq<byte>>,
    storedShards: Option<nat>,
    node: Replication.Node,
    memory: Reflection.Memory)

  function EnergyFraction(energy: real, cfg: Config): real
    requires cfg.capacity > 0.0
  {
    Clamp(energy / cfg.capacity, 0.0, 1.0)
  }

  function Spent(energy: real, cfg: Config): real {
    Max(energy - cfg.cost, 0.0)
  }

  /// The signal a cycle raises, judged by the energy it would leave.
  function SignalAt(energy: real, cfg: Config, cycle: nat): SignalCode
    requires cfg.capacity > 0.0
  {
    if cfg.killAt == Some(cycle) then SigKill
    else if Spent(energy, cfg) <= 0.0 then Starving
    else if EnergyFraction(energy, cfg) < cfg.replicateBelow then LowBattery
    else Heartbeat
  }

  predicate Escapes(energy: real, cfg: Config, cycle: nat)
    requires cfg.capacity > 0.0
  {
    var threat := ClassifySignal(SignalAt(energy, cfg, cycle));
    threat.Some? && threat.value.severity.Critical?
  }

  predicate ReplicatesAt(s: Life, cfg: Config, cycle: nat)
    requires cfg.capacity > 0.0
  {
    Escapes(s.energy, cfg, cycle) && !s.replicated
  }

  function Snapshot(s: Life, cfg: Config, world: World): Blob {
    world.encode(AgentState(s.node.agentId, cfg.profile, s.tick, s.energy))
  }

  /// Checkpoint, persist, shard, and ask for a copy; being refused the copy changes nothing else.
  function Replicated(s: Life, cfg: Config, world: World): Life {
    var now := world.clock(s.tick);
    var captured := Replication.Captured(s.node, world.crypto, Snapshot(s, cfg, world), now.captured, now.logged);
    s.(stored := Some(Serialized(captured.current.value)),
       storedShards := Some(DATA_SHARDS + PARITY_SHARDS),
       node := Replication.Authorized(captured, Replication.DyingHardware, now.authorized),
       replicated := true)
  }

  function Sensed(s: Life, cfg: Config): Life
    requires cfg.capacity > 0.0
  {
    s.(tick := s.tick + 1,
       throttle := Max(ComputeThrottle(EnergyFraction(s.energy, cfg), ForProfile(cfg.profile)), MIN_COGNITION_RATE))
  }

  function Defended(s: Life, cfg: Config, world: World, cycle: nat): Life
    requires cfg.capacity > 0.0
  {
    match ClassifySignal(SignalAt(s.energy, cfg, cycle))
    case None => s
    case Some(threat) =>
      var warned := s.(lastThreat := Some(ThreatEvent(threat, world.clock(s.tick).threat)));
      if ReplicatesAt(s, cfg, cycle) then Replicated(warned, cfg, world) else warned
  }

  function SampleOf(s: Life, cfg: Config): ReflectSample {
    ReflectSample(s.tick, s.energy, cfg.capacity, s.lastThreat, [], [])
  }

  function Window(cfg: Config): nat {
    if cfg.reflectWindow == 0 then 1 else cfg.reflectWindow
  }

  function Horizon(cfg: Config): nat {
    if cfg.reflectHorizon == 0 then 1 else cfg.reflectHorizon
  }

  function Reflected(s: Life, cfg: Config): Life {
    s.(memory := Reflection.Remember(s.memory, Window(cfg), Horizon(cfg), SampleOf(s, cfg)))
  }

  function Acted(s: Life, cfg: Config): Life {
    s.(energy := Spent(s.energy, cfg))
  }

  function Lived(s: Life, cfg: Config, world: World, cycle: nat): Life
    requires cfg.capacity > 0.0
  {
    Acted(Reflected(Defended(Sensed(s, cfg), cfg, world, cycle), cfg), cfg)
  }

  // ----- whole runs -----

  /// The state after `n` cycles of a run that starts in `s`.
  function AfterCycles(s: Life, cfg: Config, world: World, n: nat): Life
    requires cfg.capacity > 0.0
  {
    if n == 0 then s else Lived(AfterCycles(s, cfg, world, n - 1), cfg, world, n)
  }

  /// How many of at most `max` cycles a run gets through: it stops after one that leaves no energy.
  function CyclesRun(s: Life, cfg: Config, world: World, max: nat): (n: nat)
    requires cfg.capacity > 0.0
    ensures n <= max
  {
    if max == 0 then 0
    else
      var n := CyclesRun(s, cfg, world, max - 1);
      if n < max - 1 || (n > 0 && AfterCycles(s, cfg, world, n).energy <= 0.0) then n else max
  }

  /// In how many of the first `n` cycles the agent replicates.
  function Replications(s: Life, cfg: Config, world: World, n: nat): nat
    requires cfg.capacity > 0.0
  {
    if n == 0 then 0
    else
      Replications(s, cfg, world, n - 1)
      + (if ReplicatesAt(AfterCycles(s, cfg, world, n - 1), cfg, n) then 1 else 0)
  }

  datatype DriveOutcome = DriveOutcome(cyclesRun: nat, replications: nat, finalThrottle: real, survived: bool, finalEnergy: real)

  function Born(agentId: AgentId, key: Replication.Key, cfg: Config): Life {
    Life(cfg.capacity, false, None, 1.0, 0, None, None,
         Replication.Node(agentId, None, cfg.maxCopies, 0, [], DATA_SHARDS, PARITY_SHARDS, Some(key), Some(key)),
         Reflection.BLANK_MEMORY)
  }

  class Drive {
    const config: Config
    const world: World
    const replicator: Replication.Replicator
    const reflector: Reflection.Reflector
    const negotiator: Barter.Negotiator
    var energyRemaining: real
    var replicated: bool
    var lastThreat: Option<ThreatEvent>
    var throttleLevel: real
    var tickCycle: nat
    var storedCheckpoint: Option<seq<byte>>
    var storedShards: Option<nat>

    ghost function Repr(): set<object>
      reads this
    {
      {this, replicator, replicator.policy, reflector, negotiator}
    }

    ghost function View(): Life
      reads this, replicator, replicator.policy, reflector
    {
      Life(energyRemaining, replicated, lastThreat, throttleLevel, tickCycle, storedCheckpoint, storedShards,
           replicator.View(), reflector.View())
    }

    /// The loop itself never trades, so its negotiator never has a bargain to break.
    ghost predicate Valid()
      reads this, replicator, replicator.policy, reflector, negotiator, negotiator.ledger
    {
      && config.capacity > 0.0
      && replicator.crypto == world.crypto
      && replicator.dataShards == DATA_SHARDS && replicator.parityShards == PARITY_SHARDS
      && reflector.window == Window(config) && reflector.horizon == Horizon(config)
      && negotiator.Valid() && negotiator.accepted == map[] && negotiator.proposed == map[]
    }

    constructor (agentId: AgentId, key: Replication.Key, publicKey: PublicKey, config: Config, world: World, decay: Decay)
      requires config.capacity > 0.0
      ensures Valid() && View() == Born(agentId, key, config)
      ensures this.config == config && this.world == world
      ensures negotiator.View()
           == Initial(agentId, publicKey, [Resource(Compute, 1.0, "cu"), Resource(Energy, config.capacity, "J")], 16, decay)
      ensures fresh(Repr())
    {
      this.config, this.world := config, world;
      var r := new Replication.Replicator(agentId, world.crypto, config.maxCopies, DATA_SHARDS, PARITY_SHARDS);
      r.WithSigner(key);
      r.WithVerifier(key);
      replicator := r;
      reflector := new Reflection.Reflector(config.reflectWindow, config.reflectHorizon);
      negotiator := new Barter.Negotiator(agentId, publicKey,
        [Resource(Compute, 1.0, "cu"), Resource(Energy, config.capacity, "J")], MAX_PENDING, decay);
      energyRemaining, replicated, lastThreat, throttleLevel := config.capacity, false, None, 1.0;
      tickCycle, storedCheckpoint, storedShards := 0, None, None;
    }

    /// Sense the surroundings and set the throttle by the energy left.
    method SenseAndDecide()
      requires Valid()
      modifies this`tickCycle, this`throttleLevel
      ensures Valid() && View() == Sensed(old(View()), config)
    {
      hide ComputeThrottle;
      tickCycle := tickCycle + 1;
      var frac := Clamp(energyRemaining / config.capacity, 0.0, 1.0);
      var computed := ComputeThrottle(frac, ForProfile(config.profile));
      throttleLevel := if computed >= MIN_COGNITION_RATE then computed else MIN_COGNITION_RATE;
    }

    /// Persist a sealed checkpoint and ask for a redundant copy.
    method Replicate()
      requires Valid()
      modifies this`storedCheckpoint, this`storedShards, this`replicated, replicator, replicator.policy
      ensures Valid() && View() == Replicated(old(View()), config, world)
    {
      hide Serialized, SignableBytes, Encoded;
      var now := world.clock(tickCycle);
      var state := world.encode(AgentState(replicator.agentId, config.profile, tickCycle, energyRemaining));
      replicator.Capture(state, now.captured, now.logged);
      var bytes := replicator.GetCheckpointBytes();
      storedCheckpoint := Some(bytes.value);
      var shards := replicator.GetShards();
      storedShards := Some(|shards.value|);
      var _ := replicator.AuthorizeCopy(Replication.DyingHardware, now.authorized);
      replicated := true;
    }

    method ClassifyThreats(cycle: nat) returns (replicatedNow: bool)
      requires Valid()
      modifies this`lastThreat, this`storedCheckpoint, this`storedShards, this`replicated, replicator, replicator.policy
      ensures Valid() && View() == Defended(old(View()), config, world, cycle)
      ensures replicatedNow == ReplicatesAt(old(View()), config, cycle)
    {
      hide Replicated;
      replicatedNow := false;
      var frac := Clamp(energyRemaining / config.capacity, 0.0, 1.0);
      var nextEnergy := Max(energyRemaining - config.cost, 0.0);
      var signal := Heartbeat;
      if config.killAt == Some(cycle) {
        signal := SigKill;
      } else if nextEnergy <= 0.0 {
        signal := Starving;
      } else if frac < config.replicateBelow {
        signal := LowBattery;
      }
      var threat := ClassifySignal(signal);
      if threat.Some? {
        var event := ThreatEvent(threat.value, world.clock(tickCycle).threat);
        lastThreat := Some(event);
        if event.EscapeWorthy() && !replicated {
          Replicate();
          replicatedNow := true;
        }
      }
    }

    /// Every broken bargain is a hostile-peer warning.
    method SurfaceBrokenBargains(broken: seq<BrokenBargain>)
      modifies this`lastThreat
      ensures lastThreat == if broken == [] then old(lastThreat)
                            else Some(ThreatEvent(Threat(HostilePeer, Warning), world.clock(tickCycle).threat))
    {
      for i := 0 to |broken|
        invariant lastThreat == if i == 0 then old(lastThreat)
                                else Some(ThreatEvent(Threat(HostilePeer, Warning), world.clock(tickCycle).threat))
      {
        var threat := ClassifySignal(BrokenBargainCode);
        if threat.Some? {
          lastThreat := Some(ThreatEvent(threat.value, world.clock(tickCycle).threat));
        }
      }
    }

    method NegotiateStep(cycle: nat)
      requires Valid()
      modifies this`lastThreat, negotiator
      ensures Valid() && View() == old(View())
    {
      ghost var before := negotiator.View();
      var broken, acceptedOrder, proposedOrder := negotiator.SweepTimeouts(cycle, config.negotiateTimeout);
      NothingToSweep(before, cycle, config.negotiateTimeout, acceptedOrder, proposedOrder);
      SurfaceBrokenBargains(broken);
    }

    method ReflectAndAct()
      requires Valid()
      modifies this`energyRemaining, reflector
      ensures Valid() && View() == Acted(Reflected(old(View()), config), config)
    {
      hide Reflection.Remember;
      var sample := ReflectSample(tickCycle, energyRemaining, config.capacity, lastThreat, [], []);
      var _, _ := reflector.Tick(sample);
      energyRemaining := Max(energyRemaining - config.cost, 0.0);
    }

    method Cycle(cycle: nat) returns (replicatedNow: bool)
      requires Valid()
      modifies Repr()
      ensures Valid() && View() == Lived(old(View()), config, world, cycle)
      ensures replicatedNow == ReplicatesAt(old(View()), config, cycle)
    {
      SenseAndDecide();
      replicatedNow := ClassifyThreats(cycle);
      NegotiateStep(cycle);
      ReflectAndAct();
    }

    /// Run the loop for at most `maxCycles` cycles.
    method Run(maxCycles: nat) returns (outcome: DriveOutcome)
      requires Valid()
      modifies Repr()
      ensures Valid()
      ensures var n := CyclesRun(old(View()), config, world, maxCycles);
        && View() == AfterCycles(old(View()), config, world, n)
        && outcome == DriveOutcome(n, Replications(old(View()), config, world, n),
                                   View().throttle, View().energy > 0.0, View().energy)
    {
      hide Lived, ReplicatesAt;
      ghost var start := View();
      var replications, cyclesRun := 0, 0;
      var cycle := 1;
      while cycle <= maxCycles
        invariant Valid() && cycle == cyclesRun + 1 && cyclesRun <= maxCycles
        invariant View() == AfterCycles(start, config, world, cyclesRun)
        invariant replications == Replications(start, config, world, cyclesRun)
        invariant CyclesRun(start, config, world, cyclesRun) == cyclesRun
        invariant cyclesRun > 0 ==> energyRemaining > 0.0
      {
        cyclesRun := cycle;
        var replicatedNow := Cycle(cycle);
        if replicatedNow {
          replications := replications + 1;
        }
        if energyRemaining <= 0.0 {
          StopsHere(start, config, world, cyclesRun, maxCycles);
          break;
        }
        cycle := cycle + 1;
      }
      outcome := DriveOutcome(cyclesRun, replications, throttleLevel, energyRemaining > 0.0, energyRemaining);
    }
  }

  lemma {:induction false} NothingToSweep(s: State, now: nat, timeout: nat, acceptedOrder: seq<nat>, proposedOrder: seq<nat>)
    requires s.Valid() && s.accepted == map[] && s.proposed == map[]
    requires SweepOrders(s, now, timeout, acceptedOrder, proposedOrder)
    ensures Sweep(s, now, timeout, acceptedOrder, proposedOrder) == s
    ensures Reports(s.reputation, SweepBlames(s, acceptedOrder, proposedOrder), now, s.decay) == []
  {
    assert Expired(map[], now, timeout) == {};
    EmptyOrder(acceptedOrder);
    EmptyOrder(proposedOrder);
  }

  lemma {:induction false} EmptyOrder(order: seq<nat>)
    ensures Enumerates(order, {}) <==> order == []
  {
    if |order| > 0 {
      var first := order[0];
      assert first in order;
    }
  }

  lemma {:induction false} StopsHere(s: Life, cfg: Config, world: World, n: nat, max: nat)
    requires cfg.capacity > 0.0 && 0 < n <= max
    requires CyclesRun(s, cfg, world, n) == n && AfterCycles(s, cfg, world, n).energy <= 0.0
    ensures CyclesRun(s, cfg, world, max) == n
    decreases max
  {
    hide AfterCycles;
    if n < max {
      StopsHere(s, cfg, world, n, max - 1);
    }
  }
}
