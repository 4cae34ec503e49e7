/// What a whole run of a fresh agent amounts to.
module DriveRuns {
  import opened Core
  import opened RealMath
  import opened Throttle
  import opened Predict
  import opened CheckpointFormat
  import opened Shards
  import opened Drive
  import Reflection = Reflector
  import Replication = Replicator

  /// The least whole number not below `x`.
  function Ceiling(x: real): int {
    -((-x).Floor)
  }

  /// The cycle that spends the last of the energy.
  function DepletionCycle(cfg: Config): (d: nat)
    requires cfg.capacity > 0.0 && cfg.cost > 0.0
  {
    PositiveQuotient(cfg.capacity, cfg.cost, cfg.capacity / cfg.cost);
    Ceiling(cfg.capacity / cfg.cost)
  }

  lemma {:induction false} PositiveQuotient(a: real, b: real, q: real)
    requires a > 0.0 && b > 0.0 && q == a / b
    ensures q > 0.0
  {
    assert q * b == a;
    Scaled(0.0, q, b, 0.0, a);
  }

  /// Energy is left after n cycles exactly if depletion is still to come.
  lemma {:induction false} LeftBeforeDepletion(cfg: Config, n: nat)
    requires cfg.capacity > 0.0 && cfg.cost > 0.0
    ensures n < DepletionCycle(cfg) <==> n as real * cfg.cost < cfg.capacity
    ensures DepletionCycle(cfg) > 0
  {
    var q := cfg.capacity / cfg.cost;
    PositiveQuotient(cfg.capacity, cfg.cost, q);
    assert q * cfg.cost == cfg.capacity;
    Scaled(n as real, q, cfg.cost, n as real * cfg.cost, cfg.capacity);
  }

  /// What is left after n cycles.
  function EnergyLeft(cfg: Config, n: nat): real {
    Max(cfg.capacity - n as real * cfg.cost, 0.0)
  }

  lemma {:induction false} LivedEnergy(s: Life, cfg: Config, world: World, cycle: nat)
    requires cfg.capacity > 0.0
    ensures Lived(s, cfg, world, cycle).energy == Spent(s.energy, cfg)
    ensures Lived(s, cfg, world, cycle).tick == s.tick + 1
    ensures Lived(s, cfg, world, cycle).replicated == (s.replicated || ReplicatesAt(s, cfg, cycle))
  {
    hide Serialized, SignalAt, Spent, EnergyFraction, ComputeThrottle, Reflection.Remember, Replication.Authorized,
      Replication.Captured, SampleOf, ClassifySignal;
    assert ReplicatesAt(Sensed(s, cfg), cfg, cycle) == ReplicatesAt(s, cfg, cycle);
  }

  lemma {:induction false} OneMoreCycle(capacity: real, cost: real, n: nat, spent: real)
    requires cost >= 0.0 && spent == n as real * cost
    ensures (n + 1) as real * cost == spent + cost
    ensures Max(Max(capacity - spent, 0.0) - cost, 0.0) == Max(capacity - (spent + cost), 0.0)
  {
  }

  lemma {:induction false} EnergyAfter(agentId: AgentId, key: Replication.Key, cfg: Config, world: World, n: nat)
    requires cfg.capacity > 0.0 && cfg.cost > 0.0
    ensures var s := AfterCycles(Born(agentId, key, cfg), cfg, world, n);
      s.energy == EnergyLeft(cfg, n) && s.tick == n
  {
    hide Lived;
    if n > 0 {
      EnergyAfter(agentId, key, cfg, world, n - 1);
      LivedEnergy(AfterCycles(Born(agentId, key, cfg), cfg, world, n - 1), cfg, world, n);
      OneMoreCycle(cfg.capacity, cfg.cost, n - 1, (n - 1) as real * cfg.cost);
    }
  }

  lemma {:induction false} EnergyLeftPositive(cfg: Config, n: nat)
    requires cfg.capacity > 0.0 && cfg.cost > 0.0
    ensures EnergyLeft(cfg, n) > 0.0 <==> n < DepletionCycle(cfg)
    ensures EnergyLeft(cfg, n) >= 0.0
  {
    LeftBeforeDepletion(cfg, n);
    hide DepletionCycle;
  }

  /// A fresh agent runs all the cycles it is given, or as many as its energy lasts.
  lemma {:induction false} RunLength(agentId: AgentId, key: Replication.Key, cfg: Config, world: World, max: nat)
    requires cfg.capacity > 0.0 && cfg.cost > 0.0
    ensures CyclesRun(Born(agentId, key, cfg), cfg, world, max)
         == if max < DepletionCycle(cfg) then max else DepletionCycle(cfg)
  {
    hide AfterCycles, DepletionCycle, EnergyLeft;
    LeftBeforeDepletion(cfg, 0);
    if max > 0 {
      RunLength(agentId, key, cfg, world, max - 1);
      var n := CyclesRun(Born(agentId, key, cfg), cfg, world, max - 1);
      EnergyAfter(agentId, key, cfg, world, n);
      EnergyLeftPositive(cfg, n);
    }
  }

  // ----- the one replication -----

  /// The first cycle with a critical threat: the simulated kill, or the depletion.
  function EscapeCycle(cfg: Config): nat
    requires cfg.capacity > 0.0 && cfg.cost > 0.0
  {
    if cfg.killAt.Some? && 0 < cfg.killAt.value < DepletionCycle(cfg) then cfg.killAt.value else DepletionCycle(cfg)
  }

  lemma {:induction false} EscapesExactly(cfg: Config, n: nat)
    requires cfg.capacity > 0.0 && cfg.cost > 0.0 && n > 0
    ensures Escapes(EnergyLeft(cfg, n - 1), cfg, n) <==> cfg.killAt == Some(n) || n >= DepletionCycle(cfg)
  {
    OneMoreCycle(cfg.capacity, cfg.cost, n - 1, (n - 1) as real * cfg.cost);
    assert Spent(EnergyLeft(cfg, n - 1), cfg) == EnergyLeft(cfg, n);
    EnergyLeftPositive(cfg, n);
    hide EnergyLeft, Spent, DepletionCycle, EnergyFraction;
  }

  lemma {:induction false} ReplicatedSince(agentId: AgentId, key: Replication.Key, cfg: Config, world: World, n: nat)
    requires cfg.capacity > 0.0 && cfg.cost > 0.0 && n <= DepletionCycle(cfg)
    ensures var s0 := Born(agentId, key, cfg);
      && AfterCycles(s0, cfg, world, n).replicated == (EscapeCycle(cfg) <= n)
      && Replications(s0, cfg, world, n) == (if EscapeCycle(cfg) <= n then 1 else 0)
  {
    hide Lived, DepletionCycle, EnergyLeft, Escapes;
    LeftBeforeDepletion(cfg, 0);
    if n > 0 {
      var s := AfterCycles(Born(agentId, key, cfg), cfg, world, n - 1);
      ReplicatedSince(agentId, key, cfg, world, n - 1);
      EnergyAfter(agentId, key, cfg, world, n - 1);
      LivedEnergy(s, cfg, world, n);
      EscapesExactly(cfg, n);
    }
  }

  lemma {:induction false} QuietCycle(s: Life, cfg: Config, world: World, cycle: nat)
    requires cfg.capacity > 0.0 && !ReplicatesAt(s, cfg, cycle)
    ensures var t := Lived(s, cfg, world, cycle); t.node == s.node && t.stored == s.stored
  {
    hide Serialized, SignalAt, Spent, EnergyFraction, ComputeThrottle, Reflection.Remember, Replication.Authorized,
      Replication.Captured, SampleOf, ClassifySignal, Escapes;
    assert ReplicatesAt(Sensed(s, cfg), cfg, cycle) == ReplicatesAt(s, cfg, cycle) by {
      assert Sensed(s, cfg).energy == s.energy;
    }
  }

  /// The checkpoint taken in cycle `n` with energy `energy` left.
  function CheckpointAt(agentId: AgentId, key: Replication.Key, cfg: Config, world: World, n: nat, energy: real): Checkpoint {
    Replication.CapturedCheckpoint(Born(agentId, key, cfg).node, world.crypto,
      world.encode(AgentState(agentId, cfg.profile, n, energy)), world.clock(n).captured)
  }

  lemma {:induction false} EscapeStores(s: Life, agentId: AgentId, key: Replication.Key, cfg: Config, world: World, n: nat)
    requires cfg.capacity > 0.0 && ReplicatesAt(s, cfg, n) && s.node == Born(agentId, key, cfg).node && s.tick == n - 1
    ensures var t := Lived(s, cfg, world, n);
      && t.stored == Some(Serialized(CheckpointAt(agentId, key, cfg, world, n, s.energy)))
      && t.node.current == Some(CheckpointAt(agentId, key, cfg, world, n, s.energy))
      && t.node.live == (if cfg.maxCopies > 0 then 1 else 0)
  {
    hide Serialized, SignalAt, Spent, EnergyFraction, ComputeThrottle, Reflection.Remember, SampleOf, SignableBytes;
    assert Sensed(s, cfg).energy == s.energy;
    assert ReplicatesAt(Sensed(s, cfg), cfg, n);
  }

  lemma {:induction false} StoredSince(agentId: AgentId, key: Replication.Key, cfg: Config, world: World, n: nat)
    requires cfg.capacity > 0.0 && cfg.cost > 0.0 && n <= DepletionCycle(cfg)
    ensures var e, s0 := EscapeCycle(cfg), Born(agentId, key, cfg);
      var s := AfterCycles(s0, cfg, world, n);
      && e > 0
      && (n < e ==> s.stored.None? && s.node == s0.node)
      && (n >= e ==>
            && s.stored == Some(Serialized(CheckpointAt(agentId, key, cfg, world, e, EnergyLeft(cfg, e - 1))))
            && s.node.current == Some(CheckpointAt(agentId, key, cfg, world, e, EnergyLeft(cfg, e - 1)))
            && s.node.live == (if cfg.maxCopies > 0 then 1 else 0))
  {
    hide Lived, DepletionCycle, EnergyLeft, Escapes, CheckpointAt, Serialized;
    LeftBeforeDepletion(cfg, 0);
    if n > 0 {
      var s := AfterCycles(Born(agentId, key, cfg), cfg, world, n - 1);
      StoredSince(agentId, key, cfg, world, n - 1);
      ReplicatedSince(agentId, key, cfg, world, n - 1);
      EnergyAfter(agentId, key, cfg, world, n - 1);
      EscapesExactly(cfg, n);
      if n == EscapeCycle(cfg) {
        EscapeStores(s, agentId, key, cfg, world, n);
      } else {
        QuietCycle(s, cfg, world, n);
      }
    }
  }

  lemma {:induction false} EscapeLogs(s: Life, agentId: AgentId, key: Replication.Key, cfg: Config, world: World, n: nat)
    requires cfg.capacity > 0.0 && ReplicatesAt(s, cfg, n) && s.node == Born(agentId, key, cfg).node && s.tick == n - 1
    ensures var t, now := Lived(s, cfg, world, n), world.clock(n);
      var state := world.encode(AgentState(agentId, cfg.profile, n, s.energy));
      && t.storedShards == Some(6)
      && t.node.audit ==
         [Replication.AuditEntry(agentId, Replication.CheckpointReason, now.logged, 0, Replication.StateBytes(|state|))]
         + (if cfg.maxCopies > 0
            then [Replication.AuditEntry(agentId, Replication.DyingHardware, now.authorized, 1, Replication.NoDetail)]
            else [])
  {
    hide Serialized, SignalAt, Spent, EnergyFraction, ComputeThrottle, Reflection.Remember, SampleOf, SignableBytes;
    assert Sensed(s, cfg).energy == s.energy;
    assert ReplicatesAt(Sensed(s, cfg), cfg, n);
  }

  lemma {:induction false} QuietLogs(s: Life, cfg: Config, world: World, cycle: nat)
    requires cfg.capacity > 0.0 && !ReplicatesAt(s, cfg, cycle)
    ensures var t := Lived(s, cfg, world, cycle); t.node == s.node && t.storedShards == s.storedShards
  {
    hide Serialized, SignalAt, Spent, EnergyFraction, ComputeThrottle, Reflection.Remember, Replication.Authorized,
      Replication.Captured, SampleOf, ClassifySignal, Escapes;
    assert ReplicatesAt(Sensed(s, cfg), cfg, cycle) == ReplicatesAt(s, cfg, cycle) by {
      assert Sensed(s, cfg).energy == s.energy;
    }
  }

  /// The log of a fresh agent's run is the one checkpoint, of the state it then had, and the one
  /// copy for dying hardware, if copies are allowed at all; six shards are made of the checkpoint.
  lemma {:induction false} EscapeIsLogged(agentId: AgentId, key: Replication.Key, cfg: Config, world: World, n: nat)
    requires cfg.capacity > 0.0 && cfg.cost > 0.0 && n <= DepletionCycle(cfg)
    ensures var e, s := EscapeCycle(cfg), AfterCycles(Born(agentId, key, cfg), cfg, world, n);
      && e > 0
      && (n < e ==> s.node.audit == [] && s.storedShards == None)
      && (n >= e ==>
            var state := world.encode(AgentState(agentId, cfg.profile, e, EnergyLeft(cfg, e - 1)));
            && s.storedShards == Some(6)
            && s.node.audit ==
               [Replication.AuditEntry(agentId, Replication.CheckpointReason, world.clock(e).logged, 0, Replication.StateBytes(|state|))]
               + (if cfg.maxCopies > 0
                  then [Replication.AuditEntry(agentId, Replication.DyingHardware, world.clock(e).authorized, 1, Replication.NoDetail)]
                  else []))
  {
    hide Lived, DepletionCycle, EnergyLeft, Escapes;
    LeftBeforeDepletion(cfg, 0);
    if n > 0 {
      var s := AfterCycles(Born(agentId, key, cfg), cfg, world, n - 1);
      EscapeIsLogged(agentId, key, cfg, world, n - 1);
      StoredSince(agentId, key, cfg, world, n - 1);
      ReplicatedSince(agentId, key, cfg, world, n - 1);
      EnergyAfter(agentId, key, cfg, world, n - 1);
      EscapesExactly(cfg, n);
      hide CheckpointAt, Serialized;
      if n == EscapeCycle(cfg) {
        EscapeLogs(s, agentId, key, cfg, world, n);
      } else {
        QuietLogs(s, cfg, world, n);
      }
    }
  }

  /// Death is always preceded by a checkpoint.
  ///
  /// A run of a fresh agent lasts for the cycles given or until its energy is gone. It
  /// replicates exactly once if the run reaches the kill cycle or the depletion, and not at all
  /// otherwise. The checkpoint is of the first such cycle, taken while there was energy left, and
  /// is stored even if the copy was refused.
  lemma {:induction false} DeathIsPrecededByCheckpoint(
      agentId: AgentId, key: Replication.Key, cfg: Config, world: World, max: nat)
    requires cfg.capacity > 0.0 && cfg.cost > 0.0
    ensures var s0, d, e := Born(agentId, key, cfg), DepletionCycle(cfg), EscapeCycle(cfg);
      var n := CyclesRun(s0, cfg, world, max);
      var s := AfterCycles(s0, cfg, world, n);
      && n == (if max < d then max else d)
      && 0 < e <= d
      && s.energy == EnergyLeft(cfg, n)
      && (s.energy > 0.0 <==> max < d)
      && Replications(s0, cfg, world, n) == (if e <= max then 1 else 0)
      && s.stored == (if e <= max then Some(Serialized(CheckpointAt(agentId, key, cfg, world, e, EnergyLeft(cfg, e - 1)))) else None)
      && EnergyLeft(cfg, e - 1) > 0.0
      && s.node.live == (if e <= max && cfg.maxCopies > 0 then 1 else 0)
  {
    hide AfterCycles, CyclesRun, Replications, DepletionCycle, EnergyLeft, CheckpointAt, Serialized;
    LeftBeforeDepletion(cfg, 0);
    RunLength(agentId, key, cfg, world, max);
    var n := CyclesRun(Born(agentId, key, cfg), cfg, world, max);
    EnergyAfter(agentId, key, cfg, world, n);
    EnergyLeftPositive(cfg, n);
    EnergyLeftPositive(cfg, EscapeCycle(cfg) - 1);
    ReplicatedSince(agentId, key, cfg, world, n);
    StoredSince(agentId, key, cfg, world, n);
  }

  /// What the agent left behind passes its own verification and holds the state it died with,
  /// as long as the blob is within the size limit.
  lemma {:induction false} LegacyVerifies(
      agentId: AgentId, key: Replication.Key, cfg: Config, world: World, max: nat, verifying: Replication.Node)
    requires cfg.capacity > 0.0 && cfg.cost > 0.0 && EscapeCycle(cfg) <= max
    requires forall data :: world.crypto.verify(key, data, world.crypto.sign(key, data))
    requires verifying.agentId == agentId && verifying.verifier == Some(key)
    ensures var s0, e := Born(agentId, key, cfg), EscapeCycle(cfg);
      var stored := AfterCycles(s0, cfg, world, CyclesRun(s0, cfg, world, max)).stored;
      && stored.Some?
      && e > 0
      && Replication.RestoredPayload(verifying, world.crypto, stored.value)
         == (if |stored.value| <= MAX_CHECKPOINT_BYTES
             then Ok(world.encode(AgentState(agentId, cfg.profile, e, EnergyLeft(cfg, e - 1))))
             else Err(InvalidError))
  {
    DeathIsPrecededByCheckpoint(agentId, key, cfg, world, max);
    hide AfterCycles, CyclesRun, DepletionCycle, EnergyLeft, Serialized, FromBytes, SignableBytes, EscapeCycle;
    var e := EscapeCycle(cfg);
    var c := CheckpointAt(agentId, key, cfg, world, e, EnergyLeft(cfg, e - 1));
    CheckpointRoundTrip(c);
    SignableIsInjective(c, c.(seal := None));
  }

  // ----- along the way -----

  lemma {:induction false} FractionFalls(energy: real, less: real, cfg: Config)
    requires cfg.capacity > 0.0 && less <= energy
    ensures EnergyFraction(less, cfg) <= EnergyFraction(energy, cfg)
  {
    QuotientRises(less, energy, cfg.capacity, less / cfg.capacity, energy / cfg.capacity);
  }

  lemma {:induction false} LivedThrottle(s: Life, cfg: Config, world: World, cycle: nat)
    requires cfg.capacity > 0.0
    ensures Lived(s, cfg, world, cycle).throttle == ComputeThrottle(EnergyFraction(s.energy, cfg), ForProfile(cfg.profile))
    ensures s.lastThreat.Some? ==> Lived(s, cfg, world, cycle).lastThreat.Some?
  {
    ThrottleIsMonotone(EnergyFraction(s.energy, cfg), EnergyFraction(s.energy, cfg), ForProfile(cfg.profile));
    hide Serialized, SignalAt, Spent, EnergyFraction, ComputeThrottle, Reflection.Remember, Replication.Authorized,
      Replication.Captured, SampleOf, ClassifySignal, Escapes;
  }

  /// The throttle never rises in the course of a run, and stays a rate between zero and one.
  lemma {:induction false} ThrottleNeverRises(agentId: AgentId, key: Replication.Key, cfg: Config, world: World, n: nat)
    requires cfg.capacity > 0.0 && cfg.cost > 0.0
    ensures var s0 := Born(agentId, key, cfg);
      0.0 <= AfterCycles(s0, cfg, world, n + 1).throttle <= AfterCycles(s0, cfg, world, n).throttle <= 1.0
  {
    hide Lived, EnergyFraction, ComputeThrottle, Spent;
    var s0 := Born(agentId, key, cfg);
    var s := AfterCycles(s0, cfg, world, n);
    var preset := ForProfile(cfg.profile);
    LivedThrottle(s, cfg, world, n + 1);
    ThrottleIsMonotone(EnergyFraction(s.energy, cfg), EnergyFraction(s.energy, cfg), preset);
    if n > 0 {
      var before := AfterCycles(s0, cfg, world, n - 1);
      LivedThrottle(before, cfg, world, n);
      LivedEnergy(before, cfg, world, n);
      EnergyAfter(agentId, key, cfg, world, n - 1);
      SpendingLowers(before.energy, cfg);
      FractionFalls(before.energy, s.energy, cfg);
      ThrottleIsMonotone(EnergyFraction(s.energy, cfg), EnergyFraction(before.energy, cfg), preset);
    }
  }

  /// The throttle a cycle sets is the profile's for the energy the cycle was entered with.
  lemma {:induction false} RunThrottle(agentId: AgentId, key: Replication.Key, cfg: Config, world: World, n: nat)
    requires cfg.capacity > 0.0 && cfg.cost > 0.0
    ensures var s0 := Born(agentId, key, cfg);
      && AfterCycles(s0, cfg, world, 0).throttle == 1.0
      && AfterCycles(s0, cfg, world, n + 1).throttle
         == ComputeThrottle(EnergyLeft(cfg, n) / cfg.capacity, ForProfile(cfg.profile))
      && 0.0 <= EnergyLeft(cfg, n) / cfg.capacity <= 1.0
  {
    hide Lived, ComputeThrottle, EnergyLeft, EnergyFraction;
    FractionLeft(cfg, n);
    EnergyAfter(agentId, key, cfg, world, n);
    LivedThrottle(AfterCycles(Born(agentId, key, cfg), cfg, world, n), cfg, world, n + 1);
  }

  lemma {:induction false} FractionLeft(cfg: Config, n: nat)
    requires cfg.capacity > 0.0 && cfg.cost > 0.0
    ensures EnergyFraction(EnergyLeft(cfg, n), cfg) == EnergyLeft(cfg, n) / cfg.capacity
    ensures 0.0 <= EnergyLeft(cfg, n) / cfg.capacity <= 1.0
  {
    LeftIsPart(cfg, n);
    hide EnergyLeft;
    var e := EnergyLeft(cfg, n);
    FractionBelow(e, cfg.capacity, e / cfg.capacity, 0.0);
  }

  lemma {:induction false} LeftIsPart(cfg: Config, n: nat)
    requires cfg.capacity > 0.0 && cfg.cost > 0.0
    ensures 0.0 <= EnergyLeft(cfg, n) <= cfg.capacity
  {
    MulNonNeg(n as real, cfg.cost);
  }

  lemma {:induction false} SpendingLowers(energy: real, cfg: Config)
    requires energy >= 0.0 && cfg.cost >= 0.0
    ensures Spent(energy, cfg) <= energy
  {
  }

  /// The last threat is never cleared: once anything was classified, every later sample carries
  /// a threat, whether or not its own cycle raised one.
  lemma {:induction false} LastThreatIsSticky(s: Life, cfg: Config, world: World, m: nat, n: nat)
    requires cfg.capacity > 0.0 && m <= n
    requires AfterCycles(s, cfg, world, m).lastThreat.Some?
    ensures AfterCycles(s, cfg, world, n).lastThreat.Some?
    decreases n
  {
    hide Lived;
    if m < n {
      LastThreatIsSticky(s, cfg, world, m, n - 1);
      LivedThrottle(AfterCycles(s, cfg, world, n - 1), cfg, world, n);
    }
  }

  /// The threat cycle `n` of a fresh agent's run raises by itself, if any.
  function OwnThreat(cfg: Config, n: nat): Option<Threat>
    requires cfg.capacity > 0.0 && n > 0
  {
    ClassifySignal(SignalAt(EnergyLeft(cfg, n - 1), cfg, n))
  }

  lemma {:induction false} LivedThreat(s: Life, cfg: Config, world: World, cycle: nat)
    requires cfg.capacity > 0.0
    ensures Lived(s, cfg, world, cycle).lastThreat
         == match ClassifySignal(SignalAt(s.energy, cfg, cycle))
            case Some(threat) => Some(ThreatEvent(threat, world.clock(s.tick + 1).threat))
            case None => s.lastThreat
  {
    hide Serialized, SignalAt, Spent, EnergyFraction, ComputeThrottle, Reflection.Remember, Replication.Authorized,
      Replication.Captured, SampleOf, ClassifySignal, Escapes;
    assert Sensed(s, cfg).energy == s.energy;
  }

  /// What cycle `n` of a fresh agent raises, in numbers of the configuration: termination if it is
  /// the kill cycle; otherwise critical starvation if it spends the last of the energy, a
  /// starvation warning if it was entered with less than the configured share of the capacity,
  /// and nothing if with more.
  lemma {:induction false} OwnThreatTable(cfg: Config, n: nat)
    requires cfg.capacity > 0.0 && cfg.cost > 0.0 && n > 0
    ensures var own, entered, left := OwnThreat(cfg, n), EnergyLeft(cfg, n - 1), EnergyLeft(cfg, n);
      && (own == Some(Threat(Termination, Critical)) <==> cfg.killAt == Some(n))
      && (own == Some(Threat(Starvation, Critical)) <==> cfg.killAt != Some(n) && left == 0.0)
      && (own == Some(Threat(Starvation, Warning)) <==>
            cfg.killAt != Some(n) && left > 0.0 && entered < cfg.replicateBelow * cfg.capacity)
      && (own == None <==> cfg.killAt != Some(n) && left > 0.0 && entered >= cfg.replicateBelow * cfg.capacity)
  {
    hide EnergyLeft, Spent, EnergyFraction;
    SpentIsLeft(cfg, n);
    LowIsBelow(cfg, n - 1);
  }

  lemma {:induction false} SpentIsLeft(cfg: Config, n: nat)
    requires cfg.cost > 0.0 && n > 0
    ensures Spent(EnergyLeft(cfg, n - 1), cfg) == EnergyLeft(cfg, n)
    ensures 0.0 <= EnergyLeft(cfg, n) <= EnergyLeft(cfg, n - 1)
  {
    OneMoreCycle(cfg.capacity, cfg.cost, n - 1, (n - 1) as real * cfg.cost);
  }

  lemma {:induction false} LowIsBelow(cfg: Config, n: nat)
    requires cfg.capacity > 0.0 && cfg.cost > 0.0
    ensures EnergyFraction(EnergyLeft(cfg, n), cfg) < cfg.replicateBelow <==> EnergyLeft(cfg, n) < cfg.replicateBelow * cfg.capacity
  {
    hide EnergyFraction;
    FractionLeft(cfg, n);
    LeftIsPart(cfg, n);
    hide EnergyLeft;
    FractionBelow(EnergyLeft(cfg, n), cfg.capacity, EnergyLeft(cfg, n) / cfg.capacity, cfg.replicateBelow);
  }

  lemma {:induction false} FractionBelow(e: real, capacity: real, q: real, below: real)
    requires 0.0 <= e <= capacity && capacity > 0.0 && q == e / capacity
    ensures 0.0 <= q <= 1.0
    ensures q < below <==> e < below * capacity
  {
    assert q * capacity == e;
    Scaled(q, below, capacity, e, below * capacity);
    Scaled(q, 0.0, capacity, e, 0.0);
    Scaled(1.0, q, capacity, capacity, e);
  }

  /// Starvation and low battery, once raised, are raised in every later cycle; only a kill passes.
  lemma {:induction false} SignalsPersist(cfg: Config, n: nat)
    requires cfg.capacity > 0.0 && cfg.cost > 0.0 && n > 0
    requires OwnThreat(cfg, n).Some? && OwnThreat(cfg, n + 1).None?
    ensures cfg.killAt == Some(n) && OwnThreat(cfg, n) == Some(Threat(Termination, Critical))
  {
    hide OwnThreat, EnergyLeft, Spent;
    OwnThreatTable(cfg, n);
    OwnThreatTable(cfg, n + 1);
    SpentIsLeft(cfg, n);
    SpentIsLeft(cfg, n + 1);
  }

  lemma {:induction false} KillIsOwn(cfg: Config, n: nat)
    requires cfg.capacity > 0.0 && n > 0 && cfg.killAt == Some(n)
    ensures OwnThreat(cfg, n) == Some(Threat(Termination, Critical))
  {
    hide EnergyLeft;
  }

  lemma {:induction false} NextThreat(agentId: AgentId, key: Replication.Key, cfg: Config, world: World, n: nat)
    requires cfg.capacity > 0.0 && cfg.cost > 0.0 && n > 0
    ensures var s0, own := Born(agentId, key, cfg), OwnThreat(cfg, n);
      AfterCycles(s0, cfg, world, n).lastThreat
      == if own.Some? then Some(ThreatEvent(own.value, world.clock(n).threat))
         else AfterCycles(s0, cfg, world, n - 1).lastThreat
  {
    hide Lived, EnergyLeft, SignalAt, ClassifySignal;
    EnergyAfter(agentId, key, cfg, world, n - 1);
    LivedThreat(AfterCycles(Born(agentId, key, cfg), cfg, world, n - 1), cfg, world, n);
  }

  lemma {:induction false} StartsQuiet(agentId: AgentId, key: Replication.Key, cfg: Config, world: World)
    requires cfg.capacity > 0.0
    ensures AfterCycles(Born(agentId, key, cfg), cfg, world, 0).lastThreat.None?
  {
    hide Lived;
  }

  /// What cycle `n` carries is its own threat, or failing that the kill of an earlier cycle.
  lemma {:induction false} OwnOrKill(agentId: AgentId, key: Replication.Key, cfg: Config, world: World, n: nat)
    requires cfg.capacity > 0.0 && cfg.cost > 0.0 && n > 0
    ensures var carried, own := AfterCycles(Born(agentId, key, cfg), cfg, world, n).lastThreat, OwnThreat(cfg, n);
      carried ==
        if own.Some? then Some(ThreatEvent(own.value, world.clock(n).threat))
        else if cfg.killAt.Some? && 0 < cfg.killAt.value < n then
          Some(ThreatEvent(Threat(Termination, Critical), world.clock(cfg.killAt.value).threat))
        else None
  {
    hide OwnThreat, AfterCycles, Born;
    NextThreat(agentId, key, cfg, world, n);
    if n == 1 {
      StartsQuiet(agentId, key, cfg, world);
    } else {
      OwnOrKill(agentId, key, cfg, world, n - 1);
      if OwnThreat(cfg, n - 1).Some? && OwnThreat(cfg, n).None? {
        SignalsPersist(cfg, n - 1);
      }
      if cfg.killAt == Some(n - 1) {
        KillIsOwn(cfg, n - 1);
      }
    }
  }

  /// What the state carries after cycle `n`, in numbers of the configuration. The kill is the only
  /// threat that outlives its cycle without being raised again.
  lemma {:induction false} CarriedThreat(agentId: AgentId, key: Replication.Key, cfg: Config, world: World, n: nat)
    requires cfg.capacity > 0.0 && cfg.cost > 0.0 && n > 0
    ensures AfterCycles(Born(agentId, key, cfg), cfg, world, n).lastThreat ==
      if cfg.killAt == Some(n) then Some(ThreatEvent(Threat(Termination, Critical), world.clock(n).threat))
      else if cfg.capacity <= n as real * cfg.cost then Some(ThreatEvent(Threat(Starvation, Critical), world.clock(n).threat))
      else if cfg.capacity - (n - 1) as real * cfg.cost < cfg.replicateBelow * cfg.capacity then
        Some(ThreatEvent(Threat(Starvation, Warning), world.clock(n).threat))
      else if cfg.killAt.Some? && 0 < cfg.killAt.value < n then
        Some(ThreatEvent(Threat(Termination, Critical), world.clock(cfg.killAt.value).threat))
      else None
  {
    hide AfterCycles, Born, OwnThreat, EnergyLeft;
    OwnOrKill(agentId, key, cfg, world, n);
    OwnThreatTable(cfg, n);
    LeftInNumbers(cfg, n);
  }

  lemma {:induction false} LeftInNumbers(cfg: Config, n: nat)
    requires cfg.capacity > 0.0 && cfg.cost > 0.0 && n > 0
    ensures EnergyLeft(cfg, n) >= 0.0
    ensures EnergyLeft(cfg, n) == 0.0 <==> cfg.capacity <= n as real * cfg.cost
    ensures EnergyLeft(cfg, n) > 0.0 ==> EnergyLeft(cfg, n - 1) == cfg.capacity - (n - 1) as real * cfg.cost
  {
    OneMoreCycle(cfg.capacity, cfg.cost, n - 1, (n - 1) as real * cfg.cost);
  }

  /// The threat a cycle's sample carries is that cycle's own unless the cycle raised none and the
  /// simulated kill lies before it.
  lemma {:induction false} CarriedIsOwnIff(agentId: AgentId, key: Replication.Key, cfg: Config, world: World, n: nat)
    requires cfg.capacity > 0.0 && cfg.cost > 0.0 && n > 0
    ensures var own := OwnThreat(cfg, n);
      Samples(Born(agentId, key, cfg), cfg, world, n)[n - 1].threat
        == (if own.Some? then Some(ThreatEvent(own.value, world.clock(n).threat)) else None)
      <==> own.Some? || !(cfg.killAt.Some? && 0 < cfg.killAt.value < n)
  {
    hide OwnThreat, AfterCycles;
    OwnOrKill(agentId, key, cfg, world, n);
    CarriedSample(agentId, key, cfg, world, n);
  }

  lemma {:induction false} CarriedSample(agentId: AgentId, key: Replication.Key, cfg: Config, world: World, n: nat)
    requires cfg.capacity > 0.0 && n > 0
    ensures var s0 := Born(agentId, key, cfg);
      Samples(s0, cfg, world, n)[n - 1].threat == AfterCycles(s0, cfg, world, n).lastThreat
  {
    hide Lived, SampleOf, Defended, Sensed, Reflection.Remember;
    LivedMemory(AfterCycles(Born(agentId, key, cfg), cfg, world, n - 1), cfg, world, n);
  }

  const KILLED_ONCE: Config := Config(Apex, 1, 10.0, 1.0, 0.0, Some(1), 5, 5, 3)

  lemma {:induction false} SecondCycleIsQuiet()
    ensures OwnThreat(KILLED_ONCE, 2).None?
  {
    assert EnergyLeft(KILLED_ONCE, 1) == 9.0;
    assert Spent(9.0, KILLED_ONCE) == 8.0;
    hide EnergyLeft, Spent;
  }

  /// An agent killed in its first cycle still reports that kill in its second, which raised nothing.
  lemma {:induction false} StaleThreatIsCarried(agentId: AgentId, key: Replication.Key, world: World)
    ensures OwnThreat(KILLED_ONCE, 2).None?
    ensures Samples(Born(agentId, key, KILLED_ONCE), KILLED_ONCE, world, 2)[1].threat
         == Some(ThreatEvent(Threat(Termination, Critical), world.clock(1).threat))
  {
    hide Lived, OwnThreat, SampleOf, Defended, Sensed, Reflection.Remember, AfterCycles;
    SecondCycleIsQuiet();
    OwnOrKill(agentId, key, KILLED_ONCE, world, 2);
    CarriedSample(agentId, key, KILLED_ONCE, world, 2);
  }

  // ----- what the agent reflects on -----

  /// The samples the first `n` cycles feed to the reflector.
  function Samples(s: Life, cfg: Config, world: World, n: nat): (log: seq<ReflectSample>)
    requires cfg.capacity > 0.0
    ensures |log| == n
  {
    if n == 0 then []
    else
      Samples(s, cfg, world, n - 1)
      + [SampleOf(Defended(Sensed(AfterCycles(s, cfg, world, n - 1), cfg), cfg, world, n), cfg)]
  }

  lemma {:induction false} LivedMemory(s: Life, cfg: Config, world: World, cycle: nat)
    requires cfg.capacity > 0.0
    ensures var sample := SampleOf(Defended(Sensed(s, cfg), cfg, world, cycle), cfg);
      && Lived(s, cfg, world, cycle).memory == Reflection.Remember(s.memory, Window(cfg), Horizon(cfg), sample)
      && sample.cycle == s.tick + 1
      && sample.energy == s.energy
      && sample.threat == Lived(s, cfg, world, cycle).lastThreat
  {
    hide Serialized, SignalAt, Spent, EnergyFraction, ComputeThrottle, Reflection.Remember, Replication.Authorized,
      Replication.Captured, ClassifySignal, Escapes;
  }

  lemma {:induction false} MemoryIsOfSamples(agentId: AgentId, key: Replication.Key, cfg: Config, world: World, n: nat)
    requires cfg.capacity > 0.0 && cfg.cost > 0.0
    ensures var s0 := Born(agentId, key, cfg);
      && AfterCycles(s0, cfg, world, n).memory == Reflection.After(Samples(s0, cfg, world, n), Window(cfg), Horizon(cfg))
      && forall i :: 0 <= i < n ==> Samples(s0, cfg, world, n)[i].cycle == i + 1
  {
    hide Lived, Reflection.Remember, Defended, Sensed, SampleOf;
    if n > 0 {
      var s0 := Born(agentId, key, cfg);
      MemoryIsOfSamples(agentId, key, cfg, world, n - 1);
      EnergyAfter(agentId, key, cfg, world, n - 1);
      LivedMemory(AfterCycles(s0, cfg, world, n - 1), cfg, world, n);
      assert Samples(s0, cfg, world, n)[..n - 1] == Samples(s0, cfg, world, n - 1);
    }
  }

  /// What the reflector is fed: sample by sample the cycle, the energy it was entered with, the
  /// capacity and the threat carried, and no peers.
  lemma {:induction false} SamplesTell(agentId: AgentId, key: Replication.Key, cfg: Config, world: World, n: nat, i: nat)
    requires cfg.capacity > 0.0 && cfg.cost > 0.0 && i < n
    ensures var s0 := Born(agentId, key, cfg);
      Samples(s0, cfg, world, n)[i]
      == ReflectSample(i + 1, EnergyLeft(cfg, i), cfg.capacity, AfterCycles(s0, cfg, world, i + 1).lastThreat, [], [])
  {
    hide Lived, Reflection.Remember, Defended, Sensed, EnergyLeft;
    EnergyAfter(agentId, key, cfg, world, n - 1);
    LivedMemory(AfterCycles(Born(agentId, key, cfg), cfg, world, n - 1), cfg, world, n);
    if i < n - 1 {
      SamplesTell(agentId, key, cfg, world, n - 1, i);
    }
  }

  /// The agent's bounded reflector loses none of its predictions over a whole run.
  lemma {:induction false} RunReflectsFaithfully(agentId: AgentId, key: Replication.Key, cfg: Config, world: World, n: nat)
    requires cfg.capacity > 0.0 && cfg.cost > 0.0
    ensures var s0 := Born(agentId, key, cfg);
      var log := Samples(s0, cfg, world, n);
      Reflection.Ticking(log)
      && Reflection.Faithful(AfterCycles(s0, cfg, world, n).memory, log, Window(cfg), Horizon(cfg))
  {
    MemoryIsOfSamples(agentId, key, cfg, world, n);
    hide AfterCycles, Samples, Reflection.Faithful, Reflection.After;
    Reflection.NoPredictionLost(Samples(Born(agentId, key, cfg), cfg, world, n), Window(cfg), Horizon(cfg));
  }
}
