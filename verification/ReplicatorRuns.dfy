/// Whole runs of replicators that capture, restore, shard, authorize and migrate.
///
/// Seals are symbolic: when bytes reach a replicator with a verifier and their seal checks out
/// under its key, then a replicator holding that key has sealed exactly those signable bytes
/// before. That is the assumption `Unforged` makes of every event, and nothing else is assumed
/// of the bytes, shards or orders that occur.
module ReplicatorRuns {
  import opened Core
  import opened CheckpointFormat
  import opened Shards
  import opened CopyLimit
  import opened Replicator

  datatype Event =
    | Capture(node: nat, state: Blob, secs: u64, logged: u64)
    | Restore(node: nat, bytes: seq<byte>)
    | RestoreShards(node: nat, shards: seq<seq<byte>>)
    | Authorize(node: nat, reason: ReplicationReason, logged: u64)
    | Migrate(node: nat, target: nat, reason: ReplicationReason, logged: u64)

  function Apply(nodes: seq<Node>, crypto: Integrity, e: Event): (after: seq<Node>)
    requires e.node < |nodes| && (e.Migrate? ==> e.target < |nodes| && e.target != e.node)
    ensures |after| == |nodes|
  {
    match e
    case Capture(n, state, secs, logged) => nodes[n := Captured(nodes[n], crypto, state, secs, logged)]
    case Restore(n, bytes) => nodes[n := RestoredNode(nodes[n], crypto, bytes)]
    case RestoreShards(n, shards) =>
      (match Gathered(nodes[n], shards)
       case Ok(bytes) => nodes[n := RestoredNode(nodes[n], crypto, bytes)]
       case Err(_) => nodes)
    case Authorize(n, reason, logged) => nodes[n := Authorized(nodes[n], reason, logged)]
    case Migrate(n, t, reason, logged) =>
      nodes[n := MigratedSource(nodes[n], nodes[t], crypto, reason, logged)]
           [t := MigratedTarget(nodes[n], nodes[t], crypto, reason, logged)]
  }

  /// The bytes an event puts before a replicator, and which one.
  function Presented(nodes: seq<Node>, e: Event): Result<seq<byte>>
    requires e.node < |nodes|
  {
    match e
    case Restore(_, bytes) => Ok(bytes)
    case RestoreShards(n, shards) => Gathered(nodes[n], shards)
    case Migrate(n, _, _, _) => CheckpointBytes(nodes[n])
    case _ => Err(InvalidError)
  }

  function Receiver(e: Event): nat {
    if e.Migrate? then e.target else e.node
  }

  /// The checkpoint a capture event makes, before sealing.
  function Made(init: seq<Node>, e: Event): Checkpoint
    requires e.Capture? && e.node < |init|
  {
    New(init[e.node].agentId, e.state, e.secs)
  }

  /// A holder of `key` sealed `data` in the course of `run`.
  ghost predicate SealedIn(init: seq<Node>, run: seq<Event>, key: Key, data: seq<byte>) {
    exists i :: 0 <= i < |run| && run[i].Capture? && run[i].node < |init|
      && init[run[i].node].signer == Some(key) && SignableBytes(Made(init, run[i])) == data
  }

  ghost predicate Unforged(init: seq<Node>, run: seq<Event>, crypto: Integrity, verifier: Option<Key>, bytes: seq<byte>) {
    match FromBytes(bytes)
    case Err(_) => true
    case Ok(c) =>
      verifier.Some? && c.seal.Some? && crypto.verify(verifier.value, SignableBytes(c), c.seal.value)
      ==> SealedIn(init, run, verifier.value, SignableBytes(c))
  }

  ghost predicate Enabled(init: seq<Node>, run: seq<Event>, nodes: seq<Node>, crypto: Integrity, e: Event) {
    && e.node < |nodes|
    && (e.Migrate? ==> e.target < |nodes| && e.target != e.node)
    && (Presented(nodes, e).Ok? ==> Unforged(init, run, crypto, nodes[Receiver(e)].verifier, Presented(nodes, e).value))
  }

  /// Replicators as constructed: nothing captured, nothing logged, no copies.
  ghost predicate FreshNodes(init: seq<Node>) {
    forall n :: 0 <= n < |init| ==> init[n].current.None? && init[n].audit == [] && init[n].live == 0
  }

  ghost predicate Runs(init: seq<Node>, crypto: Integrity, run: seq<Event>)
    decreases run, 0
  {
    run == []
    || (Runs(init, crypto, run[..|run| - 1])
        && Enabled(init, run[..|run| - 1], After(init, crypto, run[..|run| - 1]), crypto, run[|run| - 1]))
  }

  ghost function After(init: seq<Node>, crypto: Integrity, run: seq<Event>): (nodes: seq<Node>)
    requires Runs(init, crypto, run)
    ensures |nodes| == |init|
    decreases run, 1
  {
    if run == [] then init else Apply(After(init, crypto, run[..|run| - 1]), crypto, run[|run| - 1])
  }

  // ----- whose checkpoints are held -----

  /// `c` was captured in the run, by node `n` itself or by a holder of the key it verifies with.
  ghost predicate CapturedIn(init: seq<Node>, run: seq<Event>, n: nat, c: Checkpoint)
    requires n < |init|
  {
    exists i :: 0 <= i < |run| && run[i].Capture? && run[i].node < |init|
      && c.(seal := None) == Made(init, run[i])
      && (run[i].node == n || init[run[i].node].signer == init[n].verifier)
  }

  ghost predicate Genuine(init: seq<Node>, run: seq<Event>, n: nat, node: Node)
    requires n < |init|
  {
    && node.agentId == init[n].agentId && node.signer == init[n].signer && node.verifier == init[n].verifier
    && (node.current.Some? ==>
          && node.current.value.agentId == node.agentId
          && node.current.value.version <= CHECKPOINT_VERSION
          && (node.verifier.Some? ==> CapturedIn(init, run, n, node.current.value)))
  }

  lemma {:induction false} CapturedStays(init: seq<Node>, run: seq<Event>, e: Event, n: nat, c: Checkpoint)
    requires n < |init| && CapturedIn(init, run, n, c)
    ensures CapturedIn(init, run + [e], n, c)
  {
    var i :| 0 <= i < |run| && run[i].Capture? && run[i].node < |init|
      && c.(seal := None) == Made(init, run[i])
      && (run[i].node == n || init[run[i].node].signer == init[n].verifier);
    assert (run + [e])[i] == run[i];
  }

  lemma {:induction false} GenuineStays(init: seq<Node>, run: seq<Event>, e: Event, n: nat, node: Node)
    requires n < |init| && Genuine(init, run, n, node)
    ensures Genuine(init, run + [e], n, node)
  {
    if node.current.Some? && node.verifier.Some? {
      CapturedStays(init, run, e, n, node.current.value);
    }
    hide CapturedIn;
  }

  /// A restore adopts only what its verifier's key holder sealed.
  lemma {:induction false} RestoreIsGenuine(init: seq<Node>, run: seq<Event>, crypto: Integrity, n: nat, node: Node, bytes: seq<byte>)
    requires n < |init| && Genuine(init, run, n, node)
    requires Unforged(init, run, crypto, node.verifier, bytes)
    ensures Genuine(init, run, n, RestoredNode(node, crypto, bytes))
  {
    hide SignableBytes, ReadBody;
    if Vetted(node, crypto, bytes).Ok? && node.verifier.Some? {
      var c := Vetted(node, crypto, bytes).value;
      var i :| 0 <= i < |run| && run[i].Capture? && run[i].node < |init|
        && init[run[i].node].signer == node.verifier && SignableBytes(Made(init, run[i])) == SignableBytes(c);
      SignableIsInjective(Made(init, run[i]), c);
      assert CapturedIn(init, run, n, c);
    }
    hide CapturedIn, SealedIn;
  }

  lemma {:induction false} CaptureIsGenuine(init: seq<Node>, run: seq<Event>, crypto: Integrity, node: Node, e: Event)
    requires e.Capture? && e.node < |init| && Genuine(init, run, e.node, node)
    ensures Genuine(init, run + [e], e.node, Captured(node, crypto, e.state, e.secs, e.logged))
  {
    hide SignableBytes;
    var c := CapturedCheckpoint(node, crypto, e.state, e.secs);
    assert (run + [e])[|run|] == e;
    assert c.(seal := None) == Made(init, e);
    assert CapturedIn(init, run + [e], e.node, c);
  }

  lemma {:induction false} StepIsGenuine(init: seq<Node>, run: seq<Event>, crypto: Integrity, nodes: seq<Node>, e: Event)
    requires |nodes| == |init| && Enabled(init, run, nodes, crypto, e)
    requires forall n :: 0 <= n < |nodes| ==> Genuine(init, run, n, nodes[n])
    ensures forall n :: 0 <= n < |nodes| ==> Genuine(init, run + [e], n, Apply(nodes, crypto, e)[n])
  {
    hide CapturedIn, Unforged, FromBytes, Vetted;
    forall n | 0 <= n < |nodes| ensures Genuine(init, run + [e], n, Apply(nodes, crypto, e)[n]) {
      hide Genuine;
      GenuineStays(init, run, e, n, nodes[n]);
      if e.Capture? && e.node == n {
        CaptureIsGenuine(init, run, crypto, nodes[n], e);
      } else if Presented(nodes, e).Ok? && Receiver(e) == n {
        var bytes := Presented(nodes, e).value;
        RestoreIsGenuine(init, run, crypto, n, nodes[n], bytes);
        GenuineStays(init, run, e, n, RestoredNode(nodes[n], crypto, bytes));
        BookkeepingIsGenuine(init, run + [e], n, RestoredNode(nodes[n], crypto, bytes), Apply(nodes, crypto, e)[n]);
      } else {
        BookkeepingIsGenuine(init, run + [e], n, nodes[n], Apply(nodes, crypto, e)[n]);
      }
    }
  }

  /// Counters and logs have no say in what is held.
  lemma {:induction false} BookkeepingIsGenuine(init: seq<Node>, run: seq<Event>, n: nat, a: Node, b: Node)
    requires n < |init| && Genuine(init, run, n, a)
    requires b.current == a.current && b.agentId == a.agentId && b.signer == a.signer && b.verifier == a.verifier
    ensures Genuine(init, run, n, b)
  {
  }

  /// In every reachable state a replicator holds only checkpoints for its own identity; one
  /// with a verifier holds only what it captured itself or what the holder of its verifying key
  /// captured and sealed, payload, time and all.
  lemma {:induction false} CheckpointsAreGenuine(init: seq<Node>, crypto: Integrity, run: seq<Event>)
    requires FreshNodes(init) && Runs(init, crypto, run)
    ensures forall n :: 0 <= n < |init| ==> Genuine(init, run, n, After(init, crypto, run)[n])
  {
    if run != [] {
      hide Genuine, Enabled, Apply;
      var last := run[|run| - 1];
      CheckpointsAreGenuine(init, crypto, run[..|run| - 1]);
      StepIsGenuine(init, run[..|run| - 1], crypto, After(init, crypto, run[..|run| - 1]), last);
      assert run[..|run| - 1] + [last] == run;
    }
  }

  // ----- capture, shard, lose, restore -----

  /// A captured checkpoint survives the loss of shards: a replicator for the same identity
  /// whose verifier accepts the seal gets exactly the captured state back, provided the blob is
  /// within the size limit, which capturing does not check.
  lemma {:induction false} StateSurvivesShardLoss(
      source: Node, target: Node, crypto: Integrity, state: Blob, secs: u64, logged: u64, shards: seq<seq<byte>>)
    requires ValidCounts(source.dataShards, source.parityShards)
    requires target.dataShards == source.dataShards && target.parityShards == source.parityShards
    requires target.agentId == source.agentId
    requires var data := SignableBytes(New(source.agentId, state, secs));
      target.verifier.Some? ==>
        source.signer.Some? && crypto.verify(target.verifier.value, data, crypto.sign(source.signer.value, data))
    requires |Serialized(CapturedCheckpoint(source, crypto, state, secs))| < TWO_TO_64
    requires ShardsOf(Captured(source, crypto, state, secs, logged)).Ok?
    requires Blanked(shards, ShardsOf(Captured(source, crypto, state, secs, logged)).value)
    requires BlankCount(shards) <= source.parityShards
    ensures var c := CapturedCheckpoint(source, crypto, state, secs);
      && Gathered(target, shards) == Ok(Serialized(c))
      && RestoredPayload(target, crypto, Serialized(c))
         == (if |Serialized(c)| <= MAX_CHECKPOINT_BYTES then Ok(state) else Err(InvalidError))
      && RestoredNode(target, crypto, Serialized(c)).current
         == (if |Serialized(c)| <= MAX_CHECKPOINT_BYTES then Some(c) else target.current)
  {
    hide FromBytes, Serialized, SignableBytes, Encoded, Decoded, BlankCount, Blanked;
    var c := CapturedCheckpoint(source, crypto, state, secs);
    assert c.(seal := None) == New(source.agentId, state, secs);
    SignableIsInjective(c, New(source.agentId, state, secs));
    CheckpointRoundTrip(c);
    ErasureRoundTrip(Serialized(c), source.dataShards, source.parityShards, shards);
  }

  /// Any state larger than the limit is captured without complaint and refused everywhere.
  lemma {:induction false} OversizedStateIsRefused(source: Node, target: Node, crypto: Integrity, state: Blob, secs: u64)
    requires |state| > MAX_CHECKPOINT_BYTES
    ensures RestoredPayload(target, crypto, Serialized(CapturedCheckpoint(source, crypto, state, secs))) == Err(InvalidError)
  {
    hide SignableBytes, VarintBytes, OptionalBytes;
    assert |Serialized(CapturedCheckpoint(source, crypto, state, secs))| >= |state|;
  }

  // ----- copies and their audit trail -----

  /// The copy counts logged by authorizations, the only entries without detail.
  function CopiesLogged(audit: seq<AuditEntry>): seq<nat> {
    if audit == [] then []
    else
      var last := audit[|audit| - 1];
      CopiesLogged(audit[..|audit| - 1]) + (if last.detail.NoDetail? then [last.liveCopiesAfter] else [])
  }

  function OneTo(k: nat): seq<nat> {
    seq(k, i requires i >= 0 => i + 1)
  }

  predicate CopiesAudited(node: Node) {
    CopiesLogged(node.audit) == OneTo(node.live) && node.live <= node.maxCopies
  }

  lemma {:induction false} LoggedOne(audit: seq<AuditEntry>, entry: AuditEntry)
    ensures CopiesLogged(audit + [entry]) == CopiesLogged(audit) + (if entry.detail.NoDetail? then [entry.liveCopiesAfter] else [])
  {
    assert (audit + [entry])[..|audit|] == audit;
  }

  lemma {:induction false} StepKeepsAudit(nodes: seq<Node>, crypto: Integrity, e: Event)
    requires e.node < |nodes| && (e.Migrate? ==> e.target < |nodes| && e.target != e.node)
    requires forall n :: 0 <= n < |nodes| ==> CopiesAudited(nodes[n])
    ensures forall n :: 0 <= n < |nodes| ==> CopiesAudited(Apply(nodes, crypto, e)[n])
  {
    hide Vetted, CheckpointBytes, CopiesLogged, CapturedCheckpoint, Gathered;
    var node := nodes[e.node];
    match e {
      case Capture(_, state, secs, logged) =>
        LoggedOne(node.audit, AuditEntry(node.agentId, CheckpointReason, logged, node.live, StateBytes(|state|)));
      case Authorize(_, reason, logged) =>
        LoggedOne(node.audit, AuditEntry(node.agentId, reason, logged, node.live + 1, NoDetail));
        assert OneTo(node.live + 1) == OneTo(node.live) + [node.live + 1];
      case Migrate(_, t, reason, logged) =>
        LoggedOne(node.audit, AuditEntry(node.agentId, reason, logged, node.live, MigratedTo(nodes[t].agentId)));
        LoggedOne(nodes[t].audit, AuditEntry(nodes[t].agentId, reason, logged, nodes[t].live, MigratedFrom(node.agentId)));
      case Restore(_, _) =>
      case RestoreShards(_, _) =>
    }
  }

  /// As long as no copy is retired, the live copies are exactly the audited authorizations,
  /// logged as copy 1, 2, 3 and so on, and never more than the cap.
  lemma {:induction false} LiveCopiesAreAudited(init: seq<Node>, crypto: Integrity, run: seq<Event>)
    requires FreshNodes(init) && Runs(init, crypto, run)
    ensures forall n :: 0 <= n < |init| ==> CopiesAudited(After(init, crypto, run)[n])
  {
    if run == [] {
      assert OneTo(0) == [];
    } else {
      hide CopiesAudited, Apply;
      LiveCopiesAreAudited(init, crypto, run[..|run| - 1]);
      StepKeepsAudit(After(init, crypto, run[..|run| - 1]), crypto, run[|run| - 1]);
    }
  }

  // ----- what restoring and migrating come to -----

  /// Restoring adopts the parsed checkpoint and hands out its payload if it is this agent's and,
  /// with a verifier, carries a seal that checks out. Every refusal has its own error and changes
  /// nothing.
  lemma {:induction false} RestoreAnswers(node: Node, crypto: Integrity, bytes: seq<byte>)
    ensures var r, after := RestoredPayload(node, crypto, bytes), RestoredNode(node, crypto, bytes);
      match FromBytes(bytes)
      case Err(e) => r == Err(e) && after == node
      case Ok(c) =>
        var sealed := c.seal.Some? && node.verifier.Some? && crypto.verify(node.verifier.value, SignableBytes(c), c.seal.value);
        && (c.agentId != node.agentId ==> r == Err(ReplicationError) && after == node)
        && (c.agentId == node.agentId && node.verifier.Some? && !sealed ==> r == Err(IntegrityError) && after == node)
        && (c.agentId == node.agentId && (node.verifier.None? || sealed) ==>
              r == Ok(c.payload) && after == node.(current := Some(c)))
  {
    hide FromBytes, SignableBytes;
  }

  /// A migration succeeds exactly if the source holds a checkpoint of the target's agent, small
  /// enough and of a known version, whose seal the target's verifier (if any) accepts.
  lemma {:induction false} MigrationSucceedsIff(source: Node, target: Node, crypto: Integrity)
    ensures MigrationBytes(source, target, crypto).Ok? <==>
      && source.current.Some?
      && source.current.value.agentId == target.agentId
      && source.current.value.version <= 1
      && |Serialized(source.current.value)| <= 64 * 1024 * 1024
      && (target.verifier.Some? ==>
            && source.current.value.seal.Some?
            && crypto.verify(target.verifier.value, SignableBytes(source.current.value), source.current.value.seal.value))
    ensures source.current.None? ==> MigrationBytes(source, target, crypto) == Err(ReplicationError)
    ensures source.current.Some? && MigrationBytes(source, target, crypto).Err? ==>
      RestoredPayload(target, crypto, Serialized(source.current.value)) == Err(MigrationBytes(source, target, crypto).error)
  {
    hide FromBytes, Serialized, SignableBytes;
    if source.current.Some? {
      CheckpointRoundTrip(source.current.value);
    }
  }

  /// After a successful migration the target holds exactly the source's checkpoint, the source
  /// still does, and each log has grown by one entry that names the other end; nothing else
  /// changed. A failed one leaves both ends as they were.
  lemma {:induction false} MigrationDelivers(source: Node, target: Node, crypto: Integrity, reason: ReplicationReason, logged: u64)
    ensures var s, t := MigratedSource(source, target, crypto, reason, logged), MigratedTarget(source, target, crypto, reason, logged);
      if MigrationBytes(source, target, crypto).Ok? then
        && s == source.(audit := source.audit + [AuditEntry(source.agentId, reason, logged, source.live, MigratedTo(target.agentId))])
        && t == target.(
             current := source.current,
             audit := target.audit + [AuditEntry(target.agentId, reason, logged, target.live, MigratedFrom(source.agentId))])
      else
        s == source && t == target
  {
    hide FromBytes, Serialized, SignableBytes;
    if source.current.Some? {
      CheckpointRoundTrip(source.current.value);
    }
  }

  /// Sharding a held checkpoint yields as many shards as are configured, which decode to its bytes;
  /// without a checkpoint, or with shard counts that cannot be, it is refused.
  lemma {:induction false} ShardsAnswers(node: Node)
    requires node.current.Some? ==> |Serialized(node.current.value)| < TWO_TO_64
    ensures var r, k, m := ShardsOf(node), node.dataShards, node.parityShards;
      && (node.current.None? ==> r == Err(ReplicationError))
      && (node.current.Some? && (k == 0 || m == 0) ==> r == Err(InvalidError))
      && (node.current.Some? && k > 0 && m > 0 && k + m > 256 ==> r == Err(ReplicationError))
      && (node.current.Some? && k > 0 && m > 0 && k + m <= 256 ==>
            r.Ok? && |r.value| == k + m && Gathered(node, r.value) == Ok(Serialized(node.current.value)))
  {
    hide Serialized, Encoded, Decoded, BlankCount;
    if node.current.Some? && ValidCounts(node.dataShards, node.parityShards) {
      var bytes := Serialized(node.current.value);
      var full := Encoded(bytes, node.dataShards, node.parityShards);
      ShardsNeverEmpty(bytes, node.dataShards, node.parityShards);
      NotBlank(full);
      ErasureRoundTrip(bytes, node.dataShards, node.parityShards, full);
    }
  }

  // ----- logs tell what happened -----

  /// What event `e` has to do with an entry of node `n`'s log.
  ghost predicate Tells(init: seq<Node>, n: nat, entry: AuditEntry, e: Event) {
    && n < |init| && e.node < |init|
    && entry.agentId == init[n].agentId
    && match e
       case Capture(node, state, _, logged) =>
         node == n && entry.reason == CheckpointReason && entry.timestampSecs == logged && entry.detail == StateBytes(|state|)
       case Authorize(node, reason, logged) =>
         node == n && entry.reason == reason && entry.timestampSecs == logged && entry.detail == NoDetail
       case Migrate(node, target, reason, logged) =>
         && target < |init| && entry.reason == reason && entry.timestampSecs == logged
         && ((node == n && entry.detail == MigratedTo(init[target].agentId))
             || (target == n && entry.detail == MigratedFrom(init[node].agentId)))
       case _ => false
  }

  ghost predicate Truthful(init: seq<Node>, run: seq<Event>, n: nat, node: Node)
    requires n < |init|
  {
    && node.agentId == init[n].agentId
    && forall k :: 0 <= k < |node.audit| ==> exists i :: 0 <= i < |run| && Tells(init, n, node.audit[k], run[i])
  }

  /// No event rewrites a log; it adds at most one entry to it, of its own.
  lemma {:induction false} StepAppends(init: seq<Node>, run: seq<Event>, nodes: seq<Node>, crypto: Integrity, e: Event, n: nat)
    requires |nodes| == |init| && n < |init|
    requires e.node < |nodes| && (e.Migrate? ==> e.target < |nodes| && e.target != e.node)
    requires forall m :: 0 <= m < |nodes| ==> Truthful(init, run, m, nodes[m])
    ensures var before, after := nodes[n].audit, Apply(nodes, crypto, e)[n].audit;
      && before <= after && |after| <= |before| + 1
      && (|after| > |before| ==> Tells(init, n, after[|before|], e))
      && (e.Capture? && e.node == n ==> |after| == |before| + 1)
      && (e.Authorize? && e.node == n ==> (|after| == |before| + 1 <==> nodes[n].live < nodes[n].maxCopies))
      && (e.Migrate? && (e.node == n || e.target == n) ==>
            (|after| == |before| + 1 <==> MigrationBytes(nodes[e.node], nodes[e.target], crypto).Ok?))
    ensures Apply(nodes, crypto, e)[n].agentId == nodes[n].agentId
  {
    hide Vetted, CheckpointBytes, CapturedCheckpoint, Gathered;
    assert nodes[e.node].agentId == init[e.node].agentId;
    assert nodes[n].agentId == init[n].agentId;
    if e.Migrate? {
      assert nodes[e.target].agentId == init[e.target].agentId;
    }
    hide Truthful;
  }

  /// Every entry of every log is the record of an event of the run: its agent, reason, time and
  /// other end.
  lemma {:induction false} LogsAreTruthful(init: seq<Node>, crypto: Integrity, run: seq<Event>)
    requires FreshNodes(init) && Runs(init, crypto, run)
    ensures forall n :: 0 <= n < |init| ==> Truthful(init, run, n, After(init, crypto, run)[n])
  {
    if run != [] {
      var past, e := run[..|run| - 1], run[|run| - 1];
      LogsAreTruthful(init, crypto, past);
      var nodes := After(init, crypto, past);
      hide Apply, Tells;
      forall n | 0 <= n < |init| ensures Truthful(init, run, n, Apply(nodes, crypto, e)[n]) {
        StepAppends(init, past, nodes, crypto, e, n);
        var before, after := nodes[n].audit, Apply(nodes, crypto, e)[n].audit;
        forall k | 0 <= k < |after| ensures exists i :: 0 <= i < |run| && Tells(init, n, after[k], run[i]) {
          if k < |before| {
            assert after[k] == before[k];
            var i :| 0 <= i < |past| && Tells(init, n, before[k], past[i]);
            assert run[i] == past[i];
          } else {
            assert Tells(init, n, after[k], run[|run| - 1]);
          }
        }
      }
    }
  }
}
