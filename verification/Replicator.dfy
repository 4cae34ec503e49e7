/// The replicator: capture, restore, sharding, copy authorization and migration.
module Replicator {
  import opened Core
  import opened CheckpointFormat
  import opened Shards
  import opened CopyLimit

  datatype ReplicationReason = CheckpointReason | Survival | DyingHardware | Migration | Manual

  /// What an audit entry's detail text says.
  datatype Detail = StateBytes(length: nat) | NoDetail | MigratedTo(id: AgentId) | MigratedFrom(id: AgentId)

  datatype AuditEntry = AuditEntry(
    agentId: AgentId,
    reason: ReplicationReason,
    timestampSecs: u64,
    liveCopiesAfter: nat,
    detail: Detail)

  datatype Key = Key(id: nat)

  /// The integrity backend: what sealing with a key yields, and whether a seal checks out.
  datatype Integrity = Integrity(sign: (Key, seq<byte>) -> Blob, verify: (Key, seq<byte>, Blob) -> bool)

  datatype Node = Node(
    agentId: AgentId,
    current: Option<Checkpoint>,
    maxCopies: usize,
    live: usize,
    audit: seq<AuditEntry>,
    dataShards: nat,
    parityShards: nat,
    signer: Option<Key>,
    verifier: Option<Key>)

  // ----- what each operation does -----

  /// The checkpoint that capturing `state` at `secs` makes.
  function CapturedCheckpoint(node: Node, crypto: Integrity, state: Blob, secs: u64): Checkpoint {
    var c := New(node.agentId, state, secs);
    match node.signer
    case Some(key) => c.(seal := Some(crypto.sign(key, SignableBytes(c))))
    case None => c
  }

  /// `secs` and `logged` are the clock readings for the checkpoint and for the audit entry.
  function Captured(node: Node, crypto: Integrity, state: Blob, secs: u64, logged: u64): Node {
    node.(
      current := Some(CapturedCheckpoint(node, crypto, state, secs)),
      audit := node.audit + [AuditEntry(node.agentId, CheckpointReason, logged, node.live, StateBytes(|state|))])
  }

  function CheckpointBytes(node: Node): Result<seq<byte>> {
    match node.current
    case Some(c) => Ok(Serialized(c))
    case None => Err(ReplicationError)
  }

  /// The checkpoint that restoring from `bytes` would adopt.
  function Vetted(node: Node, crypto: Integrity, bytes: seq<byte>): Result<Checkpoint> {
    match FromBytes(bytes)
    case Err(e) => Err(e)
    case Ok(c) =>
      if c.agentId != node.agentId then Err(ReplicationError)
      else if node.verifier.Some? && c.seal.None? then Err(IntegrityError)
      else if node.verifier.Some? && !crypto.verify(node.verifier.value, SignableBytes(c), c.seal.value) then Err(IntegrityError)
      else Ok(c)
  }

  function RestoredNode(node: Node, crypto: Integrity, bytes: seq<byte>): Node {
    match Vetted(node, crypto, bytes)
    case Ok(c) => node.(current := Some(c))
    case Err(_) => node
  }

  function RestoredPayload(node: Node, crypto: Integrity, bytes: seq<byte>): Result<seq<byte>> {
    match Vetted(node, crypto, bytes)
    case Ok(c) => Ok(c.payload)
    case Err(e) => Err(e)
  }

  function ShardsOf(node: Node): Result<seq<seq<byte>>> {
    match CheckpointBytes(node)
    case Err(e) => Err(e)
    case Ok(bytes) =>
      if node.dataShards == 0 || node.parityShards == 0 then Err(InvalidError)
      else if !ValidCounts(node.dataShards, node.parityShards) then Err(ReplicationError)
      else Ok(Encoded(bytes, node.dataShards, node.parityShards))
  }

  /// The bytes that restoring from `shards` works on.
  function Gathered(node: Node, shards: seq<seq<byte>>): Result<seq<byte>> {
    Decoded(shards, node.dataShards, node.parityShards)
  }

  function Authorized(node: Node, reason: ReplicationReason, logged: u64): Node {
    if node.live < node.maxCopies then
      node.(live := node.live + 1,
            audit := node.audit + [AuditEntry(node.agentId, reason, logged, node.live + 1, NoDetail)])
    else node
  }

  /// Whether migrating `source` into `target` succeeds, and with which bytes.
  function MigrationBytes(source: Node, target: Node, crypto: Integrity): Result<seq<byte>> {
    match CheckpointBytes(source)
    case Err(e) => Err(e)
    case Ok(bytes) =>
      match Vetted(target, crypto, bytes)
      case Err(e) => Err(e)
      case Ok(_) => Ok(bytes)
  }

  function MigratedSource(source: Node, target: Node, crypto: Integrity, reason: ReplicationReason, logged: u64): Node {
    if MigrationBytes(source, target, crypto).Ok? then
      source.(audit := source.audit + [AuditEntry(source.agentId, reason, logged, source.live, MigratedTo(target.agentId))])
    else source
  }

  function MigratedTarget(source: Node, target: Node, crypto: Integrity, reason: ReplicationReason, logged: u64): Node {
    match MigrationBytes(source, target, crypto)
    case Ok(bytes) =>
      RestoredNode(target, crypto, bytes).(
        audit := target.audit + [AuditEntry(target.agentId, reason, logged, target.live, MigratedFrom(source.agentId))])
    case Err(_) => target
  }

  // ----- the object -----

  class Replicator {
    const agentId: AgentId
    const crypto: Integrity
    const dataShards: nat
    const parityShards: nat
    const policy: CopyLimitPolicy
    var current: Option<Checkpoint>
    var audit: seq<AuditEntry>
    var signer: Option<Key>
    var verifier: Option<Key>

    ghost function View(): Node
      reads this, policy
    {
      Node(agentId, current, policy.maxCopies, policy.live, audit, dataShards, parityShards, signer, verifier)
    }

    constructor (agentId: AgentId, crypto: Integrity, maxCopies: usize, dataShards: nat, parityShards: nat)
      ensures View() == Node(agentId, None, maxCopies, 0, [], dataShards, parityShards, None, None)
      ensures this.crypto == crypto && fresh(policy)
    {
      this.agentId, this.crypto := agentId, crypto;
      this.dataShards, this.parityShards := dataShards, parityShards;
      policy := new CopyLimitPolicy(maxCopies);
      current, audit, signer, verifier := None, [], None, None;
    }

    method WithSigner(key: Key)
      modifies this
      ensures View() == old(View()).(signer := Some(key))
    {
      signer := Some(key);
    }

    method WithVerifier(key: Key)
      modifies this
      ensures View() == old(View()).(verifier := Some(key))
    {
      verifier := Some(key);
    }

    /// Capture a checkpoint of the running agent's state, sealed if there is a signer.
    method Capture(state: Blob, secs: u64, logged: u64)
      modifies this
      ensures View() == Captured(old(View()), crypto, state, secs, logged)
    {
      hide SignableBytes;
      var ckpt := New(agentId, state, secs);
      if signer.Some? {
        var signable := SignableBytes(ckpt);
        ckpt := ckpt.(seal := Some(crypto.sign(signer.value, signable)));
      }
      current := Some(ckpt);
      audit := audit + [AuditEntry(agentId, CheckpointReason, logged, policy.live, StateBytes(|state|))];
    }

    method GetCheckpointBytes() returns (r: Result<seq<byte>>)
      ensures r == CheckpointBytes(View())
    {
      if current.None? {
        return Err(ReplicationError);
      }
      var bytes := ToBytes(current.value);
      return Ok(bytes);
    }

    /// Adopt a serialized checkpoint, if it is this agent's and, with a verifier, properly sealed.
    method RestoreState(bytes: seq<byte>) returns (r: Result<seq<byte>>)
      modifies this
      ensures r == RestoredPayload(old(View()), crypto, bytes)
      ensures View() == RestoredNode(old(View()), crypto, bytes)
    {
      hide FromBytes, SignableBytes;
      var parsed := FromBytes(bytes);
      if parsed.Err? {
        return Err(parsed.error);
      }
      var ckpt := parsed.value;
      if ckpt.agentId != agentId {
        return Err(ReplicationError);
      }
      if verifier.Some? {
        if ckpt.seal.None? {
          return Err(IntegrityError);
        }
        var signable := SignableBytes(ckpt);
        if !crypto.verify(verifier.value, signable, ckpt.seal.value) {
          return Err(IntegrityError);
        }
      }
      current := Some(ckpt);
      return Ok(ckpt.payload);
    }

    method GetShards() returns (r: Result<seq<seq<byte>>>)
      ensures r == ShardsOf(View())
    {
      hide Encoded, Serialized;
      var bytes := GetCheckpointBytes();
      if bytes.Err? {
        return Err(bytes.error);
      }
      r := EncodeShards(bytes.value, dataShards, parityShards);
    }

    /// Adopt a checkpoint from its shards, some of which may be blank.
    method RestoreFromShards(shards: seq<seq<byte>>) returns (r: Result<seq<byte>>)
      modifies this
      ensures match Gathered(old(View()), shards)
              case Ok(bytes) =>
                r == RestoredPayload(old(View()), crypto, bytes) && View() == RestoredNode(old(View()), crypto, bytes)
              case Err(e) => r == Err(e) && View() == old(View())
    {
      hide Decoded, Vetted;
      var bytes := DecodeShards(shards, dataShards, parityShards);
      if bytes.Err? {
        return Err(bytes.error);
      }
      r := RestoreState(bytes.value);
    }

    /// One more redundant copy, if the policy lets it be.
    method AuthorizeCopy(reason: ReplicationReason, logged: u64) returns (r: Result<()>)
      modifies this, policy
      ensures r == if old(policy.live) < policy.maxCopies then Ok(()) else Err(ReplicationError)
      ensures View() == Authorized(old(View()), reason, logged)
    {
      r := policy.AuthorizeCopy();
      if r.Err? {
        return;
      }
      audit := audit + [AuditEntry(agentId, reason, logged, policy.live, NoDetail)];
    }

    /// Hand this agent's checkpoint to `target`; both ends log it.
    method MigrateTo(target: Replicator, reason: ReplicationReason, logged: u64) returns (r: Result<()>)
      requires target != this && target.crypto == crypto
      modifies this, target
      ensures r == match MigrationBytes(old(View()), old(target.View()), crypto)
                   case Ok(_) => Ok(())
                   case Err(e) => Err(e)
      ensures View() == MigratedSource(old(View()), old(target.View()), crypto, reason, logged)
      ensures target.View() == MigratedTarget(old(View()), old(target.View()), crypto, reason, logged)
    {
      hide Vetted, Serialized;
      var bytes := GetCheckpointBytes();
      if bytes.Err? {
        return Err(bytes.error);
      }
      var payload := target.RestoreState(bytes.value);
      if payload.Err? {
        return Err(payload.error);
      }
      audit := audit + [AuditEntry(agentId, reason, logged, policy.live, MigratedTo(target.agentId))];
      target.audit := target.audit + [AuditEntry(target.agentId, reason, logged, target.policy.live, MigratedFrom(agentId))];
      return Ok(());
    }
  }
}
