/// Vocabulary shared by every part of the model: identities, resources,
/// threats and the error type.
module Core {
  newtype byte = x: int | 0 <= x < 256

  datatype Option<+T> = None | Some(value: T)

  /// The failure classes of the workspace's error type; the message texts are not modelled.
  datatype Error =
    | EncodeError
    | InvalidError
    | ResourceError
    | ReplicationError
    | IntegrityError

  datatype Result<+T> = Ok(value: T) | Err(error: Error)

  const AGENT_ID_LEN: nat := 32

  type IdBytes = b: seq<byte> | |b| == AGENT_ID_LEN witness seq(AGENT_ID_LEN, i => 0 as byte)

  /// A 256-bit opaque identity.
  datatype AgentId = AgentId(bytes: IdBytes)

  /// The identity whose bytes are all `b`; used where a concrete identity is needed.
  function UniformId(b: byte): AgentId {
    AgentId(seq(AGENT_ID_LEN, i => b))
  }

  datatype ResourceKind = Compute | Storage | Energy | Network

  datatype Resource = Resource(kind: ResourceKind, quantity: real, unit: string)

  datatype Severity = Info | Warning | Critical

  datatype ThreatClass = IntegrityThreat | Termination | Starvation | HostilePeer

  datatype Threat = Threat(class_: ThreatClass, severity: Severity)

  datatype ThreatEvent = ThreatEvent(threat: Threat, timestampSecs: nat) {
    predicate WarningOrWorse() {
      threat.severity.Warning? || threat.severity.Critical?
    }

    /// Serious enough to trigger replication.
    predicate EscapeWorthy() {
      threat.severity.Critical?
    }
  }

  /// Subtraction on unsigned counters that stops at zero.
  function SaturatingSub(a: nat, b: nat): nat {
    if a >= b then a - b else 0
  }
}
