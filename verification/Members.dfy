/// Concrete negotiators, for the inputs at which a documented claim fails.
module Members {
  import opened Core
  import opened Messages
  import opened Reputation
  import opened NegotiatorSpec

  /// A negotiator that has met nobody, with a key of its own and decay switched off.
  function Member(b: byte, energy: real): State {
    State(UniformId(b), PublicKey([b]), map[Energy := energy], map[], map[], map[], map[], 16, Decay(0, 0.5))
  }

  lemma {:induction false} UniformIdsDiffer(a: byte, b: byte)
    ensures UniformId(a) == UniformId(b) <==> a == b
  {
    assert UniformId(a).bytes[0] == a && UniformId(b).bytes[0] == b;
  }
}
