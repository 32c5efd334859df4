/** The particle model: the type enumeration and the per-particle record. */
module Particles {

  import opened Options

  /** The eight particle types. Empty is only used as the erase signal of a spawn. */
  datatype ParticleType = Empty | Sand | Water | Stone | Fire | Smoke | Wood | Plant

  /** A particle: its type, whether it has been processed in the current tick,
      and the remaining lifetime of the types that expire. */
  datatype Particle = Particle(kind: ParticleType, updated: bool, lifetime: Option<int>)

  const FireLifetimeBase := 20
  const FireLifetimeSpan := 30
  const SmokeLifetimeBase := 40
  const SmokeLifetimeSpan := 40

  /** A lifetime roll stands for `floor(random * span)`, so it lies in [0, span)
      for the two types that roll one; other types ignore it. */
  predicate ValidRoll(t: ParticleType, roll: int) {
    && (t == Fire ==> 0 <= roll < FireLifetimeSpan)
    && (t == Smoke ==> 0 <= roll < SmokeLifetimeSpan)
  }

  /** A fresh, not yet processed particle of type `t`; Fire and Smoke carry a
      lifetime drawn from their range, every other type carries none. */
  function CreateParticle(t: ParticleType, roll: int): (p: Particle)
    requires ValidRoll(t, roll)
    ensures p.kind == t && !p.updated
    ensures p.lifetime.Some? <==> t == Fire || t == Smoke
    ensures t == Fire ==> 20 <= p.lifetime.value <= 49
    ensures t == Smoke ==> 40 <= p.lifetime.value <= 79
  {
    var life :=
      if t == Fire then Some(FireLifetimeBase + roll)
      else if t == Smoke then Some(SmokeLifetimeBase + roll)
      else None;
    Particle(t, false, life)
  }

  /** Every lifetime in [20, 49] is reachable by some fire roll, so the
      range promised by CreateParticle is exact. */
  lemma FireLifetimesExact(n: int)
    requires 20 <= n <= 49
    ensures exists roll :: ValidRoll(Fire, roll) && CreateParticle(Fire, roll).lifetime == Some(n)
  {
    assert ValidRoll(Fire, n - 20) && CreateParticle(Fire, n - 20).lifetime == Some(n);
  }

  /** Every lifetime in [40, 79] is reachable by some smoke roll. */
  lemma SmokeLifetimesExact(n: int)
    requires 40 <= n <= 79
    ensures exists roll :: ValidRoll(Smoke, roll) && CreateParticle(Smoke, roll).lifetime == Some(n)
  {
    assert ValidRoll(Smoke, n - 40) && CreateParticle(Smoke, n - 40).lifetime == Some(n);
  }

}
