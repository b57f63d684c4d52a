// The resource reducer of the game: a pool of three numeric resources
// (air, metal, energy) updated in place by five actions.

module GameSlice {

  datatype Resource = Air | Metal | Energy

  /** The `resources` record of the game state. */
  datatype Pool = Pool(air: real, metal: real, energy: real)
  {
    function Get(r: Resource): real
    {
      match r
      case Air => air
      case Metal => metal
      case Energy => energy
    }

    /** The pool with resource `r` overwritten by `v`. */
    function With(r: Resource, v: real): (p: Pool)
      ensures p.Get(r) == v
      ensures forall o :: o != r ==> p.Get(o) == Get(o)
    {
      match r
      case Air => this.(air := v)
      case Metal => this.(metal := v)
      case Energy => this.(energy := v)
    }
  }

  /** Air lost per second of elapsed time. */
  const DecayPerSecond: real := 2.0

  /** The resource part of the initial game state. */
  const InitialPool: Pool := Pool(100.0, 0.0, 50.0)

  function Max(a: real, b: real): real
  {
    if a >= b then a else b
  }

  ghost predicate NonNegative(p: Pool)
  {
    forall r :: p.Get(r) >= 0.0
  }

  /** The pool after `dt` milliseconds of decay: air drains at two units per second, never below zero. */
  function Decayed(p: Pool, dt: real): (q: Pool)
    ensures q.air >= 0.0
    ensures q.air == 0.0 || q.air == p.air - (dt / 1000.0) * DecayPerSecond
    ensures p.air >= (dt / 1000.0) * DecayPerSecond ==> q.air == p.air - (dt / 1000.0) * DecayPerSecond
    ensures p.air <= (dt / 1000.0) * DecayPerSecond ==> q.air == 0.0
    ensures dt >= 0.0 ==> q.air <= p.air || (p.air < 0.0 && q.air == 0.0)
    ensures q.metal == p.metal && q.energy == p.energy
  {
    p.(air := Max(0.0, p.air - (dt / 1000.0) * DecayPerSecond))
  }

  /** The pool after adding `amount` to resource `r`, without floor or ceiling. */
  function Added(p: Pool, r: Resource, amount: real): (q: Pool)
    ensures q.Get(r) == p.Get(r) + amount
    ensures forall o :: o != r ==> q.Get(o) == p.Get(o)
  {
    p.With(r, p.Get(r) + amount)
  }

  /** The pool after a guarded consume: `r` drops by `amount` only when it holds at least that much. */
  function Consumed(p: Pool, r: Resource, amount: real): (q: Pool)
    ensures p.Get(r) >= amount ==> q.Get(r) == p.Get(r) - amount && q.Get(r) >= 0.0
    ensures p.Get(r) < amount ==> q == p
    ensures forall o :: o != r ==> q.Get(o) == p.Get(o)
  {
    if p.Get(r) >= amount then p.With(r, p.Get(r) - amount) else p
  }

  /** `n` decay steps of `dt` milliseconds each. */
  function DecayedTimes(p: Pool, n: nat, dt: real): Pool
  {
    if n == 0 then p else Decayed(DecayedTimes(p, n - 1, dt), dt)
  }

  /** Repeated decay by non-negative steps is one decay by their total, floored at zero. */
  lemma {:induction false} DecayedTimesTotal(p: Pool, n: nat, dt: real)
    requires dt >= 0.0 && p.air >= 0.0
    ensures DecayedTimes(p, n, dt).air == Max(0.0, p.air - (n as real) * (dt / 1000.0) * DecayPerSecond)
    ensures DecayedTimes(p, n, dt).metal == p.metal && DecayedTimes(p, n, dt).energy == p.energy
  {
    if n > 0 {
      DecayedTimesTotal(p, n - 1, dt);
    }
  }

  /** Ten one-second ticks from the initial pool leave 80 units of air. */
  lemma TenSecondsOfDecay()
    ensures DecayedTimes(InitialPool, 10, 1000.0) == Pool(80.0, 0.0, 50.0)
  {
    DecayedTimesTotal(InitialPool, 10, 1000.0);
  }

  /** Decay keeps a non-negative pool non-negative, whatever the elapsed time. */
  lemma DecayedNonNegative(p: Pool, dt: real)
    requires NonNegative(p)
    ensures NonNegative(Decayed(p, dt))
  {
    var d := Decayed(p, dt);
    forall o ensures d.Get(o) >= 0.0 {
      assert p.Get(o) >= 0.0;
    }
  }

  /** A guarded consume keeps a non-negative pool non-negative, whatever the amount. */
  lemma ConsumedNonNegative(p: Pool, r: Resource, amount: real)
    requires NonNegative(p)
    ensures NonNegative(Consumed(p, r, amount))
  {
    var c := Consumed(p, r, amount);
    forall o ensures c.Get(o) >= 0.0 {
      assert p.Get(o) >= 0.0;
    }
  }

  /** Adding a non-negative amount keeps a non-negative pool non-negative. */
  lemma AddedNonNegative(p: Pool, r: Resource, amount: real)
    requires NonNegative(p) && amount >= 0.0
    ensures NonNegative(Added(p, r, amount))
  {
    var a := Added(p, r, amount);
    forall o ensures a.Get(o) >= 0.0 {
      assert p.Get(o) >= 0.0;
    }
  }

  /** Setting a resource to a non-negative amount keeps a non-negative pool non-negative. */
  lemma WithNonNegative(p: Pool, r: Resource, amount: real)
    requires NonNegative(p) && amount >= 0.0
    ensures NonNegative(p.With(r, amount))
  {
    var w := p.With(r, amount);
    forall o ensures w.Get(o) >= 0.0 {
      assert p.Get(o) >= 0.0;
    }
  }

  /** The initial pool, which a reset restores, is non-negative. */
  lemma InitialNonNegative()
    ensures NonNegative(InitialPool)
  {
    forall o ensures InitialPool.Get(o) >= 0.0 {
      match o
      case Air =>
      case Metal =>
      case Energy =>
    }
  }

  /** The game state; `resources` is reassigned by each reducer. The `lastTick` clock field is not modelled. */
  class GameState {
    var resources: Pool

    constructor ()
      ensures resources == InitialPool
    {
      resources := InitialPool;
    }

    method Tick(dt: real)
      modifies this
      ensures resources == Decayed(old(resources), dt)
    {
      resources := resources.(air := Max(0.0, resources.air - (dt / 1000.0) * DecayPerSecond));
    }

    method AddResource(r: Resource, amount: real)
      modifies this
      ensures resources == Added(old(resources), r, amount)
    {
      resources := resources.With(r, resources.Get(r) + amount);
    }

    method ConsumeResource(r: Resource, amount: real)
      modifies this
      ensures resources == Consumed(old(resources), r, amount)
    {
      if resources.Get(r) >= amount {
        resources := resources.With(r, resources.Get(r) - amount);
      }
    }

    method SetResource(r: Resource, amount: real)
      modifies this
      ensures resources == old(resources).With(r, amount)
    {
      resources := resources.With(r, amount);
    }

    method ResetGame()
      modifies this
      ensures resources == InitialPool
    {
      resources := InitialPool;
    }
  }

  /** Ten consecutive `tick(1000)` actions on a fresh game leave air at 80. */
  method TenTicksScenario() returns (air: real)
    ensures air == 80.0
  {
    var game := new GameState();
    var i := 0;
    while i < 10
      invariant 0 <= i <= 10
      invariant game.resources == DecayedTimes(InitialPool, i, 1000.0)
    {
      game.Tick(1000.0);
      i := i + 1;
    }
    TenSecondsOfDecay();
    air := game.resources.air;
  }
}
