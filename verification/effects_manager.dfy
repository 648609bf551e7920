/** The effect object pool: one FIFO queue of reusable effect objects per
  * effect name. Game objects are opaque ids minted from a counter; prefabs,
  * particles and sounds are not modelled. */
module EffectsManager {
  import opened Wrappers

  type Obj = nat

  datatype Effects = Effects(pools: map<string, seq<Obj>>, nextObj: Obj)

  /** Largest number of idle objects a pool keeps. */
  const MaxPoolSize := 5
  /** Objects created when a pool is first set up. */
  const PreCreated := 2

  const EffectNames := ["WallBreak", "TrapTrigger", "HitEffect", "DeathEffect"]

  /** The manager before `Init`. */
  const Fresh := Effects(map[], 0)

  /** No pool holds more than the maximum. */
  predicate Bounded(e: Effects) {
    forall n :: n in e.pools ==> |e.pools[n]| <= MaxPoolSize
  }

  /** `CreateEffectInstance`: the new object is the counter's value, and the
    * counter advances. */
  function CreateEffectInstance(e: Effects): (res: (Obj, Effects))
    ensures res.0 == e.nextObj && res.1.nextObj == e.nextObj + 1 && res.1.pools == e.pools
  {
    (e.nextObj, e.(nextObj := e.nextObj + 1))
  }

  /** `InitEffectPool`: a known name changes nothing; a new name gets an empty
    * queue, and the two objects created for it are dropped instead of being
    * enqueued. */
  function InitEffectPool(e: Effects, name: string): (r: Effects)
    ensures name in e.pools ==> r == e
    ensures name !in e.pools ==>
      r.pools == e.pools[name := []] && r.nextObj == e.nextObj + PreCreated
    ensures name in r.pools && r.nextObj >= e.nextObj
    ensures forall n :: n in e.pools ==> n in r.pools && r.pools[n] == e.pools[n]
    ensures Bounded(e) ==> Bounded(r)
  {
    if name in e.pools then e
    else
      var withQueue := e.(pools := e.pools[name := []]);
      var (_, a) := CreateEffectInstance(withQueue);
      var (_, b) := CreateEffectInstance(a);
      b
  }

  /** The objects created for a new pool never reach it: the first get after
    * setting the pool up creates a third object instead of handing out one of
    * the two made for it. */
  lemma PreCreatedObjectsLost(e: Effects, name: string)
    requires name !in e.pools
    ensures var r := InitEffectPool(e, name);
      && r.pools[name] == []
      && GetEffectFromPool(r, name).0 == e.nextObj + PreCreated
      && GetEffectFromPool(r, name).1.nextObj == e.nextObj + PreCreated + 1
  {
  }

  /** `InitEffectPool` with the two objects it creates enqueued: a known name
    * changes nothing, a new name gets a queue holding two fresh objects. The
    * rest of the model follows the code and does not use it. */
  function InitEffectPoolFilled(e: Effects, name: string): (r: Effects)
    ensures name in e.pools ==> r == e
    ensures name !in e.pools ==>
      r.pools == e.pools[name := [e.nextObj, e.nextObj + 1]] && r.nextObj == e.nextObj + PreCreated
    ensures name in r.pools && r.nextObj >= e.nextObj
    ensures forall n :: n in e.pools ==> n in r.pools && r.pools[n] == e.pools[n]
    ensures Bounded(e) ==> Bounded(r)
  {
    if name in e.pools then e
    else
      var (a, e1) := CreateEffectInstance(e);
      var (b, e2) := CreateEffectInstance(e1);
      e2.(pools := e.pools[name := [a, b]])
  }

  /** With the objects enqueued, the first get after setting a pool up hands
    * out the first pre-created object and creates nothing. */
  lemma PreCreatedObjectsServed(e: Effects, name: string)
    requires name !in e.pools
    ensures var r := InitEffectPoolFilled(e, name);
      && GetEffectFromPool(r, name).0 == e.nextObj
      && GetEffectFromPool(r, name).1.nextObj == r.nextObj
      && GetEffectFromPool(r, name).1.pools[name] == [e.nextObj + 1]
  {
  }

  /** `EffectsManager.Init`: the four named pools. */
  function Init(e: Effects): (r: Effects)
    ensures forall i :: 0 <= i < |EffectNames| ==> EffectNames[i] in r.pools
    ensures forall i :: 0 <= i < |EffectNames| && EffectNames[i] !in e.pools ==> r.pools[EffectNames[i]] == []
    ensures forall n :: n in e.pools ==> n in r.pools && r.pools[n] == e.pools[n]
    ensures Bounded(e) ==> Bounded(r)
  {
    InitEffectPool(InitEffectPool(InitEffectPool(InitEffectPool(e, EffectNames[0]), EffectNames[1]), EffectNames[2]), EffectNames[3])
  }

  /** `GetEffectFromPool`: an unknown name first gets its pool; a non-empty
    * pool hands out its oldest object, an empty one stays empty and a new
    * object is created. */
  function GetEffectFromPool(e: Effects, name: string): (res: (Obj, Effects))
    ensures name in res.1.pools
    ensures forall n :: n != name && n in e.pools ==> n in res.1.pools && res.1.pools[n] == e.pools[n]
    ensures forall n :: n in res.1.pools ==> n == name || n in e.pools
    ensures name in e.pools && |e.pools[name]| > 0 ==>
      res.0 == e.pools[name][0] && res.1.pools[name] == e.pools[name][1..] && res.1.nextObj == e.nextObj
    ensures name in e.pools && |e.pools[name]| == 0 ==>
      res.1.pools[name] == [] && res.0 == e.nextObj && res.1.nextObj == e.nextObj + 1
    ensures name !in e.pools ==>
      res.0 == e.nextObj + PreCreated && res.1.pools[name] == [] && res.1.nextObj == e.nextObj + PreCreated + 1
  {
    var e1 := if name !in e.pools then InitEffectPool(e, name) else e;
    var pool := e1.pools[name];
    if |pool| > 0 then (pool[0], e1.(pools := e1.pools[name := pool[1..]]))
    else CreateEffectInstance(e1)
  }

  /** `ReturnToPool`: a missing object or an unknown name changes nothing; a
    * full pool discards the object; otherwise it joins the back of the queue. */
  function ReturnToPool(e: Effects, obj: Option<Obj>, name: string): (r: Effects)
    ensures obj.None? || name !in e.pools ==> r == e
    ensures obj.Some? && name in e.pools && |e.pools[name]| >= MaxPoolSize ==> r == e
    ensures obj.Some? && name in e.pools && |e.pools[name]| < MaxPoolSize ==>
      r.pools == e.pools[name := e.pools[name] + [obj.value]] && r.nextObj == e.nextObj
    ensures Bounded(e) ==> Bounded(r)
  {
    if obj.None? || name !in e.pools then e
    else
      var pool := e.pools[name];
      if |pool| >= MaxPoolSize then e
      else e.(pools := e.pools[name := pool + [obj.value]])
  }

  /** Getting from a pool never makes it grow. */
  lemma GetKeepsBounded(e: Effects, name: string)
    requires Bounded(e)
    ensures Bounded(GetEffectFromPool(e, name).1)
  {
    var r := GetEffectFromPool(e, name).1;
    forall n | n in r.pools ensures |r.pools[n]| <= MaxPoolSize {
      if n != name {
        assert n in e.pools;
      }
    }
  }

  /** An object returned to an empty pool is the next one handed out. */
  lemma ReturnThenGet(e: Effects, obj: Obj, name: string)
    requires name in e.pools && e.pools[name] == []
    ensures var r := ReturnToPool(e, Some(obj), name);
      GetEffectFromPool(r, name).0 == obj && GetEffectFromPool(r, name).1 == e
  {
  }

  /** Setting up a fresh manager gives the four named pools, all empty, after
    * eight objects have been created and dropped. */
  lemma InitFromFresh()
    ensures Init(Fresh).pools == map[EffectNames[0] := [], EffectNames[1] := [], EffectNames[2] := [], EffectNames[3] := []]
    ensures Init(Fresh).nextObj == 4 * PreCreated
  {
  }

  /** Setting the pools up twice is the same as once. */
  lemma InitIdempotent(e: Effects)
    ensures Init(Init(e)) == Init(e)
  {
  }

  /** What the pool's users do. */
  datatype Op = Get(name: string) | Return(obj: Option<Obj>, name: string) | Setup(name: string)

  function Step(e: Effects, op: Op): Effects {
    match op
    case Get(n) => GetEffectFromPool(e, n).1
    case Return(o, n) => ReturnToPool(e, o, n)
    case Setup(n) => InitEffectPool(e, n)
  }

  function Run(e: Effects, ops: seq<Op>): Effects
    decreases |ops|
  {
    if |ops| == 0 then e else Run(Step(e, ops[0]), ops[1..])
  }

  /** However objects are taken and returned, no pool ever holds more than
    * five idle objects. */
  lemma {:induction false} RunKeepsBounded(e: Effects, ops: seq<Op>)
    requires Bounded(e)
    ensures Bounded(Run(e, ops))
    decreases |ops|
  {
    if |ops| > 0 {
      if ops[0].Get? {
        GetKeepsBounded(e, ops[0].name);
      }
      RunKeepsBounded(Step(e, ops[0]), ops[1..]);
    }
  }
}
