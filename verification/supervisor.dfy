/** The supervisor's bookkeeping: three maps keyed by actor identity (last
    pulse, task handle, actor kind) and the factory table keyed by kind. The
    control loop's two event sources, a control message and the one-second
    sweep tick, are the methods `Handle` and `Sweep`; the current instant is
    a parameter in milliseconds. */
module Supervision {
  import opened Actors

  /** A `JoinHandle`: the task that runs one actor instance. */
  datatype Task = Task(actor: ActorId, kind: ActorType)

  /** The identity of a registered factory closure. */
  type Factory = nat

  /** An actor whose last pulse is older than this many milliseconds is dead. */
  const DeadTimeoutMs: int := 3000

  /** The handle table that goes with a kind table: one task per actor, running
      that actor as its kind. */
  function HandlesOf(kinds: map<ActorId, ActorType>): (h: map<ActorId, Task>)
    ensures h.Keys == kinds.Keys
    ensures forall id :: id in kinds ==> h[id] == Task(id, kinds[id])
  {
    map id | id in kinds :: Task(id, kinds[id])
  }

  /** Every actor with a kind has its handle and a pulse. A `Heartbeat` from an
      unknown identity may add a pulse with neither handle nor kind. */
  ghost predicate Tracked(pulses: map<ActorId, int>, handles: map<ActorId, Task>, kinds: map<ActorId, ActorType>) {
    handles == HandlesOf(kinds) && kinds.Keys <= pulses.Keys
  }

  /** The three maps have exactly the same keys. */
  ghost predicate Agree(pulses: map<ActorId, int>, handles: map<ActorId, Task>, kinds: map<ActorId, ActorType>) {
    Tracked(pulses, handles, kinds) && pulses.Keys == kinds.Keys
  }

  lemma HandlesOfPut(kinds: map<ActorId, ActorType>, id: ActorId, kind: ActorType)
    ensures HandlesOf(kinds[id := kind]) == HandlesOf(kinds)[id := Task(id, kind)]
  {
  }

  lemma HandlesOfDrop(kinds: map<ActorId, ActorType>, id: ActorId)
    ensures HandlesOf(kinds - {id}) == HandlesOf(kinds) - {id}
  {
  }

  /** The identities the sweep declares dead at instant `now`. */
  function StaleIds(pulses: map<ActorId, int>, now: int): (dead: set<ActorId>)
    ensures dead <= pulses.Keys
    ensures forall id :: id in pulses && pulses[id] < now - DeadTimeoutMs ==> id in dead
    ensures forall id :: id in dead ==> pulses[id] < now - DeadTimeoutMs
  {
    set id | id in pulses && pulses[id] < now - DeadTimeoutMs
  }

  /** When the maps agree, every stale identity has a kind, so the sweep's
      lookup `actor_types[&invalid_id]` cannot panic. */
  lemma AgreeMakesSweepSafe(pulses: map<ActorId, int>, handles: map<ActorId, Task>, kinds: map<ActorId, ActorType>, now: int)
    requires Agree(pulses, handles, kinds)
    ensures StaleIds(pulses, now) <= kinds.Keys
  {
  }

  /** A heartbeat from an identity that is not tracked leaves a pulse without
      a kind; once that pulse is stale, the sweep would index a missing key. */
  lemma UntrackedHeartbeatBreaksSweep(pulses: map<ActorId, int>, handles: map<ActorId, Task>, kinds: map<ActorId, ActorType>, id: ActorId, beat: int, now: int)
    requires Agree(pulses, handles, kinds)
    requires id !in kinds && now - DeadTimeoutMs > beat
    ensures !Agree(pulses[id := beat], handles, kinds)
    ensures !(StaleIds(pulses[id := beat], now) <= kinds.Keys)
  {
    assert id in StaleIds(pulses[id := beat], now);
  }

  /** No two identities share a replacement. */
  ghost predicate Injective(repl: map<ActorId, ActorId>) {
    forall d, e :: d in repl && e in repl && d != e ==> repl[d] != repl[e]
  }

  /** The kinds table that `initialize_actors` builds from the list of
      `(kind, identity)` pairs it collected from the factories, in list order. */
  function Started(actors: seq<(ActorType, ActorId)>): (m: map<ActorId, ActorType>)
    ensures m.Keys == set i | 0 <= i < |actors| :: actors[i].1
  {
    if actors == [] then map[]
    else Started(actors[..|actors| - 1])[actors[|actors| - 1].1 := actors[|actors| - 1].0]
  }

  /** Distinct instances: no identity is built twice. */
  ghost predicate DistinctIds(actors: seq<(ActorType, ActorId)>) {
    forall i, j :: 0 <= i < j < |actors| ==> actors[i].1 != actors[j].1
  }

  /** With distinct identities, every started instance is filed under its own kind. */
  lemma {:induction false} StartedKinds(actors: seq<(ActorType, ActorId)>)
    requires DistinctIds(actors)
    ensures forall i :: 0 <= i < |actors| ==> Started(actors)[actors[i].1] == actors[i].0
  {
    if actors != [] {
      var init := actors[..|actors| - 1];
      StartedKinds(init);
      forall i | 0 <= i < |actors| ensures Started(actors)[actors[i].1] == actors[i].0 {
        if i < |actors| - 1 {
          assert init[i] == actors[i];
        }
      }
    }
  }

  /** No kind is listed twice. */
  ghost predicate DistinctKinds(actors: seq<(ActorType, ActorId)>) {
    forall i, j :: 0 <= i < j < |actors| ==> actors[i].0 != actors[j].0
  }

  /** One instance per listed kind: two started actors of the same kind are the same actor. */
  lemma StartedOnePerKind(actors: seq<(ActorType, ActorId)>)
    requires DistinctIds(actors) && DistinctKinds(actors)
    ensures var m := Started(actors);
      forall a, b :: a in m && b in m && m[a] == m[b] ==> a == b
  {
    var m := Started(actors);
    StartedKinds(actors);
    forall a, b | a in m && b in m && m[a] == m[b] ensures a == b {
      var i :| 0 <= i < |actors| && actors[i].1 == a;
      var j :| 0 <= j < |actors| && actors[j].1 == b;
      assert actors[i].0 == actors[j].0;
    }
  }

  /** The value `now` for every identity in `ids`. */
  function Stamp(ids: set<ActorId>, now: int): (m: map<ActorId, int>)
    ensures m.Keys == ids && forall d :: d in ids ==> m[d] == now
  {
    map d | d in ids :: now
  }

  lemma StampPut(ids: set<ActorId>, id: ActorId, now: int)
    ensures Stamp(ids + {id}, now) == Stamp(ids, now)[id := now]
  {
  }

  lemma MergePut<K, V>(m: map<K, V>, born: map<K, V>, k: K, v: V)
    ensures (m + born)[k := v] == m + born[k := v]
  {
  }

  /** The two tables the sweep rewrites; the handle table follows the kinds. */
  datatype Tables = Tables(pulses: map<ActorId, int>, kinds: map<ActorId, ActorType>)

  /** The sweep's treatment of one dead identity `d`: when its kind has a
      factory, the replacement `repl[d]` is started with that kind and a fresh
      pulse; then `d` is forgotten. */
  function RetireOne(t: Tables, d: ActorId, repl: map<ActorId, ActorId>, factories: map<ActorType, Factory>, now: int): (r: Tables)
    ensures d !in r.kinds && d !in r.pulses
  {
    if d in t.kinds && t.kinds[d] in factories && d in repl then
      var next := repl[d];
      Tables(t.pulses[next := now] - {d}, t.kinds[next := t.kinds[d]] - {d})
    else
      Tables(t.pulses - {d}, t.kinds - {d})
  }

  /** Whether retiring `d` starts a replacement. */
  predicate Restarts(t: Tables, d: ActorId, repl: map<ActorId, ActorId>, factories: map<ActorType, Factory>) {
    d in t.kinds && t.kinds[d] in factories && d in repl
  }

  /** Retiring `d` touches `d` and, when it restarts, its replacement; every
      other entry of both tables stays as it was. */
  lemma RetireOneFrame(t: Tables, d: ActorId, repl: map<ActorId, ActorId>, factories: map<ActorType, Factory>, now: int, id: ActorId)
    requires id != d && !(Restarts(t, d, repl, factories) && id == repl[d])
    ensures var r := RetireOne(t, d, repl, factories, now);
      && (id in r.kinds <==> id in t.kinds) && (id in r.kinds ==> r.kinds[id] == t.kinds[id])
      && (id in r.pulses <==> id in t.pulses) && (id in r.pulses ==> r.pulses[id] == t.pulses[id])
  {
  }

  /** A restarted actor's replacement has its kind and a pulse stamped `now`. */
  lemma RetireOneBorn(t: Tables, d: ActorId, repl: map<ActorId, ActorId>, factories: map<ActorType, Factory>, now: int)
    requires Restarts(t, d, repl, factories) && repl[d] != d
    ensures var r := RetireOne(t, d, repl, factories, now);
      repl[d] in r.kinds && r.kinds[repl[d]] == t.kinds[d] && repl[d] in r.pulses && r.pulses[repl[d]] == now
  {
  }

  /** The dead identities retired one after another, in list order. */
  function RetireSeq(t: Tables, dead: seq<ActorId>, repl: map<ActorId, ActorId>, factories: map<ActorType, Factory>, now: int): Tables {
    if dead == [] then t
    else RetireOne(RetireSeq(t, dead[..|dead| - 1], repl, factories, now), dead[|dead| - 1], repl, factories, now)
  }

  /** No identity is listed twice. */
  ghost predicate Distinct(ids: seq<ActorId>) {
    forall i, j :: 0 <= i < j < |ids| ==> ids[i] != ids[j]
  }

  /** Facts about the list without its last identity. */
  lemma InitOf(dead: seq<ActorId>)
    requires dead != []
    ensures var init := dead[..|dead| - 1];
      && (forall k :: 0 <= k < |init| ==> init[k] == dead[k])
      && (forall id :: id !in dead ==> id !in init)
      && (Distinct(dead) ==> Distinct(init) && dead[|dead| - 1] !in init)
  {
    var init := dead[..|dead| - 1];
    forall id | id in init ensures id in dead {
      var k :| 0 <= k < |init| && init[k] == id;
      assert dead[k] == id;
    }
  }

  /** An identity that is not (yet) retired keeps its kind entry; the sweep's
      lookup of the next dead identity therefore finds it. */
  lemma {:induction false} RetireSeqKeeps(t: Tables, dead: seq<ActorId>, repl: map<ActorId, ActorId>, factories: map<ActorType, Factory>, now: int, id: ActorId)
    requires id in t.kinds && id !in dead
    ensures id in RetireSeq(t, dead, repl, factories, now).kinds
  {
    if dead != [] {
      InitOf(dead);
      RetireSeqKeeps(t, dead[..|dead| - 1], repl, factories, now, id);
    }
  }

  /** The conditions under which the sweep's outcome can be read off: the
      listed dead are distinct and tracked, every restartable one has a
      replacement, and the replacements are fresh and pairwise different. */
  ghost predicate SweepReady(t: Tables, dead: seq<ActorId>, repl: map<ActorId, ActorId>, factories: map<ActorType, Factory>) {
    && Distinct(dead)
    && t.kinds.Keys <= t.pulses.Keys
    && (forall i :: 0 <= i < |dead| ==> dead[i] in t.kinds)
    && (forall i :: 0 <= i < |dead| && t.kinds[dead[i]] in factories ==> dead[i] in repl)
    && Injective(repl)
    && (forall d :: d in repl ==> repl[d] !in t.pulses)
  }

  lemma SweepReadyInit(t: Tables, dead: seq<ActorId>, repl: map<ActorId, ActorId>, factories: map<ActorType, Factory>)
    requires dead != [] && SweepReady(t, dead, repl, factories)
    ensures SweepReady(t, dead[..|dead| - 1], repl, factories)
  {
    InitOf(dead);
  }

  /** Every actor that was not listed dead keeps its pulse and its kind. */
  lemma {:induction false} RetireSeqOthers(t: Tables, dead: seq<ActorId>, repl: map<ActorId, ActorId>, factories: map<ActorType, Factory>, now: int, id: ActorId)
    requires SweepReady(t, dead, repl, factories) && id in t.pulses && id !in dead
    ensures var r := RetireSeq(t, dead, repl, factories, now);
      && id in r.pulses && r.pulses[id] == t.pulses[id]
      && (id in t.kinds ==> id in r.kinds && r.kinds[id] == t.kinds[id])
  {
    if dead != [] {
      var init, d := dead[..|dead| - 1], dead[|dead| - 1];
      InitOf(dead);
      SweepReadyInit(t, dead, repl, factories);
      RetireSeqOthers(t, init, repl, factories, now, id);
      var m := RetireSeq(t, init, repl, factories, now);
      assert d in repl ==> repl[d] != id;
      RetireOneFrame(m, d, repl, factories, now, id);
    }
  }

  /** Every listed dead actor is gone from both tables. */
  lemma {:induction false} RetireSeqGone(t: Tables, dead: seq<ActorId>, repl: map<ActorId, ActorId>, factories: map<ActorType, Factory>, now: int, i: int)
    requires SweepReady(t, dead, repl, factories) && 0 <= i < |dead|
    ensures var r := RetireSeq(t, dead, repl, factories, now);
      dead[i] !in r.pulses && dead[i] !in r.kinds
  {
    var init, d := dead[..|dead| - 1], dead[|dead| - 1];
    if i < |dead| - 1 {
      InitOf(dead);
      SweepReadyInit(t, dead, repl, factories);
      RetireSeqGone(t, init, repl, factories, now, i);
      var m := RetireSeq(t, init, repl, factories, now);
      assert dead[i] == init[i] && dead[i] != d && dead[i] in t.pulses;
      assert d in repl ==> repl[d] != dead[i];
      RetireOneFrame(m, d, repl, factories, now, dead[i]);
    }
  }

  /** Each listed dead actor whose kind has a factory is replaced by an actor
      of the same kind with a pulse stamped `now`. */
  lemma {:induction false} RetireSeqReborn(t: Tables, dead: seq<ActorId>, repl: map<ActorId, ActorId>, factories: map<ActorType, Factory>, now: int, i: int)
    requires SweepReady(t, dead, repl, factories) && 0 <= i < |dead| && t.kinds[dead[i]] in factories
    ensures var r := RetireSeq(t, dead, repl, factories, now);
      && repl[dead[i]] in r.kinds && r.kinds[repl[dead[i]]] == t.kinds[dead[i]]
      && repl[dead[i]] in r.pulses && r.pulses[repl[dead[i]]] == now
  {
    var init, d := dead[..|dead| - 1], dead[|dead| - 1];
    InitOf(dead);
    SweepReadyInit(t, dead, repl, factories);
    var m := RetireSeq(t, init, repl, factories, now);
    assert d in t.pulses && repl[dead[i]] !in t.pulses;
    if i == |dead| - 1 {
      RetireSeqOthers(t, init, repl, factories, now, d);
      RetireOneBorn(m, d, repl, factories, now);
    } else {
      assert init[i] == dead[i] && dead[i] != d;
      RetireSeqReborn(t, init, repl, factories, now, i);
      RetireOneFrame(m, d, repl, factories, now, repl[dead[i]]);
    }
  }

  /** The replacements started for the restartable identities of `dead`. */
  ghost function Reborn(t: Tables, dead: seq<ActorId>, repl: map<ActorId, ActorId>, factories: map<ActorType, Factory>): (r: set<ActorId>)
    ensures forall i :: 0 <= i < |dead| && dead[i] in t.kinds && t.kinds[dead[i]] in factories && dead[i] in repl ==> repl[dead[i]] in r
  {
    set i | 0 <= i < |dead| && dead[i] in t.kinds && t.kinds[dead[i]] in factories && dead[i] in repl :: repl[dead[i]]
  }

  lemma RebornInit(t: Tables, dead: seq<ActorId>, repl: map<ActorId, ActorId>, factories: map<ActorType, Factory>)
    requires dead != []
    ensures Reborn(t, dead[..|dead| - 1], repl, factories) <= Reborn(t, dead, repl, factories)
  {
    InitOf(dead);
  }

  /** Nothing but survivors and replacements is in the tables after the sweep. */
  lemma {:induction false} RetireSeqOnly(t: Tables, dead: seq<ActorId>, repl: map<ActorId, ActorId>, factories: map<ActorType, Factory>, now: int, id: ActorId)
    requires SweepReady(t, dead, repl, factories)
    ensures var r := RetireSeq(t, dead, repl, factories, now);
      && (id in r.pulses ==> (id in t.pulses && id !in dead) || id in Reborn(t, dead, repl, factories))
      && (id in r.kinds ==> (id in t.kinds && id !in dead) || id in Reborn(t, dead, repl, factories))
  {
    if dead != [] {
      var init, d := dead[..|dead| - 1], dead[|dead| - 1];
      InitOf(dead);
      SweepReadyInit(t, dead, repl, factories);
      var m := RetireSeq(t, init, repl, factories, now);
      RebornInit(t, dead, repl, factories);
      if id == d {
      } else if Restarts(m, d, repl, factories) && id == repl[d] {
        RetireSeqOthers(t, init, repl, factories, now, d);
        assert repl[d] in Reborn(t, dead, repl, factories);
      } else {
        RetireOneFrame(m, d, repl, factories, now, id);
        RetireSeqOnly(t, init, repl, factories, now, id);
      }
    }
  }

  /** What one sweep leaves behind: the dead are gone from both tables, each
      dead actor whose kind has a factory has a replacement of the same kind
      with a fresh pulse, every other actor keeps its pulse and kind, and
      nothing else is added. */
  lemma SweepOutcome(t: Tables, dead: seq<ActorId>, repl: map<ActorId, ActorId>, factories: map<ActorType, Factory>, now: int)
    requires SweepReady(t, dead, repl, factories)
    ensures var r := RetireSeq(t, dead, repl, factories, now);
      && (forall i :: 0 <= i < |dead| ==> dead[i] !in r.pulses && dead[i] !in r.kinds)
      && (forall id :: id in t.pulses && id !in dead ==> id in r.pulses && r.pulses[id] == t.pulses[id])
      && (forall id :: id in t.kinds && id !in dead ==> id in r.kinds && r.kinds[id] == t.kinds[id])
      && (forall i :: 0 <= i < |dead| && t.kinds[dead[i]] in factories ==>
            && repl[dead[i]] in r.kinds && r.kinds[repl[dead[i]]] == t.kinds[dead[i]]
            && repl[dead[i]] in r.pulses && r.pulses[repl[dead[i]]] == now)
      && (forall id :: id in r.pulses ==> (id in t.pulses && id !in dead) || id in Reborn(t, dead, repl, factories))
      && (forall id :: id in r.kinds ==> (id in t.kinds && id !in dead) || id in Reborn(t, dead, repl, factories))
  {
    var r := RetireSeq(t, dead, repl, factories, now);
    forall i | 0 <= i < |dead| ensures dead[i] !in r.pulses && dead[i] !in r.kinds {
      RetireSeqGone(t, dead, repl, factories, now, i);
    }
    forall id | id in t.pulses && id !in dead ensures id in r.pulses && r.pulses[id] == t.pulses[id] {
      RetireSeqOthers(t, dead, repl, factories, now, id);
    }
    forall id | id in t.kinds && id !in dead ensures id in r.kinds && r.kinds[id] == t.kinds[id] {
      RetireSeqOthers(t, dead, repl, factories, now, id);
    }
    forall i | 0 <= i < |dead| && t.kinds[dead[i]] in factories
      ensures && repl[dead[i]] in r.kinds && r.kinds[repl[dead[i]]] == t.kinds[dead[i]]
              && repl[dead[i]] in r.pulses && r.pulses[repl[dead[i]]] == now
    {
      RetireSeqReborn(t, dead, repl, factories, now, i);
    }
    forall id | id in r.pulses || id in r.kinds
      ensures && (id in r.pulses ==> (id in t.pulses && id !in dead) || id in Reborn(t, dead, repl, factories))
              && (id in r.kinds ==> (id in t.kinds && id !in dead) || id in Reborn(t, dead, repl, factories))
    {
      RetireSeqOnly(t, dead, repl, factories, now, id);
    }
  }

  /** The kind `Dynamic` is never registered, so a dead one-shot actor is
      removed and nothing takes its place. */
  lemma DynamicNeverRestarted(t: Tables, d: ActorId, repl: map<ActorId, ActorId>, factories: map<ActorType, Factory>, now: int)
    requires d in t.kinds && t.kinds[d] == Dynamic && Dynamic !in factories
    ensures RetireOne(t, d, repl, factories, now) == Tables(t.pulses - {d}, t.kinds - {d})
  {
  }

  class Supervisor {
    var factories: map<ActorType, Factory>
    var pulses: map<ActorId, int>
    var handles: map<ActorId, Task>
    var actorTypes: map<ActorId, ActorType>
    /** Every task whose handle has been aborted. */
    var aborted: set<Task>

    ghost predicate Valid()
      reads this
    {
      Tracked(pulses, handles, actorTypes)
    }

    ghost predicate Consistent()
      reads this
    {
      Agree(pulses, handles, actorTypes)
    }

    /** `Supervisor::new` */
    constructor ()
      ensures Consistent()
      ensures factories == map[] && pulses == map[] && handles == map[] && actorTypes == map[] && aborted == {}
    {
      factories, pulses, handles, actorTypes, aborted := map[], map[], map[], map[], {};
    }

    /** `register_actor`: a second registration for a kind replaces the first. */
    method RegisterActor(kind: ActorType, factory: Factory)
      modifies this`factories
      ensures factories == old(factories)[kind := factory]
    {
      factories := factories[kind := factory];
    }

    /** `spawn_actor`: start the task and record kind, handle and a fresh pulse together. */
    method SpawnActor(id: ActorId, kind: ActorType, now: int)
      requires Valid()
      modifies this`pulses, this`handles, this`actorTypes
      ensures Valid()
      ensures actorTypes == old(actorTypes)[id := kind]
      ensures handles == old(handles)[id := Task(id, kind)]
      ensures pulses == old(pulses)[id := now]
      ensures old(Consistent()) ==> Consistent()
    {
      HandlesOfPut(actorTypes, id, kind);
      actorTypes := actorTypes[id := kind];
      handles := handles[id := Task(id, kind)];
      pulses := pulses[id := now];
    }

    /** `initialize_actors`: one instance per registered kind. `actors` lists
        the pairs `(kind, identity of the instance its factory built)` in the
        order the factory table is walked. */
    method InitializeActors(actors: seq<(ActorType, ActorId)>, now: int)
      requires Valid()
      requires DistinctKinds(actors) && (set i | 0 <= i < |actors| :: actors[i].0) == factories.Keys
      modifies this`pulses, this`handles, this`actorTypes
      ensures Valid() && factories == old(factories)
      ensures actorTypes == old(actorTypes) + Started(actors)
      ensures pulses == old(pulses) + Stamp(Started(actors).Keys, now)
      ensures old(Consistent()) ==> Consistent()
    {
      ghost var p0, k0 := pulses, actorTypes;
      var i := 0;
      while i < |actors|
        invariant Valid() && 0 <= i <= |actors|
        invariant actorTypes == k0 + Started(actors[..i])
        invariant pulses == p0 + Stamp(Started(actors[..i]).Keys, now)
        invariant old(Consistent()) ==> Consistent()
      {
        var (kind, id) := actors[i];
        assert actors[..i + 1][..i] == actors[..i];
        assert Started(actors[..i + 1]) == Started(actors[..i])[id := kind];
        assert Started(actors[..i + 1]).Keys == Started(actors[..i]).Keys + {id};
        StampPut(Started(actors[..i]).Keys, id, now);
        MergePut(k0, Started(actors[..i]), id, kind);
        MergePut(p0, Stamp(Started(actors[..i]).Keys, now), id, now);
        SpawnActor(id, kind, now);
        i := i + 1;
      }
      assert actors[..i] == actors;
    }

    /** One control message, handled at instant `now`. */
    method Handle(msg: ControlMessage, now: int)
      requires Valid()
      modifies this`pulses, this`handles, this`actorTypes, this`aborted
      ensures Valid() && factories == old(factories)
      ensures msg.Spawn? ==>
        && actorTypes == old(actorTypes)[msg.actor := Dynamic]
        && handles == old(handles)[msg.actor := Task(msg.actor, Dynamic)]
        && pulses == old(pulses)[msg.actor := now]
        && aborted == old(aborted)
      ensures (msg.Heartbeat? || msg.Error?) ==>
        && pulses == old(pulses)[msg.id := now]
        && actorTypes == old(actorTypes) && handles == old(handles) && aborted == old(aborted)
      ensures msg.Shutdown? ==>
        && pulses == old(pulses) - {msg.id}
        && actorTypes == old(actorTypes) - {msg.id}
        && handles == old(handles) - {msg.id}
        && aborted == old(aborted) + (if msg.id in old(handles) then {old(handles)[msg.id]} else {})
      ensures old(Consistent()) && (msg.Spawn? || msg.Shutdown?) ==> Consistent()
      ensures old(Consistent()) && (msg.Heartbeat? || msg.Error?) ==> (Consistent() <==> msg.id in old(actorTypes))
    {
      match msg {
        case Spawn(actor) =>
          SpawnActor(actor, Dynamic, now);
        case Heartbeat(id) =>
          pulses := pulses[id := now];
        case Shutdown(id) =>
          HandlesOfDrop(actorTypes, id);
          pulses := pulses - {id};
          actorTypes := actorTypes - {id};
          if id in handles {
            aborted := aborted + {handles[id]};
          }
          handles := handles - {id};
        case Error(id, _) =>
          pulses := pulses[id := now];
      }
    }

    /** The body of the sweep's second loop for one dead identity `d`: start
        its replacement `next` if its kind has a factory, then forget `d`. */
    method Retire(d: ActorId, next: ActorId, now: int)
      requires Valid() && d in actorTypes
      modifies this`pulses, this`handles, this`actorTypes
      ensures Valid()
      ensures var kind := old(actorTypes)[d];
        if kind in factories then
          && actorTypes == old(actorTypes)[next := kind] - {d}
          && pulses == old(pulses)[next := now] - {d}
        else
          && actorTypes == old(actorTypes) - {d}
          && pulses == old(pulses) - {d}
      ensures old(Consistent()) ==> Consistent()
    {
      var kind := actorTypes[d];
      if kind in factories {
        SpawnActor(next, kind, now);
      }
      HandlesOfDrop(actorTypes, d);
      pulses := pulses - {d};
      handles := handles - {d};
      actorTypes := actorTypes - {d};
    }

    /** The periodic sweep at instant `now`: every actor whose pulse is stale
        is listed in `dead` and its handle aborted, then each listed actor is
        retired in turn. `repl[d]` is the identity of the fresh instance that
        the factory builds for dead actor `d`. */
    method Sweep(now: int, repl: map<ActorId, ActorId>) returns (dead: seq<ActorId>)
      requires Valid()
      requires StaleIds(pulses, now) <= actorTypes.Keys
      requires forall d :: d in StaleIds(pulses, now) && actorTypes[d] in factories ==> d in repl
      modifies this`pulses, this`handles, this`actorTypes, this`aborted
      ensures Valid() && factories == old(factories)
      ensures Distinct(dead) && (set d | d in dead) == StaleIds(old(pulses), now)
      ensures aborted == old(aborted) + (set d | d in dead && d in old(handles) :: old(handles)[d])
      ensures Tables(pulses, actorTypes) == RetireSeq(Tables(old(pulses), old(actorTypes)), dead, repl, factories, now)
      ensures old(Consistent()) ==> Consistent()
    {
      dead := CollectDead(now);
      RetireAll(dead, repl, now);
    }

    /** The sweep's first loop: walk the pulse table, list each stale
        identity and abort its handle. */
    method CollectDead(now: int) returns (dead: seq<ActorId>)
      modifies this`aborted
      ensures Distinct(dead) && (set d | d in dead) == StaleIds(pulses, now)
      ensures aborted == old(aborted) + (set d | d in dead && d in handles :: handles[d])
    {
      dead := [];
      var keys := pulses.Keys;
      while keys != {}
        invariant keys <= pulses.Keys && Distinct(dead)
        invariant forall d :: d in dead ==> d !in keys
        invariant (set d | d in dead) == StaleIds(pulses, now) - keys
        invariant aborted == old(aborted) + (set d | d in dead && d in handles :: handles[d])
        decreases keys
      {
        var key :| key in keys;
        ghost var listed := set d | d in dead;
        if pulses[key] < now - DeadTimeoutMs {
          assert key !in dead;
          dead := dead + [key];
          assert (set d | d in dead) == listed + {key};
          if key in handles {
            aborted := aborted + {handles[key]};
          }
          assert StaleIds(pulses, now) - (keys - {key}) == (StaleIds(pulses, now) - keys) + {key};
        } else {
          assert StaleIds(pulses, now) - (keys - {key}) == StaleIds(pulses, now) - keys;
        }
        keys := keys - {key};
      }
    }

    /** The sweep's second loop: the listed identities are retired in order. */
    method RetireAll(dead: seq<ActorId>, repl: map<ActorId, ActorId>, now: int)
      requires Valid() && Distinct(dead)
      requires forall i :: 0 <= i < |dead| ==> dead[i] in actorTypes
      requires forall i :: 0 <= i < |dead| && actorTypes[dead[i]] in factories ==> dead[i] in repl
      modifies this`pulses, this`handles, this`actorTypes
      ensures Valid()
      ensures Tables(pulses, actorTypes) == RetireSeq(Tables(old(pulses), old(actorTypes)), dead, repl, factories, now)
      ensures old(Consistent()) ==> Consistent()
    {
      ghost var t0 := Tables(pulses, actorTypes);
      var i := 0;
      while i < |dead|
        invariant Valid() && 0 <= i <= |dead|
        invariant Tables(pulses, actorTypes) == RetireSeq(t0, dead[..i], repl, factories, now)
        invariant old(Consistent()) ==> Consistent()
      {
        var d := dead[i];
        assert d !in dead[..i];
        RetireSeqKeeps(t0, dead[..i], repl, factories, now, d);
        var next := d;
        if actorTypes[d] in factories && d in repl {
          next := repl[d];
        }
        Retire(d, next, now);
        assert dead[..i + 1][..i] == dead[..i];
        i := i + 1;
      }
      assert dead[..i] == dead;
    }
  }
}
