/** `CommandsDescription`: the command registry, the pending-command log, the
    bounded cold store, the table of hot holders and the version counter, with
    the operations that drive them.

    Java object identity is explicit: every `CacheElement` lives in `heap`
    under an `ElemId`, and both the cold store and a holder refer to it by
    id. `putCache` puts the same id in both places and a holder created by
    `register` takes the id found in the cold store, so a value written
    through a holder is seen by the cold store as well.

    The state is a value and every operation is a function returning the new
    state; listener callbacks become a trace of events. */
module Engine {
  import opened Wrappers
  import opened Keys
  import opened Command
  import opened Replay

  /** The identity of a `CacheElement` object. */
  type ElemId = nat

  /** `CacheHolder`: the element (absent once invalidated) and the listeners. */
  datatype Holder<L> = Holder(elem: Option<ElemId>, listeners: seq<L>)

  /** One listener callback. */
  datatype Event<L, V> = Changed(listener: L, value: V) | Invalidated(listener: L)

  /** The fields of `CommandsDescription`, plus the heap of elements and
      the next fresh element identity. */
  datatype State<!V, !P, L> = State(
    registry: Registry<V, P>,                  // mCommands
    log: seq<Entry<V, P>>,                     // mToExecute
    cache: map<CacheKey<V>, ElemId>,           // mCache
    holders: map<CacheKey<V>, Holder<L>>,      // mHardReferenceStore
    heap: map<ElemId, Element<V, P>>,
    nextId: ElemId,
    version: nat)                              // mVersion

  /** The state after an operation, the callbacks it made, and what it returned. */
  datatype Step<!V, !P, L, R> = Step(state: State<V, P, L>, events: seq<Event<L, V>>, result: R)

  /** A new `CommandsDescription`: nothing registered, logged or stored, `mVersion == 1`. */
  function Init<V(!new), P, L>(): (s: State<V, P, L>)
    ensures s.version == 1 && s.log == [] && s.holders == map[] && s.cache == map[]
    ensures Valid(s)
  {
    State(map[], [], map[], map[], map[], 0, 1)
  }

  /** The key reaches the element, from the cold store or from its holder. */
  ghost predicate Owns<V(!new), P, L>(s: State<V, P, L>, k: CacheKey<V>, id: ElemId) {
    || (k in s.cache && s.cache[k] == id)
    || (k in s.holders && s.holders[k].elem == Some(id))
  }

  /** What every reachable state satisfies, whatever the listeners are doing. */
  ghost predicate WellFormed<V(!new), P, L>(s: State<V, P, L>) {
    && s.version >= 1
    // every logged name has a command, so `getCommand` never fails
    && Registered(s.registry, s.log)
    // log versions are distinct, ascending and below the counter
    && Ascending(s.log)
    && (forall i :: 0 <= i < |s.log| ==> s.log[i].version < s.version)
    // stored ids are live, and element watermarks never run ahead of the counter
    && (forall k :: k in s.cache ==> s.cache[k] in s.heap)
    && (forall k :: k in s.holders && s.holders[k].elem.Some? ==> s.holders[k].elem.value in s.heap)
    && (forall id :: id in s.heap ==> id < s.nextId && s.heap[id].version <= s.version)
    // a holder lives exactly as long as it has a listener
    && (forall k :: k in s.holders ==> |s.holders[k].listeners| > 0)
    // an element object is reachable from one key only
    && (forall k1, k2, id :: Owns(s, k1, id) && Owns(s, k2, id) ==> k1 == k2)
  }

  /** Every present hot element has absorbed the whole log. */
  ghost predicate HotCaughtUp<V(!new), P, L>(s: State<V, P, L>) {
    forall k :: k in s.holders && s.holders[k].elem.Some? && s.holders[k].elem.value in s.heap ==>
      CaughtUp(s.log, s.heap[s.holders[k].elem.value])
  }

  /** The invariant the operations preserve. */
  ghost predicate Valid<V(!new), P, L>(s: State<V, P, L>) {
    WellFormed(s) && HotCaughtUp(s)
  }

  /** The element `recalculate` is handed: the holder's, or the cold one when there is no holder. */
  ghost predicate Located<V(!new), P, L>(s: State<V, P, L>, key: CacheKey<V>, id: ElemId) {
    && id in s.heap
    && (if key in s.holders then s.holders[key].elem == Some(id)
        else key in s.cache && s.cache[key] == id)
  }

  /** Nothing an operation changes is visible through key k. */
  ghost predicate Untouched<V(!new), P, L>(s: State<V, P, L>, t: State<V, P, L>, k: CacheKey<V>) {
    && (k in s.holders <==> k in t.holders)
    && (k in s.holders ==> t.holders[k] == s.holders[k])
    && (k in s.cache <==> k in t.cache)
    && (k in s.cache ==> t.cache[k] == s.cache[k])
    && (forall id :: Owns(s, k, id) && id in s.heap ==> id in t.heap && t.heap[id] == s.heap[id])
  }

  /** Registry, log, holder table and listener lists are as they were. */
  ghost predicate Frame<V(!new), P, L>(s: State<V, P, L>, t: State<V, P, L>) {
    && t.registry == s.registry
    && t.log == s.log
    && t.nextId == s.nextId
    && t.holders.Keys == s.holders.Keys
    && (forall k :: k in s.holders ==> t.holders[k].listeners == s.holders[k].listeners)
  }

  /** `CacheHolder.onChanged`: every listener, in list order, once. */
  function ChangedAll<L, V>(ls: seq<L>, v: V): (r: seq<Event<L, V>>)
    ensures |r| == |ls|
    ensures forall i :: 0 <= i < |ls| ==> r[i] == Changed(ls[i], v)
    decreases |ls|
  {
    if ls == [] then [] else [Changed(ls[0], v)] + ChangedAll(ls[1..], v)
  }

  /** `CacheHolder.onInvalidated`: every listener, in list order, once. */
  function InvalidatedAll<L, V>(ls: seq<L>): (r: seq<Event<L, V>>)
    ensures |r| == |ls|
    ensures forall i :: 0 <= i < |ls| ==> r[i] == Invalidated(ls[i])
    decreases |ls|
  {
    if ls == [] then [] else [Invalidated(ls[0])] + InvalidatedAll(ls[1..])
  }

  /** Telling two lists in turn is telling their concatenation. */
  lemma InvalidatedAllAppend<L, V>(a: seq<L>, b: seq<L>)
    ensures InvalidatedAll<L, V>(a + b) == InvalidatedAll<L, V>(a) + InvalidatedAll<L, V>(b)
  {
    var x, y := InvalidatedAll<L, V>(a + b), InvalidatedAll<L, V>(a) + InvalidatedAll<L, V>(b);
    forall i | 0 <= i < |x| ensures x[i] == y[i] {
      if i < |a| { assert (a + b)[i] == a[i]; } else { assert (a + b)[i] == b[i - |a|]; }
    }
  }

  /** The replay `recalculate` performs on element `id`. */
  function ReplayOf<V(!new), P, L>(s: State<V, P, L>, id: ElemId): Replayed<V>
    requires WellFormed(s) && id in s.heap
  {
    Registered2(s.registry, s.log, Pending(s.log, s.heap[id]));
    Fold(s.registry, Pending(s.log, s.heap[id]), s.heap[id].obj, false)
  }

  /** Entries picked from a registered log are registered. */
  lemma Registered2<V, P>(reg: Registry<V, P>, log: seq<Entry<V, P>>, sub: seq<Entry<V, P>>)
    requires Registered(reg, log)
    requires forall i :: 0 <= i < |sub| ==> sub[i] in log
    ensures Registered(reg, sub)
  {
    forall i | 0 <= i < |sub| ensures sub[i].name in reg {
      MemberRegistered(reg, log, sub[i]);
    }
  }

  /** An entry of a registered log is registered. */
  lemma MemberRegistered<V, P>(reg: Registry<V, P>, log: seq<Entry<V, P>>, e: Entry<V, P>)
    requires Registered(reg, log) && e in log
    ensures e.name in reg
  {
    var j :| 0 <= j < |log| && log[j] == e;
  }

  /** `recalculate(key, element)`: replay the pending entries over the element.
      `INVALIDATE` empties the holder, drops the key from the cold store and
      tells every listener. Otherwise the element's version becomes the next
      counter value, and if some command updated the value and the key has a
      holder, the new value is written into the holder's element and every
      listener is told. Without a holder the version still advances but the
      new value is not written anywhere. */
  function Recalculate<V(!new), P, L>(s: State<V, P, L>, key: CacheKey<V>, id: ElemId): (r: Step<V, P, L, Option<ElemId>>)
    requires WellFormed(s)
    requires Located(s, key, id)
    ensures WellFormed(r.state)
    ensures Frame(s, r.state)
    ensures forall k :: k != key ==> Untouched(s, r.state, k)
    ensures ReplayOf(s, id).Dropped? ==>
      && r.result.None?
      && r.state.version == s.version
      && r.state.heap == s.heap
      && key !in r.state.cache
      && (key in s.holders ==> r.state.holders[key].elem.None?)
      && r.events == (if key in s.holders then InvalidatedAll(s.holders[key].listeners) else [])
    ensures ReplayOf(s, id).Kept? ==>
      && r.result == Some(id)
      && r.state.version == s.version + 1
      && r.state.cache == s.cache
      && r.state.holders == s.holders
      && r.state.heap.Keys == s.heap.Keys
      && (forall other :: other in s.heap && other != id ==> r.state.heap[other] == s.heap[other])
      && r.state.heap[id].version == s.version
      && r.state.heap[id].commands == s.heap[id].commands
      && CaughtUp(s.log, r.state.heap[id])
      && (if ReplayOf(s, id).changed && key in s.holders
          then r.state.heap[id].obj == ReplayOf(s, id).value
               && r.events == ChangedAll(s.holders[key].listeners, ReplayOf(s, id).value)
          else r.state.heap[id].obj == s.heap[id].obj && r.events == [])
  {
    match ReplayOf(s, id)
    case Dropped =>
      var events := if key in s.holders then InvalidatedAll(s.holders[key].listeners) else [];
      Step(DropKey(s, key), events, None)
    case Kept(value, changed) =>
      if changed && key in s.holders then
        Step(Absorb(s, key, id, value), ChangedAll(s.holders[key].listeners, value), Some(id))
      else
        Step(Absorb(s, key, id, s.heap[id].obj), [], Some(id))
  }

  /** The `INVALIDATE` branch of `recalculate`: the holder, if any, keeps its
      listeners but loses its element, and the key leaves the cold store. */
  function DropKey<V(!new), P, L>(s: State<V, P, L>, key: CacheKey<V>): (t: State<V, P, L>)
    requires WellFormed(s)
    ensures WellFormed(t)
    ensures Frame(s, t)
    ensures forall k :: k != key ==> Untouched(s, t, k)
    ensures t.version == s.version && t.heap == s.heap
    ensures key !in t.cache
    ensures key in s.holders ==> t.holders[key].elem.None?
  {
    var holders := if key in s.holders then s.holders[key := s.holders[key].(elem := None)] else s.holders;
    var t := s.(holders := holders, cache := s.cache - {key});
    DropKeyWellFormed(s, t, key);
    t
  }

  /** Forgetting the element of one key keeps the state well formed. */
  lemma DropKeyWellFormed<V(!new), P, L>(s: State<V, P, L>, t: State<V, P, L>, key: CacheKey<V>)
    requires WellFormed(s)
    requires t == s.(holders := t.holders, cache := s.cache - {key})
    requires t.holders == if key in s.holders then s.holders[key := s.holders[key].(elem := None)] else s.holders
    ensures WellFormed(t)
    ensures forall k :: k != key ==> Untouched(s, t, k)
  {
    assert forall k1, x :: Owns(t, k1, x) ==> Owns(s, k1, x);
  }

  /** The end of a replay that did not invalidate: the element is stamped
      with the current counter value, which then advances, and takes `obj`
      as its value. */
  function Absorb<V(!new), P, L>(s: State<V, P, L>, key: CacheKey<V>, id: ElemId, obj: V): (t: State<V, P, L>)
    requires WellFormed(s)
    requires Located(s, key, id)
    ensures WellFormed(t)
    ensures Frame(s, t)
    ensures forall k :: k != key ==> Untouched(s, t, k)
    ensures t.version == s.version + 1 && t.cache == s.cache && t.holders == s.holders
    ensures t.heap == s.heap[id := s.heap[id].(version := s.version, obj := obj)]
    ensures CaughtUp(s.log, t.heap[id])
  {
    var caught := s.heap[id].(version := s.version, obj := obj);
    AboveLogIsCaughtUp(s.log, caught);
    var t := s.(heap := s.heap[id := caught], version := s.version + 1);
    AbsorbWellFormed(s, t, key, id, obj);
    t
  }

  /** Restamping and revaluing the element of one key keeps the state well formed. */
  lemma AbsorbWellFormed<V(!new), P, L>(s: State<V, P, L>, t: State<V, P, L>, key: CacheKey<V>, id: ElemId, obj: V)
    requires WellFormed(s) && Located(s, key, id)
    requires t == s.(heap := s.heap[id := s.heap[id].(version := s.version, obj := obj)], version := s.version + 1)
    ensures WellFormed(t)
    ensures forall k :: k != key ==> Untouched(s, t, k)
  {
    assert Owns(s, key, id);
    assert forall k1, x :: Owns(t, k1, x) <==> Owns(s, k1, x);
  }

  /** `addCommand(name, command)`: the name now maps to the command, replacing any earlier one. */
  function AddCommand<V(!new), P, L>(s: State<V, P, L>, name: CommandName<V, P>, cmd: CommandFn<V, P>): (t: State<V, P, L>)
    ensures t.registry.Keys == s.registry.Keys + {name}
    ensures t.registry[name] == cmd
    ensures forall n :: n in s.registry && n != name ==> t.registry[n] == s.registry[n]
    ensures t.log == s.log && t.cache == s.cache && t.holders == s.holders && t.heap == s.heap && t.version == s.version
  {
    s.(registry := s.registry[name := cmd])
  }

  /** The hot element of key k is present and listens to `name`: `invalidate` recomputes it. */
  ghost predicate Selected<V(!new), P, L>(s: State<V, P, L>, name: CommandName<V, P>, k: CacheKey<V>) {
    && k in s.holders
    && s.holders[k].elem.Some?
    && s.holders[k].elem.value in s.heap
    && name in s.heap[s.holders[k].elem.value].commands
  }

  /** The keys of the holder table in the order `HashMap` iteration visits
      them; Java does not fix that order, so callers pass it in. */
  ghost predicate Enumerates<V(!new), L>(order: seq<CacheKey<V>>, holders: map<CacheKey<V>, Holder<L>>) {
    && (forall i, j :: 0 <= i < j < |order| ==> order[i] != order[j])
    && (forall i :: 0 <= i < |order| ==> order[i] in holders)
    && (forall k :: k in holders ==> k in order)
  }

  /** The loop of `invalidate`: visit the holders in `keys` order and
      recompute each present element that listens to `name`. */
  function RecomputeHot<V(!new), P, L>(s: State<V, P, L>, name: CommandName<V, P>, keys: seq<CacheKey<V>>): (r: (State<V, P, L>, seq<Event<L, V>>))
    requires WellFormed(s)
    requires forall i :: 0 <= i < |keys| ==> keys[i] in s.holders
    ensures WellFormed(r.0)
    ensures Frame(s, r.0)
    ensures r.0.version >= s.version
    decreases |keys|
  {
    if keys == [] then (s, [])
    else
      var k := keys[0];
      var h := s.holders[k];
      if h.elem.Some? && name in s.heap[h.elem.value].commands then
        var step := Recalculate(s, k, h.elem.value);
        var rest := RecomputeHot(step.state, name, keys[1..]);
        (rest.0, step.events + rest.1)
      else
        RecomputeHot(s, name, keys[1..])
  }

  /** `invalidate(name, parameter)`: refused for a name never added;
      otherwise one entry stamped with the counter is appended to the log,
      the counter advances, and every hot element listening to the name is
      recomputed at once. */
  function Invalidate<V(!new), P, L>(s: State<V, P, L>, name: CommandName<V, P>, param: P, order: seq<CacheKey<V>>): (r: Result<Step<V, P, L, ()>>)
    requires WellFormed(s)
    requires Enumerates(order, s.holders)
    ensures r.Failure? <==> name !in s.registry
    ensures r.Failure? ==> r.error == IllegalState(UndefinedCommand)
    ensures r.Success? ==> r.value.state.log == s.log + [Entry(s.version, name, param)]
    ensures r.Success? ==> r.value.state.version > s.version
    ensures r.Success? ==> WellFormed(r.value.state)
  {
    if name !in s.registry then Failure(IllegalState(UndefinedCommand))
    else
      var logged := Logged(s, name, param);
      var (t, events) := RecomputeHot(logged, name, order);
      Success(Step(t, events, ()))
  }

  /** The state right after the log append of `invalidate`, before any recompute. */
  function Logged<V(!new), P, L>(s: State<V, P, L>, name: CommandName<V, P>, param: P): (t: State<V, P, L>)
    requires WellFormed(s)
    requires name in s.registry
    ensures WellFormed(t)
  {
    var t := s.(log := s.log + [Entry(s.version, name, param)], version := s.version + 1);
    assert forall k1, x :: Owns(t, k1, x) <==> Owns(s, k1, x);
    t
  }

  /** `getCacheElementIfPresent(key)`: the holder's element if there is a
      holder (absent if the holder has none), else the cold store's; a
      present element is recomputed before it is returned. */
  function GetElementIfPresent<V(!new), P, L>(s: State<V, P, L>, key: CacheKey<V>): (r: Step<V, P, L, Option<ElemId>>)
    requires WellFormed(s)
    ensures WellFormed(r.state)
    ensures Frame(s, r.state)
    ensures forall k :: k != key ==> Untouched(s, r.state, k)
    ensures key !in s.holders ==> r.events == []
    ensures key !in s.holders && key !in s.cache ==> r.result.None? && r.state == s
    ensures key in s.holders && s.holders[key].elem.None? ==> r.result.None? && r.state == s
    ensures r.result.Some? ==> r.result.value in r.state.heap && Owns(r.state, key, r.result.value)
    ensures r.result.Some? ==> CaughtUp(r.state.log, r.state.heap[r.result.value])
    ensures key in s.holders && s.holders[key].elem.Some? ==>
      && (r.result.Some? <==> ReplayOf(s, s.holders[key].elem.value).Kept?)
      && (r.result.Some? ==> r.result == s.holders[key].elem)
    ensures key !in s.holders && key in s.cache ==>
      && (r.result.Some? <==> ReplayOf(s, s.cache[key]).Kept?)
      && (r.result.Some? ==> r.result == Some(s.cache[key]))
  {
    if key in s.holders then
      match s.holders[key].elem
      case None => Step(s, [], None)
      case Some(id) => Recalculate(s, key, id)
    else if key in s.cache then Recalculate(s, key, s.cache[key])
    else Step(s, [], None)
  }

  /** `getCacheIfPresent(key)`: the value of the recomputed element, if any. */
  function GetCacheIfPresent<V(!new), P, L>(s: State<V, P, L>, key: CacheKey<V>): (r: Step<V, P, L, Option<V>>)
    requires WellFormed(s)
    ensures WellFormed(r.state)
    ensures Frame(s, r.state)
    ensures forall k :: k != key ==> Untouched(s, r.state, k)
    ensures key !in s.holders && key !in s.cache ==> r.result.None?
    ensures key in s.holders && s.holders[key].elem.None? ==> r.result.None?
  {
    var g := GetElementIfPresent(s, key);
    var value := if g.result.Some? then Some(g.state.heap[g.result.value].obj) else None;
    Step(g.state, g.events, value)
  }

  /** `register(key, listener)`: the listener joins the key's holder. A new
      holder is seeded with the cold store's element, recomputed first;
      since no holder exists during that recompute, nobody is notified. */
  function Register<V(!new), P, L>(s: State<V, P, L>, key: CacheKey<V>, listener: L): (t: State<V, P, L>)
    requires WellFormed(s)
    ensures WellFormed(t)
    ensures key in t.holders
    ensures key in s.holders ==> t.holders[key] == s.holders[key].(listeners := s.holders[key].listeners + [listener])
    ensures key in s.holders ==> t == s.(holders := t.holders)
    ensures key !in s.holders ==> t.holders[key].listeners == [listener]
    ensures key !in s.holders && key !in s.cache ==> t.holders[key].elem.None?
    ensures t.registry == s.registry && t.log == s.log && t.nextId == s.nextId
    ensures t.holders.Keys == s.holders.Keys + {key}
    ensures forall k :: k != key ==> Untouched(s, t, k)
  {
    if key in s.holders then
      var h := s.holders[key];
      var t := s.(holders := s.holders[key := h.(listeners := h.listeners + [listener])]);
      HolderWellFormed(s, t, key, h.elem, h.listeners + [listener]);
      t
    else
      var g := GetElementIfPresent(s, key);
      var u := g.state;
      var t := u.(holders := u.holders[key := Holder(g.result, [listener])]);
      HolderWellFormed(u, t, key, g.result, [listener]);
      UntouchedChain(s, u, t, key);
      t
  }

  /** Setting the holder of one key, with some listener and an element only
      that key reaches, keeps the state well formed. */
  lemma HolderWellFormed<V(!new), P, L>(s: State<V, P, L>, t: State<V, P, L>, key: CacheKey<V>, elem: Option<ElemId>, ls: seq<L>)
    requires WellFormed(s) && ls != []
    requires elem.Some? ==> elem.value in s.heap && Owns(s, key, elem.value)
    requires key in s.holders ==> s.holders[key].elem == elem
    requires t == s.(holders := s.holders[key := Holder(elem, ls)])
    ensures WellFormed(t)
    ensures forall k :: k != key ==> Untouched(s, t, k)
  {
    assert forall k1, x :: Owns(t, k1, x) ==> Owns(s, k1, x);
  }

  /** Untouched is transitive. */
  lemma UntouchedChain<V(!new), P, L>(s: State<V, P, L>, u: State<V, P, L>, t: State<V, P, L>, key: CacheKey<V>)
    requires forall k :: k != key ==> Untouched(s, u, k)
    requires forall k :: k != key ==> Untouched(u, t, k)
    ensures forall k :: k != key ==> Untouched(s, t, k)
  {
    forall k | k != key ensures Untouched(s, t, k) {
      assert Untouched(s, u, k) && Untouched(u, t, k);
      forall id | Owns(s, k, id) && id in s.heap ensures id in t.heap && t.heap[id] == s.heap[id] {
        assert Owns(u, k, id);
      }
    }
  }

  /** The position of the first occurrence of l. */
  function FirstIndex<L(==)>(ls: seq<L>, l: L): (i: nat)
    requires l in ls
    ensures i < |ls| && ls[i] == l
    ensures forall j :: 0 <= j < i ==> ls[j] != l
  {
    if ls[0] == l then 0 else 1 + FirstIndex(ls[1..], l)
  }

  /** `List.remove(Object)`: drops the first occurrence of l and keeps the
      rest in order. */
  function RemoveFirst<L(==)>(ls: seq<L>, l: L): (r: seq<L>)
    requires l in ls
    ensures |r| == |ls| - 1
    ensures multiset(r) == multiset(ls) - multiset{l}
    ensures exists i :: 0 <= i < |ls| && ls[i] == l && l !in ls[..i] && r == ls[..i] + ls[i + 1..]
  {
    var i := FirstIndex(ls, l);
    assert ls == ls[..i] + [l] + ls[i + 1..];
    ls[..i] + ls[i + 1..]
  }

  /** `unregister(key, listener)`: refused when the key has no holder or the
      listener is not in its list; otherwise the first occurrence of the
      listener leaves, and the holder goes when its last listener does. */
  function Unregister<V(!new), P, L(==)>(s: State<V, P, L>, key: CacheKey<V>, listener: L): (r: Result<State<V, P, L>>)
    requires WellFormed(s)
    ensures key !in s.holders ==> r == Failure(IllegalState(AlreadyUnregistered))
    ensures key in s.holders && listener !in s.holders[key].listeners ==> r == Failure(IllegalState(ListenerNotFound))
    ensures r.Success? <==> key in s.holders && listener in s.holders[key].listeners
    ensures r.Success? ==> WellFormed(r.value)
    ensures r.Success? ==> (key in r.value.holders <==> |s.holders[key].listeners| > 1)
    ensures r.Success? && key in r.value.holders ==>
      r.value.holders[key] == s.holders[key].(listeners := RemoveFirst(s.holders[key].listeners, listener))
    ensures r.Success? ==> r.value == s.(holders := r.value.holders)
    ensures r.Success? ==> forall k :: k != key ==> Untouched(s, r.value, k)
  {
    if key !in s.holders then Failure(IllegalState(AlreadyUnregistered))
    else if listener !in s.holders[key].listeners then Failure(IllegalState(ListenerNotFound))
    else Success(SetListeners(s, key, RemoveFirst(s.holders[key].listeners, listener)))
  }

  /** The key's holder takes the listener list ls, and goes when ls is empty. */
  function SetListeners<V(!new), P, L>(s: State<V, P, L>, key: CacheKey<V>, ls: seq<L>): (t: State<V, P, L>)
    requires WellFormed(s)
    requires key in s.holders
    ensures WellFormed(t)
    ensures t == s.(holders := t.holders)
    ensures key in t.holders <==> ls != []
    ensures key in t.holders ==> t.holders[key] == s.holders[key].(listeners := ls)
    ensures forall k :: k != key ==> Untouched(s, t, k)
  {
    var t := if ls == [] then s.(holders := s.holders - {key})
             else s.(holders := s.holders[key := s.holders[key].(listeners := ls)]);
    assert forall k1, x :: Owns(t, k1, x) ==> Owns(s, k1, x);
    t
  }

  /** `putCache(key, object, commands)`: a fresh element stamped with the
      counter, which advances, goes into the cold store; if the key has a
      holder, the same element becomes the holder's and every listener is
      told the new value. */
  function PutCache<V(!new), P, L>(s: State<V, P, L>, key: CacheKey<V>, obj: V, commands: seq<CommandName<V, P>>): (r: Step<V, P, L, ()>)
    requires WellFormed(s)
    ensures WellFormed(r.state)
    ensures s.nextId !in s.heap
    ensures r.state.heap == s.heap[s.nextId := Element(s.version, obj, commands)]
    ensures r.state.cache == s.cache[key := s.nextId]
    ensures r.state.version == s.version + 1
    ensures r.state.registry == s.registry && r.state.log == s.log
    ensures r.state.holders.Keys == s.holders.Keys
    ensures key in s.holders ==>
      && r.state.holders[key] == s.holders[key].(elem := Some(s.nextId))
      && r.events == ChangedAll(s.holders[key].listeners, obj)
    ensures key !in s.holders ==> r.state.holders == s.holders && r.events == []
    ensures forall k :: k != key ==> Untouched(s, r.state, k)
  {
    var stored := StoreFresh(s, key, obj, commands);
    if key in s.holders then
      Step(Adopt(stored, key, s.nextId), ChangedAll(s.holders[key].listeners, obj), ())
    else
      Step(stored, [], ())
  }

  /** The cold-store half of `putCache`: a new element object, stamped with
      the counter, stored under the key. */
  function StoreFresh<V(!new), P, L>(s: State<V, P, L>, key: CacheKey<V>, obj: V, commands: seq<CommandName<V, P>>): (t: State<V, P, L>)
    requires WellFormed(s)
    ensures WellFormed(t)
    ensures s.nextId !in s.heap
    ensures forall k :: k != key ==> Untouched(s, t, k)
    ensures forall k :: Owns(t, k, s.nextId) ==> k == key
  {
    var id := s.nextId;
    var t := s.(heap := s.heap[id := Element(s.version, obj, commands)], nextId := id + 1,
                version := s.version + 1, cache := s.cache[key := id]);
    StoreFreshOwnership(s, t, key);
    t
  }

  /** After `StoreFresh`, ownership is still one key per element. */
  lemma StoreFreshOwnership<V(!new), P, L>(s: State<V, P, L>, t: State<V, P, L>, key: CacheKey<V>)
    requires WellFormed(s)
    requires t.holders == s.holders && t.cache == s.cache[key := s.nextId]
    ensures forall k, x :: Owns(t, k, x) && x != s.nextId ==> Owns(s, k, x)
    ensures forall k :: Owns(t, k, s.nextId) ==> k == key
    ensures forall k1, k2, x :: Owns(t, k1, x) && Owns(t, k2, x) ==> k1 == k2
  {
  }

  /** The holder half of `putCache`: the key's holder takes element `id`,
      which only this key reaches. */
  function Adopt<V(!new), P, L>(s: State<V, P, L>, key: CacheKey<V>, id: ElemId): (t: State<V, P, L>)
    requires WellFormed(s)
    requires key in s.holders && id in s.heap
    requires forall k :: Owns(s, k, id) ==> k == key
    ensures WellFormed(t)
    ensures key in t.holders && t.holders[key] == s.holders[key].(elem := Some(id))
    ensures t.cache == s.cache && t.heap == s.heap && t.log == s.log && t.version == s.version
    ensures forall k :: k != key ==> Untouched(s, t, k)
  {
    var t := s.(holders := s.holders[key := s.holders[key].(elem := Some(id))]);
    assert forall k1, x :: Owns(t, k1, x) ==> (Owns(s, k1, x) && (k1 != key || x != id)) || (k1 == key && x == id) || (k1 == key && Owns(s, key, x));
    t
  }

  /** The listeners of the holders in `keys`, holder after holder, each list in its own order. */
  function ListenersOf<V(!new), L>(holders: map<CacheKey<V>, Holder<L>>, keys: seq<CacheKey<V>>): seq<L>
    requires forall i :: 0 <= i < |keys| ==> keys[i] in holders
    decreases |keys|
  {
    if keys == [] then [] else holders[keys[0]].listeners + ListenersOf(holders, keys[1..])
  }

  /** A listener is among those of `keys` exactly when some holder of `keys` has it. */
  lemma {:induction false} ListenersOfMembers<V(!new), L>(holders: map<CacheKey<V>, Holder<L>>, keys: seq<CacheKey<V>>)
    requires forall i :: 0 <= i < |keys| ==> keys[i] in holders
    ensures forall l :: l in ListenersOf(holders, keys) <==> exists j :: 0 <= j < |keys| && l in holders[keys[j]].listeners
    decreases |keys|
  {
    if keys != [] {
      var tail := keys[1..];
      ListenersOfMembers(holders, tail);
      forall l ensures l in ListenersOf(holders, keys) <==> exists j :: 0 <= j < |keys| && l in holders[keys[j]].listeners {
        if l in ListenersOf(holders, tail) {
          var j :| 0 <= j < |tail| && l in holders[tail[j]].listeners;
          assert tail[j] == keys[j + 1];
        }
        if exists j :: 0 <= j < |keys| && l in holders[keys[j]].listeners {
          var j :| 0 <= j < |keys| && l in holders[keys[j]].listeners;
          if j > 0 {
            assert keys[j] == tail[j - 1];
          }
        }
      }
    }
  }

  /** The invalidations of a list name exactly its listeners. */
  lemma InvalidatedAllMembers<L, V>(ls: seq<L>)
    ensures forall l :: Invalidated(l) in InvalidatedAll<L, V>(ls) <==> l in ls
  {
    var r := InvalidatedAll<L, V>(ls);
    forall l | l in ls ensures Invalidated(l) in r {
      var i :| 0 <= i < |ls| && ls[i] == l;
      assert r[i] == Invalidated(l);
    }
  }

  /** The callbacks of `clearAll`: each holder in `keys` order tells all its listeners. */
  function InvalidateHolders<V(!new), L>(holders: map<CacheKey<V>, Holder<L>>, keys: seq<CacheKey<V>>): (r: seq<Event<L, V>>)
    requires forall i :: 0 <= i < |keys| ==> keys[i] in holders
    ensures r == InvalidatedAll(ListenersOf(holders, keys))
    ensures forall i :: 0 <= i < |r| ==> r[i].Invalidated?
    ensures forall i :: 0 <= i < |r| ==> exists j :: 0 <= j < |keys| && r[i].listener in holders[keys[j]].listeners
    ensures forall j, l :: 0 <= j < |keys| && l in holders[keys[j]].listeners ==> Invalidated(l) in r
    decreases |keys|
  {
    if keys == [] then []
    else
      var r := InvalidatedAll(holders[keys[0]].listeners) + InvalidateHolders(holders, keys[1..]);
      InvalidatedAllAppend<L, V>(holders[keys[0]].listeners, ListenersOf(holders, keys[1..]));
      CoversListeners(holders, keys, r);
      r
  }

  /** The invalidations of the listeners of `keys` go to those listeners and reach each of them. */
  lemma CoversListeners<V(!new), L>(holders: map<CacheKey<V>, Holder<L>>, keys: seq<CacheKey<V>>, r: seq<Event<L, V>>)
    requires forall i :: 0 <= i < |keys| ==> keys[i] in holders
    requires r == InvalidatedAll(ListenersOf(holders, keys))
    ensures forall i :: 0 <= i < |r| ==> exists j :: 0 <= j < |keys| && r[i].listener in holders[keys[j]].listeners
    ensures forall j, l :: 0 <= j < |keys| && l in holders[keys[j]].listeners ==> Invalidated(l) in r
  {
    var ls := ListenersOf(holders, keys);
    ListenersOfMembers(holders, keys);
    InvalidatedAllMembers<L, V>(ls);
    forall i | 0 <= i < |r| ensures exists j :: 0 <= j < |keys| && r[i].listener in holders[keys[j]].listeners {
      assert r[i].listener == ls[i];
    }
  }

  /** The state half of `clearAll()`: the cold store is emptied and every
      holder loses its element; holders, listeners, log and counter stay. */
  function Cleared<V(!new), P, L>(s: State<V, P, L>): (t: State<V, P, L>)
    requires WellFormed(s)
    ensures WellFormed(t)
    ensures t.cache == map[]
    ensures Frame(s, t)
    ensures forall k :: k in t.holders ==> t.holders[k].elem.None?
    ensures t.version == s.version && t.heap == s.heap
  {
    var holders := map k | k in s.holders :: s.holders[k].(elem := None);
    var t := s.(cache := map[], holders := holders);
    assert forall k1, x :: !Owns(t, k1, x);
    t
  }

  /** `clearAll()`: the cold store is emptied and every holder loses its
      element and tells its listeners, holder after holder in `order`. */
  function ClearAll<V(!new), P, L>(s: State<V, P, L>, order: seq<CacheKey<V>>): (r: Step<V, P, L, ()>)
    requires WellFormed(s)
    requires Enumerates(order, s.holders)
    ensures WellFormed(r.state)
    ensures r.state.cache == map[]
    ensures Frame(s, r.state)
    ensures forall k :: k in r.state.holders ==> r.state.holders[k].elem.None?
    ensures r.state.version == s.version && r.state.heap == s.heap
    ensures forall i :: 0 <= i < |r.events| ==> r.events[i].Invalidated?
    ensures forall k, l :: k in s.holders && l in s.holders[k].listeners ==> Invalidated(l) in r.events
    ensures forall i :: 0 <= i < |r.events| ==> Listens(s.holders, r.events[i].listener)
    ensures r.events == InvalidatedAll(ListenersOf(s.holders, order))
  {
    var events := InvalidateHolders(s.holders, order);
    ListenersOfHolders(s.holders, order, events);
    Step(Cleared(s), events, ())
  }

  /** Some holder of the table has listener l. */
  ghost predicate Listens<V(!new), L>(holders: map<CacheKey<V>, Holder<L>>, l: L) {
    exists k :: k in holders && l in holders[k].listeners
  }

  /** Read over the whole holder table that `keys` enumerates, the callbacks
      of `InvalidateHolders` go to listeners of holders and reach every one. */
  lemma ListenersOfHolders<V(!new), L>(holders: map<CacheKey<V>, Holder<L>>, keys: seq<CacheKey<V>>, r: seq<Event<L, V>>)
    requires Enumerates(keys, holders)
    requires forall i :: 0 <= i < |r| ==> exists j :: 0 <= j < |keys| && r[i].listener in holders[keys[j]].listeners
    requires forall j, l :: 0 <= j < |keys| && l in holders[keys[j]].listeners ==> Invalidated(l) in r
    ensures forall i :: 0 <= i < |r| ==> Listens(holders, r[i].listener)
    ensures forall k, l :: k in holders && l in holders[k].listeners ==> Invalidated(l) in r
  {
    forall i | 0 <= i < |r| ensures Listens(holders, r[i].listener) {
      var j :| 0 <= j < |keys| && r[i].listener in holders[keys[j]].listeners;
      var k := keys[j];
      assert k in holders && r[i].listener in holders[k].listeners;
    }
    forall k, l | k in holders && l in holders[k].listeners ensures Invalidated(l) in r {
      var j :| 0 <= j < |keys| && keys[j] == k;
    }
  }

  /** The cold store's own size and expiry policy dropping one entry at a time of its choosing. */
  function Evict<V(!new), P, L>(s: State<V, P, L>, key: CacheKey<V>): (t: State<V, P, L>)
    requires WellFormed(s)
    ensures WellFormed(t)
    ensures key !in t.cache
    ensures t == s.(cache := t.cache)
    ensures forall k :: k != key ==> Untouched(s, t, k)
  {
    var t := s.(cache := s.cache - {key});
    assert forall k1, x :: Owns(t, k1, x) ==> Owns(s, k1, x);
    t
  }
}
