/** Properties of the `CommandsDescription` model that relate several
    operations or follow the `invalidate` loop across all holders. */
module EngineProofs {
  import opened Wrappers
  import opened Keys
  import opened Command
  import opened Replay
  import opened Engine

  /** A caught-up element replays nothing: it is kept, unchanged, with no change reported. */
  lemma CaughtUpReplaysNothing<V(!new), P, L>(s: State<V, P, L>, id: ElemId)
    requires WellFormed(s) && id in s.heap
    requires CaughtUp(s.log, s.heap[id])
    ensures ReplayOf(s, id) == Kept(s.heap[id].obj, false)
  {
    PendingEmptyIffCaughtUp(s.log, s.heap[id]);
  }

  /** What recomputing hot key k of state s left in state t. */
  ghost predicate Recomputed<V(!new), P, L>(s: State<V, P, L>, t: State<V, P, L>, k: CacheKey<V>)
    requires WellFormed(s)
    requires k in s.holders && s.holders[k].elem.Some? && s.holders[k].elem.value in s.heap
  {
    var id := s.holders[k].elem.value;
    var replay := ReplayOf(s, id);
    && k in t.holders
    && (replay.Dropped? ==> t.holders[k].elem.None? && k !in t.cache)
    && (replay.Kept? ==>
          && t.holders[k].elem == Some(id)
          && id in t.heap && t.heap[id].obj == replay.value
          && CaughtUp(t.log, t.heap[id]))
  }

  /** A replay that listeners hear about: it dropped the element or changed its value. */
  predicate Notifies<V>(replay: Replayed<V>) {
    replay.Dropped? || replay.changed
  }

  /** Event e is one that recomputing hot key k owes its listeners. */
  ghost predicate Justifies<V(!new), P, L>(s: State<V, P, L>, name: CommandName<V, P>, k: CacheKey<V>, e: Event<L, V>)
    requires WellFormed(s)
  {
    && Selected(s, name, k)
    && e.listener in s.holders[k].listeners
    && Notifies(ReplayOf(s, s.holders[k].elem.value))
    && e == Owed(ReplayOf(s, s.holders[k].elem.value), e.listener)
  }

  /** The callback a replay owes listener l: `onInvalidated` after a drop,
      `onChanged` with the new value after an update. */
  function Owed<L, V>(replay: Replayed<V>, l: L): Event<L, V> {
    if replay.Dropped? then Invalidated(l) else Changed(l, replay.value)
  }

  /** A later state that leaves k alone keeps what a recompute left there. */
  lemma RecomputedStable<V(!new), P, L>(s: State<V, P, L>, t: State<V, P, L>, u: State<V, P, L>, k: CacheKey<V>)
    requires WellFormed(s) && WellFormed(t)
    requires k in s.holders && s.holders[k].elem.Some? && s.holders[k].elem.value in s.heap
    requires Recomputed(s, t, k)
    requires Untouched(t, u, k) && u.log == t.log
    ensures Recomputed(s, u, k)
  {
    var id := s.holders[k].elem.value;
    if ReplayOf(s, id).Kept? {
      assert Owns(t, k, id);
    }
  }

  /** Leaving k alone keeps it selected and keeps its replay. */
  lemma UntouchedKeepsReplay<V(!new), P, L>(s: State<V, P, L>, t: State<V, P, L>, name: CommandName<V, P>, k: CacheKey<V>)
    requires WellFormed(s) && WellFormed(t)
    requires Untouched(s, t, k) && t.log == s.log && t.registry == s.registry
    ensures Selected(t, name, k) <==> Selected(s, name, k)
    ensures Selected(s, name, k) ==>
      t.holders[k] == s.holders[k] && ReplayOf(t, s.holders[k].elem.value) == ReplayOf(s, s.holders[k].elem.value)
  {
    if k in s.holders && s.holders[k].elem.Some? {
      assert Owns(s, k, s.holders[k].elem.value);
    }
  }

  /** What the `invalidate` loop over `keys` from s to u did: every selected
      key of `keys` is recomputed and every other key is left alone. */
  ghost predicate LoopEffect<V(!new), P, L>(s: State<V, P, L>, u: State<V, P, L>, name: CommandName<V, P>, keys: seq<CacheKey<V>>)
    requires WellFormed(s)
  {
    && (forall k :: !(k in keys && Selected(s, name, k)) ==> Untouched(s, u, k))
    && (forall k :: k in keys && Selected(s, name, k) ==> Recomputed(s, u, k))
  }

  /** A key the rest of the loop leaves alone, and the first recompute did
      not touch, is untouched by the whole loop. */
  lemma UntouchedAcrossStep<V(!new), P, L>(s: State<V, P, L>, s1: State<V, P, L>, u: State<V, P, L>, name: CommandName<V, P>, rest: seq<CacheKey<V>>, k: CacheKey<V>)
    requires WellFormed(s) && WellFormed(s1)
    requires Untouched(s, s1, k) && s1.log == s.log && s1.registry == s.registry
    requires !(k in rest && Selected(s, name, k))
    requires forall k' :: !(k' in rest && Selected(s1, name, k')) ==> Untouched(s1, u, k')
    ensures Untouched(s, u, k)
  {
    UntouchedKeepsReplay(s, s1, name, k);
    assert Untouched(s1, u, k);
    forall id | Owns(s, k, id) && id in s.heap ensures id in u.heap && u.heap[id] == s.heap[id] {
      assert Owns(s1, k, id);
    }
  }

  /** The first key of the loop stays recomputed: a second visit finds it caught up. */
  lemma HeadRecomputed<V(!new), P, L>(s: State<V, P, L>, s1: State<V, P, L>, u: State<V, P, L>, name: CommandName<V, P>, rest: seq<CacheKey<V>>, k0: CacheKey<V>)
    requires WellFormed(s) && WellFormed(s1) && WellFormed(u)
    requires Selected(s, name, k0) && Recomputed(s, s1, k0)
    requires u.log == s1.log
    requires forall k :: !(k in rest && Selected(s1, name, k)) ==> Untouched(s1, u, k)
    requires forall k :: k in rest && Selected(s1, name, k) ==> Recomputed(s1, u, k)
    ensures Recomputed(s, u, k0)
  {
    if k0 in rest && Selected(s1, name, k0) {
      CaughtUpReplaysNothing(s1, s.holders[k0].elem.value);
    } else {
      RecomputedStable(s, s1, u, k0);
    }
  }

  /** A later key of the loop, untouched by the first recompute, is recomputed by the rest. */
  lemma TailRecomputed<V(!new), P, L>(s: State<V, P, L>, s1: State<V, P, L>, u: State<V, P, L>, name: CommandName<V, P>, rest: seq<CacheKey<V>>, k: CacheKey<V>)
    requires WellFormed(s) && WellFormed(s1)
    requires Untouched(s, s1, k) && s1.log == s.log && s1.registry == s.registry
    requires Selected(s, name, k) && k in rest
    requires forall k' :: k' in rest && Selected(s1, name, k') ==> Recomputed(s1, u, k')
    ensures Recomputed(s, u, k)
  {
    UntouchedKeepsReplay(s, s1, name, k);
  }

  /** One turn of the loop: recomputing the first key and then the rest
      recomputes every selected key of the whole sequence. */
  lemma EffectStep<V(!new), P, L>(s: State<V, P, L>, s1: State<V, P, L>, u: State<V, P, L>, name: CommandName<V, P>, keys: seq<CacheKey<V>>)
    requires WellFormed(s) && WellFormed(s1) && WellFormed(u)
    requires keys != [] && Selected(s, name, keys[0]) && Recomputed(s, s1, keys[0])
    requires forall k :: k != keys[0] ==> Untouched(s, s1, k)
    requires s1.log == s.log && s1.registry == s.registry && u.log == s1.log
    requires LoopEffect(s1, u, name, keys[1..])
    ensures LoopEffect(s, u, name, keys)
  {
    var rest := keys[1..];
    forall k | !(k in keys && Selected(s, name, k)) ensures Untouched(s, u, k) {
      UntouchedAcrossStep(s, s1, u, name, rest, k);
    }
    forall k | k in keys && Selected(s, name, k) ensures Recomputed(s, u, k) {
      if k == keys[0] {
        HeadRecomputed(s, s1, u, name, rest, k);
      } else {
        TailRecomputed(s, s1, u, name, rest, k);
      }
    }
  }

  /** A turn of the loop that skips the first key: the rest does the work. */
  lemma SkipStep<V(!new), P, L>(s: State<V, P, L>, u: State<V, P, L>, name: CommandName<V, P>, keys: seq<CacheKey<V>>)
    requires WellFormed(s)
    requires keys != [] && !Selected(s, name, keys[0])
    requires LoopEffect(s, u, name, keys[1..])
    ensures LoopEffect(s, u, name, keys)
  {
    forall k | k in keys ensures k == keys[0] || k in keys[1..] {
      var i :| 0 <= i < |keys| && keys[i] == k;
      if i > 0 { assert keys[1..][i - 1] == k; }
    }
  }

  /** The `invalidate` loop recomputes every selected holder in `keys` and
      leaves every other key as it was. */
  lemma {:induction false} RecomputeHotEffect<V(!new), P, L>(s: State<V, P, L>, name: CommandName<V, P>, keys: seq<CacheKey<V>>)
    requires WellFormed(s)
    requires forall i :: 0 <= i < |keys| ==> keys[i] in s.holders
    ensures LoopEffect(s, RecomputeHot(s, name, keys).0, name, keys)
    decreases |keys|
  {
    if keys != [] {
      if Selected(s, name, keys[0]) {
        var s1 := Recalculate(s, keys[0], s.holders[keys[0]].elem.value).state;
        RecomputeHotEffect(s1, name, keys[1..]);
        EffectThen(s, name, keys);
      } else {
        RecomputeHotEffect(s, name, keys[1..]);
        UnfoldSkipped(s, name, keys);
        SkipStep(s, RecomputeHot(s, name, keys).0, name, keys);
      }
    }
  }

  /** The turn of the loop that recomputes its first key, in terms of the loop. */
  lemma EffectThen<V(!new), P, L>(s: State<V, P, L>, name: CommandName<V, P>, keys: seq<CacheKey<V>>)
    requires WellFormed(s)
    requires forall i :: 0 <= i < |keys| ==> keys[i] in s.holders
    requires keys != [] && Selected(s, name, keys[0])
    requires LoopEffect(Recalculate(s, keys[0], s.holders[keys[0]].elem.value).state,
      RecomputeHot(Recalculate(s, keys[0], s.holders[keys[0]].elem.value).state, name, keys[1..]).0, name, keys[1..])
    ensures LoopEffect(s, RecomputeHot(s, name, keys).0, name, keys)
  {
    var s1 := Recalculate(s, keys[0], s.holders[keys[0]].elem.value).state;
    UnfoldSelected(s, name, keys);
    assert Recomputed(s, s1, keys[0]);
    EffectStep(s, s1, RecomputeHot(s, name, keys).0, name, keys);
  }

  /** The loop on a selected first key: recompute it, then go on from the new state. */
  lemma UnfoldSelected<V(!new), P, L>(s: State<V, P, L>, name: CommandName<V, P>, keys: seq<CacheKey<V>>)
    requires WellFormed(s)
    requires forall i :: 0 <= i < |keys| ==> keys[i] in s.holders
    requires keys != [] && Selected(s, name, keys[0])
    ensures var step := Recalculate(s, keys[0], s.holders[keys[0]].elem.value);
      var tail := RecomputeHot(step.state, name, keys[1..]);
      RecomputeHot(s, name, keys) == (tail.0, step.events + tail.1)
  {
  }

  /** The loop over a single selected key is that key's recompute. */
  lemma RecomputeHotOne<V(!new), P, L>(s: State<V, P, L>, name: CommandName<V, P>, key: CacheKey<V>)
    requires WellFormed(s) && Selected(s, name, key)
    ensures RecomputeHot(s, name, [key]) == (Recalculate(s, key, s.holders[key].elem.value).state, Recalculate(s, key, s.holders[key].elem.value).events)
  {
    var step := Recalculate(s, key, s.holders[key].elem.value);
    assert [key][1..] == [];
    assert RecomputeHot(step.state, name, []) == (step.state, []);
    assert step.events + [] == step.events;
    UnfoldSelected(s, name, [key]);
  }

  /** The loop on a first key that is not selected: go on from the same state. */
  lemma UnfoldSkipped<V(!new), P, L>(s: State<V, P, L>, name: CommandName<V, P>, keys: seq<CacheKey<V>>)
    requires WellFormed(s)
    requires forall i :: 0 <= i < |keys| ==> keys[i] in s.holders
    requires keys != [] && !Selected(s, name, keys[0])
    ensures RecomputeHot(s, name, keys) == RecomputeHot(s, name, keys[1..])
  {
  }

  /** Each event is owed by the recompute of one of the keys. */
  ghost predicate EventsJustified<V(!new), P, L>(s: State<V, P, L>, name: CommandName<V, P>, keys: seq<CacheKey<V>>, events: seq<Event<L, V>>)
    requires WellFormed(s)
  {
    forall e :: e in events ==> exists k :: k in keys && Justifies(s, name, k, e)
  }

  /** Justification carries over to a larger set of keys. */
  lemma JustifiedWiden<V(!new), P, L>(s: State<V, P, L>, name: CommandName<V, P>, small: seq<CacheKey<V>>, big: seq<CacheKey<V>>, events: seq<Event<L, V>>)
    requires WellFormed(s)
    requires forall k :: k in small ==> k in big
    requires EventsJustified(s, name, small, events)
    ensures EventsJustified(s, name, big, events)
  {
    forall e | e in events ensures exists k :: k in big && Justifies(s, name, k, e) {
      var k :| k in small && Justifies(s, name, k, e);
    }
  }

  /** Justified events stay justified when concatenated. */
  lemma JustifiedConcat<V(!new), P, L>(s: State<V, P, L>, name: CommandName<V, P>, keys: seq<CacheKey<V>>, a: seq<Event<L, V>>, b: seq<Event<L, V>>)
    requires WellFormed(s)
    requires EventsJustified(s, name, keys, a) && EventsJustified(s, name, keys, b)
    ensures EventsJustified(s, name, keys, a + b)
  {
  }

  /** The callbacks of one recompute are owed by that key. */
  lemma RecalculateEventsJustified<V(!new), P, L>(s: State<V, P, L>, name: CommandName<V, P>, k0: CacheKey<V>)
    requires WellFormed(s) && Selected(s, name, k0)
    ensures EventsJustified(s, name, [k0], Recalculate(s, k0, s.holders[k0].elem.value).events)
  {
    var events := Recalculate(s, k0, s.holders[k0].elem.value).events;
    forall e | e in events ensures exists k :: k in [k0] && Justifies(s, name, k, e) {
      assert Justifies(s, name, k0, e);
    }
  }

  /** Events owed in the state after recomputing k0, by keys other than
      k0, were already owed before it. */
  lemma JustifiedAfterRecalculate<V(!new), P, L>(s: State<V, P, L>, name: CommandName<V, P>, k0: CacheKey<V>, rest: seq<CacheKey<V>>, events: seq<Event<L, V>>)
    requires WellFormed(s) && Selected(s, name, k0)
    requires EventsJustified(Recalculate(s, k0, s.holders[k0].elem.value).state, name, rest, events)
    ensures EventsJustified(s, name, rest, events)
  {
    var id0 := s.holders[k0].elem.value;
    var s1 := Recalculate(s, k0, id0).state;
    forall e | e in events ensures exists k :: k in rest && Justifies(s, name, k, e) {
      var k :| k in rest && Justifies(s1, name, k, e);
      if k == k0 {
        CaughtUpReplaysNothing(s1, id0);
        assert false;
      }
      UntouchedKeepsReplay(s, s1, name, k);
      assert Justifies(s, name, k, e);
    }
  }

  /** Every callback of the `invalidate` loop is owed by some recomputed
      holder: there is no spurious notification. */
  lemma {:induction false} RecomputeHotEventsJustified<V(!new), P, L>(s: State<V, P, L>, name: CommandName<V, P>, keys: seq<CacheKey<V>>)
    requires WellFormed(s)
    requires forall i :: 0 <= i < |keys| ==> keys[i] in s.holders
    ensures EventsJustified(s, name, keys, RecomputeHot(s, name, keys).1)
    decreases |keys|
  {
    if keys != [] {
      if Selected(s, name, keys[0]) {
        var s1 := Recalculate(s, keys[0], s.holders[keys[0]].elem.value).state;
        RecomputeHotEventsJustified(s1, name, keys[1..]);
        JustifiedThen(s, name, keys);
      } else {
        RecomputeHotEventsJustified(s, name, keys[1..]);
        UnfoldSkipped(s, name, keys);
        JustifiedWiden(s, name, keys[1..], keys, RecomputeHot(s, name, keys).1);
      }
    }
  }

  /** The turn of the loop that recomputes its first key, in terms of the loop. */
  lemma JustifiedThen<V(!new), P, L>(s: State<V, P, L>, name: CommandName<V, P>, keys: seq<CacheKey<V>>)
    requires WellFormed(s)
    requires forall i :: 0 <= i < |keys| ==> keys[i] in s.holders
    requires keys != [] && Selected(s, name, keys[0])
    requires EventsJustified(Recalculate(s, keys[0], s.holders[keys[0]].elem.value).state, name, keys[1..],
      RecomputeHot(Recalculate(s, keys[0], s.holders[keys[0]].elem.value).state, name, keys[1..]).1)
    ensures EventsJustified(s, name, keys, RecomputeHot(s, name, keys).1)
  {
    var k0 := keys[0];
    var step := Recalculate(s, k0, s.holders[k0].elem.value);
    var tail := RecomputeHot(step.state, name, keys[1..]);
    UnfoldSelected(s, name, keys);
    JustifiedAfterRecalculate(s, name, k0, keys[1..], tail.1);
    JustifiedWiden(s, name, keys[1..], keys, tail.1);
    RecalculateEventsJustified(s, name, k0);
    JustifiedWiden(s, name, [k0], keys, step.events);
    JustifiedConcat(s, name, keys, step.events, tail.1);
  }

  /** Every listener of a selected holder of `keys` whose element was
      dropped or whose value changed has its callback among `events`. */
  ghost predicate EventsComplete<V(!new), P, L>(s: State<V, P, L>, name: CommandName<V, P>, keys: seq<CacheKey<V>>, events: seq<Event<L, V>>)
    requires WellFormed(s)
  {
    forall k, l ::
      (k in keys && Selected(s, name, k) && l in s.holders[k].listeners && Notifies(ReplayOf(s, s.holders[k].elem.value)))
      ==> Owed(ReplayOf(s, s.holders[k].elem.value), l) in events
  }

  /** The recompute of a selected key owes each of its listeners one callback and makes it. */
  lemma RecalculateOwes<V(!new), P, L>(s: State<V, P, L>, name: CommandName<V, P>, k0: CacheKey<V>)
    requires WellFormed(s) && Selected(s, name, k0)
    ensures EventsComplete(s, name, [k0], Recalculate(s, k0, s.holders[k0].elem.value).events)
  {
    var h := s.holders[k0];
    var events := Recalculate(s, k0, h.elem.value).events;
    forall l | l in h.listeners && Notifies(ReplayOf(s, h.elem.value))
      ensures Owed(ReplayOf(s, h.elem.value), l) in events
    {
      var j :| 0 <= j < |h.listeners| && h.listeners[j] == l;
      assert events[j] == Owed(ReplayOf(s, h.elem.value), l);
    }
  }

  /** One turn of the loop that recomputes its first key: the callbacks of
      that recompute followed by those of the rest cover every key. */
  lemma CompleteStep<V(!new), P, L>(s: State<V, P, L>, s1: State<V, P, L>, name: CommandName<V, P>, keys: seq<CacheKey<V>>, head: seq<Event<L, V>>, tail: seq<Event<L, V>>)
    requires WellFormed(s) && WellFormed(s1)
    requires keys != [] && Selected(s, name, keys[0])
    requires forall k :: k != keys[0] ==> Untouched(s, s1, k)
    requires s1.log == s.log && s1.registry == s.registry
    requires EventsComplete(s, name, [keys[0]], head)
    requires EventsComplete(s1, name, keys[1..], tail)
    ensures EventsComplete(s, name, keys, head + tail)
  {
    forall k, l | k in keys && Selected(s, name, k) && l in s.holders[k].listeners
      && Notifies(ReplayOf(s, s.holders[k].elem.value))
      ensures Owed(ReplayOf(s, s.holders[k].elem.value), l) in head + tail
    {
      if k == keys[0] {
        assert Owed(ReplayOf(s, s.holders[k].elem.value), l) in head;
      } else {
        UntouchedKeepsReplay(s, s1, name, k);
        assert k in keys[1..];
        assert Owed(ReplayOf(s, s.holders[k].elem.value), l) in tail;
      }
    }
  }

  /** One turn of the loop that skips its first key. */
  lemma CompleteSkip<V(!new), P, L>(s: State<V, P, L>, name: CommandName<V, P>, keys: seq<CacheKey<V>>, events: seq<Event<L, V>>)
    requires WellFormed(s)
    requires keys != [] && !Selected(s, name, keys[0])
    requires EventsComplete(s, name, keys[1..], events)
    ensures EventsComplete(s, name, keys, events)
  {
    forall k | k in keys && k != keys[0] ensures k in keys[1..] {
      var i :| 0 <= i < |keys| && keys[i] == k;
      assert keys[1..][i - 1] == k;
    }
  }

  /** Every listener of a recomputed holder whose element was dropped or
      whose value changed gets the matching callback. */
  lemma {:induction false} RecomputeHotEventsComplete<V(!new), P, L>(s: State<V, P, L>, name: CommandName<V, P>, keys: seq<CacheKey<V>>)
    requires WellFormed(s)
    requires forall i :: 0 <= i < |keys| ==> keys[i] in s.holders
    ensures EventsComplete(s, name, keys, RecomputeHot(s, name, keys).1)
    decreases |keys|
  {
    if keys != [] {
      if Selected(s, name, keys[0]) {
        var s1 := Recalculate(s, keys[0], s.holders[keys[0]].elem.value).state;
        RecomputeHotEventsComplete(s1, name, keys[1..]);
        CompleteThen(s, name, keys);
      } else {
        RecomputeHotEventsComplete(s, name, keys[1..]);
        UnfoldSkipped(s, name, keys);
        CompleteSkip(s, name, keys, RecomputeHot(s, name, keys).1);
      }
    }
  }

  /** The turn of the loop that recomputes its first key, in terms of the loop. */
  lemma CompleteThen<V(!new), P, L>(s: State<V, P, L>, name: CommandName<V, P>, keys: seq<CacheKey<V>>)
    requires WellFormed(s)
    requires forall i :: 0 <= i < |keys| ==> keys[i] in s.holders
    requires keys != [] && Selected(s, name, keys[0])
    requires EventsComplete(Recalculate(s, keys[0], s.holders[keys[0]].elem.value).state, name, keys[1..],
      RecomputeHot(Recalculate(s, keys[0], s.holders[keys[0]].elem.value).state, name, keys[1..]).1)
    ensures EventsComplete(s, name, keys, RecomputeHot(s, name, keys).1)
  {
    var step := Recalculate(s, keys[0], s.holders[keys[0]].elem.value);
    UnfoldSelected(s, name, keys);
    RecalculateOwes(s, name, keys[0]);
    CompleteStep(s, step.state, name, keys, step.events, RecomputeHot(step.state, name, keys[1..]).1);
  }

  /** The callbacks a holder whose replay ended in `replay` owes its
      listeners: each one, in list order, once, when the element was dropped
      or changed, and none otherwise. */
  function OwedAll<L, V>(replay: Replayed<V>, ls: seq<L>): seq<Event<L, V>> {
    if replay.Dropped? then InvalidatedAll(ls)
    else if replay.changed then ChangedAll(ls, replay.value)
    else []
  }

  /** The callbacks owed when the loop of `invalidate` visits `keys` in
      order, every visited holder judged by its replay in state s. */
  ghost function HotTrace<V(!new), P, L>(s: State<V, P, L>, name: CommandName<V, P>, keys: seq<CacheKey<V>>): seq<Event<L, V>>
    requires WellFormed(s)
    requires forall i :: 0 <= i < |keys| ==> keys[i] in s.holders
    decreases |keys|
  {
    if keys == [] then []
    else
      var head := if Selected(s, name, keys[0])
        then OwedAll(ReplayOf(s, s.holders[keys[0]].elem.value), s.holders[keys[0]].listeners)
        else [];
      head + HotTrace(s, name, keys[1..])
  }

  /** The recompute of a selected key makes exactly the callbacks it owes. */
  lemma RecalculateEventsOwed<V(!new), P, L>(s: State<V, P, L>, name: CommandName<V, P>, k: CacheKey<V>)
    requires WellFormed(s) && Selected(s, name, k)
    ensures Recalculate(s, k, s.holders[k].elem.value).events == OwedAll(ReplayOf(s, s.holders[k].elem.value), s.holders[k].listeners)
  {
  }

  /** States that agree on the keys visited owe the same callbacks. */
  lemma {:induction false} HotTraceFrame<V(!new), P, L>(s: State<V, P, L>, u: State<V, P, L>, name: CommandName<V, P>, keys: seq<CacheKey<V>>)
    requires WellFormed(s) && WellFormed(u)
    requires forall i :: 0 <= i < |keys| ==> keys[i] in s.holders
    requires forall k :: k in keys ==> Untouched(s, u, k)
    requires u.log == s.log && u.registry == s.registry
    ensures forall i :: 0 <= i < |keys| ==> keys[i] in u.holders
    ensures HotTrace(u, name, keys) == HotTrace(s, name, keys)
    decreases |keys|
  {
    assert forall i :: 0 <= i < |keys| ==> keys[i] in keys;
    if keys != [] {
      assert keys[0] in keys;
      UntouchedKeepsReplay(s, u, name, keys[0]);
      assert forall k :: k in keys[1..] ==> k in keys;
      HotTraceFrame(s, u, name, keys[1..]);
    }
  }

  /** The tail of a sequence of distinct holder keys is one too, and leaves out the head. */
  lemma DistinctTail<V(!new), L>(holders: map<CacheKey<V>, Holder<L>>, keys: seq<CacheKey<V>>)
    requires keys != []
    requires forall i :: 0 <= i < |keys| ==> keys[i] in holders
    requires forall i, j :: 0 <= i < j < |keys| ==> keys[i] != keys[j]
    ensures forall i :: 0 <= i < |keys[1..]| ==> keys[1..][i] in holders
    ensures forall i, j :: 0 <= i < j < |keys[1..]| ==> keys[1..][i] != keys[1..][j]
    ensures forall k :: k in keys[1..] ==> k != keys[0]
  {
    var tail := keys[1..];
    forall i, j | 0 <= i < j < |tail| ensures tail[i] != tail[j] {
      assert tail[i] == keys[i + 1] && tail[j] == keys[j + 1];
    }
    forall k | k in tail ensures k != keys[0] {
      var j :| 0 <= j < |tail| && tail[j] == k;
      assert keys[j + 1] == k;
    }
  }

  /** One turn of the loop on a selected first key: if the rest of the loop
      makes the callbacks the rest owes, so does the whole loop. */
  lemma TraceStep<V(!new), P, L>(s: State<V, P, L>, name: CommandName<V, P>, keys: seq<CacheKey<V>>)
    requires WellFormed(s)
    requires forall i :: 0 <= i < |keys| ==> keys[i] in s.holders
    requires keys != [] && Selected(s, name, keys[0])
    requires forall k :: k in keys[1..] ==> k != keys[0]
    requires RecomputeHot(Recalculate(s, keys[0], s.holders[keys[0]].elem.value).state, name, keys[1..]).1
          == HotTrace(Recalculate(s, keys[0], s.holders[keys[0]].elem.value).state, name, keys[1..])
    ensures RecomputeHot(s, name, keys).1 == HotTrace(s, name, keys)
  {
    var step := Recalculate(s, keys[0], s.holders[keys[0]].elem.value);
    UnfoldSelected(s, name, keys);
    RecalculateEventsOwed(s, name, keys[0]);
    HotTraceFrame(s, step.state, name, keys[1..]);
  }

  /** The loop of `invalidate` over distinct keys makes exactly the owed
      callbacks: holder after holder in `keys` order, and for each selected
      holder whose element was dropped or changed, each listener once, in
      list order. */
  lemma {:induction false} RecomputeHotTrace<V(!new), P, L>(s: State<V, P, L>, name: CommandName<V, P>, keys: seq<CacheKey<V>>)
    requires WellFormed(s)
    requires forall i :: 0 <= i < |keys| ==> keys[i] in s.holders
    requires forall i, j :: 0 <= i < j < |keys| ==> keys[i] != keys[j]
    ensures RecomputeHot(s, name, keys).1 == HotTrace(s, name, keys)
    decreases |keys|
  {
    if keys != [] {
      DistinctTail(s.holders, keys);
      if Selected(s, name, keys[0]) {
        RecomputeHotTrace(Recalculate(s, keys[0], s.holders[keys[0]].elem.value).state, name, keys[1..]);
        TraceStep(s, name, keys);
      } else {
        UnfoldSkipped(s, name, keys);
        RecomputeHotTrace(s, name, keys[1..]);
      }
    }
  }

  /** What one command outcome does to a value when it is the only entry replayed. */
  function Effect<V>(out: Outcome<V>, obj: V): Replayed<V> {
    if IsInvalidate(out) then Dropped
    else if IsUpdate(out) then Kept(out.param.value, true)
    else Kept(obj, false)
  }

  /** Replaying a single entry is applying its command once. */
  lemma FoldOne<V, P>(reg: Registry<V, P>, e: Entry<V, P>, obj: V)
    requires e.name in reg
    ensures Registered(reg, [e])
    ensures Fold(reg, [e], obj, false) == Effect(Apply(reg, e, obj), obj)
  {
    assert [e][1..] == [];
  }

  /** The outcome `invalidate(name, param)` computes for the hot element of k. */
  ghost function FreshOutcome<V(!new), P, L>(s: State<V, P, L>, name: CommandName<V, P>, param: P, k: CacheKey<V>): Replayed<V>
    requires WellFormed(s) && name in s.registry && Selected(s, name, k)
  {
    var obj := s.heap[s.holders[k].elem.value].obj;
    Effect(Apply(s.registry, Entry(s.version, name, param), obj), obj)
  }

  /** Right after `invalidate` logs its entry, a caught-up element that
      listens to the name has exactly that entry to replay, and one that
      does not listen has nothing to replay. */
  lemma ReplayAfterLog<V(!new), P, L>(s: State<V, P, L>, name: CommandName<V, P>, param: P, id: ElemId)
    requires WellFormed(s) && name in s.registry && id in s.heap
    requires CaughtUp(s.log, s.heap[id])
    ensures id in Logged(s, name, param).heap
    ensures ReplayOf(Logged(s, name, param), id) ==
      (if name in s.heap[id].commands then Effect(Apply(s.registry, Entry(s.version, name, param), s.heap[id].obj), s.heap[id].obj)
       else Kept(s.heap[id].obj, false))
  {
    var t := Logged(s, name, param);
    var el := s.heap[id];
    var e := Entry(s.version, name, param);
    PendingAppend(s.log, [e], el);
    PendingEmptyIffCaughtUp(s.log, el);
    assert [e][1..] == [];
    assert Pending(t.log, el) == Pending([e], el);
    if name in el.commands {
      assert Matches(e, el);
      assert Pending(t.log, el) == [e];
      FoldOne(s.registry, e, el.obj);
    } else {
      assert Pending(t.log, el) == [];
    }
  }

  /** The state a successful `invalidate(name, param)` leaves. */
  function AfterInvalidate<V(!new), P, L>(s: State<V, P, L>, name: CommandName<V, P>, param: P, order: seq<CacheKey<V>>): State<V, P, L>
    requires WellFormed(s) && Enumerates(order, s.holders) && name in s.registry
  {
    Engine.Invalidate(s, name, param, order).value.state
  }

  /** The callbacks a successful `invalidate(name, param)` makes. */
  function InvalidateEvents<V(!new), P, L>(s: State<V, P, L>, name: CommandName<V, P>, param: P, order: seq<CacheKey<V>>): seq<Event<L, V>>
    requires WellFormed(s) && Enumerates(order, s.holders) && name in s.registry
  {
    Engine.Invalidate(s, name, param, order).value.events
  }

  /** `invalidate` leaves alone every key whose holder has no present
      element listening to the name: such holders, and the cold store under
      such keys, are as they were. */
  lemma InvalidateTouchesOnlySubscribed<V(!new), P, L>(s: State<V, P, L>, name: CommandName<V, P>, param: P, order: seq<CacheKey<V>>)
    requires WellFormed(s) && Enumerates(order, s.holders) && name in s.registry
    ensures forall k :: !Selected(s, name, k) ==> Untouched(s, AfterInvalidate(s, name, param, order), k)
  {
    var logged := Logged(s, name, param);
    var t := AfterInvalidate(s, name, param, order);
    RecomputeHotEffect(logged, name, order);
    forall k | !Selected(s, name, k) ensures Untouched(s, t, k) {
      assert !Selected(logged, name, k);
      assert Untouched(logged, t, k);
      forall id | Owns(s, k, id) && id in s.heap ensures id in t.heap && t.heap[id] == s.heap[id] {
        assert Owns(logged, k, id);
      }
    }
  }

  /** `invalidate` recomputes every holder whose present element listens to
      the name, from the new entry alone: on `INVALIDATE` the holder is
      emptied and the key leaves the cold store; otherwise the holder keeps
      the same element, which takes the updated value (or keeps its own) and
      has absorbed the whole log. */
  lemma InvalidateRecomputesSubscribed<V(!new), P, L>(s: State<V, P, L>, name: CommandName<V, P>, param: P, order: seq<CacheKey<V>>)
    requires Valid(s) && Enumerates(order, s.holders) && name in s.registry
    ensures forall k :: Selected(s, name, k) ==>
      k in AfterInvalidate(s, name, param, order).holders
    ensures forall k :: Selected(s, name, k) && FreshOutcome(s, name, param, k).Dropped? ==>
      && AfterInvalidate(s, name, param, order).holders[k].elem.None?
      && k !in AfterInvalidate(s, name, param, order).cache
    ensures forall k :: Selected(s, name, k) && FreshOutcome(s, name, param, k).Kept? ==>
      && AfterInvalidate(s, name, param, order).holders[k].elem == s.holders[k].elem
      && s.holders[k].elem.value in AfterInvalidate(s, name, param, order).heap
      && AfterInvalidate(s, name, param, order).heap[s.holders[k].elem.value].obj == FreshOutcome(s, name, param, k).value
      && CaughtUp(AfterInvalidate(s, name, param, order).log, AfterInvalidate(s, name, param, order).heap[s.holders[k].elem.value])
  {
    var logged := Logged(s, name, param);
    var t := AfterInvalidate(s, name, param, order);
    RecomputeHotEffect(logged, name, order);
    forall k | Selected(s, name, k)
      ensures k in t.holders
      ensures FreshOutcome(s, name, param, k).Dropped? ==> t.holders[k].elem.None? && k !in t.cache
      ensures FreshOutcome(s, name, param, k).Kept? ==>
        && t.holders[k].elem == s.holders[k].elem
        && s.holders[k].elem.value in t.heap
        && t.heap[s.holders[k].elem.value].obj == FreshOutcome(s, name, param, k).value
        && CaughtUp(t.log, t.heap[s.holders[k].elem.value])
    {
      var id := s.holders[k].elem.value;
      ReplayAfterLog(s, name, param, id);
      assert Selected(logged, name, k) && k in order;
      assert Recomputed(logged, t, k);
    }
  }

  /** An element that has absorbed the log and does not listen to a name
      has nothing to replay after that name is logged. */
  lemma CaughtUpAfterUnheardEntry<V, P>(log: seq<Entry<V, P>>, e: Entry<V, P>, el: Element<V, P>)
    requires CaughtUp(log, el) && e.name !in el.commands
    ensures CaughtUp(log + [e], el)
  {
    forall i | 0 <= i < |log + [e]| ensures !Matches((log + [e])[i], el) {
      if i < |log| {
        assert (log + [e])[i] == log[i];
      }
    }
  }

  /** `invalidate` keeps the invariant: every present hot element has absorbed the whole log. */
  lemma InvalidatePreservesValid<V(!new), P, L>(s: State<V, P, L>, name: CommandName<V, P>, param: P, order: seq<CacheKey<V>>)
    requires Valid(s) && Enumerates(order, s.holders)
    requires name in s.registry
    ensures Valid(AfterInvalidate(s, name, param, order))
  {
    var t := AfterInvalidate(s, name, param, order);
    InvalidateTouchesOnlySubscribed(s, name, param, order);
    InvalidateRecomputesSubscribed(s, name, param, order);
    forall k | k in t.holders && t.holders[k].elem.Some? && t.holders[k].elem.value in t.heap
      ensures CaughtUp(t.log, t.heap[t.holders[k].elem.value])
    {
      if !Selected(s, name, k) {
        assert Untouched(s, t, k);
        var id := s.holders[k].elem.value;
        assert Owns(s, k, id);
        CaughtUpAfterUnheardEntry(s.log, Entry(s.version, name, param), s.heap[id]);
      }
    }
  }

  /** Every callback `invalidate` makes is owed: it goes to a listener of a
      subscribed holder whose element the new entry invalidated
      (`onInvalidated`) or updated (`onChanged` with the new value). */
  lemma InvalidateNotifiesOnlyOwed<V(!new), P, L>(s: State<V, P, L>, name: CommandName<V, P>, param: P, order: seq<CacheKey<V>>)
    requires Valid(s) && Enumerates(order, s.holders) && name in s.registry
    ensures forall e :: e in InvalidateEvents(s, name, param, order) ==>
      exists k :: && Selected(s, name, k)
                  && e.listener in s.holders[k].listeners
                  && Notifies(FreshOutcome(s, name, param, k))
                  && e == Owed(FreshOutcome(s, name, param, k), e.listener)
  {
    var logged := Logged(s, name, param);
    var events := InvalidateEvents(s, name, param, order);
    RecomputeHotEventsJustified(logged, name, order);
    forall e | e in events
      ensures exists k :: && Selected(s, name, k)
                          && e.listener in s.holders[k].listeners
                          && Notifies(FreshOutcome(s, name, param, k))
                          && e == Owed(FreshOutcome(s, name, param, k), e.listener)
    {
      var k :| k in order && Justifies(logged, name, k, e);
      OwedAfterLog(s, name, param, k, e);
    }
  }

  /** An event owed by recomputing k right after the log append is owed
      by the new entry's outcome on k's element. */
  lemma OwedAfterLog<V(!new), P, L>(s: State<V, P, L>, name: CommandName<V, P>, param: P, k: CacheKey<V>, e: Event<L, V>)
    requires Valid(s) && name in s.registry
    requires Justifies(Logged(s, name, param), name, k, e)
    ensures Selected(s, name, k)
    ensures e.listener in s.holders[k].listeners
    ensures Notifies(FreshOutcome(s, name, param, k))
    ensures e == Owed(FreshOutcome(s, name, param, k), e.listener)
  {
    ReplayAfterLog(s, name, param, s.holders[k].elem.value);
  }

  /** `invalidate` tells every listener of every subscribed holder whose
      element the new entry invalidated or updated. */
  lemma InvalidateNotifiesAllOwed<V(!new), P, L>(s: State<V, P, L>, name: CommandName<V, P>, param: P, order: seq<CacheKey<V>>)
    requires Valid(s) && Enumerates(order, s.holders) && name in s.registry
    ensures forall k, l :: Selected(s, name, k) && l in s.holders[k].listeners && Notifies(FreshOutcome(s, name, param, k)) ==>
      Owed(FreshOutcome(s, name, param, k), l) in InvalidateEvents(s, name, param, order)
  {
    var logged := Logged(s, name, param);
    RecomputeHotEventsComplete(logged, name, order);
    forall k, l | Selected(s, name, k) && l in s.holders[k].listeners && Notifies(FreshOutcome(s, name, param, k))
      ensures Owed(FreshOutcome(s, name, param, k), l) in InvalidateEvents(s, name, param, order)
    {
      ReplayAfterLog(s, name, param, s.holders[k].elem.value);
      assert k in order && Selected(logged, name, k);
    }
  }

  /** The callbacks `invalidate(name, param)` owes when its loop visits
      `keys` in order: for each selected holder whose element the new entry
      drops or changes, each listener once, in list order. */
  ghost function OwedTrace<V(!new), P, L>(s: State<V, P, L>, name: CommandName<V, P>, param: P, keys: seq<CacheKey<V>>): seq<Event<L, V>>
    requires WellFormed(s) && name in s.registry
    requires forall i :: 0 <= i < |keys| ==> keys[i] in s.holders
    decreases |keys|
  {
    if keys == [] then []
    else
      var head := if Selected(s, name, keys[0])
        then OwedAll(FreshOutcome(s, name, param, keys[0]), s.holders[keys[0]].listeners)
        else [];
      head + OwedTrace(s, name, param, keys[1..])
  }

  /** Right after the log append, the owed callbacks are those the new entry alone causes. */
  lemma {:induction false} HotTraceAfterLog<V(!new), P, L>(s: State<V, P, L>, name: CommandName<V, P>, param: P, keys: seq<CacheKey<V>>)
    requires Valid(s) && name in s.registry
    requires forall i :: 0 <= i < |keys| ==> keys[i] in s.holders
    ensures HotTrace(Logged(s, name, param), name, keys) == OwedTrace(s, name, param, keys)
    decreases |keys|
  {
    if keys != [] {
      var k := keys[0];
      var logged := Logged(s, name, param);
      assert Selected(logged, name, k) <==> Selected(s, name, k);
      if Selected(s, name, k) {
        ReplayAfterLog(s, name, param, s.holders[k].elem.value);
      }
      HotTraceAfterLog(s, name, param, keys[1..]);
    }
  }

  /** `invalidate` makes exactly the owed callbacks, each once: holder after
      holder in iteration order, and for each selected holder whose element
      the new entry drops or changes, each listener in list order. */
  lemma InvalidateTraceIsOwed<V(!new), P, L>(s: State<V, P, L>, name: CommandName<V, P>, param: P, order: seq<CacheKey<V>>)
    requires Valid(s) && Enumerates(order, s.holders) && name in s.registry
    ensures InvalidateEvents(s, name, param, order) == OwedTrace(s, name, param, order)
  {
    var logged := Logged(s, name, param);
    RecomputeHotTrace(logged, name, order);
    HotTraceAfterLog(s, name, param, order);
  }

  /** A non-empty sequence contains its first element. */
  lemma HeadIsMember<T>(xs: seq<T>)
    ensures xs != [] ==> xs[0] in xs
  {
  }

  /** When the new entry neither invalidates nor updates any subscribed
      element, `invalidate` makes no callback at all. */
  lemma InvalidateQuietWithoutChange<V(!new), P, L>(s: State<V, P, L>, name: CommandName<V, P>, param: P, order: seq<CacheKey<V>>)
    requires Valid(s) && Enumerates(order, s.holders) && name in s.registry
    requires forall k :: Selected(s, name, k) ==> !Notifies(FreshOutcome(s, name, param, k))
    ensures InvalidateEvents(s, name, param, order) == []
  {
    var events := InvalidateEvents(s, name, param, order);
    InvalidateNotifiesOnlyOwed(s, name, param, order);
    if events != [] {
      HeadIsMember(events);
      assert false;
    }
  }

  /** `putCache` keeps the invariant, and no entry logged before the put
      ever applies to the element it creates. */
  lemma PutCachePreservesValid<V(!new), P, L>(s: State<V, P, L>, key: CacheKey<V>, obj: V, commands: seq<CommandName<V, P>>)
    requires Valid(s)
    ensures Valid(PutCache(s, key, obj, commands).state)
    ensures CaughtUp(PutCache(s, key, obj, commands).state.log, PutCache(s, key, obj, commands).state.heap[s.nextId])
  {
    var t := PutCache(s, key, obj, commands).state;
    AboveLogIsCaughtUp(s.log, Element(s.version, obj, commands));
    forall k | k in t.holders && t.holders[k].elem.Some? && t.holders[k].elem.value in t.heap
      ensures CaughtUp(t.log, t.heap[t.holders[k].elem.value])
    {
      if k != key {
        assert Untouched(s, t, k);
        assert Owns(s, k, s.holders[k].elem.value);
      }
    }
  }

  /** Reading a key right after `putCache` gives back the object that was
      put, with no callback. */
  lemma PutThenGet<V(!new), P, L>(s: State<V, P, L>, key: CacheKey<V>, obj: V, commands: seq<CommandName<V, P>>)
    requires WellFormed(s)
    ensures GetCacheIfPresent(PutCache(s, key, obj, commands).state, key).result == Some(obj)
    ensures GetCacheIfPresent(PutCache(s, key, obj, commands).state, key).events == []
  {
    var t := PutCache(s, key, obj, commands).state;
    var id := s.nextId;
    AboveLogIsCaughtUp(t.log, t.heap[id]);
    CaughtUpReplaysNothing(t, id);
    assert Located(t, key, id);
  }

  /** Reading a hot key returns its element's value and calls nobody: the
      element has already absorbed the log. The counter still advances. */
  lemma HotReadIsCurrent<V(!new), P, L>(s: State<V, P, L>, key: CacheKey<V>)
    requires Valid(s)
    requires key in s.holders && s.holders[key].elem.Some?
    ensures GetCacheIfPresent(s, key).result == Some(s.heap[s.holders[key].elem.value].obj)
    ensures GetCacheIfPresent(s, key).events == []
    ensures GetCacheIfPresent(s, key).state.version == s.version + 1
  {
    CaughtUpReplaysNothing(s, s.holders[key].elem.value);
  }

  /** Reading a key that only the cold store has replays its pending
      entries, but an `UPDATED` value is written nowhere: the read returns
      the value the element was stored with, calls nobody, and marks the
      entries as absorbed. An `INVALIDATE` drops the key. */
  lemma ColdReadIgnoresUpdates<V(!new), P, L>(s: State<V, P, L>, key: CacheKey<V>)
    requires WellFormed(s)
    requires key !in s.holders && key in s.cache
    ensures GetCacheIfPresent(s, key).events == []
    ensures ReplayOf(s, s.cache[key]).Dropped? ==>
      GetCacheIfPresent(s, key).result == None && key !in GetCacheIfPresent(s, key).state.cache
    ensures ReplayOf(s, s.cache[key]).Kept? ==>
      && GetCacheIfPresent(s, key).result == Some(s.heap[s.cache[key]].obj)
      && key in GetCacheIfPresent(s, key).state.cache
      && GetCacheIfPresent(s, key).state.cache[key] == s.cache[key]
      && GetCacheIfPresent(s, key).state.heap[s.cache[key]].obj == s.heap[s.cache[key]].obj
      && CaughtUp(GetCacheIfPresent(s, key).state.log, GetCacheIfPresent(s, key).state.heap[s.cache[key]])
  {
  }

  /** An update read cold is lost for good: a second read returns the old
      value again, and a holder registered afterwards is seeded with the
      same stale element. */
  lemma ColdUpdateLostForever<V(!new), P, L>(s: State<V, P, L>, key: CacheKey<V>, listener: L)
    requires WellFormed(s)
    requires key !in s.holders && key in s.cache
    requires ReplayOf(s, s.cache[key]).Kept?
    ensures GetCacheIfPresent(GetCacheIfPresent(s, key).state, key).result == Some(s.heap[s.cache[key]].obj)
    ensures Register(GetCacheIfPresent(s, key).state, key, listener).holders[key].elem == Some(s.cache[key])
    ensures Register(GetCacheIfPresent(s, key).state, key, listener).heap[s.cache[key]].obj == s.heap[s.cache[key]].obj
  {
    var id := s.cache[key];
    var u := GetCacheIfPresent(s, key).state;
    ColdReadIgnoresUpdates(s, key);
    assert key !in u.holders;
    CaughtUpReplaysNothing(u, id);
    ColdReadIgnoresUpdates(u, key);
  }

  /** Reading a key keeps the invariant. */
  lemma GetCachePreservesValid<V(!new), P, L>(s: State<V, P, L>, key: CacheKey<V>)
    requires Valid(s)
    ensures Valid(GetCacheIfPresent(s, key).state)
  {
    var t := GetCacheIfPresent(s, key).state;
    forall k | k in t.holders && t.holders[k].elem.Some? && t.holders[k].elem.value in t.heap
      ensures CaughtUp(t.log, t.heap[t.holders[k].elem.value])
    {
      if k != key {
        assert Untouched(s, t, k);
        assert Owns(s, k, s.holders[k].elem.value);
      } else {
        CaughtUpReplaysNothing(s, s.holders[k].elem.value);
      }
    }
  }

  /** `register` keeps the invariant: a new holder is seeded with an
      element that has just absorbed the log. */
  lemma RegisterPreservesValid<V(!new), P, L>(s: State<V, P, L>, key: CacheKey<V>, listener: L)
    requires Valid(s)
    ensures Valid(Register(s, key, listener))
  {
    var t := Register(s, key, listener);
    forall k | k in t.holders && t.holders[k].elem.Some? && t.holders[k].elem.value in t.heap
      ensures CaughtUp(t.log, t.heap[t.holders[k].elem.value])
    {
      if k != key {
        assert Untouched(s, t, k);
        assert Owns(s, k, s.holders[k].elem.value);
      }
    }
  }

  /** A holder created by `register` takes the very element object of the
      cold store when that element survives its replay, so both tiers share
      it; when the replay invalidates, the holder starts empty and the key
      leaves the cold store. */
  lemma RegisterSharesColdElement<V(!new), P, L>(s: State<V, P, L>, key: CacheKey<V>, listener: L)
    requires WellFormed(s)
    requires key !in s.holders && key in s.cache
    ensures ReplayOf(s, s.cache[key]).Kept? ==>
      && Register(s, key, listener).holders[key].elem == Some(s.cache[key])
      && key in Register(s, key, listener).cache
      && Register(s, key, listener).cache[key] == s.cache[key]
    ensures ReplayOf(s, s.cache[key]).Dropped? ==>
      && Register(s, key, listener).holders[key].elem.None?
      && key !in Register(s, key, listener).cache
  {
  }

  /** `List.remove` of an element appended to a list that did not hold it gives the list back. */
  lemma RemoveFirstAppended<L>(ls: seq<L>, l: L)
    requires l !in ls
    ensures RemoveFirst(ls + [l], l) == ls
  {
    var i := FirstIndex(ls + [l], l);
    assert (ls + [l])[..i] == ls;
  }

  /** Registering a listener that was not on an existing holder and then
      unregistering it restores the state exactly. */
  lemma RegisterThenUnregister<V(!new), P, L>(s: State<V, P, L>, key: CacheKey<V>, listener: L)
    requires WellFormed(s)
    requires key in s.holders && listener !in s.holders[key].listeners
    ensures Unregister(Register(s, key, listener), key, listener) == Success(s)
  {
    var h := s.holders[key];
    RegisterOnHolder(s, key, listener);
    UnregisterAppended(Register(s, key, listener), key, h.listeners, listener);
    HolderRestored(s, key, h.listeners + [listener]);
  }

  /** Changing a holder's listeners and then putting the old ones back gives the state back. */
  lemma HolderRestored<V, P, L>(s: State<V, P, L>, key: CacheKey<V>, ls: seq<L>)
    requires key in s.holders
    ensures s.(holders := s.holders[key := s.holders[key].(listeners := ls)]).(holders := s.holders[key := s.holders[key].(listeners := ls)][key := s.holders[key]]) == s
  {
    assert s.holders[key := s.holders[key].(listeners := ls)][key := s.holders[key]] == s.holders;
  }

  /** `unregister` of the last listener of a holder that has others drops just that one. */
  lemma UnregisterAppended<V(!new), P, L>(t: State<V, P, L>, key: CacheKey<V>, ls: seq<L>, listener: L)
    requires WellFormed(t) && key in t.holders && t.holders[key].listeners == ls + [listener]
    requires listener !in ls && ls != []
    ensures Unregister(t, key, listener) == Success(t.(holders := t.holders[key := t.holders[key].(listeners := ls)]))
  {
    RemoveFirstAppended(ls, listener);
  }

  /** `register` on a key with a holder only appends the listener to it. */
  lemma RegisterOnHolder<V(!new), P, L>(s: State<V, P, L>, key: CacheKey<V>, listener: L)
    requires WellFormed(s) && key in s.holders
    ensures Register(s, key, listener) == s.(holders := s.holders[key := s.holders[key].(listeners := s.holders[key].listeners + [listener])])
  {
  }

  /** Registering the first listener of a key and unregistering it again
      leaves the holder table as it was; only the replay of the cold
      element that `register` performed remains. */
  lemma RegisterThenUnregisterFresh<V(!new), P, L>(s: State<V, P, L>, key: CacheKey<V>, listener: L)
    requires WellFormed(s)
    requires key !in s.holders
    ensures Unregister(Register(s, key, listener), key, listener).Success?
    ensures Unregister(Register(s, key, listener), key, listener).value.holders == s.holders
  {
    var t := Register(s, key, listener);
    var u := Unregister(t, key, listener).value;
    assert |t.holders[key].listeners| == 1;
    UntouchedChain(s, t, u, key);
    SameHoldersElsewhere(s, u, key);
  }

  /** Two states that agree on every key but one, and both lack a holder
      for that one, have the same holder table. */
  lemma SameHoldersElsewhere<V(!new), P, L>(s: State<V, P, L>, u: State<V, P, L>, key: CacheKey<V>)
    requires key !in s.holders && key !in u.holders
    requires forall k :: k != key ==> Untouched(s, u, k)
    ensures u.holders == s.holders
  {
    forall k | k in s.holders ensures k in u.holders && u.holders[k] == s.holders[k] {
      assert Untouched(s, u, k);
    }
    forall k | k in u.holders ensures k in s.holders {
      assert Untouched(s, u, k);
    }
  }

  /** `unregister` keeps the invariant. */
  lemma UnregisterPreservesValid<V(!new), P, L>(s: State<V, P, L>, key: CacheKey<V>, listener: L)
    requires Valid(s)
    ensures Unregister(s, key, listener).Success? ==> Valid(Unregister(s, key, listener).value)
  {
  }

  /** After `clearAll` the invariant holds and no key yields a value. */
  lemma ClearAllEmptiesEveryKey<V(!new), P, L>(s: State<V, P, L>, order: seq<CacheKey<V>>)
    requires WellFormed(s) && Enumerates(order, s.holders)
    ensures Valid(ClearAll(s, order).state)
    ensures forall key :: GetCacheIfPresent(ClearAll(s, order).state, key).result.None?
  {
    ClearedEmptiesEveryKey(s);
    assert ClearAll(s, order).state == Cleared(s);
  }

  /** The state `clearAll` leaves keeps the invariant, and no key yields a value in it. */
  lemma ClearedEmptiesEveryKey<V(!new), P, L>(s: State<V, P, L>)
    requires WellFormed(s)
    ensures Valid(Cleared(s))
    ensures forall key :: GetCacheIfPresent(Cleared(s), key).result.None?
  {
  }

  /** Eviction from the cold store keeps the invariant, and a key with a
      holder reads exactly as before: the hot tier does not depend on the
      cold one. */
  lemma EvictKeepsHotReads<V(!new), P, L>(s: State<V, P, L>, key: CacheKey<V>)
    requires Valid(s)
    ensures Valid(Evict(s, key))
    ensures key in s.holders ==>
      && GetCacheIfPresent(Evict(s, key), key).result == GetCacheIfPresent(s, key).result
      && GetCacheIfPresent(Evict(s, key), key).events == GetCacheIfPresent(s, key).events
    ensures key !in s.holders ==> GetCacheIfPresent(Evict(s, key), key).result.None?
  {
    var t := Evict(s, key);
    if key in s.holders && s.holders[key].elem.Some? {
      var id := s.holders[key].elem.value;
      assert ReplayOf(t, id) == ReplayOf(s, id);
    }
  }

  /** `addCommand` keeps the invariant and makes `invalidate` accept the name. */
  lemma AddCommandPreservesValid<V(!new), P, L>(s: State<V, P, L>, name: CommandName<V, P>, cmd: CommandFn<V, P>, param: P, order: seq<CacheKey<V>>)
    requires Valid(s)
    requires Enumerates(order, s.holders)
    ensures Valid(AddCommand(s, name, cmd))
    ensures Engine.Invalidate(AddCommand(s, name, cmd), name, param, order).Success?
  {
    var t := AddCommand(s, name, cmd);
    assert forall k1, x :: Owns(t, k1, x) <==> Owns(s, k1, x);
  }
}
