/** `ExampleDescription`: the example application's engine, with its one
    command `COMMENT_ADDED`, its cache key for a post's comments, and the
    methods that hand every call on to the engine. */
module Example {
  import opened Wrappers
  import opened Keys
  import Command
  import opened Replay
  import Engine
  import EngineProofs
  import opened Comments

  /** The engine of the example: comment pages as values, new comments as parameters. */
  type Description<L> = Engine.State<ResponseComments, ResponseComment, L>

  /** `COMMENT_ADDED`. */
  const CommentAdded: CommandName<ResponseComments, ResponseComment> := CommandName("comment_added")

  /** `forPostComments(postGuid)`: the key `"posts/" + postGuid + "/comments"`. */
  function ForPostComments(postGuid: string): (k: CacheKey<ResponseComments>)
    ensures |k.id| == |postGuid| + 15
    ensures k.id[..6] == "posts/" && k.id[6..|k.id| - 9] == postGuid && k.id[|k.id| - 9..] == "/comments"
  {
    CacheKeyOf(Some("posts/" + postGuid + "/comments")).value
  }

  /** Two posts share a comments key only when they are the same post. */
  lemma ForPostCommentsInjective(g1: string, g2: string)
    ensures ForPostComments(g1) == ForPostComments(g2) <==> g1 == g2
    ensures KeyEquals(ForPostComments(g1), KeyObjectOf(ForPostComments(g2))) <==> g1 == g2
  {
    var k1, k2 := ForPostComments(g1), ForPostComments(g2);
    if k1 == k2 {
      assert g1 == k1.id[6..|k1.id| - 9];
    }
    KeyEqualsIffSameId(k1, k2);
  }

  /** The body of `COMMENT_ADDED`: a comment on another post leaves the page
      alone; a comment on this post is put in front of the page. It never
      invalidates. */
  function ApplyCommentAdded(parameter: ResponseComment, obj: ResponseComments): (r: Command.Outcome<ResponseComments>)
    ensures !Command.IsInvalidate(r)
    ensures Command.IsUpdate(r) <==> obj.postGuid == parameter.postGuid
    ensures Command.IsUpdate(r) ==> Command.GetParam(r) == Success(NewWithAddedComment(obj, parameter.comment))
  {
    if obj.postGuid != parameter.postGuid then Command.ForUpdateNotRequired()
    else Command.ForUpdate(NewWithAddedComment(obj, parameter.comment))
  }

  /** One `COMMENT_ADDED` replayed over a page: a matching comment becomes
      the first of one more comments, with post guid and next token kept
      and a change reported; any other comment changes nothing. */
  lemma CommentAddedReplay(parameter: ResponseComment, obj: ResponseComments)
    ensures EngineProofs.Effect(ApplyCommentAdded(parameter, obj), obj).Kept?
    ensures obj.postGuid == parameter.postGuid ==>
      && EngineProofs.Effect(ApplyCommentAdded(parameter, obj), obj).changed
      && EngineProofs.Effect(ApplyCommentAdded(parameter, obj), obj).value.comments == [parameter.comment] + obj.comments
      && EngineProofs.Effect(ApplyCommentAdded(parameter, obj), obj).value.postGuid == obj.postGuid
      && EngineProofs.Effect(ApplyCommentAdded(parameter, obj), obj).value.nextToken == obj.nextToken
    ensures obj.postGuid != parameter.postGuid ==>
      EngineProofs.Effect(ApplyCommentAdded(parameter, obj), obj) == Kept(obj, false)
  {
    var r := ApplyCommentAdded(parameter, obj);
    if obj.postGuid == parameter.postGuid {
      assert r.param == Some(NewWithAddedComment(obj, parameter.comment));
      assert NewWithAddedComment(obj, parameter.comment).comments == [parameter.comment] + obj.comments;
    }
  }

  /** The registry `ExampleDescription` builds: `COMMENT_ADDED` only. */
  function Commands(): Registry<ResponseComments, ResponseComment> {
    map[CommentAdded := ApplyCommentAdded]
  }

  /** A reachable example engine: the invariant holds and the registry is the constructor's. */
  ghost predicate Described<L>(d: Description<L>) {
    Engine.Valid(d) && d.registry == Commands()
  }

  /** `new ExampleDescription()`: an empty engine with `COMMENT_ADDED` added. */
  function NewDescription<L>(): (d: Description<L>)
    ensures Described(d)
    ensures d.log == [] && d.holders == map[] && d.cache == map[] && d.version == 1
  {
    Engine.AddCommand(Engine.Init(), CommentAdded, ApplyCommentAdded)
  }

  /** `invalidate(commandName, parameter)`: only `COMMENT_ADDED` is accepted. */
  function Invalidate<L>(d: Description<L>, name: CommandName<ResponseComments, ResponseComment>, parameter: ResponseComment, order: seq<CacheKey<ResponseComments>>): (r: Result<Engine.Step<ResponseComments, ResponseComment, L, ()>>)
    requires Described(d) && Engine.Enumerates(order, d.holders)
    ensures r.Success? <==> name == CommentAdded
    ensures r.Failure? ==> r.error == IllegalState(UndefinedCommand)
    ensures r.Success? ==> Described(r.value.state) && r.value.state.log == d.log + [Entry(d.version, name, parameter)]
  {
    if name == CommentAdded then
      EngineProofs.InvalidatePreservesValid(d, name, parameter, order);
      Engine.Invalidate(d, name, parameter, order)
    else
      Engine.Invalidate(d, name, parameter, order)
  }

  /** `register(cacheKey, listener)`. */
  function Register<L>(d: Description<L>, key: CacheKey<ResponseComments>, listener: L): (t: Description<L>)
    requires Described(d)
    ensures Described(t)
    ensures key in t.holders && t.holders[key].listeners[|t.holders[key].listeners| - 1] == listener
  {
    EngineProofs.RegisterPreservesValid(d, key, listener);
    Engine.Register(d, key, listener)
  }

  /** `unregister(cacheKey, listener)`. */
  function Unregister<L(==)>(d: Description<L>, key: CacheKey<ResponseComments>, listener: L): (r: Result<Description<L>>)
    requires Described(d)
    ensures r.Success? <==> key in d.holders && listener in d.holders[key].listeners
    ensures r.Success? ==> Described(r.value)
  {
    EngineProofs.UnregisterPreservesValid(d, key, listener);
    Engine.Unregister(d, key, listener)
  }

  /** `putCache(cacheKey, object, commands)`. */
  function PutCache<L>(d: Description<L>, key: CacheKey<ResponseComments>, obj: ResponseComments, commands: seq<CommandName<ResponseComments, ResponseComment>>): (r: Engine.Step<ResponseComments, ResponseComment, L, ()>)
    requires Described(d)
    ensures Described(r.state)
    ensures GetCacheIfPresent(r.state, key).result == Some(obj)
  {
    EngineProofs.PutCachePreservesValid(d, key, obj, commands);
    EngineProofs.PutThenGet(d, key, obj, commands);
    Engine.PutCache(d, key, obj, commands)
  }

  /** `getCacheIfPresent(cacheKey)`. */
  function GetCacheIfPresent<L>(d: Description<L>, key: CacheKey<ResponseComments>): (r: Engine.Step<ResponseComments, ResponseComment, L, Option<ResponseComments>>)
    requires Described(d)
    ensures Described(r.state)
    ensures key !in d.holders && key !in d.cache ==> r.result.None?
  {
    EngineProofs.GetCachePreservesValid(d, key);
    Engine.GetCacheIfPresent(d, key)
  }

  /** `clearAll()`. */
  function ClearAll<L>(d: Description<L>, order: seq<CacheKey<ResponseComments>>): (r: Engine.Step<ResponseComments, ResponseComment, L, ()>)
    requires Described(d) && Engine.Enumerates(order, d.holders)
    ensures Described(r.state)
    ensures r.state.cache == map[]
  {
    EngineProofs.ClearAllEmptiesEveryKey(d, order);
    Engine.ClearAll(d, order)
  }
}

module ExampleScenarios {
  import opened Wrappers
  import opened Keys
  import opened Replay
  import Engine
  import EngineProofs
  import opened Comments
  import opened Example

  /** The page a listener of its post's key sees after the first load:
      registered before the load, it is told the loaded page once. */
  lemma LoadedPageReachesListener<L>(page: ResponseComments, l: L)
    ensures var key := ForPostComments(page.postGuid);
      var put := PutCache(Register(NewDescription<L>(), key, l), key, page, [CommentAdded]);
      && put.events == [Engine.Changed(l, page)]
      && put.state.holders.Keys == {key}
      && put.state.holders[key].listeners == [l]
      && put.state.holders[key].elem.Some?
      && put.state.holders[key].elem.value in put.state.heap
      && put.state.heap[put.state.holders[key].elem.value] == Replay.Element(1, page, [CommentAdded])
      && CaughtUp(put.state.log, put.state.heap[put.state.holders[key].elem.value])
  {
    var key := ForPostComments(page.postGuid);
    FirstRegister<L>(key, l);
    PutOnSoleHolder(Register(NewDescription<L>(), key, l), key, l, page);
  }

  /** The first `register` on a fresh description makes one holder, with
      the one listener, and logs nothing. */
  lemma FirstRegister<L>(key: CacheKey<ResponseComments>, l: L)
    ensures Register(NewDescription<L>(), key, l).holders.Keys == {key}
    ensures Register(NewDescription<L>(), key, l).holders[key].listeners == [l]
    ensures Register(NewDescription<L>(), key, l).log == []
    ensures Register(NewDescription<L>(), key, l).version == 1
  {
  }

  /** `putCache` under the key of the only holder stores the page as an
      element stamped with the current version and tells the listener. */
  lemma PutOnSoleHolder<L>(d: Description<L>, key: CacheKey<ResponseComments>, l: L, page: ResponseComments)
    requires Described(d) && d.holders.Keys == {key} && d.holders[key].listeners == [l] && d.log == []
    ensures var put := PutCache(d, key, page, [CommentAdded]);
      && put.events == [Engine.Changed(l, page)]
      && put.state.holders.Keys == {key}
      && put.state.holders[key].listeners == [l]
      && put.state.holders[key].elem.Some?
      && put.state.holders[key].elem.value in put.state.heap
      && put.state.heap[put.state.holders[key].elem.value] == Replay.Element(d.version, page, [CommentAdded])
      && CaughtUp(put.state.log, put.state.heap[put.state.holders[key].elem.value])
  {
  }

  /** `invalidate` over a single holder: its recompute is the whole of the call. */
  lemma SingleHolderInvalidate<L>(s: Description<L>, key: CacheKey<ResponseComments>, rc: ResponseComment)
    requires Described(s) && s.holders.Keys == {key} && Engine.Selected(s, CommentAdded, key)
    ensures Engine.Enumerates([key], s.holders)
    ensures Invalidate(s, CommentAdded, rc, [key]).Success?
    ensures var logged := Engine.Logged(s, CommentAdded, rc);
      var step := Engine.Recalculate(logged, key, logged.holders[key].elem.value);
      Engine.Invalidate(s, CommentAdded, rc, [key]).value == Engine.Step(step.state, step.events, ())
  {
    EngineProofs.RecomputeHotOne(Engine.Logged(s, CommentAdded, rc), CommentAdded, key);
  }

  /** `invalidate(COMMENT_ADDED, …)` over a single hot page with one
      listener: a comment on the page's post puts it in front and tells the
      listener the new page; a comment on another post changes nothing and
      tells nobody. */
  lemma HotPageInvalidate<L>(s: Description<L>, key: CacheKey<ResponseComments>, l: L, page: ResponseComments, rc: ResponseComment)
    requires Described(s) && s.holders.Keys == {key} && s.holders[key].listeners == [l]
    requires s.holders[key].elem.Some? && s.holders[key].elem.value in s.heap
    requires s.heap[s.holders[key].elem.value] == Replay.Element(s.heap[s.holders[key].elem.value].version, page, [CommentAdded])
    requires CaughtUp(s.log, s.heap[s.holders[key].elem.value])
    ensures Engine.Enumerates([key], s.holders)
    ensures Invalidate(s, CommentAdded, rc, [key]).Success?
    ensures page.postGuid == rc.postGuid ==>
      && Invalidate(s, CommentAdded, rc, [key]).value.events == [Engine.Changed(l, NewWithAddedComment(page, rc.comment))]
      && GetCacheIfPresent(Invalidate(s, CommentAdded, rc, [key]).value.state, key).result == Some(NewWithAddedComment(page, rc.comment))
    ensures page.postGuid != rc.postGuid ==>
      && Invalidate(s, CommentAdded, rc, [key]).value.events == []
      && GetCacheIfPresent(Invalidate(s, CommentAdded, rc, [key]).value.state, key).result == Some(page)
  {
    var id := s.holders[key].elem.value;
    SingleHolderInvalidate(s, key, rc);
    EngineProofs.ReplayAfterLog(s, CommentAdded, rc, id);
    CommentAddedReplay(rc, page);
    var logged := Engine.Logged(s, CommentAdded, rc);
    var step := Engine.Recalculate(logged, key, id);
    if page.postGuid == rc.postGuid {
      assert Engine.ReplayOf(logged, id) == Kept(NewWithAddedComment(page, rc.comment), true);
      assert step.events == [Engine.Changed(l, NewWithAddedComment(page, rc.comment))];
    } else {
      assert Engine.ReplayOf(logged, id) == Kept(page, false);
    }
    EngineProofs.HotReadIsCurrent(step.state, key);
  }

  /** A new comment on a post whose page a listener holds: the listener is
      told, once, the page with the comment in front, the same next token
      and one comment more. */
  lemma CommentAddedReachesListener<L>(page: ResponseComments, c: Comment, l: L)
    ensures var key := ForPostComments(page.postGuid);
      var put := PutCache(Register(NewDescription<L>(), key, l), key, page, [CommentAdded]);
      && Engine.Enumerates([key], put.state.holders)
      && var inv := Invalidate(put.state, CommentAdded, ResponseComment(page.postGuid, c), [key]);
      && inv.Success?
      && inv.value.events == [Engine.Changed(l, NewWithAddedComment(page, c))]
      && GetCacheIfPresent(inv.value.state, key).result == Some(NewWithAddedComment(page, c))
  {
    var key := ForPostComments(page.postGuid);
    var put := PutCache(Register(NewDescription<L>(), key, l), key, page, [CommentAdded]);
    LoadedPageReachesListener(page, l);
    HotPageInvalidate(put.state, key, l, page, ResponseComment(page.postGuid, c));
  }

  /** A new comment on another post: nobody is called, and the page a
      listener reads is the loaded one. */
  lemma OtherPostCommentIsQuiet<L>(page: ResponseComments, other: string, c: Comment, l: L)
    requires other != page.postGuid
    ensures var key := ForPostComments(page.postGuid);
      var put := PutCache(Register(NewDescription<L>(), key, l), key, page, [CommentAdded]);
      && Engine.Enumerates([key], put.state.holders)
      && var inv := Invalidate(put.state, CommentAdded, ResponseComment(other, c), [key]);
      && inv.Success?
      && inv.value.events == []
      && GetCacheIfPresent(inv.value.state, key).result == Some(page)
  {
    var key := ForPostComments(page.postGuid);
    var put := PutCache(Register(NewDescription<L>(), key, l), key, page, [CommentAdded]);
    LoadedPageReachesListener(page, l);
    HotPageInvalidate(put.state, key, l, page, ResponseComment(other, c));
  }

  /** A comment added while no listener holds the post's page is lost: the
      page was loaded into the cold store only, the replay on read returns
      the updated page to nobody, and every later read, and a listener
      registered afterwards, get the page without the comment. */
  lemma CommentAddedLostWhenCold<L>(page: ResponseComments, c: Comment, l: L)
    ensures var key := ForPostComments(page.postGuid);
      var put := PutCache(NewDescription<L>(), key, page, [CommentAdded]);
      && put.events == []
      && Engine.Enumerates([], put.state.holders)
      && var inv := Invalidate(put.state, CommentAdded, ResponseComment(page.postGuid, c), []);
      && inv.Success?
      && inv.value.events == []
      && var read := GetCacheIfPresent(inv.value.state, key);
      && read.events == []
      && read.result == Some(page)
      && read.result != Some(NewWithAddedComment(page, c))
      && GetCacheIfPresent(read.state, key).result == Some(page)
      && var t := Register(read.state, key, l);
      && t.holders[key].elem.Some?
      && t.heap[t.holders[key].elem.value].obj == page
  {
    var key := ForPostComments(page.postGuid);
    var put := PutCache(NewDescription<L>(), key, page, [CommentAdded]);
    var s := put.state;
    var rc := ResponseComment(page.postGuid, c);
    var id := s.cache[key];
    var inv := Invalidate(s, CommentAdded, rc, []);
    var logged := Engine.Logged(s, CommentAdded, rc);
    assert inv.value.state == logged;
    EngineProofs.ReplayAfterLog(s, CommentAdded, rc, id);
    CommentAddedReplay(rc, page);
    EngineProofs.ColdReadIgnoresUpdates(logged, key);
    EngineProofs.ColdUpdateLostForever(logged, key, l);
    AddedCommentIsNew(page, c);
  }
}
