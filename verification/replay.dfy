/** The pending-command log and the replay of its entries over one element:
    `CommandToExecute` with its predicates, `getCommandsToExecute` and the
    fold inside `recalculate`. */
module Replay {
  import opened Keys
  import opened Command

  /** `CacheElement`: the version up to which the element has absorbed the
      log, its value, and the names of the commands it listens to. */
  datatype Element<V, P> = Element(version: nat, obj: V, commands: seq<CommandName<V, P>>)

  /** `CommandToExecute`: one logged call of `invalidate`. */
  datatype Entry<V, P> = Entry(version: nat, name: CommandName<V, P>, param: P)

  /** A `Command`: a pure function of parameter and current value. */
  type CommandFn<!V, !P> = (P, V) -> Outcome<V>

  /** `mCommands`. */
  type Registry<!V, !P> = map<CommandName<V, P>, CommandFn<V, P>>

  /** `matchingCacheElement`: the entry is at or above the element's version
      and its name is one the element listens to. */
  predicate Matches<V, P>(e: Entry<V, P>, el: Element<V, P>) {
    e.version >= el.version && e.name in el.commands
  }

  /** Versions strictly increase along the sequence. */
  ghost predicate Ascending<V, P>(log: seq<Entry<V, P>>) {
    forall i, j :: 0 <= i < j < |log| ==> log[i].version < log[j].version
  }

  /** No entry of the log is still to be applied to the element. */
  ghost predicate CaughtUp<V, P>(log: seq<Entry<V, P>>, el: Element<V, P>) {
    forall i :: 0 <= i < |log| ==> !Matches(log[i], el)
  }

  /** `getCommandsToExecute` with the comparator it evidently intends: the
      entries matching the element, in ascending version order, with the log
      left as it is. The log is ascending and filtering keeps its order, so
      this is the log order (`PendingAscending`). `StampAsWritten` is what
      the comparator as written does instead. */
  function Pending<V, P>(log: seq<Entry<V, P>>, el: Element<V, P>): (r: seq<Entry<V, P>>)
    ensures forall i :: 0 <= i < |r| ==> r[i] in log && Matches(r[i], el)
    ensures forall i :: 0 <= i < |log| && Matches(log[i], el) ==> log[i] in r
    ensures |r| <= |log|
  {
    if log == [] then []
    else if Matches(log[0], el) then [log[0]] + Pending(log[1..], el)
    else Pending(log[1..], el)
  }

  /** Dropping the first entry keeps the log ascending, and every later
      entry is above the first. */
  lemma AscendingTail<V, P>(log: seq<Entry<V, P>>)
    requires Ascending(log) && log != []
    ensures Ascending(log[1..])
    ensures forall x :: x in log[1..] ==> log[0].version < x.version
  {
    var tail := log[1..];
    forall i, j | 0 <= i < j < |tail| ensures tail[i].version < tail[j].version {
      assert tail[i] == log[i + 1] && tail[j] == log[j + 1];
    }
    forall x | x in tail ensures log[0].version < x.version {
      var k :| 0 <= k < |tail| && tail[k] == x;
      assert log[k + 1] == x;
    }
  }

  /** An entry below every entry of an ascending sequence can go in front. */
  lemma AscendingCons<V, P>(h: Entry<V, P>, rest: seq<Entry<V, P>>)
    requires Ascending(rest)
    requires forall x :: x in rest ==> h.version < x.version
    ensures Ascending([h] + rest)
  {
    var r := [h] + rest;
    forall i, j | 0 <= i < j < |r| ensures r[i].version < r[j].version {
      assert r[j] == rest[j - 1];
      if i > 0 {
        assert r[i] == rest[i - 1];
      }
    }
  }

  /** The replay sees its entries in ascending version order. */
  lemma {:induction false} PendingAscending<V, P>(log: seq<Entry<V, P>>, el: Element<V, P>)
    requires Ascending(log)
    ensures Ascending(Pending(log, el))
    decreases |log|
  {
    if log != [] {
      var tail := log[1..];
      AscendingTail(log);
      PendingAscending(tail, el);
      if Matches(log[0], el) {
        var rest := Pending(tail, el);
        forall x | x in rest ensures log[0].version < x.version {
          var k :| 0 <= k < |rest| && rest[k] == x;
        }
        AscendingCons(log[0], rest);
      }
    }
  }

  /** Filtering distributes over appending to the log. */
  lemma {:induction false} PendingAppend<V, P>(a: seq<Entry<V, P>>, b: seq<Entry<V, P>>, el: Element<V, P>)
    ensures Pending(a + b, el) == Pending(a, el) + Pending(b, el)
    decreases |a|
  {
    if a == [] {
      assert a + b == b;
    } else {
      assert (a + b)[0] == a[0];
      assert (a + b)[1..] == a[1..] + b;
      PendingAppend(a[1..], b, el);
    }
  }

  /** Nothing is pending exactly when the element is caught up. */
  lemma PendingEmptyIffCaughtUp<V, P>(log: seq<Entry<V, P>>, el: Element<V, P>)
    ensures Pending(log, el) == [] <==> CaughtUp(log, el)
  {
    if Pending(log, el) != [] {
      assert Pending(log, el)[0] in Pending(log, el);
    }
  }

  /** An element whose version is above every logged version has nothing
      pending: this is why an entry is never applied twice to one element. */
  lemma AboveLogIsCaughtUp<V, P>(log: seq<Entry<V, P>>, el: Element<V, P>)
    requires forall i :: 0 <= i < |log| ==> log[i].version < el.version
    ensures CaughtUp(log, el)
    ensures Pending(log, el) == []
  {
    PendingEmptyIffCaughtUp(log, el);
  }

  /** What `getCommandsToExecute` does to the log as written. Its
      comparator `SORT_VERSION_ASC` assigns `o1.version = o2.version` and
      returns that version, which is positive since `mVersion` starts at 1.
      The sort behind `toSortedList` is TimSort. It first scans for an
      ascending run, calling `compare(a[i], a[i - 1])` for i = 1, 2, ... as
      long as the result is not negative. So with two or more matching
      entries, the whole list is one run and keeps its order, but every
      matching entry takes the version of the first one. The list holds the
      log's own `CommandToExecute` objects, so this rewrites the log. */
  function StampAsWritten<V, P>(log: seq<Entry<V, P>>, el: Element<V, P>): (r: seq<Entry<V, P>>)
    ensures |r| == |log|
    ensures forall i :: 0 <= i < |log| ==> r[i].name == log[i].name && r[i].param == log[i].param
    ensures forall i :: 0 <= i < |log| && !Matches(log[i], el) ==> r[i] == log[i]
    ensures |Pending(log, el)| < 2 ==> r == log
    ensures |Pending(log, el)| >= 2 ==>
      forall i :: 0 <= i < |log| && Matches(log[i], el) ==> r[i].version == Pending(log, el)[0].version
  {
    var p := Pending(log, el);
    if |p| < 2 then log
    else seq(|log|, i requires 0 <= i < |log| => if Matches(log[i], el) then log[i].(version := p[0].version) else log[i])
  }

  /** The comparator as written hides an entry from a later element. Element
      A (version 1, listening to both names) and element B (version 3,
      listening to `second`) are cold; `first` was logged at 2 and `second`
      at 4. B is owed the entry at 4. A read of A stamps both entries with
      version 2, after which B's read finds nothing to run. */
  lemma StampHidesEntry<V, P>(first: CommandName<V, P>, second: CommandName<V, P>, a: V, b: V, p: P)
    requires first != second
    ensures Pending([Entry(2, first, p), Entry(4, second, p)], Element(3, b, [second])) == [Entry(4, second, p)]
    ensures StampAsWritten([Entry(2, first, p), Entry(4, second, p)], Element(1, a, [first, second]))
         == [Entry(2, first, p), Entry(2, second, p)]
    ensures Pending([Entry(2, first, p), Entry(2, second, p)], Element(3, b, [second])) == []
  {
    var log := [Entry(2, first, p), Entry(4, second, p)];
    assert log[1..] == [Entry(4, second, p)];
    assert log[1..][1..] == [];
  }

  /** What the hidden entry costs when its command invalidates: with the
      intended sort, B's read replays `second` and drops B; after A's read
      has stamped the log, B's read finds nothing to run and keeps B. */
  lemma StampKeepsInvalidatedElement<V, P>(reg: Registry<V, P>, first: CommandName<V, P>, second: CommandName<V, P>, a: V, b: V, p: P)
    requires first != second && first in reg && second in reg
    requires IsInvalidate(reg[second](p, b))
    ensures Fold(reg, Pending([Entry(2, first, p), Entry(4, second, p)], Element(3, b, [second])), b, false) == Dropped
    ensures Fold(reg, Pending(StampAsWritten([Entry(2, first, p), Entry(4, second, p)], Element(1, a, [first, second])),
                              Element(3, b, [second])), b, false) == Kept(b, false)
  {
    StampHidesEntry(first, second, a, b, p);
    var hidden := [Entry(4, second, p)];
    assert hidden[1..] == [];
  }

  /** How a replay ended: the element is dropped, or it is kept with a value
      and a flag telling whether some command returned `UPDATED`. */
  datatype Replayed<V> = Dropped | Kept(value: V, changed: bool)

  /** Every entry names a command of the registry (`getCommand` does not fail). */
  ghost predicate Registered<V, P>(reg: Registry<V, P>, entries: seq<Entry<V, P>>) {
    forall i :: 0 <= i < |entries| ==> entries[i].name in reg
  }

  /** The result of one command on the running value. */
  function Apply<V, P>(reg: Registry<V, P>, e: Entry<V, P>, value: V): Outcome<V>
    requires e.name in reg
  {
    reg[e.name](e.param, value)
  }

  /** The loop of `recalculate`: `INVALIDATE` stops it, `UPDATED` replaces
      the running value and sets the changed flag, `UPDATE_NOT_REQUIRED`
      goes on with the value as it is. */
  function Fold<V, P>(reg: Registry<V, P>, entries: seq<Entry<V, P>>, value: V, changed: bool): (r: Replayed<V>)
    requires Registered(reg, entries)
    ensures r.Kept? && !r.changed ==> r.value == value && !changed
    ensures r.Kept? && changed ==> r.changed
    decreases |entries|
  {
    if entries == [] then Kept(value, changed)
    else
      var out := Apply(reg, entries[0], value);
      if IsInvalidate(out) then Dropped
      else if IsUpdate(out) then Fold(reg, entries[1..], out.param.value, true)
      else Fold(reg, entries[1..], value, changed)
  }

  /** Goes on replaying after a partial replay; a dropped element stays dropped. */
  function Continue<V, P>(reg: Registry<V, P>, prefix: Replayed<V>, entries: seq<Entry<V, P>>): Replayed<V>
    requires Registered(reg, entries)
  {
    match prefix
    case Dropped => Dropped
    case Kept(v, c) => Fold(reg, entries, v, c)
  }

  /** Replaying `a + b` is replaying `a` and then `b` from where `a` left
      off; once a command has invalidated, the later entries are skipped. */
  lemma {:induction false} FoldAppend<V, P>(reg: Registry<V, P>, a: seq<Entry<V, P>>, b: seq<Entry<V, P>>, value: V, changed: bool)
    requires Registered(reg, a) && Registered(reg, b)
    ensures Registered(reg, a + b)
    ensures Fold(reg, a + b, value, changed) == Continue(reg, Fold(reg, a, value, changed), b)
    decreases |a|
  {
    assert Registered(reg, a + b) by {
      forall i | 0 <= i < |a + b| ensures (a + b)[i].name in reg {
        if i < |a| { assert (a + b)[i] == a[i]; } else { assert (a + b)[i] == b[i - |a|]; }
      }
    }
    if a == [] {
      assert a + b == b;
    } else {
      assert (a + b)[0] == a[0];
      assert (a + b)[1..] == a[1..] + b;
      assert Registered(reg, a[1..]) by {
        forall i | 0 <= i < |a[1..]| ensures a[1..][i].name in reg {
          assert a[1..][i] == a[i + 1];
        }
      }
      var out := Apply(reg, a[0], value);
      if IsInvalidate(out) {
      } else if IsUpdate(out) {
        FoldAppend(reg, a[1..], b, out.param.value, true);
      } else {
        FoldAppend(reg, a[1..], b, value, changed);
      }
    }
  }

  /** A replay where no command returns `UPDATED` or `INVALIDATE` keeps the
      value and does not report a change. */
  lemma {:induction false} FoldAllNotRequired<V, P>(reg: Registry<V, P>, entries: seq<Entry<V, P>>, value: V)
    requires Registered(reg, entries)
    requires forall i :: 0 <= i < |entries| ==> !IsUpdate(Apply(reg, entries[i], value)) && !IsInvalidate(Apply(reg, entries[i], value))
    ensures Fold(reg, entries, value, false) == Kept(value, false)
    decreases |entries|
  {
    if entries != [] {
      var tail := entries[1..];
      assert Registered(reg, tail) by {
        forall i | 0 <= i < |tail| ensures tail[i].name in reg {
          assert tail[i] == entries[i + 1];
        }
      }
      forall i | 0 <= i < |tail|
        ensures !IsUpdate(Apply(reg, tail[i], value)) && !IsInvalidate(Apply(reg, tail[i], value))
      {
        assert tail[i] == entries[i + 1];
      }
      FoldAllNotRequired(reg, tail, value);
    }
  }
}
