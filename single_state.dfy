/**
 * The earlier state container of src/component.ts: the same intercepted
 * record and boolean commit lock, but a single watcher slot that watch
 * overwrites. The watcher is called with the handle itself, so each logged
 * call records the record as the watcher could read it through the handle.
 */
module SingleState {
  import opened Common

  /**
   * Everything a container holds: the intercepted record, the plain
   * properties of the handle, the watcher slot (None for null), the commit
   * lock, and the log of watcher invocations.
   */
  datatype Store<V> = Store(
    record: map<string, V>,
    plain: map<string, V>,
    watcher: Option<CallbackId>,
    locked: bool,
    log: seq<Call<V>>)

  /** A store after a commit or a mutator, and whether the mutator threw. */
  datatype Outcome<V> = Outcome(store: Store<V>, thrown: bool)

  // ---------------------------------------------------------------------
  // Specification functions
  // ---------------------------------------------------------------------

  /** createState: a copy of the initial record, no watcher, unlocked. */
  function Created<V>(init: map<string, V>): (r: Store<V>)
  {
    Store(init, map[], None, false, [])
  }

  /** Reading a property of the handle; None stands for `undefined`. */
  function Read<V>(s: Store<V>, k: string): (r: Option<V>)
  {
    if k in s.record then Some(s.record[k])
    else if k in s.plain then Some(s.plain[k])
    else None
  }

  /** watch: the slot now holds f, whatever it held before. */
  function WatchOf<V>(s: Store<V>, f: CallbackId): (r: Store<V>)
  {
    s.(watcher := Some(f))
  }

  /** runWatcher: the watcher, if any, is called once unless locked. */
  function Notify<V>(s: Store<V>): (r: Store<V>)
  {
    if !s.locked && s.watcher.Some? then s.(log := s.log + [Call(s.watcher.value, s.record)])
    else s
  }

  /** Assigning k on the handle: a record field goes through its setter. */
  function WriteOf<V>(s: Store<V>, k: string, v: V): (r: Store<V>)
  {
    if k in s.record then Notify(s.(record := s.record[k := v]))
    else s.(plain := s.plain[k := v])
  }

  /**
   * commit: lock, run the mutator, unlock, then runWatcher; an exception
   * from the mutator skips the unlock and the call.
   */
  function CommitOf<V>(s: Store<V>, body: seq<Step<V>>): (r: Outcome<V>)
    decreases body, 1
  {
    var m := Mutate(s.(locked := true), body);
    if m.thrown then m else Outcome(Notify(m.store.(locked := false)), false)
  }

  /** The mutator's steps in order; an exception abandons the rest. */
  function Mutate<V>(s: Store<V>, body: seq<Step<V>>): (r: Outcome<V>)
    decreases body, 0
  {
    if body == [] then Outcome(s, false)
    else
      var o := (match body[0]
        case Write(k, v) => Outcome(WriteOf(s, k, v), false)
        case Commit(b) => CommitOf(s, b)
        case Raise => Outcome(s, true));
      if o.thrown then o else Mutate(o.store, body[1..])
  }

  // ---------------------------------------------------------------------
  // Properties
  // ---------------------------------------------------------------------

  /** After createState, reads return init's values; no watcher is set. */
  lemma CreatedReadsInit<V>(init: map<string, V>, k: string)
    ensures Read(Created(init), k) == (if k in init then Some(init[k]) else None)
    ensures Created(init).record.Keys == init.Keys && Created(init).watcher.None?
  {
  }

  /** A write is seen by the next read; every other key keeps its value. */
  lemma WriteThenRead<V>(s: Store<V>, k: string, v: V, j: string)
    requires s.record.Keys !! s.plain.Keys
    ensures var t := WriteOf(s, k, v);
      && Read(t, k) == Some(v)
      && (j != k ==> Read(t, j) == Read(s, j))
      && t.record.Keys == s.record.Keys && t.record.Keys !! t.plain.Keys
      && t.watcher == s.watcher
  {
  }

  /**
   * Outside a commit, a write to a field calls the current watcher exactly
   * once, and it sees the record with the new value.
   */
  lemma WriteNotifiesOnce<V>(s: Store<V>, k: string, v: V, f: CallbackId)
    requires k in s.record && !s.locked && s.watcher == Some(f)
    ensures WriteOf(s, k, v).log == s.log + [Call(f, s.record[k := v])]
  {
  }

  /** With no watcher, a mutator only changes the record and the plain properties. */
  lemma {:induction false} NoWatcherIsSilent<V>(s: Store<V>, body: seq<Step<V>>)
    requires s.watcher.None?
    ensures var t := Mutate(s, body).store; t.log == s.log && t.watcher.None?
    decreases body
  {
    if body != [] {
      match body[0]
      case Write(k, v) =>
        NoWatcherIsSilent(WriteOf(s, k, v), body[1..]);
      case Commit(b) =>
        NoWatcherIsSilent(s.(locked := true), b);
        NoWatcherIsSilent(CommitOf(s, b).store, body[1..]);
      case Raise =>
    }
  }

  /** With no watcher, a commit calls nothing, nested commits included. */
  lemma NoWatcherCommitIsSilent<V>(s: Store<V>, body: seq<Step<V>>)
    requires s.watcher.None?
    ensures CommitOf(s, body).store.log == s.log
  {
    NoWatcherIsSilent(s.(locked := true), body);
  }

  /** Whatever a mutator does, every call it causes goes to the watcher in the slot. */
  lemma {:induction false} OnlyCurrentWatcherFires<V>(s: Store<V>, body: seq<Step<V>>, f: CallbackId)
    requires s.watcher == Some(f)
    ensures var t := Mutate(s, body).store;
      && |t.log| >= |s.log| && t.log[..|s.log|] == s.log && t.watcher == Some(f)
      && forall i :: |s.log| <= i < |t.log| ==> t.log[i].callback == f
    decreases body
  {
    if body != [] {
      match body[0]
      case Write(k, v) =>
        OnlyCurrentWatcherFires(WriteOf(s, k, v), body[1..], f);
      case Commit(b) =>
        OnlyCurrentWatcherFires(s.(locked := true), b, f);
        OnlyCurrentWatcherFires(CommitOf(s, b).store, body[1..], f);
      case Raise =>
    }
  }

  /**
   * watch replaces the slot: after watch(g) then watch(f), a write or a
   * commit calls f only, never g.
   */
  lemma WatchReplaces<V>(s: Store<V>, g: CallbackId, f: CallbackId, body: seq<Step<V>>, k: string, v: V)
    requires g != f
    ensures var t := CommitOf(WatchOf(WatchOf(s, g), f), body).store;
      forall i :: |s.log| <= i < |t.log| ==> t.log[i].callback == f && t.log[i].callback != g
    ensures var w := WriteOf(WatchOf(WatchOf(s, g), f), k, v);
      forall i :: |s.log| <= i < |w.log| ==> w.log[i].callback == f && w.log[i].callback != g
  {
    OnlyCurrentWatcherFires(WatchOf(WatchOf(s, g), f).(locked := true), body, f);
  }

  /** While locked, the mutator's writes change the record and call nothing. */
  lemma {:induction false} LockedMutatorIsSilent<V>(s: Store<V>, body: seq<Step<V>>)
    requires s.locked && Flat(body)
    ensures var o := Mutate(s, body);
      var t := o.store;
      && !o.thrown && t.locked && t.log == s.log && t.watcher == s.watcher
      && (t.record, t.plain) == Assign(s.record, s.plain, body)
    decreases |body|
  {
    if body != [] {
      assert Flat(body[1..]) by {
        forall i | 0 <= i < |body[1..]| ensures body[1..][i].Write? {
          assert body[1..][i] == body[i + 1];
        }
      }
      LockedMutatorIsSilent(WriteOf(s, body[0].key, body[0].value), body[1..]);
    }
  }

  /**
   * A commit whose mutator only assigns: the writes land, the lock is
   * released, and the watcher, if any, is called exactly once afterwards,
   * seeing the final record, however many writes there were.
   */
  lemma CommitFiresOnce<V>(s: Store<V>, body: seq<Step<V>>)
    requires Flat(body)
    ensures var o := CommitOf(s, body);
      var t := o.store;
      && !o.thrown && !t.locked
      && (t.record, t.plain) == Assign(s.record, s.plain, body)
      && t.log == s.log + (if s.watcher.Some? then [Call(s.watcher.value, t.record)] else [])
  {
    LockedMutatorIsSilent(s.(locked := true), body);
  }

  /**
   * A mutator, nested commits included, keeps the key set of the record, the
   * watcher slot, and fields apart from plain properties; since this
   * container's dispatch never throws, an exception comes only from the
   * mutator's own code.
   */
  lemma {:induction false} MutateKeepsKeys<V>(s: Store<V>, body: seq<Step<V>>)
    ensures var o := Mutate(s, body);
      && o.store.record.Keys == s.record.Keys && o.store.watcher == s.watcher
      && (s.record.Keys !! s.plain.Keys ==> o.store.record.Keys !! o.store.plain.Keys)
      && (o.thrown ==> !NoRaise(body))
    decreases body
  {
    if body != [] {
      match body[0]
      case Write(k, v) =>
        MutateKeepsKeys(WriteOf(s, k, v), body[1..]);
      case Commit(b) =>
        MutateKeepsKeys(s.(locked := true), b);
        MutateKeepsKeys(CommitOf(s, b).store, body[1..]);
      case Raise =>
    }
  }

  /**
   * A commit keeps the key set, the watcher slot, and fields apart from plain
   * properties; it ends unlocked
   * whenever its mutator throws nothing of its own.
   */
  lemma CommitKeepsKeys<V>(s: Store<V>, body: seq<Step<V>>)
    ensures var o := CommitOf(s, body);
      && o.store.record.Keys == s.record.Keys && o.store.watcher == s.watcher
      && (s.record.Keys !! s.plain.Keys ==> o.store.record.Keys !! o.store.plain.Keys)
      && (NoRaise(body) ==> !o.thrown && !o.store.locked)
  {
    MutateKeepsKeys(s.(locked := true), body);
  }

  /**
   * A mutator that throws after some plain assignments abandons its commit
   * before the lock is cleared: the writes have landed, the watcher was not
   * called, and the container stays locked, so every later write is silent
   * until another commit clears the lock.
   */
  lemma CommitRaiseLeavesLocked<V>(s: Store<V>, pre: seq<Step<V>>, post: seq<Step<V>>, k: string, v: V)
    requires Flat(pre)
    ensures var o := CommitOf(s, pre + [Raise] + post);
      && o.thrown && o.store.locked
      && o.store.log == s.log
      && (o.store.record, o.store.plain) == Assign(s.record, s.plain, pre)
      && WriteOf(o.store, k, v).log == s.log
  {
    FlatThenRaise(s.(locked := true), pre, post);
  }

  /** Under the lock, plain assignments followed by Raise: the writes land and the mutator throws. */
  lemma {:induction false} FlatThenRaise<V>(s: Store<V>, pre: seq<Step<V>>, post: seq<Step<V>>)
    requires s.locked && Flat(pre)
    ensures var o := Mutate(s, pre + [Raise] + post);
      && o.thrown && o.store.locked && o.store.log == s.log
      && (o.store.record, o.store.plain) == Assign(s.record, s.plain, pre)
    decreases |pre|
  {
    var body := pre + [Raise] + post;
    if pre == [] {
      assert body[0] == Raise;
    } else {
      assert body[0] == pre[0];
      assert body[1..] == pre[1..] + [Raise] + post;
      assert Flat(pre[1..]) by {
        forall i | 0 <= i < |pre[1..]| ensures pre[1..][i].Write? {
          assert pre[1..][i] == pre[i + 1];
        }
      }
      FlatThenRaise(WriteOf(s, pre[0].key, pre[0].value), pre[1..], post);
    }
  }

  /**
   * The lock is a flag, not a counter: a commit nested in a mutator clears
   * it, so a write that follows it in the outer mutator calls the watcher at
   * once, before the outer commit finishes.
   */
  lemma NestedCommitReleasesLock<V>(s: Store<V>, b: seq<Step<V>>, k: string, v: V, f: CallbackId)
    requires k in s.record && s.watcher == Some(f) && NoRaise(b)
    ensures var inner := CommitOf(s.(locked := true), b).store;
      var o := Mutate(s.(locked := true), [Commit(b), Write(k, v)]);
      && !inner.locked && !o.thrown
      && o.store.log == inner.log + [Call(f, inner.record[k := v])]
  {
    var inner := CommitOf(s.(locked := true), b).store;
    CommitKeepsKeys(s.(locked := true), b);
    var body: seq<Step<V>> := [Commit(b), Write(k, v)];
    assert body[1..] == [Write(k, v)] && [Write(k, v)][1..] == [];
    assert Mutate(s.(locked := true), body) == Mutate(inner, [Write(k, v)]);
    assert Mutate(inner, [Write(k, v)]) == Mutate(WriteOf(inner, k, v), []);
  }

  /**
   * One trace: with the watcher set, a commit whose mutator first commits
   * nothing and then writes calls the watcher three times, for the inner
   * commit, for the write and for the outer commit.
   */
  lemma NestedCommitTrace()
    ensures var s := Store(map["a" := 0], map[], Some(7), false, []);
      CommitOf(s, [Commit([]), Write("a", 1)]).store.log ==
        [Call(7, map["a" := 0]), Call(7, map["a" := 1]), Call(7, map["a" := 1])]
  {
    var s := Store(map["a" := 0], map[], Some(7), false, []);
    var body: seq<Step<int>> := [Commit([]), Write("a", 1)];
    var inner := CommitOf(s.(locked := true), []);
    assert inner == Outcome(s.(log := [Call(7, map["a" := 0])]), false);
    assert body[1..] == [Write("a", 1)] && [Write("a", 1)][1..] == [];
    assert inner.store.record["a" := 1] == map["a" := 1];
    var w := WriteOf(inner.store, "a", 1);
    assert w.log == [Call(7, map["a" := 0]), Call(7, map["a" := 1])];
    assert Mutate(s.(locked := true), body) == Mutate(w, []);
  }

  // ---------------------------------------------------------------------
  // The container, in place
  // ---------------------------------------------------------------------

  /** The handle together with the closure state its watch and commit share. */
  class Container<V> {
    var record: map<string, V>
    var plain: map<string, V>
    var watcher: Option<CallbackId>
    var isLocked: bool
    ghost var log: seq<Call<V>>

    ghost function View(): Store<V>
      reads this
    {
      Store(record, plain, watcher, isLocked, log)
    }

    constructor (init: map<string, V>)
      ensures View() == Created(init)
    {
      record, plain, watcher, isLocked := init, map[], None, false;
      log := [];
    }

    /** A property read through the handle. */
    method Get(k: string) returns (r: Option<V>)
      ensures r == Read(View(), k)
    {
      if k in record {
        r := Some(record[k]);
      } else if k in plain {
        r := Some(plain[k]);
      } else {
        r := None;
      }
    }

    /** A property assignment through the handle. */
    method Set(k: string, v: V)
      modifies this
      ensures View() == WriteOf(old(View()), k, v)
    {
      if k in record {
        record := record[k := v];
        RunWatcher();
      } else {
        plain := plain[k := v];
      }
    }

    method Watch(f: CallbackId)
      modifies this
      ensures View() == WatchOf(old(View()), f)
    {
      watcher := Some(f);
    }

    method RunWatcher()
      modifies this`log
      ensures View() == Notify(old(View()))
    {
      if !isLocked && watcher.Some? {
        // the watcher is called with the handle itself
        log := log + [Call(watcher.value, record)];
      }
    }

    /** commit; thrown reports an exception of the mutator. */
    method Commit(body: seq<Step<V>>) returns (thrown: bool)
      modifies this
      ensures Outcome(View(), thrown) == CommitOf(old(View()), body)
      decreases body, 1
    {
      isLocked := true;
      thrown := RunMutator(body);
      if thrown {
        return;
      }
      isLocked := false;
      RunWatcher();
    }

    /** The mutator passed to commit, run step by step. */
    method RunMutator(body: seq<Step<V>>) returns (thrown: bool)
      modifies this
      ensures Outcome(View(), thrown) == Mutate(old(View()), body)
      decreases body, 0
    {
      thrown := false;
      var i := 0;
      while i < |body|
        invariant 0 <= i <= |body|
        invariant Mutate(old(View()), body) == Mutate(View(), body[i..])
      {
        assert body[i..][0] == body[i] && body[i..][1..] == body[i + 1..];
        match body[i] {
          case Write(k, v) =>
            Set(k, v);
          case Commit(b) =>
            thrown := this.Commit(b);
          case Raise =>
            // the mutator's own code throws
            thrown := true;
        }
        if thrown {
          return;
        }
        i := i + 1;
      }
    }
  }
}
