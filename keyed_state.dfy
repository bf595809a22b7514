/**
 * The keyed state container of src/component/state.ts: a record whose fields
 * are intercepted by setters, a list of watchers registered per field name or
 * for every field (the empty key), a boolean commit lock, and the module-wide
 * registry that links each handle to its watch/commit pair.
 *
 * The behaviour is first given as functions over a value (Store) and proved
 * about; the classes Container and Registry then carry the same state in
 * fields and their methods are proved equal to those functions.
 */
module KeyedState {
  import opened Common

  /** The key under which a watcher is notified of a write to any field. */
  const Wildcard: string := ""

  /** The message useState throws for an object createState did not make. */
  const NotInitialized: string := "State is not initialized"

  /**
   * A registered watcher. A field-keyed registration made without a
   * callback stores `undefined`, hence the Option.
   */
  datatype Watcher = Watcher(key: string, callback: Option<CallbackId>)

  /** The first argument of watch: a callback, or the name of a field. */
  datatype WatchArg = Fn(fn: CallbackId) | Field(name: string)

  /**
   * Everything a container holds: the intercepted record, the plain
   * properties the handle gains when a key outside the record is assigned,
   * the watchers in registration order, the commit lock, and the log of
   * callback invocations so far.
   */
  datatype Store<V> = Store(
    record: map<string, V>,
    plain: map<string, V>,
    watchers: seq<Watcher>,
    locked: bool,
    log: seq<Call<V>>)

  /** A store after an operation, and whether that operation threw. */
  datatype Outcome<V> = Outcome(store: Store<V>, thrown: bool)

  /** The callbacks one dispatch pass invoked, and whether it threw. */
  datatype Dispatch<V> = Dispatch(calls: seq<Call<V>>, thrown: bool)

  /** Intercepted fields and plain properties never share a name. */
  predicate Disjoint<V>(s: Store<V>)
  {
    s.record.Keys !! s.plain.Keys
  }

  // ---------------------------------------------------------------------
  // Specification functions
  // ---------------------------------------------------------------------

  /** createState: a copy of the initial record, no watchers, unlocked. */
  function Created<V>(init: map<string, V>): (r: Store<V>)
  {
    Store(init, map[], [], false, [])
  }

  /** Reading a property of the handle; None stands for `undefined`. */
  function Read<V>(s: Store<V>, k: string): (r: Option<V>)
  {
    if k in s.record then Some(s.record[k])
    else if k in s.plain then Some(s.plain[k])
    else None
  }

  /** The pair that watch pushes for its arguments. */
  function Registration(k: WatchArg, v: Option<CallbackId>): (r: Watcher)
  {
    match k
    case Fn(f) => Watcher(Wildcard, Some(f))
    case Field(name) => Watcher(name, v)
  }

  /** watch: append one registration. */
  function WatchOf<V>(s: Store<V>, k: WatchArg, v: Option<CallbackId>): (r: Store<V>)
  {
    s.(watchers := s.watchers + [Registration(k, v)])
  }

  /** Whether a dispatch for key k invokes watcher w. */
  predicate Selected(w: Watcher, k: string)
  {
    w.key == k || w.key == Wildcard
  }

  /**
   * The forEach of runWatcher: every selected watcher in order; calling an
   * undefined callback throws and ends the pass.
   */
  function Run<V>(ws: seq<Watcher>, k: string, seen: map<string, V>): (r: Dispatch<V>)
  {
    if ws == [] then Dispatch([], false)
    else if !Selected(ws[0], k) then Run(ws[1..], k, seen)
    else match ws[0].callback
      case None => Dispatch([], true)
      case Some(f) =>
        var rest := Run(ws[1..], k, seen);
        Dispatch([Call(f, seen)] + rest.calls, rest.thrown)
  }

  /** runWatcher(k): nothing while locked, otherwise one dispatch pass. */
  function Notify<V>(s: Store<V>, k: string): (r: Outcome<V>)
  {
    if s.locked then Outcome(s, false)
    else
      var d := Run(s.watchers, k, s.record);
      Outcome(s.(log := s.log + d.calls), d.thrown)
  }

  /**
   * Assigning k on the handle: a field of the record goes through its setter
   * (update, then runWatcher(k)); any other key becomes a plain property.
   */
  function WriteOf<V>(s: Store<V>, k: string, v: V): (r: Outcome<V>)
  {
    if k in s.record then Notify(s.(record := s.record[k := v]), k)
    else Outcome(s.(plain := s.plain[k := v]), false)
  }

  /** commit: lock, run the mutator, unlock, then runWatcher(''). */
  function CommitOf<V>(s: Store<V>, body: seq<Step<V>>): (r: Outcome<V>)
    decreases body, 1
  {
    var m := Mutate(s.(locked := true), body);
    if m.thrown then m else Notify(m.store.(locked := false), Wildcard)
  }

  /**
   * The mutator's steps in order; an exception, the mutator's own or one
   * from a dispatch, abandons the rest.
   */
  function Mutate<V>(s: Store<V>, body: seq<Step<V>>): (r: Outcome<V>)
    decreases body, 0
  {
    if body == [] then Outcome(s, false)
    else
      var o := (match body[0]
        case Write(k, v) => WriteOf(s, k, v)
        case Commit(b) => CommitOf(s, b)
        case Raise => Outcome(s, true));
      if o.thrown then o else Mutate(o.store, body[1..])
  }

  // ---------------------------------------------------------------------
  // Reference definition of whom a dispatch reaches
  // ---------------------------------------------------------------------

  /** The watchers selected for key k, in registration order. */
  function Matching(ws: seq<Watcher>, k: string): (r: seq<Watcher>)
  {
    if ws == [] then []
    else (if Selected(ws[0], k) then [ws[0]] else []) + Matching(ws[1..], k)
  }

  /** Matching keeps exactly the watchers selected for k. */
  lemma {:induction false} MatchingSelects(ws: seq<Watcher>, k: string)
    ensures var m := Matching(ws, k);
      && |m| <= |ws|
      && (forall i :: 0 <= i < |m| ==> m[i] in ws && Selected(m[i], k))
      && (forall i :: 0 <= i < |ws| && Selected(ws[i], k) ==> ws[i] in m)
  {
    if ws != [] {
      MatchingSelects(ws[1..], k);
      var m := Matching(ws, k);
      forall i | 0 <= i < |ws| && Selected(ws[i], k) ensures ws[i] in m {
        if i > 0 { assert ws[i] == ws[1..][i - 1]; }
      }
    }
  }

  /** Every watcher selected for k has a callback. */
  predicate Complete(ws: seq<Watcher>, k: string)
  {
    forall i :: 0 <= i < |ws| && Selected(ws[i], k) ==> ws[i].callback.Some?
  }

  // ---------------------------------------------------------------------
  // Properties
  // ---------------------------------------------------------------------

  /** After createState, reads return init's values and the key set is init's. */
  lemma CreatedReadsInit<V>(init: map<string, V>, k: string)
    ensures Read(Created(init), k) == (if k in init then Some(init[k]) else None)
    ensures Created(init).record.Keys == init.Keys && Disjoint(Created(init))
    ensures Created(init).watchers == [] && !Created(init).locked
  {
  }

  /**
   * A dispatch pass invokes the watchers selected for k, in registration
   * order, each once, with the current record; it stops, throwing, at the
   * first selected watcher without a callback.
   */
  lemma {:induction false} RunFollowsMatching<V>(ws: seq<Watcher>, k: string, seen: map<string, V>)
    ensures var d, m := Run(ws, k, seen), Matching(ws, k);
      && |d.calls| <= |m|
      && (forall i :: 0 <= i < |d.calls| ==>
            m[i].callback == Some(d.calls[i].callback) && d.calls[i].seen == seen)
      && (d.thrown <==> |d.calls| < |m|)
      && (d.thrown ==> m[|d.calls|].callback.None?)
      && (d.thrown <==> !Complete(ws, k))
  {
    RunIsPrefix(ws, k, seen);
    RunThrowsIffIncomplete(ws, k, seen);
  }

  /** The calls of a pass follow the selected watchers up to the first undefined callback. */
  lemma {:induction false} RunIsPrefix<V>(ws: seq<Watcher>, k: string, seen: map<string, V>)
    ensures var d, m := Run(ws, k, seen), Matching(ws, k);
      && |d.calls| <= |m|
      && (forall i :: 0 <= i < |d.calls| ==>
            m[i].callback == Some(d.calls[i].callback) && d.calls[i].seen == seen)
      && (d.thrown <==> |d.calls| < |m|)
      && (d.thrown ==> m[|d.calls|].callback.None?)
  {
    if ws != [] {
      RunIsPrefix(ws[1..], k, seen);
      var d, m := Run(ws, k, seen), Matching(ws, k);
      var d', m' := Run(ws[1..], k, seen), Matching(ws[1..], k);
      if Selected(ws[0], k) {
        assert m == [ws[0]] + m';
        if ws[0].callback.Some? {
          assert d.calls == [Call(ws[0].callback.value, seen)] + d'.calls;
          forall i | 0 <= i < |d.calls|
            ensures m[i].callback == Some(d.calls[i].callback) && d.calls[i].seen == seen
          {
            if i > 0 { assert m[i] == m'[i - 1] && d.calls[i] == d'.calls[i - 1]; }
          }
        }
      } else {
        assert m == m';
      }
    }
  }

  /** A pass throws exactly when some selected watcher has no callback. */
  lemma {:induction false} RunThrowsIffIncomplete<V>(ws: seq<Watcher>, k: string, seen: map<string, V>)
    ensures Run(ws, k, seen).thrown <==> !Complete(ws, k)
  {
    if ws != [] {
      RunThrowsIffIncomplete(ws[1..], k, seen);
      CompleteUncons(ws, k);
    }
  }

  /** Complete splits over the first watcher and the rest. */
  lemma CompleteUncons(ws: seq<Watcher>, k: string)
    requires ws != []
    ensures Complete(ws, k) <==> (Selected(ws[0], k) ==> ws[0].callback.Some?) && Complete(ws[1..], k)
  {
    if (Selected(ws[0], k) ==> ws[0].callback.Some?) && Complete(ws[1..], k) {
      forall i | 0 <= i < |ws| && Selected(ws[i], k)
        ensures ws[i].callback.Some?
      {
        if i > 0 { assert ws[i] == ws[1..][i - 1]; }
      }
    }
  }

  /** Registration only appends: the new watcher is reached after all others. */
  lemma {:induction false} MatchingAppend(ws: seq<Watcher>, w: Watcher, k: string)
    ensures Matching(ws + [w], k) == Matching(ws, k) + (if Selected(w, k) then [w] else [])
  {
    if ws == [] {
      assert ws + [w] == [w];
    } else {
      assert (ws + [w])[1..] == ws[1..] + [w];
      MatchingAppend(ws[1..], w, k);
    }
  }

  /**
   * watch(fn) registers fn for every field; watch(name, fn) for that field
   * only; either way the registration is appended, so a duplicate fires again.
   */
  lemma WatchRegisters<V>(s: Store<V>, a: WatchArg, v: Option<CallbackId>, k: string)
    ensures a.Fn? ==> Matching(WatchOf(s, a, v).watchers, k) == Matching(s.watchers, k) + [Watcher(Wildcard, Some(a.fn))]
    ensures a.Field? ==> (Matching(WatchOf(s, a, v).watchers, k) ==
      Matching(s.watchers, k) + (if a.name == k || a.name == Wildcard then [Watcher(a.name, v)] else []))
    ensures WatchOf(s, a, v).record == s.record && WatchOf(s, a, v).log == s.log
  {
    MatchingAppend(s.watchers, Registration(a, v), k);
  }

  /** A write is seen by the next read; every other key keeps its value. */
  lemma WriteThenRead<V>(s: Store<V>, k: string, v: V, j: string)
    requires Disjoint(s)
    ensures var t := WriteOf(s, k, v).store;
      && Read(t, k) == Some(v)
      && (j != k ==> Read(t, j) == Read(s, j))
      && t.record.Keys == s.record.Keys && t.watchers == s.watchers
      && Disjoint(t)
  {
  }

  /**
   * Outside a commit, a write to a field invokes exactly the watchers
   * registered under that field or the wildcard, each once, in order, and
   * each sees the record with the new value.
   */
  lemma WriteNotifiesMatching<V>(s: Store<V>, k: string, v: V)
    requires k in s.record && !s.locked && Complete(s.watchers, k)
    ensures var o, m := WriteOf(s, k, v), Matching(s.watchers, k);
      && !o.thrown
      && |o.store.log| == |s.log| + |m|
      && o.store.log[..|s.log|] == s.log
      && (forall i :: 0 <= i < |m| ==>
            m[i].callback == Some(o.store.log[|s.log| + i].callback) &&
            o.store.log[|s.log| + i].seen == s.record[k := v])
  {
    RunFollowsMatching(s.watchers, k, s.record[k := v]);
  }

  /** A watcher registered under other fields only never fires on a write to k. */
  lemma OtherKeysNeverFire<V>(s: Store<V>, k: string, v: V, f: CallbackId)
    requires forall i :: 0 <= i < |s.watchers| && s.watchers[i].callback == Some(f) ==>
      s.watchers[i].key != k && s.watchers[i].key != Wildcard
    ensures var t := WriteOf(s, k, v).store;
      |t.log| >= |s.log| && forall i :: |s.log| <= i < |t.log| ==> t.log[i].callback != f
  {
    if k in s.record && !s.locked {
      var seen := s.record[k := v];
      RunFollowsMatching(s.watchers, k, seen);
      var d, m := Run(s.watchers, k, seen), Matching(s.watchers, k);
      MatchingSelects(s.watchers, k);
      forall i | 0 <= i < |d.calls| ensures d.calls[i].callback != f {
        assert m[i] in s.watchers;
      }
    }
  }

  /** While locked, a write changes the record and invokes nothing. */
  lemma LockedWriteIsSilent<V>(s: Store<V>, k: string, v: V)
    requires s.locked
    ensures var o := WriteOf(s, k, v);
      !o.thrown && o.store.log == s.log && o.store.locked &&
      o.store.record == (if k in s.record then s.record[k := v] else s.record)
  {
  }

  /** A flat mutator run under the lock only assigns, and invokes nothing. */
  lemma {:induction false} LockedMutatorIsSilent<V>(s: Store<V>, body: seq<Step<V>>)
    requires s.locked && Flat(body)
    ensures var o := Mutate(s, body);
      && !o.thrown && o.store.locked && o.store.log == s.log
      && o.store.watchers == s.watchers
      && (o.store.record, o.store.plain) == Assign(s.record, s.plain, body)
    decreases |body|
  {
    if body != [] {
      LockedWriteIsSilent(s, body[0].key, body[0].value);
      var o := WriteOf(s, body[0].key, body[0].value);
      assert Flat(body[1..]) by {
        forall i | 0 <= i < |body[1..]| ensures body[1..][i].Write? {
          assert body[1..][i] == body[i + 1];
        }
      }
      LockedMutatorIsSilent(o.store, body[1..]);
    }
  }

  /**
   * A commit whose mutator only assigns fields: the writes land in the
   * record, the lock is released, and afterwards only the wildcard
   * watchers fire, each exactly once however many writes there were.
   */
  lemma CommitFiresWildcardOnce<V>(s: Store<V>, body: seq<Step<V>>)
    requires Flat(body) && Complete(s.watchers, Wildcard)
    ensures var o, m := CommitOf(s, body), Matching(s.watchers, Wildcard);
      && !o.thrown && !o.store.locked
      && (o.store.record, o.store.plain) == Assign(s.record, s.plain, body)
      && |o.store.log| == |s.log| + |m|
      && o.store.log[..|s.log|] == s.log
      && (forall i :: 0 <= i < |m| ==>
            m[i].key == Wildcard &&
            m[i].callback == Some(o.store.log[|s.log| + i].callback) &&
            o.store.log[|s.log| + i].seen == o.store.record)
  {
    LockedMutatorIsSilent(s.(locked := true), body);
    var t := Mutate(s.(locked := true), body).store;
    RunFollowsMatching(s.watchers, Wildcard, t.record);
    MatchingSelects(s.watchers, Wildcard);
  }

  /**
   * A commit that returns normally leaves the lock clear; so does one whose
   * exception came from a dispatch (a nested commit's), since dispatch runs
   * unlocked. It keeps the key set and the watchers either way.
   */
  lemma {:induction false} CommitUnlocks<V>(s: Store<V>, body: seq<Step<V>>)
    ensures var o := CommitOf(s, body);
      && (!o.thrown || NoRaise(body) ==> !o.store.locked)
      && o.store.record.Keys == s.record.Keys
      && o.store.watchers == s.watchers
      && (Disjoint(s) ==> Disjoint(o.store))
    decreases body, 1
  {
    MutateKeepsShape(s.(locked := true), body);
  }

  /**
   * The mutator keeps the key set and the watchers; when it throws nothing of
   * its own, an exception can only come from a dispatch, which runs unlocked.
   */
  lemma {:induction false} MutateKeepsShape<V>(s: Store<V>, body: seq<Step<V>>)
    ensures var o := Mutate(s, body);
      && (o.thrown && NoRaise(body) ==> !o.store.locked)
      && o.store.record.Keys == s.record.Keys
      && o.store.watchers == s.watchers
      && (Disjoint(s) ==> Disjoint(o.store))
    decreases body, 0
  {
    if body != [] {
      match body[0]
      case Write(k, v) =>
        var o := WriteOf(s, k, v);
        MutateKeepsShape(o.store, body[1..]);
      case Commit(b) =>
        var o := CommitOf(s, b);
        CommitUnlocks(s, b);
        MutateKeepsShape(o.store, body[1..]);
      case Raise =>
    }
  }

  /**
   * A mutator that throws after some plain assignments abandons its commit
   * before the lock is cleared: the writes have landed, nothing was called,
   * and the container stays locked, so every later write is silent until
   * another commit clears the lock.
   */
  lemma CommitRaiseLeavesLocked<V>(s: Store<V>, pre: seq<Step<V>>, post: seq<Step<V>>, k: string, v: V)
    requires Flat(pre)
    ensures var o := CommitOf(s, pre + [Raise] + post);
      && o.thrown && o.store.locked
      && o.store.log == s.log
      && (o.store.record, o.store.plain) == Assign(s.record, s.plain, pre)
      && WriteOf(o.store, k, v).store.log == s.log
  {
    FlatThenRaise(s.(locked := true), pre, post);
  }

  /** Under the lock, plain assignments followed by Raise: the writes land and the pass throws. */
  lemma {:induction false} FlatThenRaise<V>(s: Store<V>, pre: seq<Step<V>>, post: seq<Step<V>>)
    requires s.locked && Flat(pre)
    ensures var o := Mutate(s, pre + [Raise] + post);
      && o.thrown && o.store.locked && o.store.log == s.log
      && (o.store.record, o.store.plain) == Assign(s.record, s.plain, pre)
    decreases |pre|
  {
    var body := pre + [Raise] + post;
    if pre == [] {
      assert body[0] == Raise;
    } else {
      assert body[0] == pre[0];
      assert body[1..] == pre[1..] + [Raise] + post;
      assert Flat(pre[1..]) by {
        forall i | 0 <= i < |pre[1..]| ensures pre[1..][i].Write? {
          assert pre[1..][i] == pre[i + 1];
        }
      }
      LockedWriteIsSilent(s, pre[0].key, pre[0].value);
      FlatThenRaise(WriteOf(s, pre[0].key, pre[0].value).store, pre[1..], post);
    }
  }

  /**
   * The lock is a flag, not a counter: a commit nested in a mutator clears
   * it, so a write that follows it in the outer mutator notifies the
   * watchers of its field at once, before the outer commit finishes.
   */
  lemma NestedCommitReleasesLock<V>(s: Store<V>, b: seq<Step<V>>, k: string, v: V)
    requires k in s.record && Complete(s.watchers, k)
    requires !CommitOf(s.(locked := true), b).thrown
    ensures var inner, m := CommitOf(s.(locked := true), b).store, Matching(s.watchers, k);
      var o := Mutate(s.(locked := true), [Commit(b), Write(k, v)]);
      && !inner.locked && !o.thrown
      && |o.store.log| == |inner.log| + |m|
      && o.store.log[..|inner.log|] == inner.log
      && (forall i :: 0 <= i < |m| ==>
            m[i].callback == Some(o.store.log[|inner.log| + i].callback) &&
            o.store.log[|inner.log| + i].seen == inner.record[k := v])
  {
    var inner := CommitOf(s.(locked := true), b).store;
    CommitUnlocks(s.(locked := true), b);
    WriteNotifiesMatching(inner, k, v);
    var body: seq<Step<V>> := [Commit(b), Write(k, v)];
    assert body[1..] == [Write(k, v)] && [Write(k, v)][1..] == [];
    assert Mutate(s.(locked := true), body) == Mutate(inner, [Write(k, v)]);
    var w := WriteOf(inner, k, v);
    assert Mutate(inner, [Write(k, v)]) == Mutate(w.store, []);
  }

  // ---------------------------------------------------------------------
  // The container and the registry, in place
  // ---------------------------------------------------------------------

  /**
   * One container: the handle with its intercepted fields and plain
   * properties, and the closure state its watch and commit share.
   */
  class Container<V> {
    var record: map<string, V>
    var plain: map<string, V>
    var watchers: seq<Watcher>
    var isLocked: bool
    ghost var log: seq<Call<V>>

    ghost function View(): Store<V>
      reads this
    {
      Store(record, plain, watchers, isLocked, log)
    }

    constructor (init: map<string, V>)
      ensures View() == Created(init)
    {
      record, plain, watchers, isLocked := init, map[], [], false;
      log := [];
    }

    /** A property read through the handle. */
    method Get(k: string) returns (r: Option<V>)
      ensures r == Read(View(), k)
    {
      if k in record {
        r := Some(record[k]);
      } else if k in plain {
        r := Some(plain[k]);
      } else {
        r := None;
      }
    }

    /** A property assignment through the handle; thrown reports a watcher's exception. */
    method Set(k: string, v: V) returns (thrown: bool)
      modifies this
      ensures Outcome(View(), thrown) == WriteOf(old(View()), k, v)
    {
      if k in record {
        record := record[k := v];
        thrown := RunWatcher(k);
      } else {
        plain := plain[k := v];
        thrown := false;
      }
    }

    method Watch(k: WatchArg, v: Option<CallbackId>)
      modifies this
      ensures View() == WatchOf(old(View()), k, v)
    {
      var w := (match k
        case Fn(f) => Watcher(Wildcard, Some(f))
        case Field(name) => Watcher(name, v));
      watchers := watchers + [w];
    }

    method RunWatcher(k: string) returns (thrown: bool)
      modifies this`log
      ensures Outcome(View(), thrown) == Notify(old(View()), k)
    {
      thrown := false;
      if isLocked {
        return;
      }
      ghost var done: seq<Call<V>> := [];
      var i := 0;
      while i < |watchers|
        invariant 0 <= i <= |watchers|
        invariant log == old(log) + done
        invariant Run(watchers, k, record) ==
          Dispatch(done + Run(watchers[i..], k, record).calls, Run(watchers[i..], k, record).thrown)
      {
        var w := watchers[i];
        if w.key == k || w.key == Wildcard {
          if w.callback.None? {
            // calling undefined throws a TypeError out of the forEach
            thrown := true;
            return;
          }
          log := log + [Call(w.callback.value, record)];
          done := done + [Call(w.callback.value, record)];
        }
        i := i + 1;
      }
    }

    method Commit(body: seq<Step<V>>) returns (thrown: bool)
      modifies this
      ensures Outcome(View(), thrown) == CommitOf(old(View()), body)
      decreases body, 1
    {
      isLocked := true;
      thrown := RunMutator(body);
      if thrown {
        return;
      }
      isLocked := false;
      thrown := RunWatcher(Wildcard);
    }

    /** The mutator passed to commit, run step by step. */
    method RunMutator(body: seq<Step<V>>) returns (thrown: bool)
      modifies this
      ensures Outcome(View(), thrown) == Mutate(old(View()), body)
      decreases body, 0
    {
      thrown := false;
      var i := 0;
      while i < |body|
        invariant 0 <= i <= |body|
        invariant Mutate(old(View()), body) == Mutate(View(), body[i..])
      {
        assert body[i..][0] == body[i] && body[i..][1..] == body[i + 1..];
        match body[i] {
          case Write(k, v) =>
            thrown := Set(k, v);
          case Commit(b) =>
            thrown := this.Commit(b);
          case Raise =>
            // the mutator's own code throws
            thrown := true;
        }
        if thrown {
          return;
        }
        i := i + 1;
      }
    }
  }

  /** The module-wide association from a handle to its watch/commit pair. */
  class Registry<V> {
    /**
     * Each handle maps to the container whose Watch and Commit methods are
     * the pair stored for it.
     */
    var stateMap: map<object, Container<V>>

    /** Every registered handle is associated with its own pair. */
    ghost predicate Linked()
      reads this
    {
      forall x :: x in stateMap ==> stateMap[x] == x
    }

    constructor ()
      ensures stateMap == map[] && Linked()
    {
      stateMap := map[];
    }

    method CreateState(init: map<string, V>) returns (h: Container<V>)
      modifies this
      ensures fresh(h) && h.View() == Created(init)
      ensures stateMap == old(stateMap)[h := h]
      ensures old(Linked()) ==> Linked()
    {
      h := new Container(init);
      stateMap := stateMap[h := h];
    }

    method UseState(x: object) returns (r: Result<Container<V>>)
      ensures x in stateMap ==> r == Ok(stateMap[x])
      ensures x !in stateMap ==> r == Err(NotInitialized)
      ensures Linked() && r.Ok? ==> r.value == x
    {
      if x in stateMap {
        r := Ok(stateMap[x]);
      } else {
        r := Err(NotInitialized);
      }
    }
  }
}
