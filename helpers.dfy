/**
 * detectModules of src/helpers.ts: the list of patch modules a virtual-DOM
 * tree needs, gathered from the data fields of the node and of every
 * element below it, without duplicates, in first-seen order.
 */
module Helpers {

  /** The six modules of the patch library that detectModules can return. */
  datatype Module = Attributes | Class | EventListeners | Props | Dataset | Style

  /**
   * Which of a node's data fields are set (present and truthy); a node
   * without data has none set. `classes` stands for the field `class`.
   */
  datatype Data = Data(attrs: bool, classes: bool, on: bool, props: bool, dataset: bool, style: bool)

  /** A child is either a text string or another virtual node. */
  datatype Child = Text(text: string) | Element(node: VNode)

  datatype VNode = VNode(data: Data, children: seq<Child>)

  /** Whether the data field that calls for module m is set. */
  predicate Has(d: Data, m: Module)
  {
    match m
    case Attributes => d.attrs
    case Class => d.classes
    case EventListeners => d.on
    case Props => d.props
    case Dataset => d.dataset
    case Style => d.style
  }

  /** A module's position in the fixed order attrs, class, on, props, dataset, style. */
  function Rank(m: Module): (r: nat)
  {
    match m
    case Attributes => 0
    case Class => 1
    case EventListeners => 2
    case Props => 3
    case Dataset => 4
    case Style => 5
  }

  predicate NoDuplicates(s: seq<Module>)
  {
    forall i, j :: 0 <= i < j < |s| ==> s[i] != s[j]
  }

  // ---------------------------------------------------------------------
  // Specification functions
  // ---------------------------------------------------------------------

  /** The fixed order in which the six data fields are tested. */
  const Order: seq<Module> := [Attributes, Class, EventListeners, Props, Dataset, Style]

  /** The first k of the six guarded pushes, applied in order to []. */
  function OwnUpTo(d: Data, k: nat): (r: seq<Module>)
    requires k <= |Order|
  {
    if k == 0 then []
    else
      var acc := OwnUpTo(d, k - 1);
      if Has(d, Order[k - 1]) then acc + [Order[k - 1]] else acc
  }

  /** The six guarded pushes for the node's own data fields. */
  function Own(d: Data): (r: seq<Module>)
  {
    OwnUpTo(d, |Order|)
  }

  /** Ranks strictly increase along s. */
  predicate Ascending(s: seq<Module>)
  {
    forall i, j :: 0 <= i < j < |s| ==> Rank(s[i]) < Rank(s[j])
  }

  /** The forEach over a child's result: push each module not yet included. */
  function Merge(acc: seq<Module>, ms: seq<Module>): (r: seq<Module>)
    decreases |ms|
  {
    if ms == [] then acc
    else Merge(if ms[0] in acc then acc else acc + [ms[0]], ms[1..])
  }

  /** detectModules(vnode). */
  function Detect(v: VNode): (r: seq<Module>)
    decreases v, |v.children| + 1
  {
    FromChildren(Own(v.data), v, 0)
  }

  /**
   * The loop over the children of v from index i on: strings are skipped,
   * the result for an element is merged in.
   */
  function FromChildren(acc: seq<Module>, v: VNode, i: nat): (r: seq<Module>)
    requires i <= |v.children|
    decreases v, |v.children| - i
  {
    if i == |v.children| then acc
    else match v.children[i]
      case Text(_) => FromChildren(acc, v, i + 1)
      case Element(n) => FromChildren(Merge(acc, Detect(n)), v, i + 1)
  }

  /** Reference: the node or some element below it has the field for m set. */
  predicate Carries(v: VNode, m: Module)
    decreases v
  {
    Has(v.data, m) || exists i :: 0 <= i < |v.children| && CarriedBy(v.children[i], m)
  }

  /** A text child carries nothing; an element carries what its node carries. */
  predicate CarriedBy(c: Child, m: Module)
    decreases c
  {
    match c
    case Text(_) => false
    case Element(n) => Carries(n, m)
  }

  // ---------------------------------------------------------------------
  // Properties
  // ---------------------------------------------------------------------

  /** Rank is the position in Order. */
  lemma RankIsPosition(m: Module, k: nat)
    requires k < |Order|
    ensures Order[Rank(m)] == m
    ensures Rank(Order[k]) == k
  {
  }

  /**
   * After k guarded pushes the list holds exactly the modules of rank below k
   * whose field is set, in ascending rank.
   */
  lemma {:induction false} OwnUpToInOrder(d: Data, k: nat)
    requires k <= |Order|
    ensures var r := OwnUpTo(d, k);
      && (forall m :: m in r <==> Has(d, m) && Rank(m) < k)
      && (forall i :: 0 <= i < |r| ==> Rank(r[i]) < k)
      && Ascending(r)
  {
    if k > 0 {
      OwnUpToInOrder(d, k - 1);
      RankIsPosition(Order[k - 1], k - 1);
      forall m ensures Rank(m) == k - 1 ==> m == Order[k - 1] {
        RankIsPosition(m, k - 1);
      }
    }
  }

  /**
   * A node's own modules are exactly those whose field is set, listed in the
   * order attrs, class, on, props, dataset, style.
   */
  lemma OwnInOrder(d: Data)
    ensures forall m :: m in Own(d) <==> Has(d, m)
    ensures Ascending(Own(d))
  {
    OwnUpToInOrder(d, |Order|);
  }

  /**
   * Merging only appends: the accumulator stays a prefix, the result holds
   * exactly the modules of both, and it stays free of duplicates.
   */
  lemma {:induction false} MergeAppends(acc: seq<Module>, ms: seq<Module>)
    ensures var r := Merge(acc, ms);
      && |acc| <= |r| && r[..|acc|] == acc
      && (forall m :: m in r <==> m in acc || m in ms)
      && (NoDuplicates(acc) ==> NoDuplicates(r))
    decreases |ms|
  {
    if ms != [] {
      var next := if ms[0] in acc then acc else acc + [ms[0]];
      MergeAppends(next, ms[1..]);
      assert forall m :: m in ms <==> m == ms[0] || m in ms[1..];
    }
  }

  /** The loop over the children only appends to what the node itself listed. */
  lemma {:induction false} FromChildrenAppends(acc: seq<Module>, v: VNode, i: nat)
    requires i <= |v.children|
    ensures var r := FromChildren(acc, v, i);
      && |acc| <= |r| && r[..|acc|] == acc
      && (NoDuplicates(acc) ==> NoDuplicates(r))
    decreases |v.children| - i
  {
    if i < |v.children| {
      match v.children[i]
      case Text(_) =>
        FromChildrenAppends(acc, v, i + 1);
      case Element(n) =>
        MergeAppends(acc, Detect(n));
        var next := Merge(acc, Detect(n));
        FromChildrenAppends(next, v, i + 1);
        var r := FromChildren(acc, v, i);
        assert r[..|acc|] == r[..|next|][..|acc|];
    }
  }

  /**
   * The node's own modules come first, in the order attrs, class, on, props,
   * dataset, style, and the result has no duplicates.
   */
  lemma DetectStartsWithOwn(v: VNode)
    ensures var r := Detect(v);
      && |Own(v.data)| <= |r| && r[..|Own(v.data)|] == Own(v.data)
      && Ascending(Own(v.data)) && NoDuplicates(r)
  {
    OwnInOrder(v.data);
    FromChildrenAppends(Own(v.data), v, 0);
  }

  /**
   * A module is in the result exactly when the node or some element below
   * it has the matching data field set; text children contribute nothing.
   */
  lemma {:induction false} DetectIffCarries(v: VNode, m: Module)
    ensures m in Detect(v) <==> Carries(v, m)
    decreases v, |v.children| + 1
  {
    OwnInOrder(v.data);
    FromChildrenIffCarries(Own(v.data), v, 0, m);
  }

  lemma {:induction false} FromChildrenIffCarries(acc: seq<Module>, v: VNode, i: nat, m: Module)
    requires i <= |v.children|
    ensures m in FromChildren(acc, v, i) <==>
      m in acc || exists j :: i <= j < |v.children| && CarriedBy(v.children[j], m)
    decreases v, |v.children| - i
  {
    if i < |v.children| {
      match v.children[i]
      case Text(_) =>
        FromChildrenIffCarries(acc, v, i + 1, m);
        assert !CarriedBy(v.children[i], m);
      case Element(n) =>
        DetectIffCarries(n, m);
        MergeAppends(acc, Detect(n));
        FromChildrenIffCarries(Merge(acc, Detect(n)), v, i + 1, m);
    }
  }

  /** A list of modules without duplicates has at most six entries. */
  lemma AtMostSix(r: seq<Module>)
    requires NoDuplicates(r)
    ensures |r| <= 6
  {
    var all: set<Module> := {Attributes, Class, EventListeners, Props, Dataset, Style};
    assert |all| == 6;
    var present := set m | m in r;
    DistinctCount(r);
    assert present <= all;
    SubsetCardinality(present, all);
  }

  lemma {:induction false} DistinctCount(r: seq<Module>)
    requires NoDuplicates(r)
    ensures |set x | x in r| == |r|
  {
    if r != [] {
      DistinctCount(r[1..]);
      assert (set x | x in r) == (set x | x in r[1..]) + {r[0]};
      assert r[0] !in r[1..];
    }
  }

  lemma SubsetCardinality<T>(a: set<T>, b: set<T>)
    requires a <= b
    ensures |a| <= |b|
  {
    assert b == a + (b - a);
  }

  /** The result lists each of the six modules at most once. */
  lemma DetectIsBounded(v: VNode)
    ensures NoDuplicates(Detect(v)) && |Detect(v)| <= 6
  {
    DetectStartsWithOwn(v);
    AtMostSix(Detect(v));
  }

  /** A node with no data fields set and no element children yields []. */
  lemma {:induction false} PlainNodeYieldsNothing(v: VNode)
    requires forall m :: !Has(v.data, m)
    requires forall i :: 0 <= i < |v.children| ==> v.children[i].Text?
    ensures Detect(v) == []
  {
    NothingSetPushesNothing(v.data, |Order|);
    TextChildrenAddNothing([], v, 0);
  }

  lemma {:induction false} NothingSetPushesNothing(d: Data, k: nat)
    requires k <= |Order| && forall m :: !Has(d, m)
    ensures OwnUpTo(d, k) == []
  {
    if k > 0 {
      NothingSetPushesNothing(d, k - 1);
    }
  }

  lemma {:induction false} TextChildrenAddNothing(acc: seq<Module>, v: VNode, i: nat)
    requires i <= |v.children|
    requires forall j :: 0 <= j < |v.children| ==> v.children[j].Text?
    ensures FromChildren(acc, v, i) == acc
    decreases |v.children| - i
  {
    if i < |v.children| {
      TextChildrenAddNothing(acc, v, i + 1);
    }
  }

  /**
   * A text child is skipped wherever it stands: inserting one at any
   * position among a node's children leaves the result unchanged.
   */
  lemma TextChildIsSkipped(d: Data, cs: seq<Child>, i: nat, t: string)
    requires i <= |cs|
    ensures Detect(VNode(d, cs[..i] + [Text(t)] + cs[i..])) == Detect(VNode(d, cs))
  {
    SkipsTextFrom(Own(d), VNode(d, cs), VNode(d, cs[..i] + [Text(t)] + cs[i..]), i, 0);
  }

  /** Before the inserted text child both loops step alike; at it, one step is skipped. */
  lemma {:induction false} SkipsTextFrom(acc: seq<Module>, v: VNode, w: VNode, i: nat, j: nat)
    requires j <= i <= |v.children|
    requires |w.children| == |v.children| + 1 && w.children[i].Text?
    requires w.children[..i] == v.children[..i] && w.children[i + 1..] == v.children[i..]
    ensures FromChildren(acc, w, j) == FromChildren(acc, v, j)
    decreases i - j
  {
    if j == i {
      SameSuffix(acc, v, i, w, i + 1);
    } else {
      assert w.children[j] == w.children[..i][j] == v.children[..i][j] == v.children[j];
      match v.children[j]
      case Text(_) =>
        SkipsTextFrom(acc, v, w, i, j + 1);
      case Element(n) =>
        SkipsTextFrom(Merge(acc, Detect(n)), v, w, i, j + 1);
    }
  }

  /** The loop from index i depends only on the children from i on. */
  lemma {:induction false} SameSuffix(acc: seq<Module>, v: VNode, i: nat, w: VNode, j: nat)
    requires i <= |v.children| && j <= |w.children|
    requires v.children[i..] == w.children[j..]
    ensures FromChildren(acc, v, i) == FromChildren(acc, w, j)
    decreases |v.children| - i
  {
    if i < |v.children| {
      assert v.children[i] == v.children[i..][0] == w.children[j];
      assert v.children[i + 1..] == v.children[i..][1..] == w.children[j + 1..];
      match v.children[i]
      case Text(_) =>
        SameSuffix(acc, v, i + 1, w, j + 1);
      case Element(n) =>
        SameSuffix(Merge(acc, Detect(n)), v, i + 1, w, j + 1);
    }
  }

  // ---------------------------------------------------------------------
  // The algorithm as written
  // ---------------------------------------------------------------------

  /**
   * detectModules: push the node's own modules, then for each element child
   * recurse and push every module of its result not already included.
   */
  method DetectModules(v: VNode) returns (modules: seq<Module>)
    ensures modules == Detect(v)
    decreases v
  {
    var d := v.data;
    modules := [];
    if d.attrs { modules := modules + [Attributes]; }
    assert modules == OwnUpTo(d, 1);
    if d.classes { modules := modules + [Class]; }
    assert modules == OwnUpTo(d, 2);
    if d.on { modules := modules + [EventListeners]; }
    assert modules == OwnUpTo(d, 3);
    if d.props { modules := modules + [Props]; }
    assert modules == OwnUpTo(d, 4);
    if d.dataset { modules := modules + [Dataset]; }
    assert modules == OwnUpTo(d, 5);
    if d.style { modules := modules + [Style]; }
    assert modules == OwnUpTo(d, 6);
    var i := 0;
    while i < |v.children|
      invariant 0 <= i <= |v.children|
      invariant Detect(v) == FromChildren(modules, v, i)
    {
      var child := v.children[i];
      if child.Element? {
        var childModules := DetectModules(child.node);
        var j := 0;
        ghost var start := modules;
        while j < |childModules|
          invariant 0 <= j <= |childModules|
          invariant Merge(start, childModules) == Merge(modules, childModules[j..])
        {
          assert childModules[j..][0] == childModules[j] && childModules[j..][1..] == childModules[j + 1..];
          if childModules[j] !in modules {
            modules := modules + [childModules[j]];
          }
          j := j + 1;
        }
      }
      i := i + 1;
    }
  }
}
