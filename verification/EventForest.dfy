/**
 The forest that the profiler's CPU events form, as a value: each event maps to its
 name, its attached kernels, its parent and its list of children.

 `Lift` is one removal step of EventList._remove_dup_nodes and `Collapse` a whole pass of
 it over a list; the lemmas say what every step keeps and what the pass computes.
 */
module EventForest {
  import opened Wrappers
  import opened Sums

  datatype Kernel = Kernel(name: string, device: int, duration: int)

  datatype Node<!N> = Node(name: string, kernels: seq<Kernel>, parent: Option<N>, children: seq<N>)

  type Forest<!N> = map<N, Node<N>>

  /** The links of one event agree with those of its parent and of its children. */
  ghost predicate LinkOk<N>(f: Forest<N>, x: N)
    requires x in f
  {
    && (f[x].parent.Some? ==> f[x].parent.value in f && x in f[f[x].parent.value].children)
    && (forall c :: c in f[x].children ==> c in f && f[c].parent == Some(x))
    && Distinct(f[x].children)
  }

  /** Parent and child links agree and never leave the forest. */
  ghost predicate WellLinked<N>(f: Forest<N>) {
    forall x {:trigger LinkOk(f, x)} :: x in f ==> LinkOk(f, x)
  }

  /** A rank that grows from parent to child: the forest has no cycle. */
  ghost predicate Ranked<N>(f: Forest<N>, rank: N -> int) {
    forall x :: x in f && f[x].parent.Some? ==> rank(f[x].parent.value) < rank(x)
  }

  /** The removal test: the event is the only child of a parent with its own name. */
  ghost predicate Dup<N>(f: Forest<N>, x: N)
    requires x in f
  {
    && f[x].parent.Some?
    && f[x].parent.value in f
    && f[f[x].parent.value].name == f[x].name
    && |f[f[x].parent.value].children| == 1
  }

  /** Removes `x`: its parent takes over its children and its kernels. */
  ghost function Lift<N>(f: Forest<N>, x: N): Forest<N>
    requires x in f && f[x].parent.Some? && f[x].parent.value in f
  {
    var p := f[x].parent.value;
    map y | y in f && y != x ::
      if y == p then f[p].(children := f[x].children, kernels := f[x].kernels)
      else if y in f[x].children then f[y].(parent := Some(p))
      else f[y]
  }

  /** One pass over `order`, left to right. */
  ghost function Collapse<N>(f: Forest<N>, order: seq<N>): Forest<N> {
    if order == [] then f else
      var g := Collapse(f, order[..|order|-1]);
      var x := order[|order|-1];
      if x in g && Dup(g, x) then Lift(g, x) else g
  }

  /** The `k`-th ancestor. */
  ghost function Up<N>(f: Forest<N>, x: N, k: nat): Option<N> {
    if k == 0 then Some(x)
    else if x in f && f[x].parent.Some? then Up(f, f[x].parent.value, k - 1)
    else None
  }

  ghost predicate Ancestor<N>(f: Forest<N>, a: N, x: N) {
    exists k: nat :: k > 0 && Up(f, x, k) == Some(a)
  }

  // ---------------------------------------------------------------- one removal step

  lemma SoleChild<N>(f: Forest<N>, x: N, rank: N -> int)
    requires WellLinked(f) && Ranked(f, rank) && x in f && Dup(f, x)
    ensures f[f[x].parent.value].children == [x]
    ensures f[x].parent.value != x && f[x].parent.value !in f[x].children && x !in f[x].children
  {
    var p := f[x].parent.value;
    assert LinkOk(f, x) && LinkOk(f, p);
    assert rank(p) < rank(x);
  }

  lemma LiftParentLink<N>(f: Forest<N>, x: N, rank: N -> int, y: N)
    requires WellLinked(f) && Ranked(f, rank) && x in f && Dup(f, x)
    requires y in f && y != x && f[y].parent.Some?
    ensures var g := Lift(f, x); var q := f[y].parent.value;
      && g[y].parent == Some(if q == x then f[x].parent.value else q)
      && g[y].parent.value in g && y in g[g[y].parent.value].children
      && rank(g[y].parent.value) < rank(y)
  {
    SoleChild(f, x, rank);
    var q := f[y].parent.value;
    assert LinkOk(f, y) && LinkOk(f, x) && LinkOk(f, q);
    assert y in f[x].children <==> q == x;
    if q == x { assert rank(f[x].parent.value) < rank(x) < rank(y); }
  }

  lemma LiftChildLinks<N>(f: Forest<N>, x: N, rank: N -> int, y: N)
    requires WellLinked(f) && Ranked(f, rank) && x in f && Dup(f, x)
    requires y in f && y != x
    ensures var g := Lift(f, x);
      && Distinct(g[y].children)
      && (forall c :: c in g[y].children ==> c in g && g[c].parent == Some(y))
  {
    SoleChild(f, x, rank);
    var g, p := Lift(f, x), f[x].parent.value;
    assert LinkOk(f, x) && LinkOk(f, y);
    forall c | c in g[y].children ensures c in g && g[c].parent == Some(y) {
      if y == p {
        assert c in f[x].children;
      } else {
        assert c in f[y].children && f[c].parent == Some(y);
        assert c != x && c !in f[x].children;
      }
    }
  }

  lemma LiftLinks<N>(f: Forest<N>, x: N, rank: N -> int)
    requires WellLinked(f) && Ranked(f, rank) && x in f && Dup(f, x)
    ensures WellLinked(Lift(f, x)) && Ranked(Lift(f, x), rank)
    ensures Lift(f, x).Keys == f.Keys - {x}
  {
    var g := Lift(f, x);
    forall y | y in g
      ensures LinkOk(g, y) && (g[y].parent.Some? ==> rank(g[y].parent.value) < rank(y))
    {
      LiftChildLinks(f, x, rank, y);
      if f[y].parent.Some? { LiftParentLink(f, x, rank, y); }
      else { assert y !in f[x].children by { assert LinkOk(f, x); } }
    }
  }

  /** What a removal may not change about another event: its name, its rootness, the removal test. */
  ghost predicate SameTests<N>(f: Forest<N>, g: Forest<N>, y: N)
    requires y in f && y in g
  {
    g[y].name == f[y].name && g[y].parent.Some? == f[y].parent.Some? && Dup(g, y) == Dup(f, y)
  }

  lemma LiftKeepsTests<N>(f: Forest<N>, x: N, rank: N -> int, y: N)
    requires WellLinked(f) && Ranked(f, rank) && x in f && Dup(f, x)
    requires y in f && y != x
    ensures y in Lift(f, x) && SameTests(f, Lift(f, x), y)
  {
    SoleChild(f, x, rank);
    if f[y].parent.Some? {
      LiftParentLink(f, x, rank, y);
      assert LinkOk(f, y);
    } else {
      assert LinkOk(f, x);
    }
  }

  lemma UpOne<N>(f: Forest<N>, y: N, j: nat, a: N)
    requires y in f && f[y].parent.Some? && Up(f, f[y].parent.value, j) == Some(a)
    ensures Up(f, y, j + 1) == Some(a) && Ancestor(f, a, y)
  {
    assert Up(f, y, j + 1) == Some(a);
  }

  lemma {:induction false} LiftKeepsUp<N>(f: Forest<N>, x: N, rank: N -> int, y: N, k: nat, a: N)
    requires WellLinked(f) && Ranked(f, rank) && x in f && Dup(f, x)
    requires y in f && y != x && a != x && k > 0 && Up(f, y, k) == Some(a)
    ensures Ancestor(Lift(f, x), a, y)
    decreases k
  {
    LiftParentLink(f, x, rank, y);
    var g, q := Lift(f, x), f[y].parent.value;
    var j: nat := if q == x then k - 2 else k - 1;
    var r := g[y].parent.value;
    assert Up(f, r, j) == Some(a);
    if j == 0 {
      UpOne(g, y, 0, a);
    } else {
      SoleChild(f, x, rank);
      LiftKeepsUp(f, x, rank, r, j, a);
      var i: nat :| i > 0 && Up(g, r, i) == Some(a);
      UpOne(g, y, i, a);
    }
  }

  lemma {:induction false} LiftReflectsUp<N>(f: Forest<N>, x: N, rank: N -> int, y: N, k: nat, a: N)
    requires WellLinked(f) && Ranked(f, rank) && x in f && Dup(f, x)
    requires y in f && y != x && k > 0 && Up(Lift(f, x), y, k) == Some(a)
    ensures Ancestor(f, a, y)
    decreases k
  {
    assert LinkOk(f, x);
    LiftParentLink(f, x, rank, y);
    var g := Lift(f, x);
    var r := g[y].parent.value;
    if k > 1 {
      LiftReflectsUp(f, x, rank, r, k - 1, a);
    }
    assert k == 1 ==> Up(f, r, 0) == Some(a);
    var j: nat :| Up(f, r, j) == Some(a);
    if f[y].parent == Some(x) {
      UpOne(f, x, j, a);
      UpOne(f, y, j + 1, a);
    } else {
      UpOne(f, y, j, a);
    }
  }

  /** Among the surviving events, a removal neither adds nor drops an ancestor. */
  lemma LiftKeepsAncestry<N>(f: Forest<N>, x: N, rank: N -> int, a: N, y: N)
    requires WellLinked(f) && Ranked(f, rank) && x in f && Dup(f, x)
    requires y in f && y != x && a != x
    ensures Ancestor(Lift(f, x), a, y) <==> Ancestor(f, a, y)
  {
    if Ancestor(f, a, y) {
      var k: nat :| k > 0 && Up(f, y, k) == Some(a);
      LiftKeepsUp(f, x, rank, y, k, a);
    }
    if Ancestor(Lift(f, x), a, y) {
      var k: nat :| k > 0 && Up(Lift(f, x), y, k) == Some(a);
      LiftReflectsUp(f, x, rank, y, k, a);
    }
  }

  // ---------------------------------------------------------------- a whole pass

  ghost function Removed<N>(f: Forest<N>, order: seq<N>): set<N> {
    set x | x in order && x in f && Dup(f, x)
  }

  /**
   What a pass does, in terms of the forest it started from alone: it removes exactly the
   events of `order` that pass the removal test at the start, it keeps the links sound, and
   no removal makes another event removable or protects one.
   */
  lemma {:induction false} CollapseRemoves<N>(f: Forest<N>, order: seq<N>, rank: N -> int)
    requires WellLinked(f) && Ranked(f, rank) && Distinct(order)
    ensures var g := Collapse(f, order);
      && WellLinked(g) && Ranked(g, rank)
      && g.Keys == f.Keys - Removed(f, order)
      && (forall y :: y in g ==> SameTests(f, g, y))
  {
    if order != [] {
      var pre, x := order[..|order|-1], order[|order|-1];
      assert order == pre + [x];
      CollapseRemoves(f, pre, rank);
      var g := Collapse(f, pre);
      assert x !in pre;
      if x in g && Dup(g, x) {
        LiftLinks(g, x, rank);
        var h := Lift(g, x);
        forall y | y in h ensures SameTests(f, h, y) {
          LiftKeepsTests(g, x, rank, y);
          assert SameTests(f, g, y);
        }
        assert SameTests(f, g, x);
        RemovedNext(f, pre, x);
      } else {
        if x in g { assert SameTests(f, g, x); }
        RemovedNext(f, pre, x);
      }
    }
  }

  lemma RemovedNext<N>(f: Forest<N>, pre: seq<N>, x: N)
    ensures Removed(f, pre + [x]) == if x in f && Dup(f, x) then Removed(f, pre) + {x} else Removed(f, pre)
  {
  }

  /** After a full pass an event is gone if and only if it was the only child of a parent with its own name. */
  lemma GoneIff<N>(f: Forest<N>, order: seq<N>, rank: N -> int, x: N)
    requires WellLinked(f) && Ranked(f, rank) && Distinct(order) && Elements(order) == f.Keys && x in f
    ensures x !in Collapse(f, order) <==>
      match f[x].parent
      case None => false
      case Some(p) => p in f && f[p].name == f[x].name && f[p].children == [x]
  {
    CollapseRemoves(f, order, rank);
    assert x in Elements(order) && x in order;
    assert LinkOk(f, x);
    if Dup(f, x) { SoleChild(f, x, rank); }
  }

  /** An only child with a name of its own stays, with all its links. */
  lemma OwnNameStays()
    ensures var f := map[0 := Node("aten::linear", [], None, [1]), 1 := Node("aten::addmm", [], Some(0), [])];
      Collapse(f, [0, 1]) == f
  {
    var f := map[0 := Node("aten::linear", [], None, [1]), 1 := Node("aten::addmm", [], Some(0), [])];
    assert [0, 1][..1] == [0] && [0][..0] == [];
    assert f[0].name[6] != f[1].name[6];
    assert Collapse(f, [0]) == f;
  }

  /** A pass over every event leaves no sole child that carries its parent's name. */
  lemma CollapseLeavesNoDup<N>(f: Forest<N>, order: seq<N>, rank: N -> int)
    requires WellLinked(f) && Ranked(f, rank) && Distinct(order) && Elements(order) == f.Keys
    ensures forall y :: y in Collapse(f, order) ==> !Dup(Collapse(f, order), y)
  {
    CollapseRemoves(f, order, rank);
    forall y | y in Collapse(f, order) ensures !Dup(Collapse(f, order), y) {
      assert y in f && y in Elements(order) && y in order;
    }
  }

  /** Survivors keep exactly the ancestors that survive with them. */
  lemma {:induction false} CollapseKeepsAncestry<N>(f: Forest<N>, order: seq<N>, rank: N -> int, a: N, y: N)
    requires WellLinked(f) && Ranked(f, rank) && Distinct(order)
    requires a in Collapse(f, order) && y in Collapse(f, order)
    ensures Ancestor(Collapse(f, order), a, y) <==> Ancestor(f, a, y)
  {
    if order != [] {
      var pre, x := order[..|order|-1], order[|order|-1];
      CollapseRemoves(f, pre, rank);
      var g := Collapse(f, pre);
      if x in g && Dup(g, x) {
        LiftLinks(g, x, rank);
        LiftKeepsAncestry(g, x, rank, a, y);
      }
      CollapseKeepsAncestry(f, pre, rank, a, y);
    }
  }

  /** The `k`-th event of the run of sole same-named children that starts at `e`. */
  ghost function Down<N>(f: Forest<N>, e: N, k: nat): Option<N> {
    if k == 0 then Some(e)
    else if e in f && |f[e].children| == 1 && f[e].children[0] in f && Dup(f, f[e].children[0])
    then Down(f, f[e].children[0], k - 1)
    else None
  }

  lemma {:induction false} DownThenDown<N>(f: Forest<N>, e: N, j: nat, t: N, k: nat)
    requires Down(f, e, j) == Some(t)
    ensures Down(f, e, j + k) == Down(f, t, k)
  {
    if j > 0 {
      DownThenDown(f, f[e].children[0], j - 1, t, k);
    }
  }

  /** `g` gives `e` the children and the kernels that `t` had in `f`, at the end of a run from `e`. */
  ghost predicate TakesFrom<N>(f: Forest<N>, g: Forest<N>, e: N, t: N)
    requires e in g
  {
    && (exists k: nat :: Down(f, e, k) == Some(t))
    && t in f && g[e].children == f[t].children && g[e].kernels == f[t].kernels
  }

  lemma LiftTakesFrom<N>(f: Forest<N>, g: Forest<N>, x: N, rank: N -> int, s: N, t: N)
    requires WellLinked(g) && Ranked(g, rank) && x in g && Dup(g, x)
    requires x in f && Dup(f, x)
    requires TakesFrom(f, g, g[x].parent.value, s) && TakesFrom(f, g, x, t)
    ensures g[x].parent.value in Lift(g, x) && TakesFrom(f, Lift(g, x), g[x].parent.value, t)
    ensures f[s].children == [x]
  {
    SoleChild(g, x, rank);
    var p := g[x].parent.value;
    var j: nat :| Down(f, p, j) == Some(s);
    var k: nat :| Down(f, x, k) == Some(t);
    DownThenDown(f, p, j, s, k + 1);
    assert Down(f, s, k + 1) == Down(f, x, k);
    assert Down(f, p, j + (k + 1)) == Some(t);
  }

  lemma {:induction false} CollapseTakes<N>(f: Forest<N>, order: seq<N>, rank: N -> int, e: N) returns (t: N)
    requires WellLinked(f) && Ranked(f, rank) && Distinct(order)
    requires e in Collapse(f, order)
    ensures TakesFrom(f, Collapse(f, order), e, t)
    decreases |order|
  {
    if order == [] {
      assert Down(f, e, 0) == Some(e);
      t := e;
    } else {
      var pre, x := order[..|order|-1], order[|order|-1];
      CollapseRemoves(f, pre, rank);
      var g := Collapse(f, pre);
      if x in g && Dup(g, x) {
        LiftLinks(g, x, rank);
        assert SameTests(f, g, x);
        t := CollapseTakes(f, pre, rank, e);
        if e == g[x].parent.value {
          var s := t;
          t := CollapseTakes(f, pre, rank, x);
          LiftTakesFrom(f, g, x, rank, s, t);
        }
      } else {
        t := CollapseTakes(f, pre, rank, e);
      }
    }
  }

  /**
   After a full pass each survivor holds the children and the kernels of the last event of
   its run of sole same-named children, and that run cannot be prolonged.
   */
  lemma CollapseTakesFromBottom<N>(f: Forest<N>, order: seq<N>, rank: N -> int, e: N) returns (t: N)
    requires WellLinked(f) && Ranked(f, rank) && Distinct(order) && Elements(order) == f.Keys
    requires e in Collapse(f, order)
    ensures TakesFrom(f, Collapse(f, order), e, t)
    ensures forall c :: c in f[t].children ==> c in f && !Dup(f, c)
  {
    t := CollapseTakes(f, order, rank, e);
    CollapseRemoves(f, order, rank);
    CollapseLeavesNoDup(f, order, rank);
    RunEnds(f, Collapse(f, order), e, t);
  }

  lemma RunEnds<N>(f: Forest<N>, g: Forest<N>, e: N, t: N)
    requires WellLinked(g) && g.Keys <= f.Keys
    requires forall y :: y in g ==> SameTests(f, g, y)
    requires forall y :: y in g ==> !Dup(g, y)
    requires e in g && t in f && g[e].children == f[t].children
    ensures forall c :: c in f[t].children ==> c in f && !Dup(f, c)
  {
    assert LinkOk(g, e);
    forall c | c in f[t].children ensures c in f && !Dup(f, c) {
      assert c in g[e].children && c in g && SameTests(f, g, c);
    }
  }

  // ---------------------------------------------------------------- totals

  ghost function Roots<N>(f: Forest<N>): set<N> {
    set x | x in f && f[x].parent.None?
  }

  ghost function ChildSum<N>(f: Forest<N>, w: N -> int): N -> int {
    x => if x in f then SeqSum(f[x].children, w) else 0
  }

  /** Own weight minus the children's: the shape of every `self_*` property. */
  ghost function SelfOf<N>(f: Forest<N>, w: N -> int): N -> int {
    x => if x in f then w(x) - SeqSum(f[x].children, w) else 0
  }

  ghost function ChildrenOf<N>(f: Forest<N>, ps: set<N>): set<N> {
    set x | x in f && f[x].parent.Some? && f[x].parent.value in ps
  }

  lemma ChildrenOfOne<N>(f: Forest<N>, ps: set<N>, p: N)
    requires WellLinked(f) && ps <= f.Keys && p in ps
    ensures ChildrenOf(f, ps) == ChildrenOf(f, ps - {p}) + Elements(f[p].children)
    ensures ChildrenOf(f, ps - {p}) !! Elements(f[p].children)
  {
    assert LinkOk(f, p);
    forall x ensures x in Elements(f[p].children) <==> x in f && f[x].parent == Some(p) {
      if x in f { assert LinkOk(f, x); }
      assert x in Elements(f[p].children) <==> x in f[p].children;
    }
  }

  lemma {:induction false} ChildSumsAddUp<N>(f: Forest<N>, w: N -> int, ps: set<N>)
    requires WellLinked(f) && ps <= f.Keys
    ensures SetSum(ps, ChildSum(f, w)) == SetSum(ChildrenOf(f, ps), w)
    decreases |ps|
  {
    if ps == {} {
      assert ChildrenOf(f, ps) == {};
    } else {
      var p :| p in ps;
      assert LinkOk(f, p);
      SetSumPick(ps, ChildSum(f, w), p);
      ChildSumsAddUp(f, w, ps - {p});
      SeqSumIsSetSum(f[p].children, w);
      ChildrenOfOne(f, ps, p);
      SetSumUnion(ChildrenOf(f, ps - {p}), Elements(f[p].children), w);
    }
  }

  /** The self values of a forest telescope: they add up to the weights of its roots. */
  lemma SelfTotalIsRootTotal<N>(f: Forest<N>, w: N -> int)
    requires WellLinked(f)
    ensures SetSum(f.Keys, SelfOf(f, w)) == SetSum(Roots(f), w)
  {
    ChildSumsAddUp(f, w, f.Keys);
    var kids := ChildrenOf(f, f.Keys);
    forall x | x in f ensures f[x].parent.Some? ==> f[x].parent.value in f { assert LinkOk(f, x); }
    assert f.Keys == Roots(f) + kids;
    SetSumUnion(Roots(f), kids, w);
    SetSumPlus(f.Keys, ChildSum(f, w), SelfOf(f, w), w);
  }

  /** A pass leaves the total of the self values alone, whatever they measure. */
  lemma CollapseKeepsSelfTotal<N>(f: Forest<N>, order: seq<N>, rank: N -> int, w: N -> int)
    requires WellLinked(f) && Ranked(f, rank) && Distinct(order)
    ensures var g := Collapse(f, order);
      SetSum(g.Keys, SelfOf(g, w)) == SetSum(f.Keys, SelfOf(f, w)) == SetSum(Roots(f), w)
  {
    var g := Collapse(f, order);
    CollapseRemoves(f, order, rank);
    SelfTotalIsRootTotal(f, w);
    SelfTotalIsRootTotal(g, w);
    assert Roots(g) == Roots(f);
  }

  // ---------------------------------------------------------------- kernels

  function Duration(k: Kernel): int { k.duration }

  ghost function KernelTime(ks: seq<Kernel>): int { SeqSum(ks, Duration) }

  ghost function KernelTimeOf<N>(f: Forest<N>): N -> int {
    x => if x in f then KernelTime(f[x].kernels) else 0
  }

  /** The kernel time that the parent of `x` held. */
  ghost function ParentKernelTimeOf<N>(f: Forest<N>): N -> int {
    x => if x in f && f[x].parent.Some? && f[x].parent.value in f
         then KernelTime(f[f[x].parent.value].kernels) else 0
  }

  lemma LiftKernelTime<N>(g: Forest<N>, x: N, rank: N -> int)
    requires WellLinked(g) && Ranked(g, rank) && x in g && Dup(g, x)
    ensures SetSum(Lift(g, x).Keys, KernelTimeOf(Lift(g, x)))
         == SetSum(g.Keys, KernelTimeOf(g)) - KernelTime(g[g[x].parent.value].kernels)
  {
    LiftLinks(g, x, rank);
    SoleChild(g, x, rank);
    var h, p := Lift(g, x), g[x].parent.value;
    SetSumPick(g.Keys, KernelTimeOf(g), x);
    SetSumPick(h.Keys, KernelTimeOf(g), p);
    SetSumPick(h.Keys, KernelTimeOf(h), p);
    SetSumSame(h.Keys - {p}, KernelTimeOf(g), KernelTimeOf(h));
  }

  /**
   Kernels are replaced, not merged: a pass loses exactly the kernel time of the parents of
   the removed events. So kernel time is conserved if and only if that sum is zero.
   */
  lemma {:induction false} CollapseLosesKernelTime<N>(f: Forest<N>, order: seq<N>, rank: N -> int)
    requires WellLinked(f) && Ranked(f, rank) && Distinct(order)
    ensures SetSum(Collapse(f, order).Keys, KernelTimeOf(Collapse(f, order)))
         == SetSum(f.Keys, KernelTimeOf(f)) - SetSum(Removed(f, order), ParentKernelTimeOf(f))
  {
    if order == [] {
      assert Removed(f, order) == {};
    } else {
      var pre, x := order[..|order|-1], order[|order|-1];
      assert order == pre + [x];
      CollapseRemoves(f, pre, rank);
      CollapseLosesKernelTime(f, pre, rank);
      RemovedNext(f, pre, x);
      var g := Collapse(f, pre);
      assert x !in pre;
      if x in g && Dup(g, x) {
        assert SameTests(f, g, x);
        LiftKernelTime(g, x, rank);
        var s := CollapseTakes(f, pre, rank, g[x].parent.value);
        var t := CollapseTakes(f, pre, rank, x);
        LiftTakesFrom(f, g, x, rank, s, t);
        assert LinkOk(f, s) && f[x].parent == Some(s);
        SetSumAdd(Removed(f, pre), ParentKernelTimeOf(f), x);
      } else {
        if x in g { assert SameTests(f, g, x); }
      }
    }
  }

  /** The smallest loss: a parent with a kernel of its own and one same-named child. */
  lemma KernelTimeLossExample()
    ensures var k := Kernel("k", 0, 5);
      var f: Forest<nat> := map[0 := Node("op", [k], None, [1]), 1 := Node("op", [], Some(0), [])];
      && WellLinked(f) && Dup(f, 1)
      && Collapse(f, [0, 1]) == map[0 := Node("op", [], None, [])]
  {
    var k := Kernel("k", 0, 5);
    var f: Forest<nat> := map[0 := Node("op", [k], None, [1]), 1 := Node("op", [], Some(0), [])];
    assert [0, 1][..1] == [0] && [0][..0] == [];
    assert Collapse(f, []) == f;
    assert Collapse(f, [0]) == f;
  }
}
