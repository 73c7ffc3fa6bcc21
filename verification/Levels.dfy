/** Execution levels of a "section builds on section" graph: the memoised depth-first walk of
    src/core/builds_on.py, with its cycle cut and its depth cap. */
module Levels {

  type Label = string

  /** Each label's dependencies, in the order in which the walk iterates over them.  The source
      iterates over a set, so every statement below holds for every such order. */
  type Graph = map<Label, seq<Label>>

  const MAX_DEPTH := 3

  // ---------- Graphs ----------

  /** Dependencies are labels of the plan, and a label never depends on itself. */
  ghost predicate WellFormed(g: Graph) {
    forall u, k :: u in g && 0 <= k < |g[u]| ==> g[u][k] in g && g[u][k] != u
  }

  ghost predicate IsPath(g: Graph, p: seq<Label>) {
    && p != []
    && (forall i :: 0 <= i < |p| ==> p[i] in g)
    && (forall i :: 0 <= i < |p| - 1 ==> p[i + 1] in g[p[i]])
  }

  ghost predicate Connects(g: Graph, p: seq<Label>, a: Label, b: Label) {
    IsPath(g, p) && p[0] == a && p[|p| - 1] == b
  }

  ghost predicate Reaches(g: Graph, a: Label, b: Label) {
    exists p :: Connects(g, p, a, b)
  }

  ghost predicate IsCycle(g: Graph, p: seq<Label>) {
    IsPath(g, p) && |p| >= 2 && p[0] == p[|p| - 1]
  }

  ghost predicate OnCycle(g: Graph, u: Label) {
    exists p :: IsCycle(g, p) && u in p
  }

  /** Two different labels on one common closed walk. */
  ghost predicate Entangled(g: Graph, a: Label, b: Label) {
    a != b && Reaches(g, a, b) && Reaches(g, b, a)
  }

  ghost predicate Acyclic(g: Graph) {
    forall p :: !IsCycle(g, p)
  }

  lemma ReachesTransitive(g: Graph, a: Label, b: Label, c: Label)
    requires Reaches(g, a, b) && Reaches(g, b, c)
    ensures Reaches(g, a, c)
  {
    var p :| Connects(g, p, a, b);
    var q :| Connects(g, q, b, c);
    var r := p + q[1..];
    forall i | 0 <= i < |r| - 1
      ensures r[i + 1] in g[r[i]]
    {
      if i >= |p| - 1 {
        assert r[i] == q[i - |p| + 1] && r[i + 1] == q[i - |p| + 2];
      }
    }
    assert Connects(g, r, a, c);
  }

  lemma SliceConnects(g: Graph, p: seq<Label>, i: nat, j: nat)
    requires IsPath(g, p) && i <= j < |p|
    ensures Reaches(g, p[i], p[j])
  {
    assert Connects(g, p[i..j + 1], p[i], p[j]);
  }

  lemma EntangledOnCycle(g: Graph, a: Label, b: Label)
    requires Entangled(g, a, b)
    ensures OnCycle(g, a) && OnCycle(g, b)
  {
    var p :| Connects(g, p, a, b);
    var q :| Connects(g, q, b, a);
    var r := p + q[1..];
    forall i | 0 <= i < |r| - 1
      ensures r[i + 1] in g[r[i]]
    {
      if i >= |p| - 1 {
        assert r[i] == q[i - |p| + 1] && r[i + 1] == q[i - |p| + 2];
      }
    }
    assert IsCycle(g, r) && r[0] == a && r[|p| - 1] == b;
  }

  // ---------- The walk ----------

  /** What the recursive closure mutates. */
  datatype Walk = Walk(levels: map<Label, nat>, resolving: set<Label>, cyclic: set<Label>)

  /** Labels neither memoised nor being resolved: the measure that makes the recursion end. */
  function Unseen(g: Graph, w: Walk): set<Label> {
    g.Keys - w.levels.Keys - w.resolving
  }

  function Max(a: nat, b: nat): nat {
    if a < b then b else a
  }

  /** level_of(u) */
  function Visit(g: Graph, w: Walk, u: Label): (r: (Walk, nat))
    requires WellFormed(g) && u in g
    ensures r.0.resolving == w.resolving && w.levels.Keys <= r.0.levels.Keys <= w.levels.Keys + g.Keys
    decreases Unseen(g, w), 0
  {
    if u in w.levels then (w, w.levels[u])
    else if u in w.resolving then (w.(cyclic := w.cyclic + {u}), 0)
    else
      var entered := w.(resolving := w.resolving + {u});
      assert u in Unseen(g, w) && u !in Unseen(g, entered);
      Leave(VisitDeps(g, entered, u, 0, 0), u)
  }

  /** The loop over deps[u], from its k-th element on. */
  function VisitDeps(g: Graph, w: Walk, u: Label, k: nat, depth: nat): (r: (Walk, nat))
    requires WellFormed(g) && u in g && k <= |g[u]|
    ensures r.0.resolving == w.resolving && w.levels.Keys <= r.0.levels.Keys <= w.levels.Keys + g.Keys
    decreases Unseen(g, w), |g[u]| - k + 1
  {
    if k == |g[u]| then (w, depth)
    else
      var (w', l) := Visit(g, w, g[u][k]);
      assert Unseen(g, w') <= Unseen(g, w);
      VisitDeps(g, w', u, k + 1, Max(depth, l + 1))
  }

  /** u is memoised at the depth found, and is no longer being resolved. */
  function Leave(r: (Walk, nat), u: Label): (Walk, nat) {
    (Walk(r.0.levels[u := r.1], r.0.resolving - {u}, r.0.cyclic), r.1)
  }

  const START := Walk(map[], {}, {})

  /** The outer loop over the plan's labels, from the i-th on. */
  function VisitRoots(g: Graph, w: Walk, roots: seq<Label>, i: nat): (r: Walk)
    requires WellFormed(g) && i <= |roots| && forall k :: 0 <= k < |roots| ==> roots[k] in g
    ensures r.resolving == w.resolving && w.levels.Keys <= r.levels.Keys <= w.levels.Keys + g.Keys
    ensures w.resolving == {} ==> forall k :: i <= k < |roots| ==> roots[k] in r.levels
    decreases |roots| - i
  {
    if i == |roots| then w else VisitRoots(g, Visit(g, w, roots[i]).0, roots, i + 1)
  }

  lemma VisitStep(g: Graph, w: Walk, u: Label)
    requires WellFormed(g) && u in g
    ensures Visit(g, w, u) ==
            if u in w.levels then (w, w.levels[u])
            else if u in w.resolving then (w.(cyclic := w.cyclic + {u}), 0)
            else Leave(VisitDeps(g, w.(resolving := w.resolving + {u}), u, 0, 0), u)
  {
  }

  lemma VisitDepsStep(g: Graph, w: Walk, u: Label, k: nat, depth: nat)
    requires WellFormed(g) && u in g && k <= |g[u]|
    ensures VisitDeps(g, w, u, k, depth) ==
            if k == |g[u]| then (w, depth)
            else VisitDeps(g, Visit(g, w, g[u][k]).0, u, k + 1, Max(depth, Visit(g, w, g[u][k]).1 + 1))
  {
  }

  lemma UnseenShrinks(g: Graph, w: Walk, w': Walk)
    requires w.resolving == w'.resolving && w.levels.Keys <= w'.levels.Keys
    ensures Unseen(g, w') <= Unseen(g, w)
  {
  }

  lemma VisitShrinksUnseen(g: Graph, w: Walk, u: Label)
    requires WellFormed(g) && u in g
    ensures Unseen(g, Visit(g, w, u).0) <= Unseen(g, w)
  {
    hide Visit, WellFormed;
    UnseenShrinks(g, w, Visit(g, w, u).0);
  }

  lemma EnterShrinksUnseen(g: Graph, w: Walk, u: Label)
    requires u in g && u !in w.levels && u !in w.resolving
    ensures Unseen(g, w.(resolving := w.resolving + {u})) < Unseen(g, w)
  {
    assert u in Unseen(g, w);
  }

  // ---------- What every step of the walk keeps ----------

  /** The dependency v of u was dealt with: lower, or flagged as closing a cycle. */
  ghost predicate Below(w: Walk, v: Label, depth: nat) {
    || (v in w.levels && w.levels[v] < depth)
    || (v in w.cyclic && (v in w.levels || v in w.resolving) && 1 <= depth)
  }

  /** The dependency v is a reason for depth. */
  ghost predicate Attains(w: Walk, v: Label, depth: nat) {
    || (v in w.levels && w.levels[v] + 1 == depth)
    || (v in w.cyclic && depth == 1)
  }

  ghost predicate IsStack(g: Graph, path: seq<Label>, resolving: set<Label>) {
    && (path != [] ==> IsPath(g, path))
    && (forall u :: u in resolving <==> u in path)
    && (forall i, j :: 0 <= i < j < |path| ==> path[i] != path[j])
  }

  ghost predicate Settled(g: Graph, w: Walk) {
    forall u, v :: u in w.levels && u in g && v in g[u] ==> Below(w, v, w.levels[u])
  }

  ghost predicate Attained(g: Graph, w: Walk) {
    forall u :: u in w.levels && u in g && w.levels[u] > 0 ==> exists v :: v in g[u] && Attains(w, v, w.levels[u])
  }

  /** c was flagged from deeper on the stack, or from a label that has finished since. */
  ghost predicate FlaggedFrom(g: Graph, path: seq<Label>, w: Walk, c: Label) {
    exists x :: Entangled(g, c, x)
        && (x in w.levels || exists i, j :: 0 <= i < j < |path| && path[i] == c && path[j] == x)
  }

  /** A finished, unflagged label shares a cycle with c. */
  ghost predicate HasUncutPeer(g: Graph, w: Walk, c: Label) {
    exists x :: Entangled(g, c, x) && x in w.levels && x !in w.cyclic
  }

  ghost predicate FlagsSound(g: Graph, path: seq<Label>, w: Walk) {
    forall c :: c in w.cyclic ==>
      && (c in w.levels || c in w.resolving)
      && (c in w.levels ==> HasUncutPeer(g, w, c))
      && (c in w.resolving ==> FlaggedFrom(g, path, w, c))
  }

  ghost predicate Inv(g: Graph, path: seq<Label>, w: Walk) {
    && IsStack(g, path, w.resolving)
    && w.levels.Keys <= g.Keys
    && w.levels.Keys !! w.resolving
    && Settled(g, w)
    && Attained(g, w)
    && FlagsSound(g, path, w)
  }

  /** Nothing decided is revised, and a label is flagged only while it is being resolved. */
  ghost predicate Grows(w: Walk, w': Walk) {
    && w.resolving == w'.resolving
    && w.levels.Keys <= w'.levels.Keys
    && (forall u :: u in w.levels ==> w'.levels[u] == w.levels[u])
    && w.cyclic <= w'.cyclic
    && (forall u :: u in w.levels && u in w'.cyclic ==> u in w.cyclic)
  }

  lemma FlagKeepsInv(g: Graph, path: seq<Label>, w: Walk, u: Label)
    requires WellFormed(g) && Inv(g, path, w) && u in w.resolving
    requires path != [] && u in g[path[|path| - 1]]
    ensures Inv(g, path, w.(cyclic := w.cyclic + {u}))
  {
    var w' := w.(cyclic := w.cyclic + {u});
    var k :| 0 <= k < |path| && path[k] == u;
    var last := path[|path| - 1];
    SliceConnects(g, path, k, |path| - 1);
    assert Connects(g, [last, u], last, u);
    assert Entangled(g, u, last);
    forall c | c in w'.cyclic
      ensures c in w'.levels ==> HasUncutPeer(g, w', c)
      ensures c in w'.resolving ==> FlaggedFrom(g, path, w', c)
    {
      if c == u {
        assert 0 <= k < |path| - 1 && path[k] == c && path[|path| - 1] == last;
      } else if c in w.levels {
        var x :| Entangled(g, c, x) && x in w.levels && x !in w.cyclic;
        assert x !in w'.cyclic;
      } else {
        assert FlaggedFrom(g, path, w, c);
      }
    }
    assert Settled(g, w') by {
      forall a, b | a in w'.levels && a in g && b in g[a] ensures Below(w', b, w'.levels[a]) {
        assert Below(w, b, w.levels[a]);
      }
    }
    assert Attained(g, w') by {
      forall a | a in w'.levels && a in g && w'.levels[a] > 0
        ensures exists v :: v in g[a] && Attains(w', v, w'.levels[a])
      {
        var v :| v in g[a] && Attains(w, v, w.levels[a]);
        assert Attains(w', v, w'.levels[a]);
      }
    }
  }

  lemma EnterKeepsInv(g: Graph, path: seq<Label>, w: Walk, u: Label)
    requires WellFormed(g) && Inv(g, path, w) && u in g && u !in w.levels && u !in w.resolving
    requires path == [] || u in g[path[|path| - 1]]
    ensures Inv(g, path + [u], w.(resolving := w.resolving + {u}))
  {
    var w', path' := w.(resolving := w.resolving + {u}), path + [u];
    assert IsStack(g, path', w'.resolving);
    forall c | c in w'.cyclic
      ensures c in w'.levels || c in w'.resolving
      ensures c in w'.levels ==> HasUncutPeer(g, w', c)
      ensures c in w'.resolving ==> FlaggedFrom(g, path', w', c)
    {
      assert c in w.levels || c in w.resolving;
      if c in w.levels {
        assert HasUncutPeer(g, w, c);
      } else {
        var x :| Entangled(g, c, x)
            && (x in w.levels || exists i, j :: 0 <= i < j < |path| && path[i] == c && path[j] == x);
        if x !in w.levels {
          var i, j :| 0 <= i < j < |path| && path[i] == c && path[j] == x;
          assert path'[i] == c && path'[j] == x;
        }
      }
    }
    assert Settled(g, w') by {
      forall a, b | a in w'.levels && a in g && b in g[a] ensures Below(w', b, w'.levels[a]) {
        assert Below(w, b, w.levels[a]);
      }
    }
    assert Attained(g, w') by {
      forall a | a in w'.levels && a in g && w'.levels[a] > 0
        ensures exists v :: v in g[a] && Attains(w', v, w'.levels[a])
      {
        var v :| v in g[a] && Attains(w, v, w.levels[a]);
        assert Attains(w', v, w'.levels[a]);
      }
    }
  }

  lemma LeaveKeepsInv(g: Graph, path: seq<Label>, w: Walk, u: Label, depth: nat)
    requires WellFormed(g) && Inv(g, path + [u], w) && u in g
    requires forall v :: v in g[u] ==> Below(w, v, depth)
    requires depth == 0 || exists v :: v in g[u] && Attains(w, v, depth)
    ensures Inv(g, path, Walk(w.levels[u := depth], w.resolving - {u}, w.cyclic))
  {
    var w', path' := Walk(w.levels[u := depth], w.resolving - {u}, w.cyclic), path + [u];
    assert path'[|path|] == u;
    assert u in w.resolving;
    assert IsStack(g, path, w'.resolving) by {
      forall x ensures x in w'.resolving <==> x in path {
        if x in path { var i :| 0 <= i < |path| && path[i] == x; assert path'[i] == x; assert x in path'; }
      }
      if path != [] {
        forall i | 0 <= i < |path| ensures path[i] in g { assert path'[i] in g; }
        forall i | 0 <= i < |path| - 1 ensures path[i + 1] in g[path[i]] { assert path'[i + 1] in g[path'[i]]; }
      }
      forall i, j | 0 <= i < j < |path| ensures path[i] != path[j] { assert path'[i] != path'[j]; }
    }
    forall c | c in w'.cyclic
      ensures c in w'.levels || c in w'.resolving
      ensures c in w'.levels ==> HasUncutPeer(g, w', c)
      ensures c in w'.resolving ==> FlaggedFrom(g, path, w', c)
    {
      LeaveKeepsFlag(g, path, w, u, depth, c);
    }
    assert Settled(g, w') by {
      forall a, b | a in w'.levels && a in g && b in g[a] ensures Below(w', b, w'.levels[a]) {
        if a != u { assert Below(w, b, w.levels[a]); } else { assert Below(w, b, depth); }
      }
    }
    assert Attained(g, w') by {
      forall a | a in w'.levels && a in g && w'.levels[a] > 0
        ensures exists v :: v in g[a] && Attains(w', v, w'.levels[a])
      {
        if a != u {
          var v :| v in g[a] && Attains(w, v, w.levels[a]);
          assert Attains(w', v, w'.levels[a]);
        } else {
          var v :| v in g[u] && Attains(w, v, depth);
          assert Attains(w', v, depth);
        }
      }
    }
  }

  lemma LeaveKeepsFlag(g: Graph, path: seq<Label>, w: Walk, u: Label, depth: nat, c: Label)
    requires WellFormed(g) && Inv(g, path + [u], w) && u in g && c in w.cyclic
    ensures
      var w' := Walk(w.levels[u := depth], w.resolving - {u}, w.cyclic);
      && (c in w'.levels || c in w'.resolving)
      && (c in w'.levels ==> HasUncutPeer(g, w', c))
      && (c in w'.resolving ==> FlaggedFrom(g, path, w', c))
  {
    var w', path' := Walk(w.levels[u := depth], w.resolving - {u}, w.cyclic), path + [u];
    assert path'[|path|] == u;
    assert u in path' && u in w.resolving;
    if c in w.levels {
      var x :| Entangled(g, c, x) && x in w.levels && x !in w.cyclic;
      assert x in w'.levels && x !in w'.cyclic;
    } else {
      var x :| Entangled(g, c, x)
          && (x in w.levels || exists i, j :: 0 <= i < j < |path'| && path'[i] == c && path'[j] == x);
      if c == u {
        // u is on top of the stack, so the label that flagged it has finished.
        assert x in w.levels;
        if x in w.cyclic {
          var y :| Entangled(g, x, y) && y in w.levels && y !in w.cyclic;
          ReachesTransitive(g, c, x, y);
          ReachesTransitive(g, y, x, c);
          assert Entangled(g, c, y) && y in w'.levels && y !in w'.cyclic;
        } else {
          assert x in w'.levels && x !in w'.cyclic;
        }
        assert HasUncutPeer(g, w', c);
      } else {
        if x in w.levels || x == u {
          assert x in w'.levels;
        } else {
          var i, j :| 0 <= i < j < |path'| && path'[i] == c && path'[j] == x;
          assert j < |path| && path[i] == c && path[j] == x;
        }
        assert FlaggedFrom(g, path, w', c);
      }
    }
  }

  lemma {:induction false} VisitKeepsInv(g: Graph, path: seq<Label>, w: Walk, u: Label)
    requires WellFormed(g) && Inv(g, path, w) && u in g
    requires path == [] || u in g[path[|path| - 1]]
    ensures Accounted(g, path, w, u, Visit(g, w, u).0, Visit(g, w, u).1)
    decreases Unseen(g, w), 0
  {
    if u in w.levels {
    } else if u in w.resolving {
      FlagKeepsInv(g, path, w, u);
    } else {
      var entered := w.(resolving := w.resolving + {u});
      EnterShrinksUnseen(g, w, u);
      EnterKeepsInv(g, path, w, u);
      VisitDepsKeepsInv(g, path + [u], entered, u, 0, 0);
      var (w', depth) := VisitDeps(g, entered, u, 0, 0);
      assert forall v :: v in g[u] ==> Below(w', v, depth);
      LeaveKeepsInv(g, path, w', u, depth);
      assert w'.resolving - {u} == w.resolving;
    }
  }

  /** What one visit promises: u is memoised at level l, or was flagged. */
  ghost predicate Accounted(g: Graph, path: seq<Label>, w: Walk, u: Label, w': Walk, l: nat) {
    && Inv(g, path, w')
    && Grows(w, w')
    && ((u in w'.levels && w'.levels[u] == l) || (u in w'.cyclic && u in w'.resolving && l == 0))
  }

  ghost predicate DepsAccounted(g: Graph, path: seq<Label>, w: Walk, ds: seq<Label>, k: nat, depth: nat, w': Walk,
      depth': nat) {
    && Inv(g, path, w')
    && Grows(w, w')
    && depth <= depth'
    && (forall j :: k <= j < |ds| ==> Below(w', ds[j], depth'))
    && (depth' == depth || exists j :: k <= j < |ds| && Attains(w', ds[j], depth'))
  }

  lemma {:induction false} VisitDepsKeepsInv(g: Graph, path: seq<Label>, w: Walk, u: Label, k: nat, depth: nat)
    requires WellFormed(g) && Inv(g, path, w) && path != [] && path[|path| - 1] == u && u in g && k <= |g[u]|
    ensures DepsAccounted(g, path, w, g[u], k, depth, VisitDeps(g, w, u, k, depth).0, VisitDeps(g, w, u, k, depth).1)
    decreases Unseen(g, w), |g[u]| - k + 1
  {
    hide Inv, Visit, VisitDeps, Unseen;
    VisitDepsStep(g, w, u, k, depth);
    if k < |g[u]| {
      VisitKeepsInv(g, path, w, g[u][k]);
      VisitShrinksUnseen(g, w, g[u][k]);
      var r := Visit(g, w, g[u][k]);
      var next := Max(depth, r.1 + 1);
      VisitDepsKeepsInv(g, path, r.0, u, k + 1, next);
      var r' := VisitDeps(g, r.0, u, k + 1, next);
      HeadIsAccounted(g, path, w, r.0, r'.0, g[u], k, depth, r.1, r'.1);
    }
  }

  lemma HeadIsAccounted(g: Graph, path: seq<Label>, w: Walk, w1: Walk, w': Walk, ds: seq<Label>, k: nat, depth: nat,
      l: nat, depth': nat)
    requires k < |ds| && Accounted(g, path, w, ds[k], w1, l)
    requires DepsAccounted(g, path, w1, ds, k + 1, Max(depth, l + 1), w', depth')
    ensures DepsAccounted(g, path, w, ds, k, depth, w', depth')
  {
    hide Inv;
    assert Below(w', ds[k], depth');
    if depth' == l + 1 && depth' != depth {
      assert Attains(w', ds[k], depth');
    }
  }

  lemma {:induction false} VisitRootsKeepsInv(g: Graph, w: Walk, roots: seq<Label>, i: nat)
    requires WellFormed(g) && Inv(g, [], w) && i <= |roots| && forall k :: 0 <= k < |roots| ==> roots[k] in g
    ensures Inv(g, [], VisitRoots(g, w, roots, i))
    decreases |roots| - i
  {
    if i < |roots| {
      VisitKeepsInv(g, [], w, roots[i]);
      VisitRootsKeepsInv(g, Visit(g, w, roots[i]).0, roots, i + 1);
    }
  }

  // ---------- The result ----------

  /** levels after the cut and the cap, the labels named in a cycle warning, and those named in a
      depth warning. */
  datatype Assignment = Assignment(levels: map<Label, nat>, cut: set<Label>, demoted: set<Label>)

  function CutCycles(w: Walk): map<Label, nat> {
    map u | u in w.levels :: if u in w.cyclic then 0 else w.levels[u]
  }

  function Over(levels: map<Label, nat>): set<Label> {
    set u | u in levels && levels[u] > MAX_DEPTH - 1
  }

  function Cap(levels: map<Label, nat>): map<Label, nat> {
    map u | u in levels :: if levels[u] > MAX_DEPTH - 1 then MAX_DEPTH - 1 else levels[u]
  }

  ghost predicate Covers(g: Graph, labels: seq<Label>) {
    WellFormed(g) && forall u :: u in labels <==> u in g
  }

  /** The walk's own answer, before the cut and the cap. */
  function Walked(g: Graph, labels: seq<Label>): (w: Walk)
    requires Covers(g, labels)
    ensures w.levels.Keys == g.Keys
  {
    VisitRoots(g, START, labels, 0)
  }

  function Assign(g: Graph, labels: seq<Label>): (a: Assignment)
    requires Covers(g, labels)
    ensures a.levels.Keys == g.Keys
  {
    var w := Walked(g, labels);
    var cut := CutCycles(w);
    Assignment(Cap(cut), w.cyclic, Over(cut))
  }

  lemma WalkedInv(g: Graph, labels: seq<Label>)
    requires Covers(g, labels)
    ensures Inv(g, [], Walked(g, labels))
  {
    assert Inv(g, [], START);
    VisitRootsKeepsInv(g, START, labels, 0);
  }

  /** Every edge "u builds on v" ends with v strictly lower, unless u is named in a warning; and a
      label that was not cut is never below what it builds on. */
  lemma EdgesAreOrdered(g: Graph, labels: seq<Label>, u: Label, v: Label)
    requires Covers(g, labels) && u in g && v in g[u]
    ensures v in g
    ensures var a := Assign(g, labels);
      && (a.levels[v] < a.levels[u] || u in a.cut || u in a.demoted)
      && (u !in a.cut ==> a.levels[v] <= a.levels[u])
  {
    WalkedInv(g, labels);
    var w := Walked(g, labels);
    assert Below(w, v, w.levels[u]);
  }

  /** Cut labels stand at level 0 and are not demoted; all others keep the depth the walk found, up to 2, and
      those that were deeper are the demoted ones. */
  lemma FinalLevelIs(g: Graph, labels: seq<Label>, u: Label)
    requires Covers(g, labels) && u in g
    ensures var w, a := Walked(g, labels), Assign(g, labels);
      && (u in a.cut <==> u in w.cyclic)
      && a.levels[u] == (if u in a.cut then 0 else if w.levels[u] <= 2 then w.levels[u] else 2)
      && (u in a.demoted <==> u !in a.cut && w.levels[u] > 2)
  {
    hide Walked;
  }

  /** Without flags, levels fall along every edge, so a path is no longer than its first level. */
  lemma {:induction false} LevelBoundsPath(g: Graph, w: Walk, p: seq<Label>)
    requires Inv(g, [], w) && w.levels.Keys == g.Keys && IsPath(g, p)
    requires forall i :: 0 <= i < |p| ==> p[i] !in w.cyclic
    ensures w.levels[p[|p| - 1]] + |p| - 1 <= w.levels[p[0]]
    decreases |p|
  {
    if |p| > 1 {
      assert p[1] in g[p[0]];
      assert Below(w, p[1], w.levels[p[0]]);
      var q := p[1..];
      forall i | 0 <= i < |q| - 1 ensures q[i + 1] in g[q[i]] { assert q[i] == p[i + 1] && q[i + 1] == p[i + 2]; }
      LevelBoundsPath(g, w, q);
    }
  }

  /** The cut is exact: only labels on real cycles are flagged, no cycle escapes, and hence a
      cycle warning is produced exactly when the plan has a cycle. */
  lemma CutIsExact(g: Graph, labels: seq<Label>)
    requires Covers(g, labels)
    ensures forall c :: c in Assign(g, labels).cut ==> OnCycle(g, c)
    ensures forall p :: IsCycle(g, p) ==> Hits(p, Assign(g, labels).cut)
    ensures Assign(g, labels).cut == {} <==> Acyclic(g)
  {
    var cut := Assign(g, labels).cut;
    forall c | c in cut ensures OnCycle(g, c) {
      FlaggedIsOnCycle(g, labels, c);
    }
    forall p | IsCycle(g, p) ensures Hits(p, cut) {
      CycleIsHit(g, labels, p);
    }
    if cut != {} {
      var c :| c in cut;
      assert OnCycle(g, c);
    }
  }

  ghost predicate Hits(p: seq<Label>, cut: set<Label>) {
    exists i :: 0 <= i < |p| && p[i] in cut
  }

  lemma FlaggedIsOnCycle(g: Graph, labels: seq<Label>, c: Label)
    requires Covers(g, labels) && c in Assign(g, labels).cut
    ensures OnCycle(g, c)
  {
    CutLeavesAnUncutLabelInItsComponent(g, labels, c);
    var x :| Entangled(g, c, x) && x in g && x !in Assign(g, labels).cut;
    EntangledOnCycle(g, c, x);
  }

  lemma CutIsInPlan(g: Graph, labels: seq<Label>)
    requires Covers(g, labels)
    ensures Walked(g, labels).cyclic <= Walked(g, labels).levels.Keys
  {
    WalkedInv(g, labels);
  }

  lemma CycleIsHit(g: Graph, labels: seq<Label>, p: seq<Label>)
    requires Covers(g, labels) && IsCycle(g, p)
    ensures Hits(p, Assign(g, labels).cut)
  {
    WalkedInv(g, labels);
    if !Hits(p, Walked(g, labels).cyclic) {
      LevelBoundsPath(g, Walked(g, labels), p);
    }
  }

  /** The documentation promises that every section on a cycle is cut.  The code leaves a label uncut
      in every group of mutually dependent labels of which it cuts one.  A cycle inside such a group
      may still be cut as a whole (SmallCycleCanBeCutWhole). */
  lemma CutLeavesAnUncutLabelInItsComponent(g: Graph, labels: seq<Label>, c: Label)
    requires Covers(g, labels) && c in Assign(g, labels).cut
    ensures exists x :: Entangled(g, c, x) && x in g && x !in Assign(g, labels).cut
  {
    WalkedInv(g, labels);
    var w := Walked(g, labels);
    var x :| Entangled(g, c, x) && x in w.levels && x !in w.cyclic;
    assert x in g;
  }

  /** So the documented promise is kept exactly by the plans that have no cycle. */
  lemma WholeCyclesAreCutIffAcyclic(g: Graph, labels: seq<Label>)
    requires Covers(g, labels)
    ensures (forall u :: OnCycle(g, u) ==> u in Assign(g, labels).cut) <==> Acyclic(g)
  {
    CutIsExact(g, labels);
    if !Acyclic(g) {
      var c :| c in Assign(g, labels).cut;
      CutLeavesAnUncutLabelInItsComponent(g, labels, c);
      var x :| Entangled(g, c, x) && x in g && x !in Assign(g, labels).cut;
      EntangledOnCycle(g, c, x);
    }
  }

  /** Two sections that build on each other: only the one visited first is cut, so the documented cut
      of all participants fails on the smallest cycle there is. */
  lemma TwoSectionCycleIsCutOnce(a: Label, b: Label)
    requires a != b
    ensures var g := map[a := [b], b := [a]];
      && Covers(g, [a, b]) && OnCycle(g, a) && OnCycle(g, b)
      && Assign(g, [a, b]) == Assignment(map[a := 0, b := 1], {a}, {})
  {
    var g := map[a := [b], b := [a]];
    assert IsCycle(g, [a, b, a]) && a in [a, b, a] && b in [a, b, a];
    hide Visit, VisitDeps, VisitRoots, Walked, IsCycle, OnCycle;
    assert {} + {a} == {a} && {a} + {b} == {a, b} && {a, b} - {b} == {a} && {a} - {a} == {};
    VisitStep(g, Walk(map[], {a, b}, {}), a);
    OneDependency(g, Walk(map[], {a, b}, {}), b, a);
    VisitStep(g, Walk(map[], {a}, {}), b);
    OneDependency(g, Walk(map[], {a}, {}), a, b);
    VisitStep(g, START, a);
    var done := Walk(map[b := 1, a := 2], {}, {a});
    VisitStep(g, done, b);
    TwoRoots(g, START, a, b);
    WalkedIs(g, [a, b]);
    assert Over(CutCycles(done)) == {};
  }

  /** a and b build on each other, and so do b and c. */
  function Linked(a: Label, b: Label, c: Label): (g: Graph)
    requires a != b && b != c && a != c
    ensures Covers(g, [a, b, c])
  {
    map[a := [b], b := [a, c], c := [b]]
  }

  lemma LinkedAtC(a: Label, b: Label, c: Label)
    requires a != b && b != c && a != c
    ensures Visit(Linked(a, b, c), Walk(map[], {a, b}, {a}), c) == (Walk(map[c := 1], {a, b}, {a, b}), 1)
  {
    hide Visit, VisitDeps, Covers;
    var g, atC := Linked(a, b, c), Walk(map[], {a, b, c}, {a});
    assert {a, b} + {c} == {a, b, c} && {a, b, c} - {c} == {a, b} && {a} + {b} == {a, b};
    VisitStep(g, atC, b);
    OneDependency(g, atC, c, b);
    VisitStep(g, Walk(map[], {a, b}, {a}), c);
  }

  lemma LinkedAtB(a: Label, b: Label, c: Label)
    requires a != b && b != c && a != c
    ensures Visit(Linked(a, b, c), Walk(map[], {a}, {}), b) == (Walk(map[c := 1, b := 2], {a}, {a, b}), 2)
  {
    hide Visit, VisitDeps, Covers;
    var g, both := Linked(a, b, c), Walk(map[], {a, b}, {});
    assert {a} + {b} == {a, b} && {a, b} - {b} == {a} && {} + {a} == {a};
    VisitStep(g, both, a);
    LinkedAtC(a, b, c);
    VisitDepsStep(g, both, b, 0, 0);
    VisitDepsStep(g, Walk(map[], {a, b}, {a}), b, 1, 1);
    VisitDepsStep(g, Walk(map[c := 1], {a, b}, {a, b}), b, 2, 2);
    VisitStep(g, Walk(map[], {a}, {}), b);
  }

  lemma LinkedAtA(a: Label, b: Label, c: Label)
    requires a != b && b != c && a != c
    ensures Visit(Linked(a, b, c), START, a).0 == Walk(map[c := 1, b := 2, a := 3], {}, {a, b})
  {
    hide Visit, VisitDeps, Covers;
    var g := Linked(a, b, c);
    assert {} + {a} == {a} && {a} - {a} == {};
    LinkedAtB(a, b, c);
    OneDependency(g, Walk(map[], {a}, {}), a, b);
    VisitStep(g, START, a);
  }

  /** There, visited from a, both a and b are cut: the cycle between them is cut as a whole, and only c
      stays uncut. */
  lemma SmallCycleCanBeCutWhole(a: Label, b: Label, c: Label)
    requires a != b && b != c && a != c
    ensures IsCycle(Linked(a, b, c), [a, b, a]) && Assign(Linked(a, b, c), [a, b, c]).cut == {a, b}
  {
    var g, roots := Linked(a, b, c), [a, b, c];
    assert IsCycle(g, [a, b, a]);
    hide Visit, VisitDeps, VisitRoots, Walked, IsCycle, Covers;
    LinkedAtA(a, b, c);
    var done := Walk(map[c := 1, b := 2, a := 3], {}, {a, b});
    VisitStep(g, done, b);
    VisitStep(g, done, c);
    hide Linked;
    RootsStep(g, START, roots, 0);
    RootsStep(g, done, roots, 1);
    RootsStep(g, done, roots, 2);
    RootsStep(g, done, roots, 3);
    WalkedIs(g, roots);
    AssignIs(g, roots);
  }

  lemma WalkedIs(g: Graph, labels: seq<Label>)
    requires Covers(g, labels)
    ensures Walked(g, labels) == VisitRoots(g, START, labels, 0)
  {
  }

  lemma OneDependency(g: Graph, w: Walk, u: Label, v: Label)
    requires WellFormed(g) && u in g && g[u] == [v] && v in g
    ensures var (w', l) := Visit(g, w, v); VisitDeps(g, w, u, 0, 0) == (w', l + 1)
  {
    VisitDepsStep(g, w, u, 0, 0);
    var (w', l) := Visit(g, w, v);
    VisitDepsStep(g, w', u, 1, l + 1);
    hide Visit;
  }

  lemma TwoRoots(g: Graph, w: Walk, a: Label, b: Label)
    requires WellFormed(g) && a in g && b in g
    ensures VisitRoots(g, w, [a, b], 0) == Visit(g, Visit(g, w, a).0, b).0
  {
    hide Visit;
    RootsStep(g, w, [a, b], 0);
    RootsStep(g, Visit(g, w, a).0, [a, b], 1);
    RootsStep(g, Visit(g, Visit(g, w, a).0, b).0, [a, b], 2);
  }

  lemma RootsStep(g: Graph, w: Walk, roots: seq<Label>, i: nat)
    requires WellFormed(g) && i <= |roots| && forall k :: 0 <= k < |roots| ==> roots[k] in g
    ensures VisitRoots(g, w, roots, i) == if i == |roots| then w
        else VisitRoots(g, Visit(g, w, roots[i]).0, roots, i + 1)
  {
    hide Visit;
  }

  // ---------- Acyclic plans: levels are longest chains ----------

  /** n is the number of edges on a longest dependency chain that starts at u. */
  ghost predicate LongestChain(g: Graph, u: Label, n: nat) {
    && (exists p :: IsPath(g, p) && p[0] == u && |p| == n + 1)
    && (forall p :: IsPath(g, p) && p[0] == u ==> |p| <= n + 1)
  }

  lemma {:induction false} ChainOfLevel(g: Graph, w: Walk, u: Label) returns (p: seq<Label>)
    requires WellFormed(g) && Inv(g, [], w) && w.cyclic == {} && w.levels.Keys == g.Keys && u in g
    ensures IsPath(g, p) && p[0] == u && |p| == w.levels[u] + 1
    decreases w.levels[u]
  {
    if w.levels[u] == 0 {
      p := [u];
    } else {
      var v :| v in g[u] && Attains(w, v, w.levels[u]);
      var q := ChainOfLevel(g, w, v);
      p := [u] + q;
      forall i | 0 <= i < |p| - 1 ensures p[i + 1] in g[p[i]] {
        if i > 0 { assert p[i] == q[i - 1] && p[i + 1] == q[i]; }
      }
    }
  }

  /** On an acyclic plan the walk computes longest chains, and the final level is that length
      capped; exactly the labels with longer chains are demoted. */
  lemma LevelsAreLongestChains(g: Graph, labels: seq<Label>, u: Label)
    requires Covers(g, labels) && Acyclic(g) && u in g
    ensures var n, a := Walked(g, labels).levels[u], Assign(g, labels);
      && LongestChain(g, u, n)
      && a.levels[u] == (if n < 3 then n else 2)
      && (u in a.demoted <==> n >= 3)
  {
    CutIsExact(g, labels);
    WalkedInv(g, labels);
    var w := Walked(g, labels);
    var p := ChainOfLevel(g, w, u);
    forall q | IsPath(g, q) && q[0] == u ensures |q| <= w.levels[u] + 1 {
      LevelBoundsPath(g, w, q);
    }
  }

  /** Two graphs with the same edges, iterated in any two orders. */
  ghost predicate SameEdges(g: Graph, h: Graph) {
    g.Keys == h.Keys && forall u, v :: u in g ==> (v in g[u] <==> v in h[u])
  }

  /** On acyclic plans the answer depends neither on plan order nor on set iteration order. */
  lemma AssignmentIgnoresOrder(g: Graph, h: Graph, labels: seq<Label>, labels': seq<Label>)
    requires Covers(g, labels) && Covers(h, labels') && SameEdges(g, h) && Acyclic(g)
    ensures Assign(g, labels) == Assign(h, labels')
  {
    assert Acyclic(h) by {
      forall p ensures !IsCycle(h, p) { SamePaths(g, h, p); assert !IsCycle(g, p); }
    }
    CutIsExact(g, labels);
    CutIsExact(h, labels');
    var a, b := Assign(g, labels), Assign(h, labels');
    forall u | u in g
      ensures a.levels[u] == b.levels[u] && (u in a.demoted <==> u in b.demoted)
    {
      LevelsAreLongestChains(g, labels, u);
      LevelsAreLongestChains(h, labels', u);
      LongestChainIsUnique(g, h, u, Walked(g, labels).levels[u], Walked(h, labels').levels[u]);
    }
    AssignedParts(g, labels);
    AssignedParts(h, labels');
    assert a.demoted == b.demoted;
    assert a.levels == b.levels;
  }

  lemma AssignedParts(g: Graph, labels: seq<Label>)
    requires Covers(g, labels)
    ensures Assign(g, labels).demoted <= g.Keys && Assign(g, labels).levels.Keys == g.Keys
  {
  }

  lemma SamePaths(g: Graph, h: Graph, p: seq<Label>)
    requires SameEdges(g, h)
    ensures IsPath(g, p) <==> IsPath(h, p)
  {
  }

  lemma LongestChainIsUnique(g: Graph, h: Graph, u: Label, n: nat, m: nat)
    requires SameEdges(g, h) && LongestChain(g, u, n) && LongestChain(h, u, m)
    ensures n == m
  {
    var p :| IsPath(g, p) && p[0] == u && |p| == n + 1;
    var q :| IsPath(h, q) && q[0] == u && |q| == m + 1;
    SamePaths(g, h, p);
    SamePaths(g, h, q);
  }

  // ---------- The imperative walk ----------

  /** assign_levels: the dictionaries and sets the nested closure updates are the fields. */
  class LevelAssigner {
    const deps: Graph
    var levels: map<Label, nat>
    var resolving: set<Label>
    var cyclic: set<Label>

    function State(): Walk
      reads this
    {
      Walk(levels, resolving, cyclic)
    }

    constructor (deps: Graph)
      ensures this.deps == deps && State() == START
    {
      this.deps := deps;
      levels, resolving, cyclic := map[], {}, {};
    }

    /** level_of */
    method LevelOf(u: Label) returns (depth: nat)
      requires WellFormed(deps) && u in deps
      modifies this
      ensures (State(), depth) == Visit(deps, old(State()), u)
      decreases Unseen(deps, State())
    {
      hide Visit, VisitDeps, Unseen;
      VisitStep(deps, State(), u);
      if u in levels {
        return levels[u];
      }
      if u in resolving {
        cyclic := cyclic + {u};
        return 0;
      }
      ghost var before := State();
      resolving := resolving + {u};
      ghost var entered := State();
      EnterShrinksUnseen(deps, before, u);
      depth := 0;
      var i := 0;
      while i < |deps[u]|
        invariant 0 <= i <= |deps[u]|
        invariant resolving == entered.resolving && entered.levels.Keys <= levels.Keys
        invariant VisitDeps(deps, State(), u, i, depth) == VisitDeps(deps, entered, u, 0, 0)
      {
        UnseenShrinks(deps, entered, State());
        VisitDepsStep(deps, State(), u, i, depth);
        var d := LevelOf(deps[u][i]);
        depth := if depth < d + 1 then d + 1 else depth;
        i := i + 1;
      }
      VisitDepsStep(deps, State(), u, i, depth);
      resolving := resolving - {u};
      levels := levels[u := depth];
    }

    /** The body of assign_levels after the dependencies are known. */
    method Run(labels: seq<Label>) returns (a: Assignment)
      requires Covers(deps, labels) && State() == START
      modifies this
      ensures a == Assign(deps, labels) && levels == a.levels
    {
      hide Visit, VisitDeps;
      var i := 0;
      while i < |labels|
        invariant 0 <= i <= |labels|
        invariant VisitRoots(deps, State(), labels, i) == VisitRoots(deps, START, labels, 0)
      {
        var _ := LevelOf(labels[i]);
        i := i + 1;
      }
      assert State() == Walked(deps, labels);
      CutIsInPlan(deps, labels);
      ghost var walked := State();
      hide *;
      Overwrite(cyclic, 0);
      CutIsOverwrite(walked);
      var over := Over(levels);
      Overwrite(over, MAX_DEPTH - 1);
      CapIsOverwrite(CutCycles(walked));
      a := Assignment(levels, cyclic, over);
      AssignIs(deps, labels);
    }

    /** The loops "for label in ...: levels[label] = level". */
    method Overwrite(us: set<Label>, level: nat)
      requires us <= levels.Keys
      modifies `levels
      ensures levels == Overwritten(old(levels), us, level)
    {
      var todo := us;
      while todo != {}
        invariant todo <= us
        invariant levels == Overwritten(old(levels), us - todo, level)
        decreases todo
      {
        var u :| u in todo;
        levels := levels[u := level];
        todo := todo - {u};
      }
      assert us - todo == us;
    }
  }

  function Overwritten(levels: map<Label, nat>, us: set<Label>, level: nat): map<Label, nat> {
    map u | u in levels :: if u in us then level else levels[u]
  }

  lemma CutIsOverwrite(w: Walk)
    ensures CutCycles(w) == Overwritten(w.levels, w.cyclic, 0)
  {
  }

  lemma CapIsOverwrite(levels: map<Label, nat>)
    ensures Cap(levels) == Overwritten(levels, Over(levels), MAX_DEPTH - 1) && Over(levels) <= levels.Keys
  {
  }

  lemma AssignIs(g: Graph, labels: seq<Label>)
    requires Covers(g, labels)
    ensures var w := Walked(g, labels); Assign(g, labels) == Assignment(Cap(CutCycles(w)), w.cyclic, Over(CutCycles(w)))
  {
  }
}
