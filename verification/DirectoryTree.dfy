/**
 The directory part of the offline checker (docs/xv6-tutorial/resources/recovery/fsck.py):
 the breadth-first walk from the root over the named entries of all directories, and what
 a walk without diagnostics says about the graph they form, and when there is none.
 */
module DirectoryTree {

  const ROOT: nat := 1

  /** An allocated inode: is it a directory, and its link count. */
  datatype Node = Node(dir: bool, nlink: int)

  /** Entries other than "." and "..": the inode each names, per directory. */
  type Edges = map<nat, seq<nat>>

  function Names(edges: Edges, p: nat): (s: seq<nat>) {
    if p in edges then edges[p] else []
  }

  /** How many of the entries s name a directory, or name c. */
  function DirCount(nodes: map<nat, Node>, s: seq<nat>): nat {
    if s == [] then 0 else DirCount(nodes, s[..|s| - 1]) + if s[|s| - 1] in nodes && nodes[s[|s| - 1]].dir then 1 else 0
  }

  predicate Dir(nodes: map<nat, Node>, p: nat) {
    p in nodes && nodes[p].dir
  }

  /** Entry k of directory p names c. */
  predicate Edge(nodes: map<nat, Node>, edges: Edges, p: nat, k: nat, c: nat) {
    Dir(nodes, p) && k < |Names(edges, p)| && Names(edges, p)[k] == c && c in nodes
  }

  ghost predicate Link(nodes: map<nat, Node>, edges: Edges, p: nat, c: nat) {
    exists k: nat :: Edge(nodes, edges, p, k, c)
  }

  ghost predicate Path(nodes: map<nat, Node>, edges: Edges, path: seq<nat>) {
    && |path| > 0 && path[0] == ROOT
    && forall i, j :: 0 <= i < j < |path| && j == i + 1 ==> Link(nodes, edges, path[i], path[j])
  }

  ghost predicate PathTo(nodes: map<nat, Node>, edges: Edges, c: nat) {
    exists path :: Path(nodes, edges, path) && path[|path| - 1] == c
  }

  /** Everything hangs from the root, each directory but the root at exactly one place, the root nowhere. */
  ghost predicate Tree(nodes: map<nat, Node>, edges: Edges) {
    && Dir(nodes, ROOT)
    && (forall c :: c in nodes ==> PathTo(nodes, edges, c))
    && (forall p, k: nat :: !Edge(nodes, edges, p, k, ROOT))
    && forall p, k: nat, q, l: nat, c :: Edge(nodes, edges, p, k, c) && Edge(nodes, edges, q, l, c) && nodes[c].dir ==>
      p == q && k == l
  }

  lemma RootIsFirst(nodes: map<nat, Node>, edges: Edges, path: seq<nat>)
    requires Tree(nodes, edges) && Path(nodes, edges, path) && path[|path| - 1] == ROOT
    ensures path == [ROOT]
  {
    var n := |path|;
    assert n > 1 ==> Link(nodes, edges, path[n - 2], path[n - 1]);
  }

  /** So there is one way down from the root to each directory: they form one tree. */
  lemma {:induction false} OnePath(nodes: map<nat, Node>, edges: Edges, a: seq<nat>, b: seq<nat>)
    requires Tree(nodes, edges) && Path(nodes, edges, a) && Path(nodes, edges, b)
    requires a[|a| - 1] == b[|b| - 1] && Dir(nodes, a[|a| - 1])
    ensures a == b
    decreases |a|
  {
    var n, m := |a|, |b|;
    if n == 1 {
      RootIsFirst(nodes, edges, b);
    } else if m == 1 {
      RootIsFirst(nodes, edges, a);
    } else {
      assert Link(nodes, edges, a[n - 2], a[n - 1]) && Link(nodes, edges, b[m - 2], b[m - 1]);
      var k: nat :| Edge(nodes, edges, a[n - 2], k, a[n - 1]);
      var l: nat :| Edge(nodes, edges, b[m - 2], l, b[m - 1]);
      OnePath(nodes, edges, a[..n - 1], b[..m - 1]);
      assert a == a[..n - 1] + [a[n - 1]] && b == b[..m - 1] + [b[m - 1]];
    }
  }

  lemma Extend(nodes: map<nat, Node>, edges: Edges, p: nat, k: nat, c: nat)
    requires PathTo(nodes, edges, p) && Edge(nodes, edges, p, k, c)
    ensures PathTo(nodes, edges, c)
  {
    var path :| Path(nodes, edges, path) && path[|path| - 1] == p;
    var longer := path + [c];
    assert Link(nodes, edges, p, c);
    assert Path(nodes, edges, longer) && longer[|longer| - 1] == c;
  }

  lemma RootPath(nodes: map<nat, Node>, edges: Edges)
    ensures PathTo(nodes, edges, ROOT)
  {
    assert Path(nodes, edges, [ROOT]) && [ROOT][|[ROOT]| - 1] == ROOT;
  }

  // ----- the walk -----

  /** The walk's variables; ok: no diagnostic so far. */
  datatype Walk = Walk(reachable: set<nat>, parents: map<nat, nat>, incoming: map<nat, nat>, children: map<nat, nat>,
                       queue: seq<nat>, ok: bool)

  function Get(m: map<nat, nat>, x: nat): nat {
    if x in m then m[x] else 0
  }

  /** The body of the loop over a directory's entries. */
  function Visit(nodes: map<nat, Node>, w: Walk, current: nat, target: nat): (w': Walk)
    requires target in nodes
  {
    if nodes[target].dir then
      var count := Get(w.incoming, target) + 1;
      var clash := target in w.parents && w.parents[target] != current;
      var seen := target in w.reachable;
      w.(children := w.children[current := Get(w.children, current) + 1],
         incoming := w.incoming[target := count],
         parents := if clash then w.parents else w.parents[target := current],
         queue := if seen then w.queue else w.queue + [target],
         ok := w.ok && count <= 1 && !clash && !seen)
    else w.(reachable := w.reachable + {target})
  }

  /** Entry k of p has been visited: p is finished, or it is the current one and k is below i. */
  predicate Visited(done: set<nat>, current: nat, i: nat, p: nat, k: nat) {
    p in done || (p == current && k < i)
  }

  /** What has been reached, or waits in the queue, hangs from the root. */
  ghost predicate Hangs(nodes: map<nat, Node>, edges: Edges, w: Walk, done: set<nat>, current: nat) {
    && (forall p :: p in done ==> Dir(nodes, p) && p in w.reachable)
    && (forall x :: x in w.reachable ==>
        PathTo(nodes, edges, x) && x in nodes && (nodes[x].dir ==> x in done || x == current))
    && (forall x :: x in w.queue ==> PathTo(nodes, edges, x) && Dir(nodes, x))
  }

  /** via[c] is the one visited entry that names directory c. */
  ghost predicate Covered(nodes: map<nat, Node>, edges: Edges, w: Walk, done: set<nat>, via: map<nat, (nat, nat)>,
                          current: nat, i: nat)
  {
    && (forall p: nat, k: nat, c: nat :: Edge(nodes, edges, p, k, c) && Visited(done, current, i, p, k) ==>
          (c in w.reachable || c in w.queue) && (nodes[c].dir ==> c in via && via[c] == (p, k)))
    && (forall c :: c in via ==> c != ROOT && Get(w.incoming, c) >= 1 && c in w.parents && w.parents[c] == via[c].0)
  }

  ghost predicate Counted(nodes: map<nat, Node>, edges: Edges, w: Walk, done: set<nat>, current: nat) {
    && (forall p :: p in nodes && p != current && p !in done ==> Get(w.children, p) == 0)
    && (forall p :: p in done && p != current ==> Get(w.children, p) == DirCount(nodes, Names(edges, p)))
  }

  /** Directories are met through visited entries only. */
  ghost predicate Entered(nodes: map<nat, Node>, edges: Edges, w: Walk, done: set<nat>, via: map<nat, (nat, nat)>,
                          current: nat, i: nat)
  {
    && (forall c :: c in via ==>
        Edge(nodes, edges, via[c].0, via[c].1, c) && Visited(done, current, i, via[c].0, via[c].1))
    && (forall c :: Get(w.incoming, c) > 0 || c in w.parents ==> c == ROOT || c in via)
    && (forall x :: x in w.queue || (x in w.reachable && Dir(nodes, x)) ==> x == ROOT || x in via)
  }

  /** What is known while there is no diagnostic. */
  ghost predicate Sound(nodes: map<nat, Node>, edges: Edges, w: Walk, done: set<nat>, via: map<nat, (nat, nat)>,
                        current: nat, i: nat)
  {
    && Hangs(nodes, edges, w, done, current) && Covered(nodes, edges, w, done, via, current, i)
    && Counted(nodes, edges, w, done, current) && Entered(nodes, edges, w, done, via, current, i)
  }

  function Via(nodes: map<nat, Node>, via: map<nat, (nat, nat)>, current: nat, i: nat,
               target: nat): map<nat, (nat, nat)>
  {
    if Dir(nodes, target) then via[target := (current, i)] else via
  }

  lemma VisitCovered(nodes: map<nat, Node>, edges: Edges, w: Walk, done: set<nat>, via: map<nat, (nat, nat)>,
                     current: nat, i: nat, target: nat)
    requires Covered(nodes, edges, w, done, via, current, i) && Edge(nodes, edges, current, i, target)
    requires current !in done && ROOT in w.reachable && Visit(nodes, w, current, target).ok
    ensures Covered(nodes, edges, Visit(nodes, w, current, target), done, Via(nodes, via, current, i, target), current,
                    i + 1)
  {
    var w', via' := Visit(nodes, w, current, target), Via(nodes, via, current, i, target);
    assert Dir(nodes, target) ==> target !in via;
    forall p: nat, k: nat, c: nat | Edge(nodes, edges, p, k, c) && Visited(done, current, i + 1, p, k)
      ensures (c in w'.reachable || c in w'.queue) && (nodes[c].dir ==> c in via' && via'[c] == (p, k))
    {
      if p != current || k != i {
        assert Visited(done, current, i, p, k);
      }
    }
  }

  lemma VisitSound(nodes: map<nat, Node>, edges: Edges, w: Walk, done: set<nat>, via: map<nat, (nat, nat)>,
                   current: nat, i: nat, target: nat)
    requires Sound(nodes, edges, w, done, via, current, i) && Edge(nodes, edges, current, i, target)
    requires current !in done && ROOT in w.reachable && current in w.reachable && Visit(nodes, w, current, target).ok
    ensures Sound(nodes, edges, Visit(nodes, w, current, target), done, Via(nodes, via, current, i, target), current,
                  i + 1)
  {
    hide PathTo, Covered, Entered;
    Extend(nodes, edges, current, i, target);
    VisitCovered(nodes, edges, w, done, via, current, i, target);
    VisitEntered(nodes, edges, w, done, via, current, i, target);
  }

  lemma VisitEntered(nodes: map<nat, Node>, edges: Edges, w: Walk, done: set<nat>, via: map<nat, (nat, nat)>,
                     current: nat, i: nat, target: nat)
    requires Entered(nodes, edges, w, done, via, current, i) && Edge(nodes, edges, current, i, target)
    requires target in nodes
    ensures Entered(nodes, edges, Visit(nodes, w, current, target), done, Via(nodes, via, current, i, target), current,
                    i + 1)
  {
    hide Edge;
    var via' := Via(nodes, via, current, i, target);
    assert Visited(done, current, i + 1, current, i);
    forall c | c in via'
      ensures Edge(nodes, edges, via'[c].0, via'[c].1, c) && Visited(done, current, i + 1, via'[c].0, via'[c].1)
    {
      if c in via && via'[c] == via[c] {
        assert Visited(done, current, i, via[c].0, via[c].1);
      }
    }
  }

  /** In a tree the walk meets every directory for the first time, through the one entry that names it. */
  lemma VisitOk(nodes: map<nat, Node>, edges: Edges, w: Walk, done: set<nat>, via: map<nat, (nat, nat)>, current: nat,
                i: nat, target: nat)
    requires Tree(nodes, edges) && Entered(nodes, edges, w, done, via, current, i)
    requires Edge(nodes, edges, current, i, target) && current !in done
    ensures Visit(nodes, w, current, target).ok == w.ok
  {
    hide PathTo, Path;
    if Dir(nodes, target) {
      assert target != ROOT;
      assert !Visited(done, current, i, current, i);
      assert target !in via;
    }
  }

  lemma VisitCount(nodes: map<nat, Node>, w: Walk, current: nat, s: seq<nat>, i: nat)
    requires i < |s| && s[i] in nodes && Get(w.children, current) == DirCount(nodes, s[..i])
    ensures Get(Visit(nodes, w, current, s[i]).children, current) == DirCount(nodes, s[..i + 1])
  {
    assert s[..i + 1][..i] == s[..i];
  }

  /** Between two directories the walk has no current one; inode 0 does not exist. */
  const NONE: nat := 0

  /** Directory edges start at directories and name allocated inodes. */
  ghost predicate Graph(nodes: map<nat, Node>, edges: Edges) {
    && NONE !in nodes
    && (forall p :: p in edges ==> Dir(nodes, p))
    && forall p, k :: p in edges && 0 <= k < |edges[p]| ==> edges[p][k] in nodes
  }

  lemma StartSound(nodes: map<nat, Node>, edges: Edges)
    requires Dir(nodes, ROOT) && NONE !in nodes
    ensures Sound(nodes, edges, Walk({}, map[ROOT := ROOT], map[], map[], [ROOT], true), {}, map[], NONE, 0)
  {
    RootPath(nodes, edges);
  }

  /** The entries visited when p is the current directory at its first entry are those visited before it. */
  lemma NothingYet(done: set<nat>, current: nat, p: nat, k: nat)
    ensures Visited(done, current, 0, p, k) <==> p in done
  {
  }

  /** The walk after popping the head of the queue, which is then reached. */
  function Popped(w: Walk): (w': Walk)
    requires w.queue != []
  {
    w.(queue := w.queue[1..], reachable := w.reachable + {w.queue[0]})
  }

  lemma EnterHangs(nodes: map<nat, Node>, edges: Edges, w: Walk, done: set<nat>)
    requires Hangs(nodes, edges, w, done, NONE) && w.queue != [] && NONE !in nodes
    ensures var current := w.queue[0];
      && Dir(nodes, current) && NONE !in done && (current !in w.reachable ==> current !in done)
      && Hangs(nodes, edges, Popped(w), done, if current in w.reachable then NONE else current)
  {
    hide PathTo;
  }

  lemma EnterCovered(nodes: map<nat, Node>, edges: Edges, w: Walk, done: set<nat>, via: map<nat, (nat, nat)>,
                     current: nat)
    requires Covered(nodes, edges, w, done, via, NONE, 0) && w.queue != []
    ensures Covered(nodes, edges, Popped(w), done, via, current, 0)
  {
    var w' := Popped(w);
    forall p: nat, k: nat, c: nat | Edge(nodes, edges, p, k, c) && Visited(done, current, 0, p, k)
      ensures (c in w'.reachable || c in w'.queue) && (nodes[c].dir ==> c in via && via[c] == (p, k))
    {
      NothingYet(done, current, p, k);
      NothingYet(done, NONE, p, k);
    }
  }

  lemma EnterEntered(nodes: map<nat, Node>, edges: Edges, w: Walk, done: set<nat>, via: map<nat, (nat, nat)>,
                     current: nat)
    requires Entered(nodes, edges, w, done, via, NONE, 0) && w.queue != []
    ensures Entered(nodes, edges, Popped(w), done, via, current, 0)
  {
    hide Edge;
    forall c | c in via
      ensures Visited(done, current, 0, via[c].0, via[c].1)
    {
      NothingYet(done, current, via[c].0, via[c].1);
      NothingYet(done, NONE, via[c].0, via[c].1);
    }
  }

  lemma EnterSound(nodes: map<nat, Node>, edges: Edges, w: Walk, done: set<nat>, via: map<nat, (nat, nat)>)
    requires Sound(nodes, edges, w, done, via, NONE, 0) && w.queue != [] && NONE !in nodes
    ensures var current := w.queue[0];
      && Dir(nodes, current)
      && (current in w.reachable ==> Sound(nodes, edges, Popped(w), done, via, NONE, 0))
      && (current !in w.reachable ==>
            && current !in done && Get(w.children, current) == 0
            && Sound(nodes, edges, Popped(w), done, via, current, 0))
  {
    hide Hangs, Covered, Entered, DirCount;
    var current := w.queue[0];
    EnterHangs(nodes, edges, w, done);
    if current in w.reachable {
      EnterCovered(nodes, edges, w, done, via, NONE);
      EnterEntered(nodes, edges, w, done, via, NONE);
    } else {
      EnterCovered(nodes, edges, w, done, via, current);
      EnterEntered(nodes, edges, w, done, via, current);
      assert Counted(nodes, edges, Popped(w), done, current);
    }
  }

  lemma LeaveCovered(nodes: map<nat, Node>, edges: Edges, w: Walk, done: set<nat>, via: map<nat, (nat, nat)>,
                     current: nat)
    requires Covered(nodes, edges, w, done, via, current, |Names(edges, current)|) && NONE !in nodes
    ensures Covered(nodes, edges, w, done + {current}, via, NONE, 0)
  {
    forall p: nat, k: nat, c: nat | Edge(nodes, edges, p, k, c) && Visited(done + {current}, NONE, 0, p, k)
      ensures Visited(done, current, |Names(edges, current)|, p, k)
    {
    }
  }

  lemma LeaveEntered(nodes: map<nat, Node>, edges: Edges, w: Walk, done: set<nat>, via: map<nat, (nat, nat)>,
                     current: nat)
    requires Entered(nodes, edges, w, done, via, current, |Names(edges, current)|)
    ensures Entered(nodes, edges, w, done + {current}, via, NONE, 0)
  {
    hide Edge;
    forall c | c in via
      ensures Visited(done + {current}, NONE, 0, via[c].0, via[c].1)
    {
      assert Visited(done, current, |Names(edges, current)|, via[c].0, via[c].1);
    }
  }

  lemma LeaveSound(nodes: map<nat, Node>, edges: Edges, w: Walk, done: set<nat>, via: map<nat, (nat, nat)>,
                   current: nat)
    requires Sound(nodes, edges, w, done, via, current, |Names(edges, current)|) && NONE !in nodes
      && Dir(nodes, current)
    requires current in w.reachable && Get(w.children, current) == DirCount(nodes, Names(edges, current))
    ensures Sound(nodes, edges, w, done + {current}, via, NONE, 0)
  {
    hide PathTo, Path, Covered, Entered;
    LeaveCovered(nodes, edges, w, done, via, current);
    LeaveEntered(nodes, edges, w, done, via, current);
  }

  ghost predicate Ready(nodes: map<nat, Node>, edges: Edges, w: Walk, done: set<nat>, via: map<nat, (nat, nat)>,
                        current: nat)
  {
    && Dir(nodes, current) && current !in done && ROOT in w.reachable && Get(w.children, current) == 0
    && Sound(nodes, edges, w, done, via, current, 0)
  }

  /** One directory's entries. */
  method VisitAll(nodes: map<nat, Node>, edges: Edges, w0: Walk, current: nat, ghost done: set<nat>,
                  ghost via0: map<nat, (nat, nat)>)
    returns (w: Walk, ghost via: map<nat, (nat, nat)>)
    requires Graph(nodes, edges) && current in nodes && current in w0.reachable && w0.reachable <= nodes.Keys
    requires forall x :: x in w0.queue ==> x in nodes
    ensures w0.reachable <= w.reachable <= nodes.Keys && forall x :: x in w.queue ==> x in nodes
    ensures w.ok ==> w0.ok
    ensures w.ok && Ready(nodes, edges, w0, done, via0, current) ==>
      && Sound(nodes, edges, w, done, via, current, |Names(edges, current)|)
      && Get(w.children, current) == DirCount(nodes, Names(edges, current))
    ensures Tree(nodes, edges) && Ready(nodes, edges, w0, done, via0, current) && w0.ok ==> w.ok
  {
    hide Sound, Visit, Tree;
    var s := Names(edges, current);
    ghost var good := Ready(nodes, edges, w0, done, via0, current);
    w, via := w0, via0;
    var i := 0;
    while i < |s|
      invariant 0 <= i <= |s|
      invariant w0.reachable <= w.reachable <= nodes.Keys && forall x :: x in w.queue ==> x in nodes
      invariant w.ok ==> w0.ok
      invariant good ==> Get(w.children, current) == DirCount(nodes, s[..i])
      invariant w.ok && good ==> Sound(nodes, edges, w, done, via, current, i)
      invariant Tree(nodes, edges) && good && w0.ok ==> w.ok
    {
      VisitBasics(nodes, w, current, s[i]);
      if good {
        VisitCount(nodes, w, current, s, i);
        if Tree(nodes, edges) && w.ok {
          SoundOk(nodes, edges, w, done, via, current, i, s[i]);
        }
        if Visit(nodes, w, current, s[i]).ok {
          VisitSound(nodes, edges, w, done, via, current, i, s[i]);
        }
      }
      via := Via(nodes, via, current, i, s[i]);
      w := Visit(nodes, w, current, s[i]);
      i := i + 1;
    }
    assert s[..|s|] == s;
  }

  lemma SoundOk(nodes: map<nat, Node>, edges: Edges, w: Walk, done: set<nat>, via: map<nat, (nat, nat)>, current: nat,
                i: nat, target: nat)
    requires Tree(nodes, edges) && Sound(nodes, edges, w, done, via, current, i)
    requires Edge(nodes, edges, current, i, target) && current !in done
    ensures Visit(nodes, w, current, target).ok == w.ok
  {
    hide Tree, Hangs, Covered, Counted, Entered, Visit;
    VisitOk(nodes, edges, w, done, via, current, i, target);
  }

  lemma TreeRoot(nodes: map<nat, Node>, edges: Edges)
    requires Tree(nodes, edges)
    ensures Dir(nodes, ROOT)
  {
  }

  lemma VisitBasics(nodes: map<nat, Node>, w: Walk, current: nat, target: nat)
    requires target in nodes && w.reachable <= nodes.Keys && forall x :: x in w.queue ==> x in nodes
    ensures var w' := Visit(nodes, w, current, target);
      w.reachable <= w'.reachable <= nodes.Keys && (w'.ok ==> w.ok) && forall x :: x in w'.queue ==> x in nodes
  {
  }

  lemma NoZero(nodes: map<nat, Node>, edges: Edges)
    requires Graph(nodes, edges)
    ensures NONE !in nodes
  {
  }

  /** One turn of the walk: pop a directory and, the first time, visit its entries. */
  method Turn(nodes: map<nat, Node>, edges: Edges, w0: Walk, ghost done0: set<nat>, ghost via0: map<nat, (nat, nat)>)
    returns (w: Walk, ghost done: set<nat>, ghost via: map<nat, (nat, nat)>)
    requires Graph(nodes, edges) && w0.queue != [] && w0.reachable <= nodes.Keys
    requires forall x :: x in w0.queue ==> x in nodes
    requires w0.ok && Dir(nodes, ROOT) ==> Sound(nodes, edges, w0, done0, via0, NONE, 0)
    requires ROOT in w0.reachable || w0.queue[0] == ROOT
    ensures w0.reachable <= w.reachable <= nodes.Keys && w0.queue[0] in w.reachable
    ensures forall x :: x in w.queue ==> x in nodes
    ensures w.ok && Dir(nodes, ROOT) ==> Sound(nodes, edges, w, done, via, NONE, 0)
    ensures Tree(nodes, edges) && w0.ok ==> w.ok
    ensures |nodes.Keys - w.reachable| < |nodes.Keys - w0.reachable|
      || (w.reachable == w0.reachable && |w.queue| < |w0.queue|)
  {
    hide Sound, Graph, Names, DirCount, Tree;
    NoZero(nodes, edges);
    if Tree(nodes, edges) {
      TreeRoot(nodes, edges);
    }
    var current := w0.queue[0];
    if w0.ok && Dir(nodes, ROOT) {
      EnterSound(nodes, edges, w0, done0, via0);
    }
    if current in w0.reachable {
      assert w0.reachable + {current} == w0.reachable;
      return w0.(queue := w0.queue[1..]), done0, via0;
    }
    var w1 := w0.(queue := w0.queue[1..], reachable := w0.reachable + {current});
    w, via := VisitAll(nodes, edges, w1, current, done0, via0);
    if w.ok && Dir(nodes, ROOT) {
      LeaveSound(nodes, edges, w, done0, via, current);
    }
    done := done0 + {current};
    Shrinks(nodes.Keys, w0.reachable, w.reachable, current);
  }

  /** The walk from the root. */
  method Traverse(nodes: map<nat, Node>, edges: Edges)
    returns (w: Walk, ghost done: set<nat>, ghost via: map<nat, (nat, nat)>)
    requires Graph(nodes, edges)
    ensures w.queue == []
    ensures (w.ok && Dir(nodes, ROOT) ==> ROOT in w.reachable && Sound(nodes, edges, w, done, via, NONE, 0))
    ensures Tree(nodes, edges) ==> w.ok
  {
    hide Sound, Graph, Names, DirCount, Tree;
    NoZero(nodes, edges);
    done, via := {}, map[];
    w := Walk({}, map[ROOT := ROOT], map[], map[], if ROOT in nodes then [ROOT] else [], true);
    if Dir(nodes, ROOT) {
      StartSound(nodes, edges);
    }
    while w.queue != []
      invariant w.reachable <= nodes.Keys && forall x :: x in w.queue ==> x in nodes
      invariant ROOT in w.reachable || w.queue == if ROOT in nodes then [ROOT] else []
      invariant w.ok && Dir(nodes, ROOT) ==> Sound(nodes, edges, w, done, via, NONE, 0)
      invariant Tree(nodes, edges) ==> w.ok
      decreases |nodes.Keys - w.reachable|, |w.queue|
    {
      w, done, via := Turn(nodes, edges, w, done, via);
    }
  }

  lemma Shrinks(all: set<nat>, a: set<nat>, b: set<nat>, x: nat)
    requires a <= b && x in b && x !in a && x in all
    ensures |all - b| < |all - a|
  {
    assert all - b <= all - a - {x};
    Smaller(all - b, all - a - {x});
  }

  lemma {:induction false} Smaller(a: set<nat>, b: set<nat>)
    requires a <= b
    ensures |a| <= |b|
    decreases |a|
  {
    if a != {} {
      var x :| x in a;
      Smaller(a - {x}, b - {x});
    }
  }

  // ----- the verdict -----

  /** The directory that names c, or the root for itself. */
  ghost predicate ParentIs(nodes: map<nat, Node>, edges: Edges, c: nat, p: nat) {
    if c == ROOT then p == ROOT else Link(nodes, edges, p, c)
  }

  /** What the last loop checks of inode c: "." and ".." of a directory, and its link count. */
  ghost predicate Checked(nodes: map<nat, Node>, edges: Edges, dots: set<nat>, dotdot: map<nat, nat>,
                          references: map<nat, nat>, c: nat)
    requires c in nodes
  {
    if nodes[c].dir then
      && c in dots && c in dotdot && ParentIs(nodes, edges, c, dotdot[c])
      && nodes[c].nlink == 1 + DirCount(nodes, Names(edges, c))
    else nodes[c].nlink == Get(references, c)
  }

  lemma SoundTree(nodes: map<nat, Node>, edges: Edges, w: Walk, done: set<nat>, via: map<nat, (nat, nat)>)
    requires Dir(nodes, ROOT) && NONE !in nodes && w.queue == [] && Sound(nodes, edges, w, done, via, NONE, 0)
    requires forall c :: c in nodes ==> c in w.reachable
    ensures Tree(nodes, edges)
  {
    hide PathTo, Path, Entered, Counted;
    forall p: nat, k: nat, c: nat | Edge(nodes, edges, p, k, c)
      ensures Visited(done, NONE, 0, p, k)
    {
    }
    assert forall p: nat, k: nat, c: nat :: Edge(nodes, edges, p, k, c) && nodes[c].dir ==>
      c in via && via[c] == (p, k);
  }

  /** A reached directory other than the root has the parent the walk recorded. */
  lemma SoundParent(nodes: map<nat, Node>, edges: Edges, w: Walk, done: set<nat>, via: map<nat, (nat, nat)>, c: nat)
    requires Dir(nodes, ROOT) && NONE !in nodes && w.queue == [] && Sound(nodes, edges, w, done, via, NONE, 0)
    requires Dir(nodes, c) && c != ROOT && c in w.reachable && ROOT in w.reachable
    ensures c in w.parents && Link(nodes, edges, w.parents[c], c)
  {
    var path :| Path(nodes, edges, path) && path[|path| - 1] == c;
    var n := |path|;
    assert Link(nodes, edges, path[n - 2], path[n - 1]);
    var k: nat :| Edge(nodes, edges, path[n - 2], k, c);
    PrefixReached(nodes, edges, w, done, via, path, n - 2);
    assert Visited(done, NONE, 0, path[n - 2], k);
    assert via[c] == (path[n - 2], k);
  }

  lemma {:induction false} PrefixReached(nodes: map<nat, Node>, edges: Edges, w: Walk, done: set<nat>,
                                         via: map<nat, (nat, nat)>, path: seq<nat>, i: nat)
    requires Dir(nodes, ROOT) && NONE !in nodes && w.queue == [] && Sound(nodes, edges, w, done, via, NONE, 0)
      && ROOT in w.reachable
    requires Path(nodes, edges, path) && i < |path|
    ensures path[i] in w.reachable
  {
    if i > 0 {
      PrefixReached(nodes, edges, w, done, via, path, i - 1);
      assert Link(nodes, edges, path[i - 1], path[i]);
      var k: nat :| Edge(nodes, edges, path[i - 1], k, path[i]);
      assert Visited(done, NONE, 0, path[i - 1], k);
    }
  }

  /** In a tree the walk has reached everything. */
  lemma AllReached(nodes: map<nat, Node>, edges: Edges, w: Walk, done: set<nat>, via: map<nat, (nat, nat)>, c: nat)
    requires Tree(nodes, edges) && NONE !in nodes && w.queue == [] && Sound(nodes, edges, w, done, via, NONE, 0)
    requires ROOT in w.reachable
    requires c in nodes
    ensures c in w.reachable
  {
    hide Sound;
    assert PathTo(nodes, edges, c);
    var path :| Path(nodes, edges, path) && path[|path| - 1] == c;
    PrefixReached(nodes, edges, w, done, via, path, |path| - 1);
  }

  lemma OneParent(nodes: map<nat, Node>, edges: Edges, p: nat, q: nat, c: nat)
    requires Tree(nodes, edges) && Link(nodes, edges, p, c) && Link(nodes, edges, q, c) && Dir(nodes, c)
    ensures p == q
  {
    hide PathTo, Path;
    var k: nat :| Edge(nodes, edges, p, k, c);
    var l: nat :| Edge(nodes, edges, q, l, c);
  }

  /** The checks of the last loop on inode c. */
  predicate Passes(nodes: map<nat, Node>, w: Walk, dots: set<nat>, dotdot: map<nat, nat>, references: map<nat, nat>,
                   c: nat)
    requires c in nodes
  {
    && c in w.reachable
    && if nodes[c].dir then
         && c in dots && c in dotdot && nodes[c].nlink == 1 + Get(w.children, c)
         && if c == ROOT then dotdot[c] == ROOT else c in w.parents && dotdot[c] == w.parents[c]
       else nodes[c].nlink == Get(references, c)
  }

  /** They mean what the walk was for. */
  lemma PassesChecked(nodes: map<nat, Node>, edges: Edges, w: Walk, done: set<nat>, via: map<nat, (nat, nat)>,
                      dots: set<nat>, dotdot: map<nat, nat>, references: map<nat, nat>, c: nat)
    requires NONE !in nodes && w.queue == [] && Sound(nodes, edges, w, done, via, NONE, 0) && ROOT in w.reachable
    requires Dir(nodes, ROOT) && c in nodes
    ensures Passes(nodes, w, dots, dotdot, references, c) ==> Checked(nodes, edges, dots, dotdot, references, c)
    ensures Tree(nodes, edges) && Checked(nodes, edges, dots, dotdot, references, c) ==>
      Passes(nodes, w, dots, dotdot, references, c)
  {
    hide Sound, Tree, Link;
    if Tree(nodes, edges) {
      AllReached(nodes, edges, w, done, via, c);
    }
    if nodes[c].dir && c in w.reachable {
      CountOf(nodes, edges, w, done, via, c);
      if c != ROOT {
        SoundParent(nodes, edges, w, done, via, c);
        if Tree(nodes, edges) && Checked(nodes, edges, dots, dotdot, references, c) {
          OneParent(nodes, edges, w.parents[c], dotdot[c], c);
        }
      }
    }
  }

  /** The whole directory check: no diagnostic exactly when the directories are one tree with exact link counts. */
  method CheckTree(nodes: map<nat, Node>, inums: seq<nat>, edges: Edges, dots: set<nat>, dotdot: map<nat, nat>,
                   references: map<nat, nat>)
    returns (ok: bool)
    requires Graph(nodes, edges) && forall c :: c in inums <==> c in nodes
    ensures Dir(nodes, ROOT) ==>
      (ok <==> Tree(nodes, edges) && forall c :: c in nodes ==> Checked(nodes, edges, dots, dotdot, references, c))
  {
    hide Sound, Tree, PathTo, Path, Link, Checked;
    ghost var done, via;
    var w;
    w, done, via := Traverse(nodes, edges);
    ok := w.ok;
    var i := 0;
    while i < |inums|
      invariant 0 <= i <= |inums|
      invariant ok <==> w.ok && forall j :: 0 <= j < i ==> Passes(nodes, w, dots, dotdot, references, inums[j])
    {
      var c := inums[i];
      if nodes[c].dir && c !in dots {
        ok := false;
      }
      if c !in w.reachable {
        ok := false;
      }
      if nodes[c].dir && c in w.reachable {
        if c !in dotdot || (c == ROOT && dotdot[c] != ROOT)
          || (c != ROOT && (c !in w.parents || dotdot[c] != w.parents[c])) {
          ok := false;
        }
        if nodes[c].nlink != 1 + Get(w.children, c) {
          ok := false;
        }
      }
      if !nodes[c].dir && nodes[c].nlink != Get(references, c) {
        ok := false;
      }
      i := i + 1;
    }
    assert ok <==> w.ok && forall c :: c in nodes ==> Passes(nodes, w, dots, dotdot, references, c);
    if Dir(nodes, ROOT) && w.ok {
      forall c | c in nodes
        ensures Passes(nodes, w, dots, dotdot, references, c) ==> Checked(nodes, edges, dots, dotdot, references, c)
        ensures Tree(nodes, edges) && Checked(nodes, edges, dots, dotdot, references, c) ==>
          Passes(nodes, w, dots, dotdot, references, c)
      {
        PassesChecked(nodes, edges, w, done, via, dots, dotdot, references, c);
      }
      if ok {
        SoundTree(nodes, edges, w, done, via);
      }
    }
  }

  lemma CountOf(nodes: map<nat, Node>, edges: Edges, w: Walk, done: set<nat>, via: map<nat, (nat, nat)>, c: nat)
    requires NONE !in nodes && Sound(nodes, edges, w, done, via, NONE, 0) && Dir(nodes, c) && c in w.reachable
    ensures Get(w.children, c) == DirCount(nodes, Names(edges, c))
  {
  }
}
