/** The listing of a workspace: a depth- and size-limited walk that shares one counter. */
module RepoTree {
  import opened Text

  /** What is on disk. `entries` is already in listing order; a directory that cannot be read has
      `readable` false. `allowed` is the verdict of the path policy. */
  datatype Entry =
    | File(name: string, allowed: bool)
    | Dir(name: string, allowed: bool, readable: bool, entries: seq<Entry>)

  type Path = seq<string>

  /** What is reported; `cut` marks a directory that was not looked into because of a limit. */
  datatype Tree =
    | Leaf(path: Path)
    | Branch(path: Path, children: seq<Tree>, cut: bool)

  datatype Limits = Limits(maxNodes: int, maxDepth: int)

  datatype Walked = Walked(tree: Tree, count: nat, truncated: bool)

  datatype WalkedAll = WalkedAll(trees: seq<Tree>, count: nat, truncated: bool)

  // ---------- the walk ----------

  function Walk(lim: Limits, d: Entry, path: Path, depth: nat, count: nat, truncated: bool): Walked
    requires d.Dir?
    decreases d, 0
  {
    if count >= lim.maxNodes then Walked(Branch(path, [], true), count, true)
    else if depth > lim.maxDepth then Walked(Branch(path, [], true), count + 1, true)
    else if !d.readable then Walked(Branch(path, [], false), count + 1, truncated)
    else
      var all := WalkEntries(lim, d.entries, path, depth, count + 1, truncated);
      Walked(Branch(path, all.trees, false), all.count, all.truncated)
  }

  function WalkEntry(lim: Limits, e: Entry, path: Path, depth: nat, count: nat, truncated: bool): Walked
    decreases e, 1
  {
    if e.Dir? then Walk(lim, e, path + [e.name], depth + 1, count, truncated)
    else Walked(Leaf(path + [e.name]), count + 1, truncated)
  }

  function WalkEntries(lim: Limits, entries: seq<Entry>, path: Path, depth: nat, count: nat, truncated: bool): WalkedAll
    decreases entries
  {
    if entries == [] then WalkedAll([], count, truncated)
    else if !entries[0].allowed then WalkEntries(lim, entries[1..], path, depth, count, truncated)
    else
      var first := WalkEntry(lim, entries[0], path, depth, count, truncated);
      if first.count >= lim.maxNodes then WalkedAll([first.tree], first.count, true)
      else
        var rest := WalkEntries(lim, entries[1..], path, depth, first.count, first.truncated);
        WalkedAll([first.tree] + rest.trees, rest.count, rest.truncated)
  }

  /** The walk as it is written: shared counters updated by a recursive procedure. */
  class TreeBuilder {
    const lim: Limits
    var nodeCount: nat
    var truncated: bool

    constructor (lim: Limits)
      ensures this.lim == lim && nodeCount == 0 && !truncated
    {
      this.lim, nodeCount, truncated := lim, 0, false;
    }

    method WalkDir(d: Entry, path: Path, depth: nat) returns (tree: Tree)
      requires d.Dir?
      modifies this
      ensures Walked(tree, nodeCount, truncated) == Walk(lim, d, path, depth, old(nodeCount), old(truncated))
      decreases d
    {
      if nodeCount >= lim.maxNodes {
        truncated := true;
        return Branch(path, [], true);
      }
      nodeCount := nodeCount + 1;
      if depth > lim.maxDepth {
        truncated := true;
        return Branch(path, [], true);
      }
      if !d.readable { return Branch(path, [], false); }
      ghost var whole := WalkEntries(lim, d.entries, path, depth, nodeCount, truncated);
      var children: seq<Tree> := [];
      var i := 0;
      assert d.entries[0..] == d.entries;
      while i < |d.entries|
        invariant i <= |d.entries|
        invariant Joined(children, WalkEntries(lim, d.entries[i..], path, depth, nodeCount, truncated)) == whole
      {
        var entry := d.entries[i];
        assert d.entries[i..][0] == entry && d.entries[i..][1..] == d.entries[i + 1..];
        i := i + 1;
        if !entry.allowed { continue; }
        ghost var before, count, flag := children, nodeCount, truncated;
        var child: Tree;
        if entry.Dir? {
          child := WalkDir(entry, path + [entry.name], depth + 1);
        } else {
          nodeCount := nodeCount + 1;
          child := Leaf(path + [entry.name]);
        }
        children := children + [child];
        assert Walked(child, nodeCount, truncated) == WalkEntry(lim, entry, path, depth, count, flag);
        if nodeCount >= lim.maxNodes {
          truncated := true;
          return Branch(path, children, false);
        }
        JoinedStep(before, child, WalkEntries(lim, d.entries[i..], path, depth, nodeCount, truncated));
      }
      assert d.entries[i..] == [] && children + [] == children;
      return Branch(path, children, false);
    }
  }

  function Joined(done: seq<Tree>, rest: WalkedAll): WalkedAll
  {
    rest.(trees := done + rest.trees)
  }

  lemma JoinedStep(done: seq<Tree>, child: Tree, rest: WalkedAll)
    ensures Joined(done, rest.(trees := [child] + rest.trees)) == Joined(done + [child], rest)
  {
    assert done + ([child] + rest.trees) == (done + [child]) + rest.trees;
  }

  // ---------- what there is to report ----------

  /** Everything reachable through allowed, readable directories. */
  function Full(e: Entry, path: Path): Tree
    decreases e
  {
    if e.File? then Leaf(path) else Branch(path, if e.readable then FullEntries(e.entries, path) else [], false)
  }

  function FullEntries(entries: seq<Entry>, path: Path): seq<Tree>
    decreases entries
  {
    if entries == [] then []
    else if !entries[0].allowed then FullEntries(entries[1..], path)
    else [Full(entries[0], path + [entries[0].name])] + FullEntries(entries[1..], path)
  }

  function Size(t: Tree): (n: nat)
    ensures n >= 1
    ensures t.Branch? ==> (n == 1 <==> t.children == [])
    decreases t
  {
    if t.Leaf? then 1 else 1 + SizeAll(t.children)
  }

  function SizeAll(ts: seq<Tree>): (n: nat)
    ensures n == 0 <==> ts == []
    decreases ts
  {
    if ts == [] then 0 else Size(ts[0]) + SizeAll(ts[1..])
  }

  /** Some directory lies deeper than allowed when `t` is at `depth`. */
  predicate TooDeep(t: Tree, depth: nat, maxDepth: int)
    decreases t
  {
    t.Branch? && (depth > maxDepth || AnyTooDeep(t.children, depth + 1, maxDepth))
  }

  predicate AnyTooDeep(ts: seq<Tree>, depth: nat, maxDepth: int)
    decreases ts
  {
    ts != [] && (TooDeep(ts[0], depth, maxDepth) || AnyTooDeep(ts[1..], depth, maxDepth))
  }

  function Height(t: Tree): nat
    decreases t
  {
    if t.Leaf? || t.children == [] then 0 else 1 + HeightAll(t.children)
  }

  function HeightAll(ts: seq<Tree>): nat
    decreases ts
  {
    if ts == [] then 0 else Max(Height(ts[0]), HeightAll(ts[1..]))
  }

  lemma Cons(t: Tree, ts: seq<Tree>, depth: nat, maxDepth: int)
    ensures SizeAll([t] + ts) == Size(t) + SizeAll(ts)
    ensures AnyTooDeep([t] + ts, depth, maxDepth) <==> TooDeep(t, depth, maxDepth) || AnyTooDeep(ts, depth, maxDepth)
    ensures HeightAll([t] + ts) == Max(Height(t), HeightAll(ts))
  {
    assert ([t] + ts)[1..] == ts;
  }

  // ---------- size ----------

  predicate SizeOk(lim: Limits, size: nat, count: nat, after: nat)
  {
    && after <= lim.maxNodes + 1
    && size + count <= lim.maxNodes + 1
    && (after < lim.maxNodes ==> after == count + size)
  }

  lemma {:induction false} WalkSize(lim: Limits, d: Entry, path: Path, depth: nat, count: nat, truncated: bool)
    requires d.Dir? && count <= lim.maxNodes
    ensures var r := Walk(lim, d, path, depth, count, truncated); SizeOk(lim, Size(r.tree), count, r.count)
    decreases d
  {
    if count < lim.maxNodes && depth <= lim.maxDepth && d.readable {
      WalkEntriesSize(lim, d.entries, path, depth, count + 1, truncated);
    }
  }

  lemma {:induction false} WalkEntriesSize(lim: Limits, entries: seq<Entry>, path: Path, depth: nat, count: nat,
      truncated: bool)
    requires count <= lim.maxNodes
    ensures var r := WalkEntries(lim, entries, path, depth, count, truncated);
        SizeOk(lim, SizeAll(r.trees), count, r.count)
    decreases entries
  {
    if entries != [] {
      if !entries[0].allowed {
        WalkEntriesSize(lim, entries[1..], path, depth, count, truncated);
      } else {
        if entries[0].Dir? { WalkSize(lim, entries[0], path + [entries[0].name], depth + 1, count, truncated); }
        var first := WalkEntry(lim, entries[0], path, depth, count, truncated);
        if first.count < lim.maxNodes {
          WalkEntriesSize(lim, entries[1..], path, depth, first.count, first.truncated);
          Cons(first.tree, WalkEntries(lim, entries[1..], path, depth, first.count, first.truncated).trees, depth, 0);
        } else {
          Cons(first.tree, [], depth, 0);
        }
      }
    }
  }

  // ---------- depth ----------

  lemma {:induction false} WalkHeight(lim: Limits, d: Entry, path: Path, depth: nat, count: nat, truncated: bool)
    requires d.Dir?
    ensures Height(Walk(lim, d, path, depth, count, truncated).tree) <= Max(0, lim.maxDepth + 1 - depth)
    decreases d
  {
    if count < lim.maxNodes && depth <= lim.maxDepth && d.readable {
      WalkEntriesHeight(lim, d.entries, path, depth, count + 1, truncated);
    }
  }

  lemma {:induction false} WalkEntriesHeight(lim: Limits, entries: seq<Entry>, path: Path, depth: nat,
      count: nat, truncated: bool)
    ensures HeightAll(WalkEntries(lim, entries, path, depth, count, truncated).trees) <= Max(0, lim.maxDepth - depth)
    decreases entries
  {
    if entries != [] {
      if !entries[0].allowed {
        WalkEntriesHeight(lim, entries[1..], path, depth, count, truncated);
      } else {
        if entries[0].Dir? { WalkHeight(lim, entries[0], path + [entries[0].name], depth + 1, count, truncated); }
        var first := WalkEntry(lim, entries[0], path, depth, count, truncated);
        if first.count < lim.maxNodes {
          WalkEntriesHeight(lim, entries[1..], path, depth, first.count, first.truncated);
          Cons(first.tree, WalkEntries(lim, entries[1..], path, depth, first.count, first.truncated).trees, depth, 0);
        } else {
          Cons(first.tree, [], depth, 0);
        }
      }
    }
  }

  // ---------- nothing invented ----------

  /** `t` is `full` with some directories' last children left off; one that is shown empty but is not is
      marked as cut. */
  predicate Pruned(t: Tree, full: Tree)
    decreases t
  {
    if t.Leaf? then t == full
    else
      && full.Branch? && t.path == full.path && AllPruned(t.children, full.children)
      && (t.cut ==> t.children == []) && (t.children == [] && full.children != [] ==> t.cut)
  }

  predicate AllPruned(ts: seq<Tree>, fulls: seq<Tree>)
    decreases ts
  {
    ts == [] || (fulls != [] && Pruned(ts[0], fulls[0]) && AllPruned(ts[1..], fulls[1..]))
  }

  lemma PrunedCons(t: Tree, ts: seq<Tree>, full: Tree, fulls: seq<Tree>)
    requires Pruned(t, full) && AllPruned(ts, fulls)
    ensures AllPruned([t] + ts, [full] + fulls)
  {
    assert ([t] + ts)[1..] == ts && ([full] + fulls)[1..] == fulls;
  }

  lemma {:induction false} WalkPrunes(lim: Limits, d: Entry, path: Path, depth: nat, count: nat, truncated: bool)
    requires d.Dir?
    ensures Pruned(Walk(lim, d, path, depth, count, truncated).tree, Full(d, path))
    decreases d
  {
    if count < lim.maxNodes && depth <= lim.maxDepth && d.readable {
      WalkEntriesPrune(lim, d.entries, path, depth, count + 1, truncated);
    }
  }

  lemma {:induction false} WalkEntriesPrune(lim: Limits, entries: seq<Entry>, path: Path, depth: nat,
      count: nat, truncated: bool)
    ensures AllPruned(WalkEntries(lim, entries, path, depth, count, truncated).trees, FullEntries(entries, path))
    ensures WalkEntries(lim, entries, path, depth, count, truncated).trees == [] ==> FullEntries(entries, path) == []
    decreases entries
  {
    if entries != [] {
      if !entries[0].allowed {
        WalkEntriesPrune(lim, entries[1..], path, depth, count, truncated);
      } else {
        if entries[0].Dir? { WalkPrunes(lim, entries[0], path + [entries[0].name], depth + 1, count, truncated); }
        var first := WalkEntry(lim, entries[0], path, depth, count, truncated);
        if first.count < lim.maxNodes {
          WalkEntriesPrune(lim, entries[1..], path, depth, first.count, first.truncated);
        }
        var rest := if first.count < lim.maxNodes
                    then WalkEntries(lim, entries[1..], path, depth, first.count, first.truncated).trees else [];
        var full := Full(entries[0], path + [entries[0].name]);
        assert Pruned(first.tree, full);
        PrunedCons(first.tree, rest, full, FullEntries(entries[1..], path));
        assert WalkEntries(lim, entries, path, depth, count, truncated).trees == [first.tree] + rest;
        assert FullEntries(entries, path) == [full] + FullEntries(entries[1..], path);
      }
    }
  }

  /** Directories beyond the depth limit are marked as cut, and a mark within it means that the node limit
      was reached. */
  predicate MarksOk(t: Tree, depth: nat, lim: Limits, reached: bool)
    decreases t
  {
    t.Branch? ==>
      && (depth > lim.maxDepth ==> t.cut) && (t.cut && depth <= lim.maxDepth ==> reached)
      && AllMarksOk(t.children, depth + 1, lim, reached)
  }

  predicate AllMarksOk(ts: seq<Tree>, depth: nat, lim: Limits, reached: bool)
    decreases ts
  {
    ts == [] || (MarksOk(ts[0], depth, lim, reached) && AllMarksOk(ts[1..], depth, lim, reached))
  }

  lemma {:induction false} MarksStay(t: Tree, depth: nat, lim: Limits, reached: bool)
    requires MarksOk(t, depth, lim, reached)
    ensures MarksOk(t, depth, lim, true)
    decreases t
  {
    if t.Branch? { AllMarksStay(t.children, depth + 1, lim, reached); }
  }

  lemma {:induction false} AllMarksStay(ts: seq<Tree>, depth: nat, lim: Limits, reached: bool)
    requires AllMarksOk(ts, depth, lim, reached)
    ensures AllMarksOk(ts, depth, lim, true)
    decreases ts
  {
    if ts != [] {
      MarksStay(ts[0], depth, lim, reached);
      AllMarksStay(ts[1..], depth, lim, reached);
    }
  }

  lemma MarksCons(t: Tree, ts: seq<Tree>, depth: nat, lim: Limits, reached: bool)
    requires MarksOk(t, depth, lim, reached) && AllMarksOk(ts, depth, lim, reached)
    ensures AllMarksOk([t] + ts, depth, lim, reached)
  {
    assert ([t] + ts)[1..] == ts;
  }

  lemma {:induction false} WalkMarks(lim: Limits, d: Entry, path: Path, depth: nat, count: nat, truncated: bool)
    requires d.Dir?
    ensures var r := Walk(lim, d, path, depth, count, truncated); MarksOk(r.tree, depth, lim, r.count >= lim.maxNodes)
    decreases d
  {
    if count < lim.maxNodes && depth <= lim.maxDepth && d.readable {
      WalkEntriesMark(lim, d.entries, path, depth, count + 1, truncated);
    }
  }

  lemma {:induction false} WalkEntriesMark(
      lim: Limits, entries: seq<Entry>, path: Path, depth: nat, count: nat, truncated: bool)
    ensures var r := WalkEntries(lim, entries, path, depth, count, truncated);
            AllMarksOk(r.trees, depth + 1, lim, r.count >= lim.maxNodes)
    decreases entries
  {
    if entries != [] {
      if !entries[0].allowed {
        WalkEntriesMark(lim, entries[1..], path, depth, count, truncated);
      } else {
        if entries[0].Dir? { WalkMarks(lim, entries[0], path + [entries[0].name], depth + 1, count, truncated); }
        var first := WalkEntry(lim, entries[0], path, depth, count, truncated);
        if first.count < lim.maxNodes {
          WalkEntriesMark(lim, entries[1..], path, depth, first.count, first.truncated);
          var rest := WalkEntries(lim, entries[1..], path, depth, first.count, first.truncated);
          if rest.count >= lim.maxNodes { MarksStay(first.tree, depth + 1, lim, false); }
          MarksCons(first.tree, rest.trees, depth + 1, lim, rest.count >= lim.maxNodes);
        } else {
          MarksCons(first.tree, [], depth + 1, lim, true);
        }
      }
    }
  }

  // ---------- what there is to report, by paths ----------

  /** The names lead from `e` down through allowed entries of readable directories. */
  predicate Reaches(e: Entry, names: Path)
    decreases |names|
  {
    names == [] ||
    (e.Dir? && e.readable &&
     exists i :: 0 <= i < |e.entries| && e.entries[i].allowed && e.entries[i].name == names[0] &&
                 Reaches(e.entries[i], names[1..]))
  }

  /** Some node of the tree has this path. */
  predicate Lists(t: Tree, path: Path)
    decreases t
  {
    t.path == path || (t.Branch? && exists i :: 0 <= i < |t.children| && Lists(t.children[i], path))
  }

  lemma {:induction false} FullChildren(entries: seq<Entry>, base: Path)
    ensures forall i :: 0 <= i < |entries| && entries[i].allowed ==>
              Full(entries[i], base + [entries[i].name]) in FullEntries(entries, base)
    ensures forall t :: t in FullEntries(entries, base) ==>
              exists i :: 0 <= i < |entries| && entries[i].allowed && t == Full(entries[i], base + [entries[i].name])
    decreases entries
  {
    hide Full;
    if entries != [] {
      var rest := entries[1..];
      FullChildren(rest, base);
      assert forall i :: 0 < i < |entries| ==> entries[i] == rest[i - 1];
      forall t | t in FullEntries(entries, base)
        ensures exists i :: 0 <= i < |entries| && entries[i].allowed && t == Full(entries[i], base + [entries[i].name])
      {
        if t in FullEntries(rest, base) {
          var i :| 0 <= i < |rest| && rest[i].allowed && t == Full(rest[i], base + [rest[i].name]);
          assert entries[i + 1] == rest[i];
        }
      }
    }
  }

  /** Every path listed lies below the tree's own. */
  lemma {:induction false} ListedBelow(e: Entry, base: Path, path: Path)
    requires Lists(Full(e, base), path)
    ensures base <= path
    decreases e
  {
    var t := Full(e, base);
    if t.path != path {
      var i :| 0 <= i < |t.children| && Lists(t.children[i], path);
      FullChildren(e.entries, base);
      assert t.children[i] in FullEntries(e.entries, base);
      var j :| 0 <= j < |e.entries| && e.entries[j].allowed &&
          t.children[i] == Full(e.entries[j], base + [e.entries[j].name]);
      ListedBelow(e.entries[j], base + [e.entries[j].name], path);
      assert (base + [e.entries[j].name])[..|base|] == base;
    }
  }

  lemma ListedChild(e: Entry, base: Path, names: Path) returns (j: nat)
    requires names != [] && Lists(Full(e, base), base + names)
    ensures e.Dir? && e.readable && j < |e.entries| && e.entries[j].allowed && e.entries[j].name == names[0]
    ensures Lists(Full(e.entries[j], base + [names[0]]), base + [names[0]] + names[1..])
  {
    var t, path := Full(e, base), base + names;
    var i :| 0 <= i < |t.children| && Lists(t.children[i], path);
    FullChildren(e.entries, base);
    assert t.children[i] in FullEntries(e.entries, base);
    j :| 0 <= j < |e.entries| && e.entries[j].allowed &&
        t.children[i] == Full(e.entries[j], base + [e.entries[j].name]);
    var below := base + [e.entries[j].name];
    ListedBelow(e.entries[j], below, path);
    assert e.entries[j].name == below[|base|] == path[|base|] == names[0];
    assert path == below + names[1..];
  }

  lemma ChildListed(e: Entry, base: Path, names: Path, j: nat)
    requires names != [] && e.Dir? && e.readable && j < |e.entries| && e.entries[j].allowed &&
        e.entries[j].name == names[0]
    requires Lists(Full(e.entries[j], base + [names[0]]), base + [names[0]] + names[1..])
    ensures Lists(Full(e, base), base + names)
  {
    FullChildren(e.entries, base);
    var t, child := Full(e, base), Full(e.entries[j], base + [names[0]]);
    assert child in FullEntries(e.entries, base);
    var i :| 0 <= i < |t.children| && t.children[i] == child;
    assert base + [names[0]] + names[1..] == base + names;
  }

  /** The complete tree lists exactly the paths that lead through allowed, readable directories. */
  lemma {:induction false} FullListsIff(e: Entry, base: Path, names: Path)
    ensures Lists(Full(e, base), base + names) <==> Reaches(e, names)
    decreases |names|
  {
    hide Lists, Full;
    if names == [] {
      assert base + names == base;
      RootListed(e, base);
    } else {
      if Lists(Full(e, base), base + names) {
        var j := ListedChild(e, base, names);
        FullListsIff(e.entries[j], base + [names[0]], names[1..]);
      }
      if Reaches(e, names) {
        var j :| 0 <= j < |e.entries| && e.entries[j].allowed && e.entries[j].name == names[0] &&
                 Reaches(e.entries[j], names[1..]);
        FullListsIff(e.entries[j], base + [names[0]], names[1..]);
        ChildListed(e, base, names, j);
      }
    }
  }

  lemma RootListed(e: Entry, base: Path)
    ensures Lists(Full(e, base), base)
  {
  }

  // ---------- completeness, and what the flag says ----------

  lemma {:induction false} WalkCompletes(lim: Limits, d: Entry, path: Path, depth: nat, count: nat, truncated: bool)
    requires d.Dir?
    ensures var r, full := Walk(lim, d, path, depth, count, truncated), Full(d, path);
            && count <= r.count <= count + Size(full)
            && (!TooDeep(full, depth, lim.maxDepth) && (r.count < lim.maxNodes || count + Size(full) <= lim.maxNodes)
                ==> r.tree == full && r.count == count + Size(full))
    decreases d
  {
    if count < lim.maxNodes && depth <= lim.maxDepth && d.readable {
      WalkEntriesComplete(lim, d.entries, path, depth, count + 1, truncated);
    }
  }

  lemma {:induction false} WalkEntriesComplete(lim: Limits, entries: seq<Entry>, path: Path, depth: nat,
      count: nat, truncated: bool)
    ensures var r, full := WalkEntries(lim, entries, path, depth, count, truncated), FullEntries(entries, path);
            && count <= r.count <= count + SizeAll(full)
            && (!AnyTooDeep(full, depth + 1, lim.maxDepth) &&
                (r.count < lim.maxNodes || count + SizeAll(full) <= lim.maxNodes)
                ==> r.trees == full && r.count == count + SizeAll(full))
    decreases entries
  {
    if entries != [] {
      if !entries[0].allowed {
        WalkEntriesComplete(lim, entries[1..], path, depth, count, truncated);
      } else {
        if entries[0].Dir? { WalkCompletes(lim, entries[0], path + [entries[0].name], depth + 1, count, truncated); }
        var first := WalkEntry(lim, entries[0], path, depth, count, truncated);
        Cons(Full(entries[0], path + [entries[0].name]), FullEntries(entries[1..], path), depth + 1, lim.maxDepth);
        if first.count < lim.maxNodes {
          WalkEntriesComplete(lim, entries[1..], path, depth, first.count, first.truncated);
        }
      }
    }
  }

  lemma {:induction false} WalkFlag(lim: Limits, d: Entry, path: Path, depth: nat, count: nat, truncated: bool)
    requires d.Dir?
    ensures var full := Full(d, path);
            Walk(lim, d, path, depth, count, truncated).truncated <==>
            || truncated || count >= lim.maxNodes || TooDeep(full, depth, lim.maxDepth)
            || (Size(full) >= 2 && count + Size(full) >= lim.maxNodes)
    decreases d
  {
    if count < lim.maxNodes && depth <= lim.maxDepth && d.readable {
      WalkEntriesFlag(lim, d.entries, path, depth, count + 1, truncated);
      assert Full(d, path).children == FullEntries(d.entries, path);
      assert Size(Full(d, path)) == 1 + SizeAll(FullEntries(d.entries, path));
    } else if count < lim.maxNodes && depth <= lim.maxDepth {
      assert Full(d, path).children == [];
    }
  }

  lemma {:induction false} WalkEntriesFlag(lim: Limits, entries: seq<Entry>, path: Path, depth: nat, count: nat,
      truncated: bool)
    ensures var full := FullEntries(entries, path);
            WalkEntries(lim, entries, path, depth, count, truncated).truncated <==>
            || truncated || AnyTooDeep(full, depth + 1, lim.maxDepth)
            || (full != [] && count + SizeAll(full) >= lim.maxNodes)
    decreases entries
  {
    if entries != [] {
      if !entries[0].allowed {
        WalkEntriesFlag(lim, entries[1..], path, depth, count, truncated);
      } else {
        if entries[0].Dir? {
          WalkFlag(lim, entries[0], path + [entries[0].name], depth + 1, count, truncated);
          WalkCompletes(lim, entries[0], path + [entries[0].name], depth + 1, count, truncated);
        }
        var first := WalkEntry(lim, entries[0], path, depth, count, truncated);
        Cons(Full(entries[0], path + [entries[0].name]), FullEntries(entries[1..], path), depth + 1, lim.maxDepth);
        if first.count < lim.maxNodes {
          WalkEntriesFlag(lim, entries[1..], path, depth, first.count, first.truncated);
        }
      }
    }
  }

  // ---------- the main results ----------

  function RepoTree(lim: Limits, root: Entry): Walked
    requires root.Dir?
  {
    Walk(lim, root, [], 0, 0, false)
  }

  /** Bounds, for limits that are not negative. */
  lemma Bounds(lim: Limits, root: Entry)
    requires root.Dir? && lim.maxNodes >= 0 && lim.maxDepth >= 0
    ensures Size(RepoTree(lim, root).tree) <= lim.maxNodes + 1
    ensures Height(RepoTree(lim, root).tree) <= lim.maxDepth + 1
    ensures Pruned(RepoTree(lim, root).tree, Full(root, []))
    ensures MarksOk(RepoTree(lim, root).tree, 0, lim, RepoTree(lim, root).count >= lim.maxNodes)
  {
    WalkMarks(lim, root, [], 0, 0, false);
    WalkSize(lim, root, [], 0, 0, false);
    WalkHeight(lim, root, [], 0, 0, false);
    WalkPrunes(lim, root, [], 0, 0, false);
  }

  /** The `truncated` flag of the root, exactly. */
  lemma TruncatedIff(lim: Limits, root: Entry)
    requires root.Dir?
    ensures var full := Full(root, []);
            RepoTree(lim, root).truncated <==>
            || lim.maxNodes <= 0 || TooDeep(full, 0, lim.maxDepth)
            || (Size(full) >= 2 && Size(full) >= lim.maxNodes)
  {
    WalkFlag(lim, root, [], 0, 0, false);
  }

  /** An unflagged tree is complete; a tree of exactly `maxNodes` nodes is complete too, but flagged. */
  lemma UnflaggedIsComplete(lim: Limits, root: Entry)
    requires root.Dir?
    ensures !RepoTree(lim, root).truncated ==> RepoTree(lim, root).tree == Full(root, [])
    ensures var full := Full(root, []);
            !TooDeep(full, 0, lim.maxDepth) && Size(full) == lim.maxNodes >= 2 ==>
            RepoTree(lim, root).tree == full && RepoTree(lim, root).truncated
  {
    TruncatedIff(lim, root);
    WalkCompletes(lim, root, [], 0, 0, false);
  }
}
