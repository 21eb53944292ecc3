/**
 * `buildTree`: the tree of `Node`s handed to the JSON, XML and YAML encoders.
 */
module Builder {
  import opened Wrappers
  import opened Strings
  import opened FileSystem
  import opened Policy
  import opened Sorting

  /** `Node`: a directory or file of the structured output. */
  datatype Node = Node(name: string, isDir: bool, children: seq<Node>)

  /** `buildTree(currentDir, ..., depth)`. The node is named `name`, which is
      `filepath.Base(currentDir)`: Base(absRoot) for the root, and the entry's own name below it
      (see Paths.BaseOfJoin). Nil becomes None. */
  function BuildTree(opts: Options, d: Entry, name: string, depth: int): (r: Option<Node>)
    ensures r.None? <==> DepthReached(opts, depth) || !d.isDir || !d.readable
    ensures r.Some? ==> r.value.name == name && r.value.isDir
    decreases d, 1
  {
    if DepthReached(opts, depth) then None
    else
      match Listing(d)
      case None => None
      case Some(entries) =>
        var sorted := SortEntries(entries, opts.sortBy, opts.order);
        SortEntriesSameMembers(entries, opts.sortBy, opts.order);
        Some(Node(name, true, BuildChildren(opts, d, sorted, 0, depth)))
  }

  /** The loop of `buildTree` over the sorted entries from index i on. */
  function BuildChildren(opts: Options, d: Entry, es: seq<Entry>, i: nat, depth: int): seq<Node>
    requires i <= |es| && forall e :: e in es ==> e in d.children
    decreases d, 0, |es| - i
  {
    if i == |es| then []
    else
      var e := es[i];
      assert e in d.children by { assert e in es; }
      var rest := BuildChildren(opts, d, es, i + 1, depth);
      if !Visible(e, opts) then rest
      else if e.isDir then
        match BuildTree(opts, e, e.name, depth + 1)
        case None => rest
        case Some(child) => [child] + rest
      else if PassesExtFilter(e.name, opts.extFilter) then [Node(e.name, false, [])] + rest
      else rest
  }

  /** Whether an entry turns into a child node: it passes the hidden-name rule and the
      exclusions, and it is a file passing the extension filter or a directory whose own build
      is not nil. */
  predicate Kept(opts: Options, e: Entry, depth: int) {
    Visible(e, opts) &&
    if e.isDir then BuildTree(opts, e, e.name, depth + 1).Some? else PassesExtFilter(e.name, opts.extFilter)
  }

  /** The node an entry that is kept turns into. */
  function ChildNode(opts: Options, e: Entry, depth: int): Node
    requires Kept(opts, e, depth)
  {
    if e.isDir then BuildTree(opts, e, e.name, depth + 1).value else Node(e.name, false, [])
  }

  /** The (name, is-directory) label of an entry and of a node. */
  function EntryLabels(es: seq<Entry>): (r: seq<(string, bool)>)
    ensures |r| == |es| && forall k :: 0 <= k < |es| ==> r[k] == (es[k].name, es[k].isDir)
  {
    if es == [] then [] else [(es[0].name, es[0].isDir)] + EntryLabels(es[1..])
  }

  function NodeLabels(ns: seq<Node>): (r: seq<(string, bool)>)
    ensures |r| == |ns| && forall k :: 0 <= k < |ns| ==> r[k] == (ns[k].name, ns[k].isDir)
  {
    if ns == [] then [] else [(ns[0].name, ns[0].isDir)] + NodeLabels(ns[1..])
  }

  /** xs occurs in ys in order, possibly with gaps. */
  predicate IsSubsequence<T(==)>(xs: seq<T>, ys: seq<T>)
    decreases |ys|
  {
    if xs == [] then true
    else if ys == [] then false
    else if xs[0] == ys[0] then IsSubsequence(xs[1..], ys[1..])
    else IsSubsequence(xs, ys[1..])
  }

  lemma {:induction false} SubsequenceOfTail<T>(xs: seq<T>, y: T, ys: seq<T>)
    requires IsSubsequence(xs, ys)
    ensures IsSubsequence(xs, [y] + ys)
    decreases |ys|, 1
  {
    var yys := [y] + ys;
    assert yys[1..] == ys;
    if xs != [] && xs[0] == y {
      // greedy matching takes y; the rest of xs must still fit in ys
      assert ys != [];
      SubsequenceDropFirst(xs, ys);
    }
  }

  lemma {:induction false} SubsequenceDropFirst<T>(xs: seq<T>, ys: seq<T>)
    requires xs != [] && IsSubsequence(xs, ys)
    ensures IsSubsequence(xs[1..], ys)
    decreases |ys|, 0
  {
    if xs[0] == ys[0] {
      if xs[1..] != [] {
        SubsequenceDropFirst(xs[1..], ys[1..]);
        assert xs[1..][1..] == xs[2..];
        SubsequenceOfTail(xs[1..], ys[0], ys[1..]);
        assert [ys[0]] + ys[1..] == ys;
      }
    } else {
      SubsequenceDropFirst(xs, ys[1..]);
      SubsequenceOfTail(xs[1..], ys[0], ys[1..]);
      assert [ys[0]] + ys[1..] == ys;
    }
  }

  /** The children built from es[i..]: in the order of the sorted listing, exactly the nodes of
      the kept entries. In particular a directory whose own build is nil is omitted. */
  lemma BuildChildrenExact(opts: Options, d: Entry, es: seq<Entry>, i: nat, depth: int)
    requires i <= |es| && forall e :: e in es ==> e in d.children
    ensures var cs := BuildChildren(opts, d, es, i, depth);
      && IsSubsequence(NodeLabels(cs), EntryLabels(es[i..]))
      && (forall c :: c in cs ==> exists j :: i <= j < |es| && Kept(opts, es[j], depth) && c == ChildNode(opts, es[j], depth))
      && (forall j :: i <= j < |es| && Kept(opts, es[j], depth) ==> ChildNode(opts, es[j], depth) in cs)
  {
    BuildChildrenOrdered(opts, d, es, i, depth);
    BuildChildrenSound(opts, d, es, i, depth);
    BuildChildrenComplete(opts, d, es, i, depth);
  }

  /** The loop takes one entry: a kept entry gives its node before the rest, any other gives
      nothing. */
  lemma BuildChildrenStep(opts: Options, d: Entry, es: seq<Entry>, i: nat, depth: int)
    requires i < |es| && forall e :: e in es ==> e in d.children
    ensures Kept(opts, es[i], depth) ==>
      BuildChildren(opts, d, es, i, depth) == [ChildNode(opts, es[i], depth)] + BuildChildren(opts, d, es, i + 1, depth)
    ensures !Kept(opts, es[i], depth) ==> BuildChildren(opts, d, es, i, depth) == BuildChildren(opts, d, es, i + 1, depth)
  {
    assert es[i] in d.children by { assert es[i] in es; }
  }

  lemma {:induction false} BuildChildrenOrdered(opts: Options, d: Entry, es: seq<Entry>, i: nat, depth: int)
    requires i <= |es| && forall e :: e in es ==> e in d.children
    ensures IsSubsequence(NodeLabels(BuildChildren(opts, d, es, i, depth)), EntryLabels(es[i..]))
    decreases |es| - i
  {
    if i < |es| {
      var e := es[i];
      var cs := BuildChildren(opts, d, es, i, depth);
      var rest := BuildChildren(opts, d, es, i + 1, depth);
      BuildChildrenOrdered(opts, d, es, i + 1, depth);
      BuildChildrenStep(opts, d, es, i, depth);
      assert es[i..] == [e] + es[i + 1..];
      assert EntryLabels(es[i..])[1..] == EntryLabels(es[i + 1..]);
      if Kept(opts, e, depth) {
        assert NodeLabels(cs)[1..] == NodeLabels(rest);
        assert NodeLabels(cs)[0] == EntryLabels(es[i..])[0];
      } else {
        SubsequenceOfTail(NodeLabels(rest), (e.name, e.isDir), EntryLabels(es[i + 1..]));
        assert [(e.name, e.isDir)] + EntryLabels(es[i + 1..]) == EntryLabels(es[i..]);
      }
    }
  }

  lemma {:induction false} BuildChildrenSound(opts: Options, d: Entry, es: seq<Entry>, i: nat, depth: int)
    requires i <= |es| && forall e :: e in es ==> e in d.children
    ensures forall c :: c in BuildChildren(opts, d, es, i, depth) ==>
      exists j :: i <= j < |es| && Kept(opts, es[j], depth) && c == ChildNode(opts, es[j], depth)
    decreases |es| - i
  {
    if i < |es| {
      BuildChildrenSound(opts, d, es, i + 1, depth);
      BuildChildrenStep(opts, d, es, i, depth);
    }
  }

  lemma {:induction false} BuildChildrenComplete(opts: Options, d: Entry, es: seq<Entry>, i: nat, depth: int)
    requires i <= |es| && forall e :: e in es ==> e in d.children
    ensures forall j :: i <= j < |es| && Kept(opts, es[j], depth) ==> ChildNode(opts, es[j], depth) in BuildChildren(opts, d, es, i, depth)
    decreases |es| - i
  {
    if i < |es| {
      BuildChildrenComplete(opts, d, es, i + 1, depth);
      BuildChildrenStep(opts, d, es, i, depth);
    }
  }

  /** Every node below n obeys the filters: a shown name, no exclusion pattern matching it, and
      for a file the extension filter and no children. */
  ghost predicate ChildrenFiltered(opts: Options, n: Node)
    decreases n
  {
    forall c :: c in n.children ==>
      && ShowsHidden(c.name, opts.includeHidden)
      && !IsExcluded(c.name, opts.excludePatterns, opts.matcher)
      && (if c.isDir then ChildrenFiltered(opts, c) else PassesExtFilter(c.name, opts.extFilter) && c.children == [])
  }

  /** The filters hold at every level of a built tree. */
  lemma {:induction false} BuildTreeFiltered(opts: Options, d: Entry, name: string, depth: int)
    ensures BuildTree(opts, d, name, depth).Some? ==> ChildrenFiltered(opts, BuildTree(opts, d, name, depth).value)
    decreases d
  {
    if !DepthReached(opts, depth) && d.isDir && d.readable {
      var es := SortEntries(d.children, opts.sortBy, opts.order);
      SortEntriesSameMembers(d.children, opts.sortBy, opts.order);
      var n := BuildTree(opts, d, name, depth).value;
      assert n.children == BuildChildren(opts, d, es, 0, depth);
      BuildChildrenExact(opts, d, es, 0, depth);
      forall c | c in n.children
        ensures && ShowsHidden(c.name, opts.includeHidden)
                && !IsExcluded(c.name, opts.excludePatterns, opts.matcher)
                && (if c.isDir then ChildrenFiltered(opts, c) else PassesExtFilter(c.name, opts.extFilter) && c.children == [])
      {
        var j :| 0 <= j < |es| && Kept(opts, es[j], depth) && c == ChildNode(opts, es[j], depth);
        var e := es[j];
        assert e in d.children by { assert e in es; }
        if e.isDir {
          BuildTreeFiltered(opts, e, e.name, depth + 1);
        }
      }
    }
  }

  /** One level above the depth limit, a built node keeps its files but no subdirectories
      (their own build is nil, and nil children are dropped). */
  lemma DepthLimitDropsSubdirs(opts: Options, d: Entry, name: string, depth: int)
    requires opts.maxDepth != -1 && depth + 1 == opts.maxDepth
    ensures BuildTree(opts, d, name, depth).Some? ==> forall c :: c in BuildTree(opts, d, name, depth).value.children ==> !c.isDir
  {
    if BuildTree(opts, d, name, depth).Some? {
      var es := SortEntries(d.children, opts.sortBy, opts.order);
      SortEntriesSameMembers(d.children, opts.sortBy, opts.order);
      BuildChildrenExact(opts, d, es, 0, depth);
    }
  }

  /** The number of directory nodes and of file nodes strictly below the given nodes. */
  function DirNodes(ns: seq<Node>): nat
    decreases ns
  {
    if ns == [] then 0
    else (if ns[0].isDir then 1 else 0) + DirNodes(ns[0].children) + DirNodes(ns[1..])
  }

  function FileNodes(ns: seq<Node>): nat
    decreases ns
  {
    if ns == [] then 0
    else (if ns[0].isDir then 0 else 1) + FileNodes(ns[0].children) + FileNodes(ns[1..])
  }
}
