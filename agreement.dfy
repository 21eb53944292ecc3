/**
 * The text listing and the structured tree describe the same entries: with no depth limit and
 * every reachable directory readable, the lines of the text walk, read top to bottom, are the
 * pre-order outline of the tree `buildTree` returns, and the summary counts are its node
 * counts.
 */
module Agreement {
  import opened Wrappers
  import opened Paths
  import opened FileSystem
  import opened Policy
  import opened Sorting
  import opened Builder
  import opened TextRender
  import opened TextProperties

  type Label = (string, bool)

  /** The (name, is-directory) labels of the nodes in pre-order: each node, then its subtree. */
  function Outline(ns: seq<Node>): seq<Label>
    decreases ns
  {
    if ns == [] then []
    else [(ns[0].name, ns[0].isDir)] + Outline(ns[0].children) + Outline(ns[1..])
  }

  /** The (name, is-directory) labels of the drawn lines, top to bottom. */
  function LineLabels(ls: seq<Line>): (r: seq<Label>)
    ensures |r| == |ls| && forall k :: 0 <= k < |ls| ==> r[k] == (ls[k].name, ls[k].isDir)
  {
    if ls == [] then [] else [(ls[0].name, ls[0].isDir)] + LineLabels(ls[1..])
  }

  /** How many labels are directories (dirs) or files (!dirs). */
  function CountLabels(xs: seq<Label>, dirs: bool): nat {
    if xs == [] then 0 else (if xs[0].1 == dirs then 1 else 0) + CountLabels(xs[1..], dirs)
  }

  lemma {:induction false} CountLabelsAppend(a: seq<Label>, b: seq<Label>, dirs: bool)
    ensures CountLabels(a + b, dirs) == CountLabels(a, dirs) + CountLabels(b, dirs)
    decreases |a|
  {
    if a == [] {
      assert a + b == b;
    } else {
      assert (a + b)[0] == a[0] && (a + b)[1..] == a[1..] + b;
      CountLabelsAppend(a[1..], b, dirs);
    }
  }

  lemma {:induction false} CountLinesIsCountLabels(ls: seq<Line>, dirs: bool)
    ensures CountLines(ls, dirs) == CountLabels(LineLabels(ls), dirs)
    decreases |ls|
  {
    if ls != [] {
      assert LineLabels(ls)[1..] == LineLabels(ls[1..]);
      CountLinesIsCountLabels(ls[1..], dirs);
    }
  }

  lemma {:induction false} NodeCountsAreOutlineCounts(ns: seq<Node>)
    ensures DirNodes(ns) == CountLabels(Outline(ns), true)
    ensures FileNodes(ns) == CountLabels(Outline(ns), false)
    decreases ns
  {
    if ns != [] {
      NodeCountsAreOutlineCounts(ns[0].children);
      NodeCountsAreOutlineCounts(ns[1..]);
      var head: seq<Label> := [(ns[0].name, ns[0].isDir)];
      CountLabelsAppend(head, Outline(ns[0].children), true);
      CountLabelsAppend(head, Outline(ns[0].children), false);
      CountLabelsAppend(head + Outline(ns[0].children), Outline(ns[1..]), true);
      CountLabelsAppend(head + Outline(ns[0].children), Outline(ns[1..]), false);
    }
  }

  /** Every reachable directory can be opened and listed. */
  ghost predicate AllReadable(d: Entry)
    decreases d
  {
    d.isDir && d.readable && forall e :: e in d.children && e.isDir ==> AllReadable(e)
  }

  /** A fully readable tree never stops the text walk. */
  lemma {:induction false} AllReadableNotBlocked(opts: Options, d: Entry, depth: int)
    requires AllReadable(d)
    ensures !Blocked(opts, d, depth)
    decreases d
  {
    forall e | e in d.children && Visible(e, opts) && e.isDir ensures !Blocked(opts, e, depth + 1) {
      AllReadableNotBlocked(opts, e, depth + 1);
    }
  }

  lemma {:induction false} DirAgrees(opts: Options, d: Entry, prefix: string, name: string, depth: int)
    requires opts.maxDepth == -1 && !Blocked(opts, d, depth)
    ensures BuildTree(opts, d, name, depth).Some?
    ensures LineLabels(SkippingDir(opts, d, prefix, depth)) == Outline(BuildTree(opts, d, name, depth).value.children)
    decreases d, 1
  {
    var es := SortEntries(d.children, opts.sortBy, opts.order);
    SortEntriesSameMembers(d.children, opts.sortBy, opts.order);
    forall j | 0 <= j < |es| && Visible(es[j], opts) && es[j].isDir ensures !Blocked(opts, es[j], depth + 1) {
      assert es[j] in d.children by { assert es[j] in es; }
    }
    EntriesAgree(opts, d, es, 0, prefix, depth);
  }

  lemma {:induction false} EntriesAgree(opts: Options, d: Entry, es: seq<Entry>, i: nat, prefix: string, depth: int)
    requires opts.maxDepth == -1 && i <= |es| && forall e :: e in es ==> e in d.children
    requires forall j :: i <= j < |es| && Visible(es[j], opts) && es[j].isDir ==> !Blocked(opts, es[j], depth + 1)
    ensures LineLabels(SkippingEntries(opts, d, es, i, prefix, depth)) == Outline(BuildChildren(opts, d, es, i, depth))
    decreases d, 0, |es| - i
  {
    if i < |es| {
      var e := es[i];
      var isLast := i == |es| - 1;
      assert e in d.children by { assert e in es; }
      EntriesAgree(opts, d, es, i + 1, prefix, depth);
      var one := SkippingEntry(opts, e, isLast, prefix, depth);
      var later := SkippingEntries(opts, d, es, i + 1, prefix, depth);
      var rest := BuildChildren(opts, d, es, i + 1, depth);
      LabelsAppend(one, later);
      if Visible(e, opts) {
        if e.isDir {
          var p := prefix + Indent(isLast);
          DirAgrees(opts, e, p, e.name, depth + 1);
          var child := BuildTree(opts, e, e.name, depth + 1).value;
          LabelsAppend([Line(prefix, isLast, e.name, true)], SkippingDir(opts, e, p, depth + 1));
          assert ([child] + rest)[0] == child && ([child] + rest)[1..] == rest;
        } else if PassesExtFilter(e.name, opts.extFilter) {
          var leaf := Node(e.name, false, []);
          assert ([leaf] + rest)[0] == leaf && ([leaf] + rest)[1..] == rest;
        }
      }
    }
  }

  lemma LabelsAppend(a: seq<Line>, b: seq<Line>)
    ensures LineLabels(a + b) == LineLabels(a) + LineLabels(b)
  {
  }

  /** With no depth limit and no reachable directory unreadable, the text walk completes, its
      lines are the pre-order outline of the tree `buildTree` returns for the same root, and the
      directory and file counts it prints are the tree's node counts. */
  lemma TextMatchesTree(opts: Options, absRoot: string, root: Entry)
    requires opts.maxDepth == -1 && !Blocked(opts, root, 0)
    ensures var w := WalkDir(opts, root, absRoot, "", 0);
      var t := BuildTree(opts, root, Base(absRoot), 0);
      && w.err.None? && t.Some?
      && LineLabels(w.lines) == Outline(t.value.children)
      && CountLines(w.lines, true) == DirNodes(t.value.children)
      && CountLines(w.lines, false) == FileNodes(t.value.children)
  {
    var w := WalkDir(opts, root, absRoot, "", 0);
    WalkFailsIffBlocked(opts, root, absRoot, "", 0);
    WalkIsPrefixOfSkipping(opts, root, absRoot, "", 0);
    DirAgrees(opts, root, "", Base(absRoot), 0);
    var t := BuildTree(opts, root, Base(absRoot), 0).value;
    CountLinesIsCountLabels(w.lines, true);
    CountLinesIsCountLabels(w.lines, false);
    NodeCountsAreOutlineCounts(t.children);
  }
}
