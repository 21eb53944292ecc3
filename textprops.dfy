/**
 * What the text traversal promises: when it stops on a read error, how its output relates to
 * a walk that skips unreadable directories instead, how prefixes nest, which entry gets the
 * last-sibling connector, and what the depth limit does.
 */
module TextProperties {
  import opened Wrappers
  import opened Strings
  import opened Paths
  import opened FileSystem
  import opened Policy
  import opened Sorting
  import opened TextRender

  // ---------------------------------------------------------------------------------------
  // Read errors

  /** The walk from d reaches a directory it cannot open or list: d itself, or a visible
      subdirectory, within the depth limit. */
  ghost predicate Blocked(opts: Options, d: Entry, depth: int)
    decreases d
  {
    !DepthReached(opts, depth) &&
    (!d.isDir || !d.readable ||
     exists e :: e in d.children && Visible(e, opts) && e.isDir && Blocked(opts, e, depth + 1))
  }

  /** The traversal fails exactly when it reaches an unreadable directory. */
  lemma {:induction false} WalkFailsIffBlocked(opts: Options, d: Entry, path: string, prefix: string, depth: int)
    ensures WalkDir(opts, d, path, prefix, depth).err.Some? <==> Blocked(opts, d, depth)
    decreases d, 1
  {
    if !DepthReached(opts, depth) && d.isDir && d.readable {
      var es := SortEntries(d.children, opts.sortBy, opts.order);
      SortEntriesSameMembers(d.children, opts.sortBy, opts.order);
      EntriesFailIffBlocked(opts, d, es, 0, path, prefix, depth);
      if Blocked(opts, d, depth) {
        var e :| e in d.children && Visible(e, opts) && e.isDir && Blocked(opts, e, depth + 1);
        assert e in es;
        var j :| 0 <= j < |es| && es[j] == e;
      }
    }
  }

  lemma {:induction false} EntriesFailIffBlocked(opts: Options, d: Entry, es: seq<Entry>, i: nat, path: string, prefix: string, depth: int)
    requires i <= |es| && forall e :: e in es ==> e in d.children
    ensures WalkEntries(opts, d, es, i, path, prefix, depth).err.Some? <==>
      exists j :: i <= j < |es| && Visible(es[j], opts) && es[j].isDir && Blocked(opts, es[j], depth + 1)
    decreases d, 0, |es| - i
  {
    if i < |es| {
      var e := es[i];
      assert e in d.children by { assert e in es; }
      if Visible(e, opts) && e.isDir {
        WalkFailsIffBlocked(opts, e, Join(path, e.name), prefix + Indent(i == |es| - 1), depth + 1);
      }
      EntriesFailIffBlocked(opts, d, es, i + 1, path, prefix, depth);
    }
  }

  // ---------------------------------------------------------------------------------------
  // The walk that skips unreadable directories

  /** A walk that lists an unreadable directory, skips its subtree and goes on. It differs
      from WalkDir only in not stopping. */
  function SkippingDir(opts: Options, d: Entry, prefix: string, depth: int): seq<Line>
    decreases d, 1
  {
    if DepthReached(opts, depth) || !d.isDir || !d.readable then []
    else
      var es := SortEntries(d.children, opts.sortBy, opts.order);
      SortEntriesSameMembers(d.children, opts.sortBy, opts.order);
      SkippingEntries(opts, d, es, 0, prefix, depth)
  }

  function SkippingEntries(opts: Options, d: Entry, es: seq<Entry>, i: nat, prefix: string, depth: int): seq<Line>
    requires i <= |es| && forall e :: e in es ==> e in d.children
    decreases d, 0, |es| - i
  {
    if i == |es| then []
    else
      assert es[i] in d.children by { assert es[i] in es; }
      SkippingEntry(opts, es[i], i == |es| - 1, prefix, depth) + SkippingEntries(opts, d, es, i + 1, prefix, depth)
  }

  function SkippingEntry(opts: Options, e: Entry, isLast: bool, prefix: string, depth: int): seq<Line>
    decreases e, 2
  {
    if !Visible(e, opts) then []
    else if e.isDir then [Line(prefix, isLast, e.name, true)] + SkippingDir(opts, e, prefix + Indent(isLast), depth + 1)
    else if PassesExtFilter(e.name, opts.extFilter) then [Line(prefix, isLast, e.name, false)]
    else []
  }

  /** A read error cuts the listing short and nothing else: the lines drawn are a prefix of
      the lines of the walk that skips unreadable directories, all of them when no error
      occurred, and a stopped walk ends with the line of the directory it was inside. */
  lemma {:induction false} WalkIsPrefixOfSkipping(opts: Options, d: Entry, path: string, prefix: string, depth: int)
    ensures var w := WalkDir(opts, d, path, prefix, depth);
      && w.lines <= SkippingDir(opts, d, prefix, depth)
      && (w.err.None? ==> w.lines == SkippingDir(opts, d, prefix, depth))
      && (w.err.Some? && w.lines != [] ==> w.lines[|w.lines| - 1].isDir)
    decreases d, 1
  {
    if !DepthReached(opts, depth) && d.isDir && d.readable {
      var es := SortEntries(d.children, opts.sortBy, opts.order);
      SortEntriesSameMembers(d.children, opts.sortBy, opts.order);
      EntriesArePrefixOfSkipping(opts, d, es, 0, path, prefix, depth);
    }
  }

  lemma {:induction false} EntriesArePrefixOfSkipping(opts: Options, d: Entry, es: seq<Entry>, i: nat, path: string, prefix: string, depth: int)
    requires i <= |es| && forall e :: e in es ==> e in d.children
    ensures var w := WalkEntries(opts, d, es, i, path, prefix, depth);
      && w.lines <= SkippingEntries(opts, d, es, i, prefix, depth)
      && (w.err.None? ==> w.lines == SkippingEntries(opts, d, es, i, prefix, depth))
      && (w.err.Some? ==> w.lines != [] && w.lines[|w.lines| - 1].isDir)
    decreases d, 0, |es| - i
  {
    if i < |es| {
      var e := es[i];
      var isLast := i == |es| - 1;
      assert e in d.children by { assert e in es; }
      EntryIsPrefixOfSkipping(opts, e, isLast, path, prefix, depth);
      EntriesArePrefixOfSkipping(opts, d, es, i + 1, path, prefix, depth);
      PrefixStep(EntryWalk(opts, e, isLast, path, prefix, depth), SkippingEntry(opts, e, isLast, prefix, depth),
        WalkEntries(opts, d, es, i + 1, path, prefix, depth), SkippingEntries(opts, d, es, i + 1, prefix, depth));
    }
  }

  /** A walk that is a prefix of its skipping lines, in the sense above. */
  ghost predicate PrefixOf(w: Walk, skip: seq<Line>) {
    && w.lines <= skip
    && (w.err.None? ==> w.lines == skip)
    && (w.err.Some? ==> w.lines != [] && w.lines[|w.lines| - 1].isDir)
  }

  /** One entry followed by the rest of the loop keeps PrefixOf. */
  lemma PrefixStep(step: Walk, skip: seq<Line>, rest: Walk, later: seq<Line>)
    requires PrefixOf(step, skip) && PrefixOf(rest, later)
    ensures PrefixOf(if step.err.Some? then step else Then(step.lines, rest), skip + later)
  {
    if step.err.None? {
      var w := Then(step.lines, rest);
      PrefixConcat(step.lines, rest.lines, later);
      if w.err.Some? {
        assert w.lines[|w.lines| - 1] == rest.lines[|rest.lines| - 1];
      }
    } else {
      assert (skip + later)[..|skip|] == skip;
    }
  }

  lemma {:induction false} EntryIsPrefixOfSkipping(opts: Options, e: Entry, isLast: bool, path: string, prefix: string, depth: int)
    ensures var step := EntryWalk(opts, e, isLast, path, prefix, depth);
      var skip := SkippingEntry(opts, e, isLast, prefix, depth);
      && step.lines <= skip
      && (step.err.None? ==> step.lines == skip)
      && (step.err.Some? ==> step.lines != [] && step.lines[|step.lines| - 1].isDir)
    decreases e, 2
  {
    if Visible(e, opts) && e.isDir {
      var line := Line(prefix, isLast, e.name, true);
      var sub := WalkDir(opts, e, Join(path, e.name), prefix + Indent(isLast), depth + 1);
      WalkIsPrefixOfSkipping(opts, e, Join(path, e.name), prefix + Indent(isLast), depth + 1);
      var step := EntryWalk(opts, e, isLast, path, prefix, depth);
      assert step.lines == [line] + sub.lines;
      PrefixConcat([line], sub.lines, SkippingDir(opts, e, prefix + Indent(isLast), depth + 1));
      if sub.lines != [] {
        assert step.lines[|step.lines| - 1] == sub.lines[|sub.lines| - 1];
      }
    }
  }

  lemma PrefixConcat(a: seq<Line>, b: seq<Line>, c: seq<Line>)
    requires b <= c
    ensures a + b <= a + c
  {
    assert (a + c)[..|a + b|] == a + b;
  }


  // ---------------------------------------------------------------------------------------
  // Where a stopped walk stops

  /** A visible directory entry whose own walk fails. */
  ghost predicate BlockedEntry(opts: Options, e: Entry, depth: int) {
    Visible(e, opts) && e.isDir && Blocked(opts, e, depth + 1)
  }

  /** The skipping lines of es[i..j], entry by entry. */
  function SkippingRange(opts: Options, d: Entry, es: seq<Entry>, i: nat, j: nat, prefix: string, depth: int): seq<Line>
    requires i <= j <= |es| && forall e :: e in es ==> e in d.children
    decreases j - i
  {
    if i == j then []
    else
      assert es[i] in d.children by { assert es[i] in es; }
      SkippingEntry(opts, es[i], i == |es| - 1, prefix, depth) + SkippingRange(opts, d, es, i + 1, j, prefix, depth)
  }

  /** The skipping lines from i on are those of es[i..j] followed by those from j on. */
  lemma {:induction false} SkippingRangeSplits(opts: Options, d: Entry, es: seq<Entry>, i: nat, j: nat, prefix: string, depth: int)
    requires i <= j <= |es| && forall e :: e in es ==> e in d.children
    ensures SkippingEntries(opts, d, es, i, prefix, depth) ==
      SkippingRange(opts, d, es, i, j, prefix, depth) + SkippingEntries(opts, d, es, j, prefix, depth)
    decreases j - i
  {
    if i < j {
      SkippingRangeSplits(opts, d, es, i + 1, j, prefix, depth);
      assert es[i] in d.children by { assert es[i] in es; }
      var head := SkippingEntry(opts, es[i], i == |es| - 1, prefix, depth);
      assert SkippingRange(opts, d, es, i, j, prefix, depth) == head + SkippingRange(opts, d, es, i + 1, j, prefix, depth);
      assert SkippingEntries(opts, d, es, i, prefix, depth) == head + SkippingEntries(opts, d, es, i + 1, prefix, depth);
    }
  }

  /** Visiting one entry fails exactly when it is a blocked directory. */
  lemma EntryFailsIffBlocked(opts: Options, e: Entry, isLast: bool, path: string, prefix: string, depth: int)
    ensures EntryWalk(opts, e, isLast, path, prefix, depth).err.Some? <==> BlockedEntry(opts, e, depth)
  {
    if Visible(e, opts) && e.isDir {
      WalkFailsIffBlocked(opts, e, Join(path, e.name), prefix + Indent(isLast), depth + 1);
    }
  }

  /** The loop from index i, whose walk is w, was cut at entry j: j is the first visible,
      blocked directory from i on, w holds the skipping lines of es[i..j], then j's own line,
      then the lines of j's failed walk, and w reports that walk's error. */
  ghost predicate CutAt(opts: Options, d: Entry, es: seq<Entry>, i: nat, j: nat, path: string, prefix: string, depth: int, w: Walk)
    requires i <= j < |es| && forall e :: e in es ==> e in d.children
  {
    && BlockedEntry(opts, es[j], depth)
    && (forall k :: i <= k < j ==> !BlockedEntry(opts, es[k], depth))
    && var sub := WalkDir(opts, es[j], Join(path, es[j].name), prefix + Indent(j == |es| - 1), depth + 1);
       && sub.err.Some?
       && w.lines == SkippingRange(opts, d, es, i, j, prefix, depth) + [Line(prefix, j == |es| - 1, es[j].name, true)] + sub.lines
       && w.err == sub.err
  }

  /** A stopped loop stops at the first blocked directory of the sorted listing, and is then
      as CutAt describes. */
  lemma {:induction false} EntriesStopAtBlocked(opts: Options, d: Entry, es: seq<Entry>, i: nat, path: string, prefix: string, depth: int)
    requires i <= |es| && forall e :: e in es ==> e in d.children
    ensures var w := WalkEntries(opts, d, es, i, path, prefix, depth);
      w.err.Some? ==> exists j :: i <= j < |es| && CutAt(opts, d, es, i, j, path, prefix, depth, w)
    decreases |es| - i
  {
    if i < |es| && WalkEntries(opts, d, es, i, path, prefix, depth).err.Some? {
      if BlockedEntry(opts, es[i], depth) {
        CutHere(opts, d, es, i, path, prefix, depth);
      } else {
        EntryNotBlockedGoesOn(opts, d, es, i, path, prefix, depth);
        EntriesStopAtBlocked(opts, d, es, i + 1, path, prefix, depth);
        var j :| i + 1 <= j < |es| && CutAt(opts, d, es, i + 1, j, path, prefix, depth, WalkEntries(opts, d, es, i + 1, path, prefix, depth));
        CutLater(opts, d, es, i, j, path, prefix, depth);
      }
    }
  }

  /** A blocked entry cuts the loop at itself. */
  lemma CutHere(opts: Options, d: Entry, es: seq<Entry>, i: nat, path: string, prefix: string, depth: int)
    requires i < |es| && forall e :: e in es ==> e in d.children
    requires BlockedEntry(opts, es[i], depth)
    ensures CutAt(opts, d, es, i, i, path, prefix, depth, WalkEntries(opts, d, es, i, path, prefix, depth))
  {
    var e := es[i];
    var isLast := i == |es| - 1;
    EntryFailsIffBlocked(opts, e, isLast, path, prefix, depth);
    var sub := WalkDir(opts, e, Join(path, e.name), prefix + Indent(isLast), depth + 1);
    assert WalkEntries(opts, d, es, i, path, prefix, depth) == EntryWalk(opts, e, isLast, path, prefix, depth);
    assert SkippingRange(opts, d, es, i, i, prefix, depth) == [];
  }

  /** An entry that is not blocked draws its skipping lines and the loop goes on. */
  lemma EntryNotBlockedGoesOn(opts: Options, d: Entry, es: seq<Entry>, i: nat, path: string, prefix: string, depth: int)
    requires i < |es| && forall e :: e in es ==> e in d.children
    requires !BlockedEntry(opts, es[i], depth)
    ensures WalkEntries(opts, d, es, i, path, prefix, depth) ==
      Then(SkippingEntry(opts, es[i], i == |es| - 1, prefix, depth), WalkEntries(opts, d, es, i + 1, path, prefix, depth))
  {
    var e := es[i];
    var isLast := i == |es| - 1;
    EntryFailsIffBlocked(opts, e, isLast, path, prefix, depth);
    EntryIsPrefixOfSkipping(opts, e, isLast, path, prefix, depth);
  }

  /** A cut at j of the loop from i + 1 is a cut at j of the loop from i when entry i is not
      blocked. */
  lemma CutLater(opts: Options, d: Entry, es: seq<Entry>, i: nat, j: nat, path: string, prefix: string, depth: int)
    requires i < j < |es| && forall e :: e in es ==> e in d.children
    requires !BlockedEntry(opts, es[i], depth)
    requires WalkEntries(opts, d, es, i, path, prefix, depth) ==
      Then(SkippingEntry(opts, es[i], i == |es| - 1, prefix, depth), WalkEntries(opts, d, es, i + 1, path, prefix, depth))
    requires CutAt(opts, d, es, i + 1, j, path, prefix, depth, WalkEntries(opts, d, es, i + 1, path, prefix, depth))
    ensures CutAt(opts, d, es, i, j, path, prefix, depth, WalkEntries(opts, d, es, i, path, prefix, depth))
  {
    var first := SkippingEntry(opts, es[i], i == |es| - 1, prefix, depth);
    var line := Line(prefix, j == |es| - 1, es[j].name, true);
    var sub := WalkDir(opts, es[j], Join(path, es[j].name), prefix + Indent(j == |es| - 1), depth + 1);
    var later := SkippingRange(opts, d, es, i + 1, j, prefix, depth);
    assert es[i] in d.children by { assert es[i] in es; }
    assert SkippingRange(opts, d, es, i, j, prefix, depth) == first + later;
    LinesAssoc(first, later, [line], sub.lines);
  }

  lemma LinesAssoc(a: seq<Line>, b: seq<Line>, c: seq<Line>, d: seq<Line>)
    ensures a + (b + c + d) == a + b + c + d
  {
  }

  /** Within the depth limit, the walk from d reaches a directory at `target`, along visible
      directories, and that directory cannot be opened or listed. */
  ghost predicate ReachesUnreadableAt(opts: Options, d: Entry, path: string, depth: int, target: string)
    decreases d
  {
    !DepthReached(opts, depth) &&
    if !d.isDir || !d.readable then target == path
    else exists e :: (e in d.children && Visible(e, opts) && e.isDir &&
                      ReachesUnreadableAt(opts, e, Join(path, e.name), depth + 1, target))
  }

  /** The error a stopped walk reports names the path, built by Join from the root, of a
      directory it could not open or list. */
  lemma {:induction false} WalkErrorNamesUnreadable(opts: Options, d: Entry, path: string, prefix: string, depth: int)
    ensures var w := WalkDir(opts, d, path, prefix, depth);
      w.err.Some? ==> ReachesUnreadableAt(opts, d, path, depth, w.err.value.path)
    decreases d, 1
  {
    if !DepthReached(opts, depth) && d.isDir && d.readable {
      var es := SortEntries(d.children, opts.sortBy, opts.order);
      SortEntriesSameMembers(d.children, opts.sortBy, opts.order);
      EntriesErrorNamesUnreadable(opts, d, es, 0, path, prefix, depth);
    }
  }

  lemma {:induction false} EntriesErrorNamesUnreadable(opts: Options, d: Entry, es: seq<Entry>, i: nat, path: string, prefix: string, depth: int)
    requires i <= |es| && forall e :: e in es ==> e in d.children
    ensures var w := WalkEntries(opts, d, es, i, path, prefix, depth);
      w.err.Some? ==>
        exists e :: (e in d.children && Visible(e, opts) && e.isDir &&
                     ReachesUnreadableAt(opts, e, Join(path, e.name), depth + 1, w.err.value.path))
    decreases d, 0, |es| - i
  {
    if i < |es| {
      var e := es[i];
      var isLast := i == |es| - 1;
      assert e in d.children by { assert e in es; }
      if EntryWalk(opts, e, isLast, path, prefix, depth).err.Some? {
        WalkErrorNamesUnreadable(opts, e, Join(path, e.name), prefix + Indent(isLast), depth + 1);
      } else {
        EntriesErrorNamesUnreadable(opts, d, es, i + 1, path, prefix, depth);
      }
    }
  }
  // ---------------------------------------------------------------------------------------
  // Prefix structure

  /** A run of indents, each "    " or "│   ". */
  ghost predicate IsIndents(s: string)
    decreases |s|
  {
    s == [] || (|s| >= 4 && (s[..4] == Indent(true) || s[..4] == Indent(false)) && IsIndents(s[4..]))
  }

  /** p is the prefix `base` followed by indents. */
  ghost predicate Below(base: string, p: string) {
    |base| <= |p| && p[..|base|] == base && IsIndents(p[|base|..])
  }

  /** The first line sits at `prefix`. */
  ghost predicate StartsAt(ls: seq<Line>, prefix: string) {
    ls != [] ==> ls[0].prefix == prefix
  }

  /** Every line sits at `prefix` or deeper. */
  ghost predicate AllBelow(ls: seq<Line>, prefix: string) {
    forall k :: 0 <= k < |ls| ==> Below(prefix, ls[k].prefix)
  }

  /** A line deeper than the line before it follows a directory line and extends that line's
      prefix by the indent its connector calls for ("    " under the last sibling, "│   "
      otherwise). */
  ghost predicate StepsIndent(ls: seq<Line>) {
    forall k :: 0 < k < |ls| && |ls[k].prefix| > |ls[k - 1].prefix| ==>
      ls[k - 1].isDir && ls[k].prefix == ls[k - 1].prefix + Indent(ls[k - 1].last)
  }

  /** The prefix shape of the lines drawn under a directory whose entries get `prefix`. */
  ghost predicate Nested(ls: seq<Line>, prefix: string) {
    StartsAt(ls, prefix) && AllBelow(ls, prefix) && StepsIndent(ls)
  }

  lemma BelowOfIndent(prefix: string, isLast: bool, p: string)
    requires Below(prefix + Indent(isLast), p)
    ensures Below(prefix, p) && |p| >= |prefix| + 4
  {
    var q := prefix + Indent(isLast);
    assert p[..|prefix|] == q[..|prefix|] == prefix;
    var rest := p[|prefix|..];
    assert rest[..4] == Indent(isLast);
    assert rest[4..] == p[|q|..];
  }

  lemma AllBelowConcat(a: seq<Line>, b: seq<Line>, prefix: string)
    requires AllBelow(a, prefix) && AllBelow(b, prefix)
    ensures AllBelow(a + b, prefix)
  {
    forall k | 0 <= k < |a + b| ensures Below(prefix, (a + b)[k].prefix) {
      if k < |a| { assert (a + b)[k] == a[k]; } else { assert (a + b)[k] == b[k - |a|]; }
    }
  }

  lemma StepsIndentConcat(a: seq<Line>, b: seq<Line>, prefix: string)
    requires AllBelow(a, prefix) && StepsIndent(a) && StartsAt(b, prefix) && StepsIndent(b)
    ensures StepsIndent(a + b)
  {
    var ab := a + b;
    forall k | 0 < k < |ab| && |ab[k].prefix| > |ab[k - 1].prefix|
      ensures ab[k - 1].isDir && ab[k].prefix == ab[k - 1].prefix + Indent(ab[k - 1].last)
    {
      if k < |a| {
        assert ab[k] == a[k] && ab[k - 1] == a[k - 1];
      } else if k == |a| {
        assert false;
      } else {
        assert ab[k] == b[k - |a|] && ab[k - 1] == b[k - 1 - |a|];
      }
    }
  }

  lemma NestedConcat(a: seq<Line>, b: seq<Line>, prefix: string)
    requires Nested(a, prefix) && Nested(b, prefix)
    ensures Nested(a + b, prefix)
  {
    AllBelowConcat(a, b, prefix);
    StepsIndentConcat(a, b, prefix);
    if a == [] { assert a + b == b; } else { assert (a + b)[0] == a[0]; }
  }

  /** A directory line followed by the lines of its subtree, drawn one indent deeper. */
  lemma NestedDirBlock(line: Line, sub: seq<Line>, prefix: string)
    requires line.prefix == prefix && line.isDir && Nested(sub, prefix + Indent(line.last))
    ensures Nested([line] + sub, prefix)
  {
    DirBlockBelow(line, sub, prefix);
    DirBlockSteps(line, sub, prefix);
  }

  lemma DirBlockBelow(line: Line, sub: seq<Line>, prefix: string)
    requires line.prefix == prefix && AllBelow(sub, prefix + Indent(line.last))
    ensures AllBelow([line] + sub, prefix)
  {
    assert Below(prefix, prefix) by { assert prefix[|prefix|..] == []; }
    forall k | 0 <= k < |sub| ensures Below(prefix, sub[k].prefix) {
      BelowOfIndent(prefix, line.last, sub[k].prefix);
    }
    AllBelowConcat([line], sub, prefix);
  }

  lemma DirBlockSteps(line: Line, sub: seq<Line>, prefix: string)
    requires line.prefix == prefix && line.isDir && StartsAt(sub, prefix + Indent(line.last)) && StepsIndent(sub)
    ensures StepsIndent([line] + sub)
  {
    var one := [line] + sub;
    forall k | 0 < k < |one| && |one[k].prefix| > |one[k - 1].prefix|
      ensures one[k - 1].isDir && one[k].prefix == one[k - 1].prefix + Indent(one[k - 1].last)
    {
      assert one[k] == sub[k - 1];
      if k > 1 {
        assert one[k - 1] == sub[k - 2];
      }
    }
  }

  /** Nested is kept by cutting a sequence short. */
  lemma NestedPrefix(ls: seq<Line>, full: seq<Line>, prefix: string)
    requires ls <= full && Nested(full, prefix)
    ensures Nested(ls, prefix)
  {
    forall k | 0 <= k < |ls| ensures ls[k] == full[k] { }
  }

  /** Line k lies in the block of line j: every line after j up to k sits deeper than j. */
  ghost predicate InBlock(ls: seq<Line>, j: nat, k: nat)
    requires j < k < |ls|
  {
    forall m :: j < m <= k ==> |ls[m].prefix| > |ls[j].prefix|
  }

  /** Every line in the block of a directory line sits below that line's prefix extended by
      the indent its connector calls for: all the children of a directory, not only the first,
      get `prefix + getIndent(isLast)`. */
  ghost predicate ChildrenIndented(ls: seq<Line>) {
    forall j: nat, k: nat :: j < k < |ls| && ls[j].isDir && InBlock(ls, j, k) ==>
      Below(ls[j].prefix + Indent(ls[j].last), ls[k].prefix)
  }

  /** No block runs from a into b when every line of a sits at `prefix` or deeper and b
      starts at `prefix`. */
  lemma NoBlockAcross(a: seq<Line>, b: seq<Line>, prefix: string, j: nat, k: nat)
    requires AllBelow(a, prefix) && StartsAt(b, prefix) && j < |a| <= k < |a + b|
    ensures !InBlock(a + b, j, k)
  {
    assert (a + b)[|a|] == b[0] && (a + b)[j] == a[j];
    assert Below(prefix, a[j].prefix);
  }

  /** A block inside a, or inside b, is a block of a + b at shifted indices and back. */
  lemma BlockWithin(a: seq<Line>, b: seq<Line>, j: nat, k: nat)
    requires j < k < |a + b| && (k < |a| || |a| <= j)
    ensures k < |a| ==> (InBlock(a + b, j, k) <==> InBlock(a, j, k))
    ensures |a| <= j ==> (InBlock(a + b, j, k) <==> InBlock(b, j - |a|, k - |a|))
  {
    var ab := a + b;
    if k < |a| {
      forall m | j < m <= k ensures ab[m] == a[m] { }
    } else {
      forall m | j - |a| < m <= k - |a| ensures ab[m + |a|] == b[m] { }
      forall m | j < m <= k ensures ab[m] == b[m - |a|] { }
    }
  }

  lemma IndentedConcat(a: seq<Line>, b: seq<Line>, prefix: string)
    requires AllBelow(a, prefix) && ChildrenIndented(a) && StartsAt(b, prefix) && ChildrenIndented(b)
    ensures ChildrenIndented(a + b)
  {
    var ab := a + b;
    forall j: nat, k: nat | j < k < |ab| && ab[j].isDir && InBlock(ab, j, k)
      ensures Below(ab[j].prefix + Indent(ab[j].last), ab[k].prefix)
    {
      if j < |a| <= k {
        NoBlockAcross(a, b, prefix, j, k);
      } else if k < |a| {
        BlockWithin(a, b, j, k);
        assert ab[j] == a[j] && ab[k] == a[k];
      } else {
        BlockWithin(a, b, j, k);
        assert ab[j] == b[j - |a|] && ab[k] == b[k - |a|];
      }
    }
  }

  /** A directory line followed by its subtree, one indent deeper: the whole subtree is in
      the line's block and sits below its indent. */
  lemma IndentedDirBlock(line: Line, sub: seq<Line>, prefix: string)
    requires line.prefix == prefix && AllBelow(sub, prefix + Indent(line.last)) && ChildrenIndented(sub)
    ensures ChildrenIndented([line] + sub)
  {
    forall j: nat, k: nat | j < k < |[line] + sub| && ([line] + sub)[j].isDir && InBlock([line] + sub, j, k)
      ensures Below(([line] + sub)[j].prefix + Indent(([line] + sub)[j].last), ([line] + sub)[k].prefix)
    {
      if j == 0 {
        UnderDirLine(line, sub, prefix, k);
      } else {
        InsideSubtree(line, sub, j, k);
      }
    }
  }

  /** Every line of the subtree sits below the directory line's indent. */
  lemma UnderDirLine(line: Line, sub: seq<Line>, prefix: string, k: nat)
    requires line.prefix == prefix && AllBelow(sub, prefix + Indent(line.last)) && 0 < k <= |sub|
    ensures Below(([line] + sub)[0].prefix + Indent(([line] + sub)[0].last), ([line] + sub)[k].prefix)
  {
    assert ([line] + sub)[k] == sub[k - 1];
  }

  /** A block that starts inside the subtree is a block of the subtree. */
  lemma InsideSubtree(line: Line, sub: seq<Line>, j: nat, k: nat)
    requires ChildrenIndented(sub) && 0 < j < k <= |sub|
    requires ([line] + sub)[j].isDir && InBlock([line] + sub, j, k)
    ensures Below(([line] + sub)[j].prefix + Indent(([line] + sub)[j].last), ([line] + sub)[k].prefix)
  {
    BlockWithin([line], sub, j, k);
    assert ([line] + sub)[j] == sub[j - 1] && ([line] + sub)[k] == sub[k - 1];
  }

  /** ChildrenIndented is kept by cutting a sequence short. */
  lemma IndentedPrefix(ls: seq<Line>, full: seq<Line>)
    requires ls <= full && ChildrenIndented(full)
    ensures ChildrenIndented(ls)
  {
    forall j: nat, k: nat | j < k < |ls| && ls[j].isDir && InBlock(ls, j, k)
      ensures Below(ls[j].prefix + Indent(ls[j].last), ls[k].prefix)
    {
      BlockWithin(ls, full[|ls|..], j, k);
      assert full == ls + full[|ls|..];
    }
  }

  lemma {:induction false} SkippingDirNested(opts: Options, d: Entry, prefix: string, depth: int)
    ensures Nested(SkippingDir(opts, d, prefix, depth), prefix)
    decreases d, 1
  {
    if !DepthReached(opts, depth) && d.isDir && d.readable {
      var es := SortEntries(d.children, opts.sortBy, opts.order);
      SortEntriesSameMembers(d.children, opts.sortBy, opts.order);
      SkippingEntriesNested(opts, d, es, 0, prefix, depth);
    }
  }

  lemma {:induction false} SkippingEntriesNested(opts: Options, d: Entry, es: seq<Entry>, i: nat, prefix: string, depth: int)
    requires i <= |es| && forall e :: e in es ==> e in d.children
    ensures Nested(SkippingEntries(opts, d, es, i, prefix, depth), prefix)
    decreases d, 0, |es| - i
  {
    if i < |es| {
      var e := es[i];
      var isLast := i == |es| - 1;
      assert e in d.children by { assert e in es; }
      SkippingEntriesNested(opts, d, es, i + 1, prefix, depth);
      var one := SkippingEntry(opts, e, isLast, prefix, depth);
      if Visible(e, opts) {
        var line := Line(prefix, isLast, e.name, e.isDir);
        if e.isDir {
          SkippingDirNested(opts, e, prefix + Indent(isLast), depth + 1);
          NestedDirBlock(line, SkippingDir(opts, e, prefix + Indent(isLast), depth + 1), prefix);
        } else if PassesExtFilter(e.name, opts.extFilter) {
          assert Below(prefix, prefix) by { assert prefix[|prefix|..] == []; }
          assert Nested([line], prefix);
        }
      }
      NestedConcat(one, SkippingEntries(opts, d, es, i + 1, prefix, depth), prefix);
    }
  }

  lemma {:induction false} SkippingDirIndented(opts: Options, d: Entry, prefix: string, depth: int)
    ensures ChildrenIndented(SkippingDir(opts, d, prefix, depth))
    decreases d, 1
  {
    if !DepthReached(opts, depth) && d.isDir && d.readable {
      var es := SortEntries(d.children, opts.sortBy, opts.order);
      SortEntriesSameMembers(d.children, opts.sortBy, opts.order);
      SkippingEntriesIndented(opts, d, es, 0, prefix, depth);
    }
  }

  lemma {:induction false} SkippingEntriesIndented(opts: Options, d: Entry, es: seq<Entry>, i: nat, prefix: string, depth: int)
    requires i <= |es| && forall e :: e in es ==> e in d.children
    ensures ChildrenIndented(SkippingEntries(opts, d, es, i, prefix, depth))
    decreases d, 0, |es| - i
  {
    if i < |es| {
      var e := es[i];
      var isLast := i == |es| - 1;
      assert e in d.children by { assert e in es; }
      SkippingEntriesIndented(opts, d, es, i + 1, prefix, depth);
      SkippingEntriesNested(opts, d, es, i + 1, prefix, depth);
      EntryIndented(opts, e, isLast, prefix, depth);
      IndentedConcat(SkippingEntry(opts, e, isLast, prefix, depth), SkippingEntries(opts, d, es, i + 1, prefix, depth), prefix);
    }
  }

  /** The lines of one entry sit at `prefix` or deeper and indent every directory's block. */
  lemma {:induction false} EntryIndented(opts: Options, e: Entry, isLast: bool, prefix: string, depth: int)
    ensures var one := SkippingEntry(opts, e, isLast, prefix, depth);
      AllBelow(one, prefix) && ChildrenIndented(one)
    decreases e, 2
  {
    assert Below(prefix, prefix) by { assert prefix[|prefix|..] == []; }
    if Visible(e, opts) && e.isDir {
      var line := Line(prefix, isLast, e.name, true);
      var sub := SkippingDir(opts, e, prefix + Indent(isLast), depth + 1);
      SkippingDirNested(opts, e, prefix + Indent(isLast), depth + 1);
      SkippingDirIndented(opts, e, prefix + Indent(isLast), depth + 1);
      DirBlockBelow(line, sub, prefix);
      IndentedDirBlock(line, sub, prefix);
    }
  }

  /** The drawn lines have the nested prefix shape, and every child of a directory, not only
      the first, is drawn under that directory's indent. */
  lemma WalkNested(opts: Options, d: Entry, path: string, prefix: string, depth: int)
    ensures Nested(WalkDir(opts, d, path, prefix, depth).lines, prefix)
    ensures ChildrenIndented(WalkDir(opts, d, path, prefix, depth).lines)
  {
    WalkIsPrefixOfSkipping(opts, d, path, prefix, depth);
    SkippingDirNested(opts, d, prefix, depth);
    SkippingDirIndented(opts, d, prefix, depth);
    NestedPrefix(WalkDir(opts, d, path, prefix, depth).lines, SkippingDir(opts, d, prefix, depth), prefix);
    IndentedPrefix(WalkDir(opts, d, path, prefix, depth).lines, SkippingDir(opts, d, prefix, depth));
  }

  // ---------------------------------------------------------------------------------------
  // The last-sibling connector

  /** An entry gets a line of its own: it is visible and, when a file, passes the filter. */
  predicate Shown(opts: Options, e: Entry) {
    Visible(e, opts) && (e.isDir || PassesExtFilter(e.name, opts.extFilter))
  }

  /** Every line sits strictly deeper than `prefix`. */
  ghost predicate DeeperThan(ls: seq<Line>, prefix: string) {
    forall k :: 0 <= k < |ls| ==> |ls[k].prefix| > |prefix|
  }

  /** The lines of one entry: its own line, then only deeper ones. */
  lemma EntryBlockShape(opts: Options, e: Entry, isLast: bool, prefix: string, depth: int)
    ensures var one := SkippingEntry(opts, e, isLast, prefix, depth);
      && (one != [] <==> Shown(opts, e))
      && (one != [] ==> one[0] == Line(prefix, isLast, e.name, e.isDir) && DeeperThan(one[1..], prefix))
  {
    if Visible(e, opts) && e.isDir {
      var sub := SkippingDir(opts, e, prefix + Indent(isLast), depth + 1);
      SkippingDirNested(opts, e, prefix + Indent(isLast), depth + 1);
      forall k | 0 <= k < |sub| ensures |sub[k].prefix| > |prefix| {
        BelowOfIndent(prefix, isLast, sub[k].prefix);
      }
      assert ([Line(prefix, isLast, e.name, true)] + sub)[1..] == sub;
    }
  }

  /** A line of ls at `prefix` drawn with the last-sibling connector is the line of the last
      entry of es, which is shown, and only deeper lines follow it. */
  ghost predicate LastMarksLastEntry(opts: Options, ls: seq<Line>, es: seq<Entry>, prefix: string) {
    forall k :: 0 <= k < |ls| && ls[k].prefix == prefix && ls[k].last ==>
      && es != []
      && Shown(opts, es[|es| - 1])
      && ls[k] == Line(prefix, true, es[|es| - 1].name, es[|es| - 1].isDir)
      && DeeperThan(ls[k + 1..], prefix)
  }

  /** In the walk that skips unreadable directories, a line at `prefix` drawn with the
      last-sibling connector is the line of the last entry of the sorted listing, and only
      that entry's subtree follows it. */
  lemma {:induction false} LastConnectorSkipping(opts: Options, d: Entry, es: seq<Entry>, i: nat, prefix: string, depth: int)
    requires i <= |es| && forall e :: e in es ==> e in d.children
    ensures LastMarksLastEntry(opts, SkippingEntries(opts, d, es, i, prefix, depth), es, prefix)
    decreases |es| - i
  {
    if i < |es| {
      var e := es[i];
      var isLast := i == |es| - 1;
      assert e in d.children by { assert e in es; }
      var one := SkippingEntry(opts, e, isLast, prefix, depth);
      var rest := SkippingEntries(opts, d, es, i + 1, prefix, depth);
      assert SkippingEntries(opts, d, es, i, prefix, depth) == one + rest;
      EntryMarks(opts, e, isLast, prefix, depth, es);
      LastConnectorSkipping(opts, d, es, i + 1, prefix, depth);
      if isLast {
        assert rest == [];
      }
      MarksConcat(opts, one, rest, es, prefix);
    }
  }

  /** No line at `prefix` carries the last-sibling connector. */
  ghost predicate Unmarked(ls: seq<Line>, prefix: string) {
    forall k :: 0 <= k < |ls| && ls[k].prefix == prefix ==> !ls[k].last
  }

  /** One entry's lines: only its own line sits at `prefix`, so the connector marks the last
      entry there, and nothing when the entry is not the last. */
  lemma EntryMarks(opts: Options, e: Entry, isLast: bool, prefix: string, depth: int, es: seq<Entry>)
    requires isLast ==> es != [] && e == es[|es| - 1]
    ensures var one := SkippingEntry(opts, e, isLast, prefix, depth);
      LastMarksLastEntry(opts, one, es, prefix) && (!isLast ==> Unmarked(one, prefix))
  {
    var one := SkippingEntry(opts, e, isLast, prefix, depth);
    EntryBlockShape(opts, e, isLast, prefix, depth);
    assert forall j :: 1 <= j < |one| ==> |one[j].prefix| > |prefix| by {
      forall j | 1 <= j < |one| ensures |one[j].prefix| > |prefix| {
        assert one[1..][j - 1] == one[j];
      }
    }
  }

  /** The property carries over a concatenation when the second part is empty or the first
      part has no marked line. */
  lemma MarksConcat(opts: Options, a: seq<Line>, b: seq<Line>, es: seq<Entry>, prefix: string)
    requires LastMarksLastEntry(opts, a, es, prefix) && LastMarksLastEntry(opts, b, es, prefix)
    requires b == [] || Unmarked(a, prefix)
    ensures LastMarksLastEntry(opts, a + b, es, prefix)
  {
    var ab := a + b;
    forall k | 0 <= k < |ab| && ab[k].prefix == prefix && ab[k].last
      ensures && es != []
              && Shown(opts, es[|es| - 1])
              && ab[k] == Line(prefix, true, es[|es| - 1].name, es[|es| - 1].isDir)
              && DeeperThan(ab[k + 1..], prefix)
    {
      if k < |a| {
        assert ab[k] == a[k];
        assert b == [];
        assert ab == a;
      } else {
        assert ab[k] == b[k - |a|];
        assert ab[k + 1..] == b[k - |a| + 1..];
      }
    }
  }

  /** The last entry of the sorted listing, when shown, is drawn with the last-sibling
      connector in the walk that skips unreadable directories. */
  lemma {:induction false} LastEntryDrawnSkipping(opts: Options, d: Entry, es: seq<Entry>, i: nat, prefix: string, depth: int)
    requires i < |es| && forall e :: e in es ==> e in d.children
    requires Shown(opts, es[|es| - 1])
    ensures Line(prefix, true, es[|es| - 1].name, es[|es| - 1].isDir) in SkippingEntries(opts, d, es, i, prefix, depth)
    decreases |es| - i
  {
    var e := es[i];
    assert e in d.children by { assert e in es; }
    var one := SkippingEntry(opts, e, i == |es| - 1, prefix, depth);
    var rest := SkippingEntries(opts, d, es, i + 1, prefix, depth);
    assert SkippingEntries(opts, d, es, i, prefix, depth) == one + rest;
    if i == |es| - 1 {
      EntryBlockShape(opts, e, true, prefix, depth);
      assert one[0] in one + rest;
    } else {
      LastEntryDrawnSkipping(opts, d, es, i + 1, prefix, depth);
    }
  }

  /** The connector "└── " on a directory's own entries marks exactly the last entry of the
      full sorted listing, hidden, excluded and filtered entries included: a line drawn with it
      is that entry's, only its subtree follows, and when that entry is shown and nothing
      failed, it is drawn. So a hidden or filtered last entry leaves no line with "└── " at
      that level. */
  lemma LastConnector(opts: Options, d: Entry, path: string, prefix: string, depth: int)
    requires !DepthReached(opts, depth) && d.isDir && d.readable
    ensures var es := SortEntries(d.children, opts.sortBy, opts.order);
      var w := WalkDir(opts, d, path, prefix, depth);
      && LastMarksLastEntry(opts, w.lines, es, prefix)
      && (w.err.None? && es != [] && Shown(opts, es[|es| - 1]) ==>
            Line(prefix, true, es[|es| - 1].name, es[|es| - 1].isDir) in w.lines)
  {
    var es := SortEntries(d.children, opts.sortBy, opts.order);
    SortEntriesSameMembers(d.children, opts.sortBy, opts.order);
    var w := WalkDir(opts, d, path, prefix, depth);
    var full := SkippingEntries(opts, d, es, 0, prefix, depth);
    WalkIsPrefixOfSkipping(opts, d, path, prefix, depth);
    assert w.lines <= full;
    LastConnectorSkipping(opts, d, es, 0, prefix, depth);
    assert LastMarksLastEntry(opts, full, es, prefix);
    forall k | 0 <= k < |w.lines| && w.lines[k].prefix == prefix && w.lines[k].last
      ensures && es != []
              && Shown(opts, es[|es| - 1])
              && w.lines[k] == Line(prefix, true, es[|es| - 1].name, es[|es| - 1].isDir)
              && DeeperThan(w.lines[k + 1..], prefix)
    {
      assert w.lines[k] == full[k];
      assert w.lines[k + 1..] == full[k + 1..][..|w.lines| - k - 1];
    }
    if w.err.None? && es != [] && Shown(opts, es[|es| - 1]) {
      LastEntryDrawnSkipping(opts, d, es, 0, prefix, depth);
    }
  }

  // ---------------------------------------------------------------------------------------
  // The depth limit

  /** One line per shown entry of es[i..], at `prefix`, nothing beneath. */
  function Listed(opts: Options, es: seq<Entry>, i: nat, prefix: string): (r: seq<Line>)
    requires i <= |es|
    ensures |r| <= |es| - i
    decreases |es| - i
  {
    if i == |es| then []
    else
      var own := if Shown(opts, es[i]) then [Line(prefix, i == |es| - 1, es[i].name, es[i].isDir)] else [];
      own + Listed(opts, es, i + 1, prefix)
  }

  /** One level above the limit the walk lists the directory's entries and opens none of the
      subdirectories: it cannot fail, and each shown entry gets one line, in sorted order. */
  lemma DepthLimitListsOneLevel(opts: Options, d: Entry, path: string, prefix: string, depth: nat)
    requires opts.maxDepth == depth + 1 && d.isDir && d.readable
    ensures WalkDir(opts, d, path, prefix, depth) ==
      Walk(Listed(opts, SortEntries(d.children, opts.sortBy, opts.order), 0, prefix), None)
  {
    var es := SortEntries(d.children, opts.sortBy, opts.order);
    SortEntriesSameMembers(d.children, opts.sortBy, opts.order);
    ListsOneLevel(opts, d, es, 0, path, prefix, depth);
  }

  lemma {:induction false} ListsOneLevel(opts: Options, d: Entry, es: seq<Entry>, i: nat, path: string, prefix: string, depth: nat)
    requires opts.maxDepth == depth + 1 && i <= |es| && forall e :: e in es ==> e in d.children
    ensures WalkEntries(opts, d, es, i, path, prefix, depth) == Walk(Listed(opts, es, i, prefix), None)
    decreases |es| - i
  {
    if i < |es| {
      var e := es[i];
      var isLast := i == |es| - 1;
      assert e in d.children by { assert e in es; }
      ListsOneLevel(opts, d, es, i + 1, path, prefix, depth);
      var step := EntryWalk(opts, e, isLast, path, prefix, depth);
      var own := if Shown(opts, e) then [Line(prefix, isLast, e.name, e.isDir)] else [];
      if Visible(e, opts) && e.isDir {
        assert WalkDir(opts, e, Join(path, e.name), prefix + Indent(isLast), depth + 1) == Walk([], None);
        assert own + [] == own;
      }
      assert step == Walk(own, None);
    }
  }

  /** With a depth limit of 0 the root is not listed: the result is the root line and a zero
      summary. */
  lemma MaxDepthZero(opts: Options, absRoot: string, root: Entry)
    requires opts.maxDepth == 0
    ensures var expected := Base(absRoot) + "/\n" + "\n0 directories, 0 files\n";
      TextOutput(opts, absRoot, root) == TextResult(expected, expected)
  {
    EmptyWalkText(opts, absRoot, root);
    ZeroSummary();
  }

  /** A walk that draws nothing and does not fail leaves the root line and a summary of
      zero counts. */
  lemma EmptyWalkText(opts: Options, absRoot: string, root: Entry)
    requires WalkDir(opts, root, absRoot, "", 0) == Walk([], None)
    ensures var w := WalkDir(opts, root, absRoot, "", 0);
      && CountLines(w.lines, true) == 0 && CountLines(w.lines, false) == 0
      && var expected := Base(absRoot) + "/\n" + Summary(CountLines(w.lines, true), CountLines(w.lines, false));
         TextOutput(opts, absRoot, root) == TextResult(expected, expected)
  {
    var w := WalkDir(opts, root, absRoot, "", 0);
    var head := Base(absRoot) + "/\n";
    var tail := ErrorText(w.err) + Summary(CountLines(w.lines, true), CountLines(w.lines, false));
    assert Render(w.lines, false) == "" && Render(w.lines, true) == "" && ErrorText(w.err) == "";
    assert head + "" + tail == head + Summary(CountLines(w.lines, true), CountLines(w.lines, false));
  }

  lemma ZeroSummary()
    ensures Summary(0, 0) == "\n0 directories, 0 files\n"
  {
    ZeroSummaryParts();
    ZeroSummaryJoined();
  }

  lemma ZeroSummaryParts()
    ensures Summary(0, 0) == "\n" + "0" + " directories, " + "0" + " files\n"
  {
    assert NatToString(0) == "0";
  }

  lemma ZeroSummaryJoined()
    ensures "\n" + "0" + " directories, " + "0" + " files\n" == "\n0 directories, 0 files\n"
  {
  }

  /** The returned string of a text run. When some reachable directory cannot be read, it
      holds the lines drawn before the failure, then "Error traversing directory: <path>", then
      a summary counting only those lines. Otherwise it holds the complete listing and its
      summary. */
  lemma TextOutputCases(opts: Options, absRoot: string, root: Entry)
    ensures var w := WalkDir(opts, root, absRoot, "", 0);
      var head := Base(absRoot) + "/\n";
      var out := TextOutput(opts, absRoot, root).output;
      && (Blocked(opts, root, 0) ==>
            && w.err.Some?
            && w.lines <= SkippingDir(opts, root, "", 0)
            && out == head + Render(w.lines, false) + ("Error traversing directory: " + w.err.value.path + "\n" +
                 Summary(CountLines(w.lines, true), CountLines(w.lines, false))))
      && (!Blocked(opts, root, 0) ==>
            var ls := SkippingDir(opts, root, "", 0);
            out == head + Render(ls, false) + Summary(CountLines(ls, true), CountLines(ls, false)))
  {
    WalkFailsIffBlocked(opts, root, absRoot, "", 0);
    WalkIsPrefixOfSkipping(opts, root, absRoot, "", 0);
    var w := WalkDir(opts, root, absRoot, "", 0);
    if w.err.None? {
      var sm := Summary(CountLines(w.lines, true), CountLines(w.lines, false));
      assert "" + sm == sm;
    }
  }
}
