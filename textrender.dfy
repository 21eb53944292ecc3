/**
 * `getTreeOutput` and its `traverse` closure: the text tree, streamed to the console and
 * accumulated in the returned string, with directory and file counts.
 *
 * The functions WalkDir / WalkEntries say which entry lines one traversal emits and whether
 * it stops on a read error; the class TreeWriter holds the state the closure shares (the
 * output string, the console stream and the two counters) and its method Traverse is the
 * closure itself, proved to append exactly the walk's lines and counts.
 */
module TextRender {
  import opened Wrappers
  import opened Strings
  import opened Paths
  import opened FileSystem
  import opened Policy
  import opened Sorting

  /** One entry line: accumulated prefix, whether its connector is the last-sibling one,
      the entry name, and whether it is a directory. */
  datatype Line = Line(prefix: string, last: bool, name: string, isDir: bool)

  /** The error `traverse` returns when `os.Open` or `Readdir` fails; it names the directory. */
  datatype ReadError = ReadError(path: string)

  /** The lines one traversal emits, and the error that stopped it, if any. */
  datatype Walk = Walk(lines: seq<Line>, err: Option<ReadError>)

  function Then(ls: seq<Line>, w: Walk): Walk {
    Walk(ls + w.lines, w.err)
  }

  lemma ThenAssociates(a: seq<Line>, b: seq<Line>, w: Walk)
    ensures Then(a, Then(b, w)) == Then(a + b, w)
  {
    assert a + (b + w.lines) == (a + b) + w.lines;
  }

  /** `traverse(currentDir, prefix, depth)`. */
  function WalkDir(opts: Options, d: Entry, path: string, prefix: string, depth: int): Walk
    decreases d, 1
  {
    if DepthReached(opts, depth) then Walk([], None)
    else
      match Listing(d)
      case None => Walk([], Some(ReadError(path)))
      case Some(entries) =>
        var es := SortEntries(entries, opts.sortBy, opts.order);
        SortEntriesSameMembers(entries, opts.sortBy, opts.order);
        WalkEntries(opts, d, es, 0, path, prefix, depth)
  }

  /** The `for i, entry := range entries` loop of `traverse`, from index i on: it stops at the
      first entry whose walk fails. */
  function WalkEntries(opts: Options, d: Entry, es: seq<Entry>, i: nat, path: string, prefix: string, depth: int): Walk
    requires i <= |es| && forall e :: e in es ==> e in d.children
    decreases d, 0, |es| - i
  {
    if i == |es| then Walk([], None)
    else
      assert es[i] in d.children by { assert es[i] in es; }
      var w := EntryWalk(opts, es[i], i == |es| - 1, path, prefix, depth);
      if w.err.Some? then w else Then(w.lines, WalkEntries(opts, d, es, i + 1, path, prefix, depth))
  }

  /** One iteration of that loop, for entry e of the directory at `path`, with `isLast`
      computed against the whole sorted listing: hidden and excluded entries are skipped, a
      directory is drawn and walked, a file is drawn when it passes the extension filter. */
  function EntryWalk(opts: Options, e: Entry, isLast: bool, path: string, prefix: string, depth: int): Walk
    decreases e, 2
  {
    if !Visible(e, opts) then Walk([], None)
    else if e.isDir then
      Then([Line(prefix, isLast, e.name, true)], WalkDir(opts, e, Join(path, e.name), prefix + Indent(isLast), depth + 1))
    else if PassesExtFilter(e.name, opts.extFilter) then Walk([Line(prefix, isLast, e.name, false)], None)
    else Walk([], None)
  }

  /** A line as appended to the returned string: directory and file lines alike end in "/". */
  function OutputLine(l: Line): string {
    l.prefix + TreePrefix(l.last) + l.name + "/\n"
  }

  /** A line as printed on the console with colour off: only directory lines end in "/". */
  function ConsoleLine(l: Line): string {
    l.prefix + TreePrefix(l.last) + l.name + (if l.isDir then "/\n" else "\n")
  }

  /** The text of a sequence of lines, for the returned string or for the console. */
  function Render(ls: seq<Line>, console: bool): string {
    if ls == [] then "" else (if console then ConsoleLine(ls[0]) else OutputLine(ls[0])) + Render(ls[1..], console)
  }

  /** How many directory lines (dirs == true) or file lines (dirs == false) there are. */
  function CountLines(ls: seq<Line>, dirs: bool): nat {
    if ls == [] then 0 else (if ls[0].isDir == dirs then 1 else 0) + CountLines(ls[1..], dirs)
  }

  lemma {:induction false} RenderAppend(a: seq<Line>, b: seq<Line>, console: bool)
    ensures Render(a + b, console) == Render(a, console) + Render(b, console)
    decreases |a|
  {
    if a != [] {
      assert (a + b)[0] == a[0] && (a + b)[1..] == a[1..] + b;
      RenderAppend(a[1..], b, console);
    } else {
      assert a + b == b;
    }
  }

  lemma {:induction false} CountLinesAppend(a: seq<Line>, b: seq<Line>, dirs: bool)
    ensures CountLines(a + b, dirs) == CountLines(a, dirs) + CountLines(b, dirs)
    decreases |a|
  {
    if a != [] {
      assert (a + b)[0] == a[0] && (a + b)[1..] == a[1..] + b;
      CountLinesAppend(a[1..], b, dirs);
    } else {
      assert a + b == b;
    }
  }

  /** The line `getTreeOutput` adds when the traversal failed. */
  function ErrorText(err: Option<ReadError>): string {
    match err
    case None => ""
    case Some(e) => "Error traversing directory: " + e.path + "\n"
  }

  /** The summary line `"\n%d directories, %d files\n"`. */
  function Summary(dirs: nat, files: nat): string {
    "\n" + NatToString(dirs) + " directories, " + NatToString(files) + " files\n"
  }

  /** The returned string and the console stream of one text run. */
  datatype TextResult = TextResult(output: string, console: string)

  /** What `getTreeOutput(absRoot, ...)` returns and prints: the root's base name, the entry
      lines, the error if the walk stopped, and the counts of the lines emitted. */
  function TextOutput(opts: Options, absRoot: string, root: Entry): TextResult {
    var w := WalkDir(opts, root, absRoot, "", 0);
    var head := Base(absRoot) + "/\n";
    var tail := ErrorText(w.err) + Summary(CountLines(w.lines, true), CountLines(w.lines, false));
    TextResult(head + Render(w.lines, false) + tail, head + Render(w.lines, true) + tail)
  }

  /** The state the `traverse` closure shares with `getTreeOutput`. */
  class TreeWriter {
    var output: string
    var console: string
    var dirCount: nat
    var fileCount: nat

    constructor ()
      ensures output == "" && console == "" && dirCount == 0 && fileCount == 0
    {
      output, console, dirCount, fileCount := "", "", 0, 0;
    }

    /** Append one line to both streams and count it. */
    method Emit(l: Line)
      modifies this
      ensures output == old(output) + Render([l], false)
      ensures console == old(console) + Render([l], true)
      ensures dirCount == old(dirCount) + CountLines([l], true)
      ensures fileCount == old(fileCount) + CountLines([l], false)
    {
      if l.isDir {
        dirCount := dirCount + 1;
        console := console + l.prefix + TreePrefix(l.last) + l.name + "/\n";
      } else {
        fileCount := fileCount + 1;
        console := console + l.prefix + TreePrefix(l.last) + l.name + "\n";
      }
      output := output + l.prefix + TreePrefix(l.last) + l.name + "/\n";
    }

    /** The `traverse` closure: it appends the walk's lines, adds their counts, and returns the
        walk's error. */
    method Traverse(opts: Options, d: Entry, path: string, prefix: string, depth: int) returns (err: Option<ReadError>)
      modifies this
      ensures var w := WalkDir(opts, d, path, prefix, depth);
        && err == w.err
        && output == old(output) + Render(w.lines, false)
        && console == old(console) + Render(w.lines, true)
        && dirCount == old(dirCount) + CountLines(w.lines, true)
        && fileCount == old(fileCount) + CountLines(w.lines, false)
      decreases d, 1
    {
      if opts.maxDepth != -1 && depth >= opts.maxDepth {
        return None;
      }
      if !d.isDir || !d.readable {
        return Some(ReadError(path));
      }
      var entries := d.children;
      var a := new Entry[|entries|](k requires 0 <= k < |entries| => entries[k]);
      assert a[..] == entries;
      SortInPlace(a, opts.sortBy, opts.order);
      SortEntriesSameMembers(entries, opts.sortBy, opts.order);
      err := VisitSorted(opts, d, a, path, prefix, depth);
    }

    /** The loop of `traverse` over the sorted listing `a` of directory d. */
    method VisitSorted(opts: Options, d: Entry, a: array<Entry>, path: string, prefix: string, depth: int)
      returns (err: Option<ReadError>)
      requires forall e :: e in a[..] ==> e in d.children
      modifies this
      ensures var w := WalkEntries(opts, d, a[..], 0, path, prefix, depth);
        err == w.err && Holds(old(output), old(console), old(dirCount), old(fileCount), w.lines)
      decreases d, 0
    {
      ghost var es := a[..];
      ghost var done: seq<Line> := [];
      var i := 0;
      while i < a.Length
        invariant 0 <= i <= a.Length
        invariant WalkEntries(opts, d, es, 0, path, prefix, depth) == Then(done, WalkEntries(opts, d, es, i, path, prefix, depth))
        invariant Holds(old(output), old(console), old(dirCount), old(fileCount), done)
      {
        assert a[i] in d.children by { assert a[i] in es; }
        ghost var step := EntryWalk(opts, a[i], i == a.Length - 1, path, prefix, depth);
        ghost var output1, console1, dirs1, files1 := output, console, dirCount, fileCount;
        err := VisitEntry(opts, a[i], i == a.Length - 1, path, prefix, depth);
        assert Holds(output1, console1, dirs1, files1, step.lines);
        Compose(old(output), old(console), old(dirCount), old(fileCount), done, output1, console1, dirs1, files1, step.lines);
        if err.Some? {
          LoopStops(opts, d, es, i, path, prefix, depth, done);
          return;
        }
        LoopAdvances(opts, d, es, i, path, prefix, depth, done);
        done := done + step.lines;
        i := i + 1;
      }
      assert done + [] == done;
      return None;
    }

    /** The body of that loop for one entry, with `isLast` computed against the whole sorted
        listing: hidden and excluded entries are skipped, a directory is drawn and then walked,
        a file is drawn when it passes the extension filter. */
    method VisitEntry(opts: Options, entry: Entry, isLast: bool, path: string, prefix: string, depth: int)
      returns (err: Option<ReadError>)
      modifies this
      ensures var w := EntryWalk(opts, entry, isLast, path, prefix, depth);
        err == w.err && Holds(old(output), old(console), old(dirCount), old(fileCount), w.lines)
      decreases entry, 2
    {
      if !opts.includeHidden && HasPrefix(entry.name, ".") {
        return None;
      }
      if IsExcluded(entry.name, opts.excludePatterns, opts.matcher) {
        return None;
      }
      if entry.isDir {
        var line := Line(prefix, isLast, entry.name, true);
        Emit(line);
        ghost var output1, console1, dirs1, files1 := output, console, dirCount, fileCount;
        ghost var sub := WalkDir(opts, entry, Join(path, entry.name), prefix + Indent(isLast), depth + 1);
        err := Traverse(opts, entry, Join(path, entry.name), prefix + Indent(isLast), depth + 1);
        Compose(old(output), old(console), old(dirCount), old(fileCount), [line], output1, console1, dirs1, files1, sub.lines);
        assert EntryWalk(opts, entry, isLast, path, prefix, depth) == Then([line], sub);
      } else if PassesExtFilter(entry.name, opts.extFilter) {
        var line := Line(prefix, isLast, entry.name, false);
        Emit(line);
        err := None;
      } else {
        err := None;
      }
    }

    /** The shared state holds the initial state followed by the given lines. */
    ghost predicate Holds(output0: string, console0: string, dirs0: nat, files0: nat, done: seq<Line>)
      reads this
    {
      && output == output0 + Render(done, false)
      && console == console0 + Render(done, true)
      && dirCount == dirs0 + CountLines(done, true)
      && fileCount == files0 + CountLines(done, false)
    }
  }

  /** An entry whose walk fails ends the loop with its error, after the lines drawn so far. */
  lemma LoopStops(opts: Options, d: Entry, es: seq<Entry>, i: nat, path: string, prefix: string, depth: int, done: seq<Line>)
    requires i < |es| && forall e :: e in es ==> e in d.children
    requires EntryWalk(opts, es[i], i == |es| - 1, path, prefix, depth).err.Some?
    ensures var step := EntryWalk(opts, es[i], i == |es| - 1, path, prefix, depth);
      Then(done, WalkEntries(opts, d, es, i, path, prefix, depth)) == Walk(done + step.lines, step.err)
  {
  }

  /** An entry whose walk succeeds moves its lines from the rest of the loop to the lines drawn. */
  lemma LoopAdvances(opts: Options, d: Entry, es: seq<Entry>, i: nat, path: string, prefix: string, depth: int, done: seq<Line>)
    requires i < |es| && forall e :: e in es ==> e in d.children
    requires EntryWalk(opts, es[i], i == |es| - 1, path, prefix, depth).err.None?
    ensures var step := EntryWalk(opts, es[i], i == |es| - 1, path, prefix, depth);
      Then(done, WalkEntries(opts, d, es, i, path, prefix, depth)) == Then(done + step.lines, WalkEntries(opts, d, es, i + 1, path, prefix, depth))
  {
    var step := EntryWalk(opts, es[i], i == |es| - 1, path, prefix, depth);
    ThenAssociates(done, step.lines, WalkEntries(opts, d, es, i + 1, path, prefix, depth));
  }

  /** Appending `more` after `done` appends their concatenation. */
  lemma Compose(output0: string, console0: string, dirs0: nat, files0: nat, done: seq<Line>,
                output1: string, console1: string, dirs1: nat, files1: nat, more: seq<Line>)
    requires output1 == output0 + Render(done, false) && console1 == console0 + Render(done, true)
    requires dirs1 == dirs0 + CountLines(done, true) && files1 == files0 + CountLines(done, false)
    ensures output1 + Render(more, false) == output0 + Render(done + more, false)
    ensures console1 + Render(more, true) == console0 + Render(done + more, true)
    ensures dirs1 + CountLines(more, true) == dirs0 + CountLines(done + more, true)
    ensures files1 + CountLines(more, false) == files0 + CountLines(done + more, false)
  {
    AppendLines(done, more);
    StringAssoc(output0, Render(done, false), Render(more, false));
    StringAssoc(console0, Render(done, true), Render(more, true));
  }

  lemma StringAssoc(x: string, y: string, z: string)
    ensures (x + y) + z == x + (y + z)
  {
  }

  lemma AppendLines(done: seq<Line>, more: seq<Line>)
    ensures Render(done + more, false) == Render(done, false) + Render(more, false)
    ensures Render(done + more, true) == Render(done, true) + Render(more, true)
    ensures CountLines(done + more, true) == CountLines(done, true) + CountLines(more, true)
    ensures CountLines(done + more, false) == CountLines(done, false) + CountLines(more, false)
  {
    RenderAppend(done, more, false);
    RenderAppend(done, more, true);
    CountLinesAppend(done, more, true);
    CountLinesAppend(done, more, false);
  }

  /** `getTreeOutput`: the root line, the traversal, the error line if it stopped, the
      summary. The console stream is returned beside the string. */
  method GetTreeOutput(opts: Options, absRoot: string, root: Entry) returns (output: string, console: string)
    ensures TextResult(output, console) == TextOutput(opts, absRoot, root)
  {
    ghost var w := WalkDir(opts, root, absRoot, "", 0);
    var writer := new TreeWriter();
    var head := Base(absRoot) + "/\n";
    writer.console := head;
    writer.output := head;
    var err := writer.Traverse(opts, root, absRoot, "", 0);
    var errorLine := "";
    if err.Some? {
      errorLine := "Error traversing directory: " + err.value.path + "\n";
    }
    var summary := "\n" + NatToString(writer.dirCount) + " directories, " + NatToString(writer.fileCount) + " files\n";
    ghost var tail := ErrorText(w.err) + Summary(CountLines(w.lines, true), CountLines(w.lines, false));
    assert errorLine + summary == tail;
    output := writer.output + (errorLine + summary);
    console := writer.console + (errorLine + summary);
    StringAssoc(head, Render(w.lines, false), tail);
    StringAssoc(head, Render(w.lines, true), tail);
  }
}
