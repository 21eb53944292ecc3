/**
 * The project laid out by the package's own test (printer_test.go: cmd/main.go, go.mod,
 * internal/utils/utils.go, pkg/printer/printer.go and printer_test.go), as the directory
 * listing returns it, unsorted, and the text listing the test expects for it.
 *
 * The walk of the project is worked out once, under any options that sort by name, set no
 * depth limit and no extension filter, show every directory and go.mod, and show the Go
 * source files exactly when `goShown`: the test's plain run (here) and its exclusion run
 * (module ExclusionScenario) are its two instances.
 */
module Scenario {
  import opened Wrappers
  import opened Strings
  import opened Paths
  import opened FileSystem
  import opened Policy
  import opened Glob
  import opened Sorting
  import opened TextRender

  function File(name: string): Entry {
    Entry(name, false, 0, 0, 0x1A4, true, [])
  }

  function Dir(name: string, children: seq<Entry>): Entry {
    Entry(name, true, 4096, 0, 0x1ED, true, children)
  }

  function Printer(): Entry { Dir("printer", [File("printer_test.go"), File("printer.go")]) }
  function Utils(): Entry { Dir("utils", [File("utils.go")]) }
  function Internal(): Entry { Dir("internal", [Utils()]) }
  function Cmd(): Entry { Dir("cmd", [File("main.go")]) }
  function Pkg(): Entry { Dir("pkg", [Printer()]) }

  /** The temporary directory the test creates, listed in an order other than by name. */
  function Project(): Entry { Dir("001", [Pkg(), File("go.mod"), Internal(), Cmd()]) }

  const AbsRoot := "/tmp/TestPrintProjectStructure/001"

  /** The flags of the test's text runs: no filter, sort by name ascending, hidden entries
      left out, no depth limit. */
  function TestOptions(excludes: seq<string>): Options {
    Options("", excludes, SimpleMatcher, "name", "asc", false, -1)
  }

  /** What the walk needs to know of a run's options. */
  predicate TestRun(opts: Options, goShown: bool) {
    && opts.sortBy == "name" && opts.order == "asc" && opts.maxDepth == -1 && opts.extFilter == ""
    && Visible(Cmd(), opts) && Visible(File("go.mod"), opts) && Visible(Internal(), opts)
    && Visible(Utils(), opts) && Visible(Pkg(), opts) && Visible(Printer(), opts)
    && Visible(File("main.go"), opts) == goShown && Visible(File("utils.go"), opts) == goShown
    && Visible(File("printer.go"), opts) == goShown && Visible(File("printer_test.go"), opts) == goShown
  }

  // ---------------------------------------------------------------------------------------
  // Sorting by name

  /** A shared prefix does not decide the order. */
  lemma {:induction false} LexLessSharedPrefix(p: string, a: string, b: string)
    ensures LexLess(p + a, p + b) == LexLess(a, b)
    decreases |p|
  {
    if p == [] {
      assert p + a == a && p + b == b;
    } else {
      assert (p + a)[1..] == p[1..] + a && (p + b)[1..] == p[1..] + b;
      LexLessSharedPrefix(p[1..], a, b);
    }
  }

  lemma PrinterNamesOrdered()
    ensures LexLess("printer.go", "printer_test.go")
  {
    var p := "printer";
    assert p + ".go" == "printer.go";
    assert p + "_test.go" == "printer_test.go";
    LexLessSharedPrefix(p, ".go", "_test.go");
  }

  lemma ProjectNamesOrdered()
    ensures LexLess("cmd", "go.mod") && LexLess("go.mod", "internal") && LexLess("internal", "pkg")
  {
  }

  /** Sorting a single entry leaves it in place. */
  lemma SortOne(e: Entry)
    ensures SortEntries([e], "name", "asc") == [e]
  {
    assert KnownKey("name");
    assert [e][..0] == [] && [e][0] == e;
    assert InsertionSort([], "name", "asc") == [];
    assert Insert([], e, "name", "asc") == [e];
    assert InsertionSort([e], "name", "asc") == Insert(InsertionSort([e][..0], "name", "asc"), e, "name", "asc");
  }

  lemma SortTwo(t: Entry, a: Entry)
    requires LexLess(a.name, t.name)
    ensures SortEntries([t, a], "name", "asc") == [a, t]
  {
    var s := [t, a];
    assert s[..1] == [t];
    assert InsertionSort(s[..1], "name", "asc") == [t];
    assert Insert([], a, "name", "asc") == [a];
    assert Insert([t], a, "name", "asc") == [a, t];
  }

  lemma SortFour(p: Entry, g: Entry, i: Entry, c: Entry)
    requires LexLess(c.name, g.name) && LexLess(g.name, i.name) && LexLess(i.name, p.name)
    ensures SortEntries([p, g, i, c], "name", "asc") == [c, g, i, p]
  {
    LexLessTransitive(c.name, g.name, i.name);
    LexLessTransitive(g.name, i.name, p.name);
    LexLessTransitive(c.name, i.name, p.name);
    LexLessTrichotomy(c.name, g.name);
    LexLessTrichotomy(g.name, i.name);
    var s := [p, g, i, c];
    assert s[..1] == [p] && s[..2] == [p, g] && s[..3] == [p, g, i];
    assert s[..2][..1] == s[..1] && s[..3][..2] == s[..2] && s[..4] == s;
    assert InsertionSort(s[..1], "name", "asc") == [p];
    assert Insert([p], g, "name", "asc") == [g, p];
    assert InsertionSort(s[..2], "name", "asc") == [g, p];
    assert Insert([g], i, "name", "asc") == [g, i];
    assert Insert([g, p], i, "name", "asc") == [g, i, p];
    assert InsertionSort(s[..3], "name", "asc") == [g, i, p];
    assert Insert([g], c, "name", "asc") == [c, g];
    assert Insert([g, i], c, "name", "asc") == [c, g, i];
    assert Insert([g, i, p], c, "name", "asc") == [c, g, i, p];
  }

  // ---------------------------------------------------------------------------------------
  // Walks of directories with one, two and four entries

  /** One line, or none when the entry is not shown. */
  function Optional(shown: bool, l: Line): seq<Line> {
    if shown then [l] else []
  }

  lemma NothingHiddenOrExcluded(e: Entry)
    requires e.name != [] && e.name[0] != '.'
    ensures Visible(e, TestOptions([]))
  {
  }

  /** A file entry draws its line exactly when it is visible (there is no extension filter). */
  lemma FileWalk(opts: Options, f: Entry, isLast: bool, path: string, prefix: string, depth: int)
    requires !f.isDir && opts.extFilter == ""
    ensures EntryWalk(opts, f, isLast, path, prefix, depth) == Walk(Optional(Visible(f, opts), Line(prefix, isLast, f.name, false)), None)
  {
  }

  /** One iteration of the walk's loop over an entry that draws lines without failing. */
  lemma EntriesStep(opts: Options, d: Entry, es: seq<Entry>, i: nat, path: string, prefix: string, depth: int,
                    mine: seq<Line>, later: seq<Line>)
    requires i < |es| && forall e :: e in es ==> e in d.children
    requires EntryWalk(opts, es[i], i == |es| - 1, path, prefix, depth) == Walk(mine, None)
    requires WalkEntries(opts, d, es, i + 1, path, prefix, depth) == Walk(later, None)
    ensures WalkEntries(opts, d, es, i, path, prefix, depth) == Walk(mine + later, None)
  {
  }

  /** The walk of a readable directory is its loop over the sorted listing. */
  lemma DirIsLoop(opts: Options, d: Entry, es: seq<Entry>, path: string, prefix: string, depth: int)
    requires opts.maxDepth == -1 && d.isDir && d.readable && es == SortEntries(d.children, opts.sortBy, opts.order)
    ensures forall e :: e in es ==> e in d.children
    ensures WalkDir(opts, d, path, prefix, depth) == WalkEntries(opts, d, es, 0, path, prefix, depth)
  {
    SortEntriesSameMembers(d.children, opts.sortBy, opts.order);
  }

  lemma WalkOfOne(opts: Options, d: Entry, e: Entry, path: string, prefix: string, depth: int)
    requires opts.sortBy == "name" && opts.order == "asc" && opts.maxDepth == -1
    requires d.isDir && d.readable && d.children == [e]
    requires EntryWalk(opts, e, true, path, prefix, depth).err.None?
    ensures WalkDir(opts, d, path, prefix, depth) == EntryWalk(opts, e, true, path, prefix, depth)
  {
    SortOne(e);
    var w := EntryWalk(opts, e, true, path, prefix, depth);
    DirIsLoop(opts, d, [e], path, prefix, depth);
    assert WalkEntries(opts, d, [e], 1, path, prefix, depth) == Walk([], None);
    assert w.lines + [] == w.lines;
    EntriesStep(opts, d, [e], 0, path, prefix, depth, w.lines, []);
  }

  lemma WalkOfTwo(opts: Options, d: Entry, t: Entry, a: Entry, path: string, prefix: string, depth: int)
    requires opts.sortBy == "name" && opts.order == "asc" && opts.maxDepth == -1
    requires d.isDir && d.readable && d.children == [t, a] && LexLess(a.name, t.name)
    requires EntryWalk(opts, a, false, path, prefix, depth).err.None?
    requires EntryWalk(opts, t, true, path, prefix, depth).err.None?
    ensures WalkDir(opts, d, path, prefix, depth) ==
      Walk(EntryWalk(opts, a, false, path, prefix, depth).lines + EntryWalk(opts, t, true, path, prefix, depth).lines, None)
  {
    SortTwo(t, a);
    var es := [a, t];
    DirIsLoop(opts, d, es, path, prefix, depth);
    var wa := EntryWalk(opts, a, false, path, prefix, depth);
    var wt := EntryWalk(opts, t, true, path, prefix, depth);
    assert WalkEntries(opts, d, es, 2, path, prefix, depth) == Walk([], None);
    assert wt.lines + [] == wt.lines;
    EntriesStep(opts, d, es, 1, path, prefix, depth, wt.lines, []);
    EntriesStep(opts, d, es, 0, path, prefix, depth, wa.lines, wt.lines);
  }

  lemma WalkOfFour(opts: Options, d: Entry, p: Entry, g: Entry, i: Entry, c: Entry, path: string, prefix: string, depth: int,
                   lc: seq<Line>, lg: seq<Line>, li: seq<Line>, lp: seq<Line>)
    requires opts.sortBy == "name" && opts.order == "asc" && opts.maxDepth == -1
    requires d.isDir && d.readable && d.children == [p, g, i, c]
    requires LexLess(c.name, g.name) && LexLess(g.name, i.name) && LexLess(i.name, p.name)
    requires EntryWalk(opts, c, false, path, prefix, depth) == Walk(lc, None)
    requires EntryWalk(opts, g, false, path, prefix, depth) == Walk(lg, None)
    requires EntryWalk(opts, i, false, path, prefix, depth) == Walk(li, None)
    requires EntryWalk(opts, p, true, path, prefix, depth) == Walk(lp, None)
    ensures WalkDir(opts, d, path, prefix, depth) == Walk(lc + (lg + (li + lp)), None)
  {
    SortFour(p, g, i, c);
    var es := [c, g, i, p];
    DirIsLoop(opts, d, es, path, prefix, depth);
    LoopOfFour(opts, d, es, path, prefix, depth, lc, lg, li, lp);
  }

  lemma LoopOfFour(opts: Options, d: Entry, es: seq<Entry>, path: string, prefix: string, depth: int,
                   lc: seq<Line>, lg: seq<Line>, li: seq<Line>, lp: seq<Line>)
    requires |es| == 4 && forall e :: e in es ==> e in d.children
    requires EntryWalk(opts, es[0], false, path, prefix, depth) == Walk(lc, None)
    requires EntryWalk(opts, es[1], false, path, prefix, depth) == Walk(lg, None)
    requires EntryWalk(opts, es[2], false, path, prefix, depth) == Walk(li, None)
    requires EntryWalk(opts, es[3], true, path, prefix, depth) == Walk(lp, None)
    ensures WalkEntries(opts, d, es, 0, path, prefix, depth) == Walk(lc + (lg + (li + lp)), None)
  {
    assert WalkEntries(opts, d, es, 4, path, prefix, depth) == Walk([], None);
    assert lp + [] == lp;
    EntriesStep(opts, d, es, 3, path, prefix, depth, lp, []);
    EntriesStep(opts, d, es, 2, path, prefix, depth, li, lp);
    EntriesStep(opts, d, es, 1, path, prefix, depth, lg, li + lp);
    EntriesStep(opts, d, es, 0, path, prefix, depth, lc, lg + (li + lp));
  }

  // ---------------------------------------------------------------------------------------
  // The project's lines

  function CmdLine(): Line { Line("", false, "cmd", true) }
  function MainLine(): Line { Line("│   ", true, "main.go", false) }
  function GoModLine(): Line { Line("", false, "go.mod", false) }
  function InternalLine(): Line { Line("", false, "internal", true) }
  function UtilsLine(): Line { Line("│   ", true, "utils", true) }
  function UtilsGoLine(): Line { Line("│       ", true, "utils.go", false) }
  function PkgLine(): Line { Line("", true, "pkg", true) }
  function PrinterLine(): Line { Line("    ", true, "printer", true) }
  function PrinterGoLine(): Line { Line("        ", false, "printer.go", false) }
  function PrinterTestLine(): Line { Line("        ", true, "printer_test.go", false) }

  /** The lines below the root line, one block per top-level entry. */
  function CmdLines(goShown: bool): seq<Line> {
    [CmdLine()] + Optional(goShown, MainLine())
  }

  function InternalLines(goShown: bool): seq<Line> {
    [InternalLine()] + ([UtilsLine()] + Optional(goShown, UtilsGoLine()))
  }

  function PkgLines(goShown: bool): seq<Line> {
    [PkgLine()] + ([PrinterLine()] + (Optional(goShown, PrinterGoLine()) + Optional(goShown, PrinterTestLine())))
  }

  function ProjectLines(goShown: bool): seq<Line> {
    CmdLines(goShown) + ([GoModLine()] + (InternalLines(goShown) + PkgLines(goShown)))
  }

  lemma IndentFacts()
    ensures "" + Indent(false) == "│   " && "" + Indent(true) == "    "
    ensures "│   " + Indent(true) == "│       " && "    " + Indent(true) == "        "
  {
  }

  lemma EntryCmd(opts: Options, goShown: bool)
    requires TestRun(opts, goShown)
    ensures EntryWalk(opts, Cmd(), false, AbsRoot, "", 0) == Walk(CmdLines(goShown), None)
  {
    IndentFacts();
    var path := Join(AbsRoot, "cmd");
    FileWalk(opts, File("main.go"), true, path, "│   ", 1);
    WalkOfOne(opts, Cmd(), File("main.go"), path, "│   ", 1);
  }

  lemma EntryGoMod(opts: Options, goShown: bool)
    requires TestRun(opts, goShown)
    ensures EntryWalk(opts, File("go.mod"), false, AbsRoot, "", 0) == Walk([GoModLine()], None)
  {
    FileWalk(opts, File("go.mod"), false, AbsRoot, "", 0);
  }

  lemma EntryInternal(opts: Options, goShown: bool)
    requires TestRun(opts, goShown)
    ensures EntryWalk(opts, Internal(), false, AbsRoot, "", 0) == Walk(InternalLines(goShown), None)
  {
    IndentFacts();
    var pi := Join(AbsRoot, "internal");
    var pu := Join(pi, "utils");
    FileWalk(opts, File("utils.go"), true, pu, "│       ", 2);
    WalkOfOne(opts, Utils(), File("utils.go"), pu, "│       ", 2);
    assert EntryWalk(opts, Utils(), true, pi, "│   ", 1) == Walk([UtilsLine()] + Optional(goShown, UtilsGoLine()), None);
    WalkOfOne(opts, Internal(), Utils(), pi, "│   ", 1);
  }

  lemma EntryPkg(opts: Options, goShown: bool)
    requires TestRun(opts, goShown)
    ensures EntryWalk(opts, Pkg(), true, AbsRoot, "", 0) == Walk(PkgLines(goShown), None)
  {
    IndentFacts();
    PrinterNamesOrdered();
    var pp := Join(AbsRoot, "pkg");
    var pq := Join(pp, "printer");
    FileWalk(opts, File("printer.go"), false, pq, "        ", 2);
    FileWalk(opts, File("printer_test.go"), true, pq, "        ", 2);
    WalkOfTwo(opts, Printer(), File("printer_test.go"), File("printer.go"), pq, "        ", 2);
    var files := Optional(goShown, PrinterGoLine()) + Optional(goShown, PrinterTestLine());
    assert EntryWalk(opts, Printer(), true, pp, "    ", 1) == Walk([PrinterLine()] + files, None);
    WalkOfOne(opts, Pkg(), Printer(), pp, "    ", 1);
  }

  /** The walk of the project: no error, and the lines of the four blocks in name order. */
  lemma WalkProject(opts: Options, goShown: bool)
    requires TestRun(opts, goShown)
    ensures WalkDir(opts, Project(), AbsRoot, "", 0) == Walk(ProjectLines(goShown), None)
  {
    ProjectNamesOrdered();
    EntryCmd(opts, goShown);
    EntryGoMod(opts, goShown);
    EntryInternal(opts, goShown);
    EntryPkg(opts, goShown);
    WalkOfFour(opts, Project(), Pkg(), File("go.mod"), Internal(), Cmd(), AbsRoot, "", 0,
      CmdLines(goShown), [GoModLine()], InternalLines(goShown), PkgLines(goShown));
  }

  // ---------------------------------------------------------------------------------------
  // The project's text

  /** The text of one line in the returned string (console == false) or on the console. */
  function Text(l: Line, console: bool): string {
    if console then ConsoleLine(l) else OutputLine(l)
  }

  lemma RenderCons(l: Line, rest: seq<Line>, console: bool)
    ensures Render([l] + rest, console) == Text(l, console) + Render(rest, console)
  {
    assert ([l] + rest)[1..] == rest;
  }

  lemma RenderOne(l: Line, console: bool)
    ensures Render([l], console) == Text(l, console)
  {
    RenderCons(l, [], console);
    assert [l] + [] == [l];
  }

  lemma CountsOne(l: Line)
    ensures CountLines([l], true) == (if l.isDir then 1 else 0) && CountLines([l], false) == (if l.isDir then 0 else 1)
  {
    assert [l][1..] == [];
  }

  /** The text and counts of the four blocks, then of the whole listing. */
  lemma RenderBlocks(c: seq<Line>, g: seq<Line>, i: seq<Line>, p: seq<Line>, console: bool)
    ensures Render(c + (g + (i + p)), console) == Render(c, console) + (Render(g, console) + (Render(i, console) + Render(p, console)))
  {
    RenderAppend(i, p, console);
    RenderAppend(g, i + p, console);
    RenderAppend(c, g + (i + p), console);
  }

  lemma CountBlocks(c: seq<Line>, g: seq<Line>, i: seq<Line>, p: seq<Line>, dirs: bool)
    ensures CountLines(c + (g + (i + p)), dirs) == CountLines(c, dirs) + CountLines(g, dirs) + CountLines(i, dirs) + CountLines(p, dirs)
  {
    CountLinesAppend(i, p, dirs);
    CountLinesAppend(g, i + p, dirs);
    CountLinesAppend(c, g + (i + p), dirs);
  }

  lemma RenderOptional(shown: bool, l: Line, console: bool)
    ensures Render(Optional(shown, l), console) == (if shown then Text(l, console) else "")
    ensures CountLines(Optional(shown, l), l.isDir) == (if shown then 1 else 0)
    ensures CountLines(Optional(shown, l), !l.isDir) == 0
  {
    if shown {
      RenderOne(l, console);
      CountsOne(l);
    }
  }

  lemma CmdText(goShown: bool, console: bool)
    ensures goShown ==> Render(CmdLines(goShown), console) == Text(CmdLine(), console) + Text(MainLine(), console)
    ensures !goShown ==> Render(CmdLines(goShown), console) == Text(CmdLine(), console)
    ensures CountLines(CmdLines(goShown), true) == 1 && CountLines(CmdLines(goShown), false) == (if goShown then 1 else 0)
  {
    var t := Text(CmdLine(), console);
    RenderAppend([CmdLine()], Optional(goShown, MainLine()), console);
    CountLinesAppend([CmdLine()], Optional(goShown, MainLine()), true);
    CountLinesAppend([CmdLine()], Optional(goShown, MainLine()), false);
    RenderOne(CmdLine(), console);
    CountsOne(CmdLine());
    RenderOptional(goShown, MainLine(), console);
    assert t + "" == t;
  }

  lemma GoModText(console: bool)
    ensures Render([GoModLine()], console) == Text(GoModLine(), console)
    ensures CountLines([GoModLine()], true) == 0 && CountLines([GoModLine()], false) == 1
  {
    RenderOne(GoModLine(), console);
    CountsOne(GoModLine());
  }

  lemma InternalText(goShown: bool, console: bool)
    ensures goShown ==>
      Render(InternalLines(goShown), console) == Text(InternalLine(), console) + (Text(UtilsLine(), console) + Text(UtilsGoLine(), console))
    ensures !goShown ==> Render(InternalLines(goShown), console) == Text(InternalLine(), console) + Text(UtilsLine(), console)
    ensures CountLines(InternalLines(goShown), true) == 2 && CountLines(InternalLines(goShown), false) == (if goShown then 1 else 0)
  {
    var t := Text(UtilsLine(), console);
    var rest := [UtilsLine()] + Optional(goShown, UtilsGoLine());
    RenderAppend([InternalLine()], rest, console);
    RenderAppend([UtilsLine()], Optional(goShown, UtilsGoLine()), console);
    CountLinesAppend([InternalLine()], rest, true);
    CountLinesAppend([InternalLine()], rest, false);
    CountLinesAppend([UtilsLine()], Optional(goShown, UtilsGoLine()), true);
    CountLinesAppend([UtilsLine()], Optional(goShown, UtilsGoLine()), false);
    RenderOne(InternalLine(), console);
    RenderOne(UtilsLine(), console);
    CountsOne(InternalLine());
    CountsOne(UtilsLine());
    RenderOptional(goShown, UtilsGoLine(), console);
    assert t + "" == t;
  }

  lemma PkgText(goShown: bool, console: bool)
    ensures goShown ==>
      Render(PkgLines(goShown), console) ==
      Text(PkgLine(), console) + (Text(PrinterLine(), console) + (Text(PrinterGoLine(), console) + Text(PrinterTestLine(), console)))
    ensures !goShown ==> Render(PkgLines(goShown), console) == Text(PkgLine(), console) + Text(PrinterLine(), console)
    ensures CountLines(PkgLines(goShown), true) == 2 && CountLines(PkgLines(goShown), false) == (if goShown then 2 else 0)
  {
    var t := Text(PrinterLine(), console);
    var files := Optional(goShown, PrinterGoLine()) + Optional(goShown, PrinterTestLine());
    var rest := [PrinterLine()] + files;
    RenderAppend([PkgLine()], rest, console);
    RenderAppend([PrinterLine()], files, console);
    RenderAppend(Optional(goShown, PrinterGoLine()), Optional(goShown, PrinterTestLine()), console);
    CountLinesAppend([PkgLine()], rest, true);
    CountLinesAppend([PkgLine()], rest, false);
    CountLinesAppend([PrinterLine()], files, true);
    CountLinesAppend([PrinterLine()], files, false);
    CountLinesAppend(Optional(goShown, PrinterGoLine()), Optional(goShown, PrinterTestLine()), true);
    CountLinesAppend(Optional(goShown, PrinterGoLine()), Optional(goShown, PrinterTestLine()), false);
    RenderOne(PkgLine(), console);
    RenderOne(PrinterLine(), console);
    CountsOne(PkgLine());
    CountsOne(PrinterLine());
    RenderOptional(goShown, PrinterGoLine(), console);
    RenderOptional(goShown, PrinterTestLine(), console);
    assert "" + "" == "";
    assert t + "" == t;
  }

  /** The text of each line, on the console and in the returned string: directory lines end
      in "/" in both, file lines only in the returned string. */
  lemma TextsCmd()
    ensures Text(CmdLine(), true) == "├── cmd/\n" && Text(CmdLine(), false) == "├── cmd/\n"
    ensures Text(MainLine(), true) == "│   └── main.go\n" && Text(MainLine(), false) == "│   └── main.go/\n"
  {
  }

  lemma TextsGoMod()
    ensures Text(GoModLine(), true) == "├── go.mod\n" && Text(GoModLine(), false) == "├── go.mod/\n"
  {
  }

  lemma TextsInternal()
    ensures Text(InternalLine(), true) == "├── internal/\n" && Text(InternalLine(), false) == "├── internal/\n"
    ensures Text(UtilsLine(), true) == "│   └── utils/\n" && Text(UtilsLine(), false) == "│   └── utils/\n"
  {
  }

  lemma TextsUtilsGo()
    ensures Text(UtilsGoLine(), true) == "│       └── utils.go\n" && Text(UtilsGoLine(), false) == "│       └── utils.go/\n"
  {
  }

  lemma TextsPkg()
    ensures Text(PkgLine(), true) == "└── pkg/\n" && Text(PkgLine(), false) == "└── pkg/\n"
    ensures Text(PrinterLine(), true) == "    └── printer/\n" && Text(PrinterLine(), false) == "    └── printer/\n"
  {
  }

  lemma TextsPrinterGo()
    ensures Text(PrinterGoLine(), true) == "        ├── printer.go\n" && Text(PrinterGoLine(), false) == "        ├── printer.go/\n"
  {
  }

  lemma TextsPrinterTest()
    ensures Text(PrinterTestLine(), true) == "        └── printer_test.go\n"
    ensures Text(PrinterTestLine(), false) == "        └── printer_test.go/\n"
  {
  }

  lemma RootName()
    ensures Base(AbsRoot) == "001"
  {
    assert AbsRoot == Join("/tmp/TestPrintProjectStructure", "001");
    BaseOfJoin("/tmp/TestPrintProjectStructure", "001");
  }

  lemma SummaryLines()
    ensures ErrorText(None) + Summary(5, 5) == "\n5 directories, 5 files\n"
    ensures ErrorText(None) + Summary(5, 1) == "\n5 directories, 1 files\n"
  {
    SummaryParts();
    PlainSummaryJoined();
    ExcludedSummaryJoined();
  }

  lemma SummaryParts()
    ensures Summary(5, 5) == "\n" + "5" + " directories, " + "5" + " files\n"
    ensures Summary(5, 1) == "\n" + "5" + " directories, " + "1" + " files\n"
  {
    assert NatToString(5) == "5" && NatToString(1) == "1";
  }

  lemma PlainSummaryJoined()
    ensures "\n" + "5" + " directories, " + "5" + " files\n" == "\n5 directories, 5 files\n"
  {
  }

  lemma ExcludedSummaryJoined()
    ensures "\n" + "5" + " directories, " + "1" + " files\n" == "\n5 directories, 1 files\n"
  {
  }

  /** The text of a run: the root line, the listing's text and the summary of its counts. */
  lemma RunText(opts: Options, goShown: bool, console: bool)
    requires TestRun(opts, goShown)
    ensures var r := TextOutput(opts, AbsRoot, Project());
      var ls := ProjectLines(goShown);
      (if console then r.console else r.output) ==
        ("001" + "/\n") + Render(ls, console) + (ErrorText(None) + Summary(CountLines(ls, true), CountLines(ls, false)))
  {
    WalkProject(opts, goShown);
    RootName();
  }

  lemma Regroup(h: string, c1: string, c2: string, g: string, i1: string, i2: string, i3: string,
                p1: string, p2: string, p3: string, p4: string, t: string)
    ensures h + ((c1 + c2) + (g + ((i1 + (i2 + i3)) + (p1 + (p2 + (p3 + p4)))))) + t
         == h + c1 + c2 + g + i1 + i2 + i3 + p1 + p2 + p3 + p4 + t
  {
  }

  lemma PlainRunText(opts: Options, console: bool)
    requires TestRun(opts, true)
    ensures var r := TextOutput(opts, AbsRoot, Project());
      (if console then r.console else r.output) ==
        ("001" + "/\n") + ((Text(CmdLine(), console) + Text(MainLine(), console)) + (Text(GoModLine(), console) +
        ((Text(InternalLine(), console) + (Text(UtilsLine(), console) + Text(UtilsGoLine(), console))) +
         (Text(PkgLine(), console) + (Text(PrinterLine(), console) + (Text(PrinterGoLine(), console) + Text(PrinterTestLine(), console)))))))
        + "\n5 directories, 5 files\n"
  {
    RunText(opts, true, console);
    ProjectCounts(true);
    RenderBlocks(CmdLines(true), [GoModLine()], InternalLines(true), PkgLines(true), console);
    CmdText(true, console);
    GoModText(console);
    InternalText(true, console);
    PkgText(true, console);
    SummaryLines();
  }

  /** The project has five directories, and five files of which four are Go sources. */
  lemma ProjectCounts(goShown: bool)
    ensures CountLines(ProjectLines(goShown), true) == 5
    ensures CountLines(ProjectLines(goShown), false) == if goShown then 5 else 1
  {
    CountBlocks(CmdLines(goShown), [GoModLine()], InternalLines(goShown), PkgLines(goShown), true);
    CountBlocks(CmdLines(goShown), [GoModLine()], InternalLines(goShown), PkgLines(goShown), false);
    CmdText(goShown, true);
    GoModText(true);
    InternalText(goShown, true);
    PkgText(goShown, true);
  }

  lemma PlainConsole(opts: Options)
    requires TestRun(opts, true)
    ensures TextOutput(opts, AbsRoot, Project()).console ==
      "001" + "/\n" +
      "├── cmd/\n" +
      "│   └── main.go\n" +
      "├── go.mod\n" +
      "├── internal/\n" +
      "│   └── utils/\n" +
      "│       └── utils.go\n" +
      "└── pkg/\n" +
      "    └── printer/\n" +
      "        ├── printer.go\n" +
      "        └── printer_test.go\n" +
      "\n5 directories, 5 files\n"
  {
    PlainRunText(opts, true);
    TextsCmd();
    TextsGoMod();
    TextsInternal();
    TextsUtilsGo();
    TextsPkg();
    TextsPrinterGo();
    TextsPrinterTest();
    Regroup("001" + "/\n", "├── cmd/\n", "│   └── main.go\n", "├── go.mod\n", "├── internal/\n", "│   └── utils/\n",
      "│       └── utils.go\n", "└── pkg/\n", "    └── printer/\n", "        ├── printer.go\n", "        └── printer_test.go\n",
      "\n5 directories, 5 files\n");
  }

  lemma PlainOutput(opts: Options)
    requires TestRun(opts, true)
    ensures TextOutput(opts, AbsRoot, Project()).output ==
      "001" + "/\n" +
      "├── cmd/\n" +
      "│   └── main.go/\n" +
      "├── go.mod/\n" +
      "├── internal/\n" +
      "│   └── utils/\n" +
      "│       └── utils.go/\n" +
      "└── pkg/\n" +
      "    └── printer/\n" +
      "        ├── printer.go/\n" +
      "        └── printer_test.go/\n" +
      "\n5 directories, 5 files\n"
  {
    PlainRunText(opts, false);
    TextsCmd();
    TextsGoMod();
    TextsInternal();
    TextsUtilsGo();
    TextsPkg();
    TextsPrinterGo();
    TextsPrinterTest();
    Regroup("001" + "/\n", "├── cmd/\n", "│   └── main.go/\n", "├── go.mod/\n", "├── internal/\n", "│   └── utils/\n",
      "│       └── utils.go/\n", "└── pkg/\n", "    └── printer/\n", "        ├── printer.go/\n", "        └── printer_test.go/\n",
      "\n5 directories, 5 files\n");
  }

  /** The test's options show every entry of the project. */
  lemma PlainRun()
    ensures TestRun(TestOptions([]), true)
  {
    NothingHiddenOrExcluded(Cmd());
    NothingHiddenOrExcluded(File("go.mod"));
    NothingHiddenOrExcluded(Internal());
    NothingHiddenOrExcluded(Utils());
    NothingHiddenOrExcluded(Pkg());
    NothingHiddenOrExcluded(Printer());
    NothingHiddenOrExcluded(File("main.go"));
    NothingHiddenOrExcluded(File("utils.go"));
    NothingHiddenOrExcluded(File("printer.go"));
    NothingHiddenOrExcluded(File("printer_test.go"));
  }

  /** The text run of the package's test: the console shows exactly the listing the test
      expects, and the returned string is the same listing with a "/" after every file name. */
  lemma TestProjectListing()
    ensures TextOutput(TestOptions([]), AbsRoot, Project()).console ==
      "001" + "/\n" +
      "├── cmd/\n" +
      "│   └── main.go\n" +
      "├── go.mod\n" +
      "├── internal/\n" +
      "│   └── utils/\n" +
      "│       └── utils.go\n" +
      "└── pkg/\n" +
      "    └── printer/\n" +
      "        ├── printer.go\n" +
      "        └── printer_test.go\n" +
      "\n5 directories, 5 files\n"
    ensures TextOutput(TestOptions([]), AbsRoot, Project()).output ==
      "001" + "/\n" +
      "├── cmd/\n" +
      "│   └── main.go/\n" +
      "├── go.mod/\n" +
      "├── internal/\n" +
      "│   └── utils/\n" +
      "│       └── utils.go/\n" +
      "└── pkg/\n" +
      "    └── printer/\n" +
      "        ├── printer.go/\n" +
      "        └── printer_test.go/\n" +
      "\n5 directories, 5 files\n"
  {
    PlainRun();
    PlainConsole(TestOptions([]));
    PlainOutput(TestOptions([]));
  }
}
