/**
 * The test's exclusion run on the same project: the pattern "*.go" removes every Go source
 * file, leaving the five directories and go.mod.
 */
module ExclusionScenario {
  import opened Strings
  import opened FileSystem
  import opened Policy
  import opened Glob
  import opened TextRender
  import opened Scenario

  function GoExcluded(): Options { TestOptions(["*.go"]) }

  /** "*.go" excludes exactly the names ending in ".go". */
  lemma ExcludedIffGoSuffix(name: string)
    requires '/' !in name
    ensures IsExcluded(name, ["*.go"], SimpleMatcher) <==> HasSuffix(name, ".go")
  {
    assert "*.go" == "*" + ".go";
    StarSuffixMatch(".go", name);
  }

  /** Under "*.go", a name that does not start with '.' is shown exactly when it does not end
      in ".go". */
  lemma VisibleIffNotGo(e: Entry)
    requires '/' !in e.name && e.name != [] && e.name[0] != '.'
    ensures Visible(e, GoExcluded()) <==> !HasSuffix(e.name, ".go")
  {
    ExcludedIffGoSuffix(e.name);
    assert !HasPrefix(e.name, ".");
  }

  /** A Go source file, "stem.go", is hidden by the pattern. */
  lemma GoFileHidden(stem: string)
    requires '/' !in stem && stem != [] && stem[0] != '.'
    ensures !Visible(File(stem + ".go"), GoExcluded())
  {
    var name := stem + ".go";
    assert name[|name| - 3..] == ".go";
    assert '/' !in name by { assert forall c :: c in name ==> c in stem || c in ".go"; }
    VisibleIffNotGo(File(name));
  }

  lemma GoModShown()
    ensures Visible(File("go.mod"), GoExcluded())
  {
    VisibleIffNotGo(File("go.mod"));
    assert "go.mod"[3..] != ".go";
  }

  lemma MainAndUtilsHidden()
    ensures !Visible(File("main.go"), GoExcluded()) && !Visible(File("utils.go"), GoExcluded())
  {
    GoFileHidden("main");
    assert "main" + ".go" == "main.go";
    GoFileHidden("utils");
    assert "utils" + ".go" == "utils.go";
  }

  lemma PrinterFilesHidden()
    ensures !Visible(File("printer.go"), GoExcluded()) && !Visible(File("printer_test.go"), GoExcluded())
  {
    GoFileHidden("printer");
    assert "printer" + ".go" == "printer.go";
    GoFileHidden("printer_test");
    assert "printer_test" + ".go" == "printer_test.go";
  }

  /** A directory whose name does not end in ".go" is shown. */
  lemma DirShown(name: string, children: seq<Entry>)
    requires '/' !in name && name != [] && name[0] != '.' && !HasSuffix(name, ".go")
    ensures Visible(Dir(name, children), GoExcluded())
  {
    VisibleIffNotGo(Dir(name, children));
  }

  lemma CmdAndPkgShown()
    ensures Visible(Cmd(), GoExcluded()) && Visible(Pkg(), GoExcluded())
  {
    assert "cmd"[0..] != ".go";
    DirShown("cmd", [File("main.go")]);
    assert "pkg"[0..] != ".go";
    DirShown("pkg", [Printer()]);
  }

  lemma InternalShown()
    ensures Visible(Internal(), GoExcluded())
  {
    assert "internal"[5..] != ".go";
    DirShown("internal", [Utils()]);
  }

  lemma InnerDirsShown()
    ensures Visible(Utils(), GoExcluded()) && Visible(Printer(), GoExcluded())
  {
    assert "utils"[2..] != ".go";
    DirShown("utils", [File("utils.go")]);
    assert "printer"[4..] != ".go";
    DirShown("printer", [File("printer_test.go"), File("printer.go")]);
  }

  /** The exclusion run's options keep the directories and go.mod and drop the Go files. */
  lemma GoExcludedRun()
    ensures TestRun(GoExcluded(), false)
  {
    MainAndUtilsHidden();
    PrinterFilesHidden();
    CmdAndPkgShown();
    InternalShown();
    InnerDirsShown();
    GoModShown();
  }

  lemma Regroup6(h: string, c: string, g: string, i1: string, i2: string, p1: string, p2: string, t: string)
    ensures h + (c + (g + ((i1 + i2) + (p1 + p2)))) + t == h + c + g + i1 + i2 + p1 + p2 + t
  {
  }

  lemma ExcludedRunText(opts: Options, console: bool)
    requires TestRun(opts, false)
    ensures var r := TextOutput(opts, AbsRoot, Project());
      (if console then r.console else r.output) ==
        ("001" + "/\n") + (Text(CmdLine(), console) + (Text(GoModLine(), console) +
        ((Text(InternalLine(), console) + Text(UtilsLine(), console)) +
         (Text(PkgLine(), console) + Text(PrinterLine(), console)))))
        + "\n5 directories, 1 files\n"
  {
    RunText(opts, false, console);
    ProjectCounts(false);
    RenderBlocks(CmdLines(false), [GoModLine()], InternalLines(false), PkgLines(false), console);
    CmdText(false, console);
    GoModText(console);
    InternalText(false, console);
    PkgText(false, console);
    SummaryLines();
  }

  lemma ExcludedConsole(opts: Options)
    requires TestRun(opts, false)
    ensures TextOutput(opts, AbsRoot, Project()).console ==
      "001" + "/\n" +
      "├── cmd/\n" +
      "├── go.mod\n" +
      "├── internal/\n" +
      "│   └── utils/\n" +
      "└── pkg/\n" +
      "    └── printer/\n" +
      "\n5 directories, 1 files\n"
  {
    ExcludedRunText(opts, true);
    TextsCmd();
    TextsGoMod();
    TextsInternal();
    TextsPkg();
    Regroup6("001" + "/\n", "├── cmd/\n", "├── go.mod\n", "├── internal/\n", "│   └── utils/\n", "└── pkg/\n",
      "    └── printer/\n", "\n5 directories, 1 files\n");
  }

  lemma ExcludedOutput(opts: Options)
    requires TestRun(opts, false)
    ensures TextOutput(opts, AbsRoot, Project()).output ==
      "001" + "/\n" +
      "├── cmd/\n" +
      "├── go.mod/\n" +
      "├── internal/\n" +
      "│   └── utils/\n" +
      "└── pkg/\n" +
      "    └── printer/\n" +
      "\n5 directories, 1 files\n"
  {
    ExcludedRunText(opts, false);
    TextsCmd();
    TextsGoMod();
    TextsInternal();
    TextsPkg();
    Regroup6("001" + "/\n", "├── cmd/\n", "├── go.mod/\n", "├── internal/\n", "│   └── utils/\n", "└── pkg/\n",
      "    └── printer/\n", "\n5 directories, 1 files\n");
  }

  /** The exclusion run of the package's test: with "*.go" excluded the console shows the
      listing the test expects, every directory kept and only go.mod among the files. */
  lemma ExcludedProjectListing()
    ensures TextOutput(GoExcluded(), AbsRoot, Project()).console ==
      "001" + "/\n" +
      "├── cmd/\n" +
      "├── go.mod\n" +
      "├── internal/\n" +
      "│   └── utils/\n" +
      "└── pkg/\n" +
      "    └── printer/\n" +
      "\n5 directories, 1 files\n"
    ensures TextOutput(GoExcluded(), AbsRoot, Project()).output ==
      "001" + "/\n" +
      "├── cmd/\n" +
      "├── go.mod/\n" +
      "├── internal/\n" +
      "│   └── utils/\n" +
      "└── pkg/\n" +
      "    └── printer/\n" +
      "\n5 directories, 1 files\n"
  {
    GoExcludedRun();
    ExcludedConsole(GoExcluded());
    ExcludedOutput(GoExcluded());
  }
}
