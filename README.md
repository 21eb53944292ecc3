# PrintLayout traversal engine, in Dafny

This project models the engine of PrintLayout's `pkg/printer/printer.go`. The engine walks a
directory tree and prints it two ways:

- a text tree of `├── `/`└── ` lines with a "N directories, M files" summary (`getTreeOutput`
  and its recursive `traverse` closure);
- a tree of `Node`s handed to the JSON, XML or YAML encoder (`buildTree`).

It also models the policy helpers both paths share and the format dispatch of
`PrintProjectStructure`.

The filesystem is an in-memory value. An `Entry` carries:

- a name and a directory flag;
- a size and a modification time, both integers;
- 32-bit mode bits;
- a `readable` flag;
- its children, in the order the directory listing returns them.

A directory that cannot be opened or listed is an entry with `readable == false`. The
`filepath.Match` matcher is a function-typed field of the options. `Glob.SimpleMatcher` is a
concrete matcher for literal, `*` and `?` patterns.

Module layout:

- `Strings`: Go's byte-order `<` on strings, and decimal printing of the counts.
- `Paths`: `filepath.Base`, and `filepath.Join` with an entry name.
- `FileSystem`: the entry tree and the executable-bit test.
- `Policy`: the options, the hidden-name rule, exclusion, the extension filter and the
  connector strings.
- `Glob`: the simple matcher.
- `Sorting`: `sortEntries`, as a specification function and as an in-place array method.
- `Builder`: `buildTree`.
- `TextRender`: the text walk as functions (`WalkDir`, `WalkEntries`, `EntryWalk`), and class
  `TreeWriter`, whose fields are the closure's shared `output`, console stream, `dirCount` and
  `fileCount`. Its recursive method `Traverse` is proved to append exactly the walk's lines and
  counts. Its loop over the sorted listing is the separate method `VisitSorted`, and one
  iteration of that loop is `VisitEntry`.
- `TextProperties`: read errors, prefix nesting, the last-sibling connector and the depth limit.
- `Agreement`: the text walk against the tree builder.
- `Dispatch`: format selection.
- `Scenario` and `ExclusionScenario`: the project in the package's test and the listings the
  test expects for it.

## Behaviour worth noting

Each point below is what the code does, where another reading would be natural.

- File lines in the returned string end in "/", like directory lines (printer.go:189). The
  console line does not end in "/" (printer.go:187). `TreeWriter.Emit` and the scenario
  lemmas state both.
- The last-sibling connector is chosen against the full sorted listing, including hidden,
  excluded and filtered entries (printer.go:159). When the last entry of the listing is
  hidden, no line at that level gets "└── " (`TextProperties.LastConnector`).
- A read error in text mode ends the whole walk (printer.go:171-173). A walk that drew the
  unreadable directory's line, skipped its subtree and went on would draw
  `TextProperties.SkippingDir`. The code stops instead.
  `TextProperties.WalkIsPrefixOfSkipping` proves that the code's lines are a prefix of that
  walk's lines, and all of them when nothing fails. `TextProperties.EntriesStopAtBlocked`
  says where the cut falls: at the first visible directory of the sorted listing whose walk
  reaches an unreadable directory. The entries before it are drawn as the skipping walk
  draws them, then its line, then its own stopped walk.
  `TextProperties.WalkErrorNamesUnreadable` says the reported path is that of an unreadable
  directory on the way down.
- `buildTree` returns nil for a directory at the depth limit, and the caller drops the nil
  child (printer.go:260-262 and 294-296). So the depth-limited directory is missing from the
  tree, not kept as a childless node, and with `maxDepth == 0` the whole tree is nil. The
  text path does list that directory (`TextProperties.DepthLimitListsOneLevel` and
  `Builder.DepthLimitDropsSubdirs`).
- An unreadable directory is likewise dropped from the tree rather than kept as an empty
  node (printer.go:263-272).

## Model

| member | source | states |
|---|---|---|
| FileSystem.IsExecutable | pkg/printer/printer.go:309-311 | a mode is executable iff the owner, group or other execute bit (octal 100, 010, 001) is set |
| Policy.HiddenRule | pkg/printer/printer.go:148 | `ShowsHidden`, the hidden-name rule shared with `buildTree` (printer.go:283): a name is hidden exactly when hidden entries are not included and it starts with '.' |
| Policy.ExtFilterRule | pkg/printer/printer.go:175 | `PassesExtFilter`, the extension filter shared with `buildTree` (printer.go:297): a file passes exactly when the filter is empty or the name is some stem followed by the filter |
| Policy.DepthLimitRule | pkg/printer/printer.go:130 | `DepthReached`, the depth check shared with `buildTree` (printer.go:260): a limit of -1 never cuts, a cut level stays cut at every deeper level, and levels above a non-negative limit are not cut |
| Policy.IsExcluded | pkg/printer/printer.go:330-342 | a name is excluded iff some pattern in the list matches it. A pattern the matcher reports as malformed is skipped and never excludes. An empty list excludes nothing |
| Policy.TreePrefix | pkg/printer/printer.go:314-319 | the connector is four characters: "└── " for the last entry, "├── " otherwise |
| Policy.Indent | pkg/printer/printer.go:322-327 | the child indent is four characters: four spaces under the last entry, "│   " otherwise |
| Glob.SimpleMatcher | pkg/printer/printer.go:332 | the literal/`*`/`?` matcher never reports a malformed pattern |
| Glob.LiteralMatch | pkg/printer/printer.go:332 | a pattern without `*` or `?` matches only the identical name |
| Glob.StarSuffixMatch | pkg/printer/printer.go:332 | `*` followed by a literal suffix (such as `*.go`) matches a name without '/' iff the name ends with that suffix |
| Strings.LexLessTrichotomy | pkg/printer/printer.go:216-219 | string order is total, asymmetric and irreflexive |
| Strings.LexLessTransitive | pkg/printer/printer.go:216-219 | string order is transitive |
| Strings.NatToString | pkg/printer/printer.go:205-206 | a count prints as a non-empty run of decimal digits with no leading zero |
| Strings.DecimalRoundTrip | pkg/printer/printer.go:205-206 | reading the printed digits back gives the count |
| Strings.NatToStringInjective | pkg/printer/printer.go:205-206 | different counts print differently |
| Paths.Base | pkg/printer/printer.go:198 | the base name is non-empty and free of '/' unless it is "/". It is "." for the empty path and "/" for a path of slashes only. Otherwise it is the final part of the path with its trailing slashes removed, and the character before it, if any, is '/' |
| Paths.BaseOfJoin | pkg/printer/printer.go:290 | the base of a directory joined with an entry name is that name, so a child node is named by its entry |
| Sorting.LessReversed | pkg/printer/printer.go:213-235 | `Less`, the comparator given to `sort.Slice`: any order string other than "asc" is the ascending comparator with its arguments swapped, and an unknown key never reorders |
| Sorting.LessAsymmetric | pkg/printer/printer.go:212-236 | the comparator for every key and order is asymmetric |
| Sorting.NotLessTransitive | pkg/printer/printer.go:212-236 | "not less" is transitive for every key and order, so the comparator is a strict weak order |
| Sorting.InsertionSortPermutes | pkg/printer/printer.go:212-236 | sorting keeps the same multiset of entries |
| Sorting.InsertionSortOrders | pkg/printer/printer.go:212-236 | no later entry sorts strictly before an earlier one |
| Sorting.SortEntriesSpec | pkg/printer/printer.go:212-236 | `SortEntries`, the listing as `sortEntries` leaves it: the result is a permutation of the input. An unknown key leaves it unchanged. Name, size and time are non-decreasing when the order is "asc" and non-increasing for any other order string |
| Sorting.SortEntriesSameMembers | pkg/printer/printer.go:212-236 | an entry is in the sorted listing iff it is in the original listing |
| Sorting.InsertLast | pkg/printer/printer.go:212-236 | one in-place insertion step: the first i+1 cells become the sorted insertion of cell i into the first i cells, and later cells are untouched |
| Sorting.SortInPlace | pkg/printer/printer.go:212-236 | sorting the array in place leaves in it the sorted listing of its old contents |
| Builder.BuildTree | pkg/printer/printer.go:259-280 | the result is nil iff the depth limit is reached or the directory cannot be opened or listed. Otherwise it is a directory node with the given name |
| Builder.BuildChildrenExact | pkg/printer/printer.go:282-302 | `BuildChildren`, the loop of `buildTree`: a node's children follow the sorted listing's order, as a subsequence of it. Each child comes from a kept entry, and every kept entry gives a child. A kept entry is visible and is a file passing the filter or a directory whose build is not nil |
| Builder.BuildTreeFiltered | pkg/printer/printer.go:282-302 | at every level, each child passes the hidden rule and matches no exclusion pattern. Each file child passes the extension filter and has no children |
| Builder.DepthLimitDropsSubdirs | pkg/printer/printer.go:289-296 | one level above the depth limit, a built node has file children only |
| TextRender.TreeWriter.constructor | pkg/printer/printer.go:120-122 | the output and console start empty and both counters at zero |
| TextRender.TreeWriter.Emit | pkg/printer/printer.go:161-189 | one line appended: connector and name, with "/" always in the returned string and only for directories on the console. The matching counter goes up by one |
| TextRender.TreeWriter.Traverse | pkg/printer/printer.go:129-195 | the `traverse` closure appends exactly the walk's lines to both streams and adds their directory and file counts. It returns the walk's error |
| TextRender.TreeWriter.VisitSorted | pkg/printer/printer.go:147-194 | the loop over the sorted listing appends exactly the lines of the walk over those entries and adds their counts. It stops at the first entry whose subtree fails, with that error |
| TextRender.TreeWriter.VisitEntry | pkg/printer/printer.go:147-193 | one loop iteration: hidden and excluded entries draw nothing. A directory draws its line and then its subtree, and a file draws its line when it passes the filter |
| TextRender.GetTreeOutput | pkg/printer/printer.go:119-209 | returns the root line, the walk's lines, the error line if any and the summary, for both the returned string and the console |
| TextProperties.WalkFailsIffBlocked | pkg/printer/printer.go:133-142 | the walk fails iff it reaches, within the depth limit, a visible directory it cannot open or list |
| TextProperties.EntryFailsIffBlocked | pkg/printer/printer.go:147-173 | `EntryWalk`, one iteration of the loop, fails exactly when the entry is a visible directory whose own walk reaches an unreadable directory |
| TextProperties.EntriesStopAtBlocked | pkg/printer/printer.go:147-173 | `WalkEntries`, the loop: when it fails it stops at the first visible, blocked directory of the sorted listing. It has drawn the entries before that one exactly as the skipping walk would, then that directory's line, then the lines of its failed walk, and it reports that walk's error |
| TextProperties.SkippingRangeSplits | pkg/printer/printer.go:147-192 | the skipping lines of a listing from one index on are those of the entries up to any later index followed by those from that index on |
| TextProperties.WalkErrorNamesUnreadable | pkg/printer/printer.go:129-173 | `WalkDir`: the error of a failed walk carries the path, built by `Join` from the walk's root, of a directory reached within the depth limit through visible directories that cannot be opened or listed |
| TextProperties.WalkIsPrefixOfSkipping | pkg/printer/printer.go:170-173 | the lines drawn are a prefix of the walk that skips unreadable directories, and all of it when nothing fails. A failed walk ends with the line of the directory it was in |
| TextProperties.TextOutputCases | pkg/printer/printer.go:197-208 | `TextOutput`, what `getTreeOutput` returns and prints: on a read error the returned string is: the lines drawn before the failure, then "Error traversing directory: <path>", then a summary counting only those lines. Otherwise it is the complete listing and its summary |
| TextProperties.WalkNested | pkg/printer/printer.go:164-170 | every line's prefix is the level's prefix followed by indents. A deeper line follows a directory line and extends its prefix by "    " under a last entry, "│   " otherwise. Every line in a directory's block, that is every later line up to the first one no deeper than the directory's line, sits below the directory's prefix plus that indent, so all its children and their subtrees carry it |
| TextProperties.LastConnector | pkg/printer/printer.go:159 | a line drawn with "└── " belongs to the last entry of the full sorted listing, which is shown, and only its subtree follows. When that entry is shown and nothing fails, it is drawn with "└── " |
| TextProperties.DepthLimitListsOneLevel | pkg/printer/printer.go:130-132 | one level above the limit the walk cannot fail and draws one line per shown entry, subdirectories included, with nothing beneath them |
| TextProperties.MaxDepthZero | pkg/printer/printer.go:197-206 | with a depth limit of 0 the output is the root line and "0 directories, 0 files" |
| Agreement.AllReadableNotBlocked | pkg/printer/printer.go:133-142 | a tree whose directories are all readable never stops the text walk |
| Agreement.TextMatchesTree | pkg/printer/printer.go:148-189 | with no depth limit and nothing unreadable, the text walk completes and its lines are the pre-order outline of `buildTree`'s tree. The directory and file counts equal the tree's node counts |
| Dispatch.PrintProjectStructure | pkg/printer/printer.go:91-116 | "text" gives the text listing. "json", "xml" and "yaml" give `buildTree`'s tree for that format. Any other format is reported as unsupported and saves nothing. The result is saved exactly when an output file is named |
| Scenario.TestProjectListing | pkg/printer/printer_test.go:37-48 | the test project's console text is the listing the test expects. The returned string is the same with "/" after each file name |
| ExclusionScenario.ExcludedIffGoSuffix | pkg/printer/printer_test.go:99 | the test's pattern `*.go` excludes exactly the names ending in ".go" |
| ExclusionScenario.ExcludedProjectListing | pkg/printer/printer_test.go:104-111 | with `*.go` excluded, the console shows the test's expected listing with 5 directories and 1 file |

## Left out

- **Real filesystem access.** `os.Open`, `Readdir`, `os.Stat`, `filepath.Abs` and `os.WriteFile` are I/O. The walk takes an in-memory entry tree and an already absolute root path. A failed `filepath.Abs` is not modelled. `Dispatch.PrintProjectStructure` reports the file to write, not the write itself.
- **Error wording.** A read error carries the failing directory's path only: the OS error wording is not modelled.
- **`filepath.Join` cleaning.** `Paths.Join` joins a directory with one entry name. It does not clean `..`, `.` or repeated separators.
- **The full `filepath.Match` grammar.** Character classes and escapes belong to a foreign library. The matcher is a parameter, and `Glob.SimpleMatcher` covers literals, `*` and `?`. It reads '[' and the backslash as ordinary characters, where `filepath.Match` reads a character class or an escape, or reports a malformed pattern such as "[".
- **"Invalid exclude pattern" messages.** The console messages for malformed patterns are not part of the modelled console stream.
- **JSON, XML and YAML marshalling.** `Dispatch` returns the tree handed to the encoder, not the encoded text. The Go code also prints that text to the console; that is not modelled.
- **Colour.** The console stream is the colour-off output. `colorMap`, `getColorFunc` and the per-file `os.Stat` for the executable colour are left out. `FileSystem.IsExecutable` models the bit test alone.
- **Listing names.** A listed entry's name is taken to be an entry name: non-empty and free of '/', as `Paths.IsEntryName` says. `Builder.BuildTree` names a child node by its entry name. That equals `filepath.Base` of the joined path only for such names (`Paths.BaseOfJoin`). The entry tree does not enforce it.
- **Time.** Modification times are integers; `time.Time` is not modelled.
- **Flag parsing and wrappers.** `HandleFlags` and `cmd/main.go` are thin wrappers and flag parsing.
- **Tests and benchmarks.** The pipe capture, temporary directories and benchmarks are test setup. The tests call `PrintProjectStructure` without the depth argument, so the scenarios use no depth limit.
- Sorting.SortEntriesSpec: the model fixes one order among equal keys, that of a stable insertion sort. Go's `sort.Slice` is not stable, so its tie order is unspecified. The contract states only permutation and key order, which hold for any tie order.
