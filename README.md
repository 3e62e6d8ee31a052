# tree-gen in Dafny

A model of `generate-tree`, the command-line tool of tree-gen (`index.js`). It reads
`[--A | --F] [--<number>] /path/to/directory`, checks that the path is a directory,
empties `directory_structure.txt`, writes a root line with a description taken from the
directory's metadata, and then appends an ASCII tree of the directory, one line per
entry:

```
proj/         # MyProj
├── README.md
└── src/
    ├── a.js
    └── b.js
```

The model has seven modules, one per file:

- `Seqs` (`seqs.dfy`): `Option`/`Result`, and the `find` and `filter` of the source with
  their counting and order lemmas.
- `Strings` (`strings.dfy`): JavaScript white space, `trim`, `split("\n")`, the regular
  expression `/^#*\s*/`, and the order `sort()` uses without a comparator.
- `FileTree` (`filetree.dfy`): the filesystem as a value. A directory is the sequence of
  its entries in listing order. An entry is a name with a file (its text) or a
  subdirectory.
- `Description` (`description.dfy`): `findDescription`, the priority search
  README.md → description.txt → package.json → the first `//` comment of a source file →
  `""`.
- `Renderer` (`render.dfy`): what `printTree(prefix, dir, depth)` emits, as a function
  `Render` from the tree to a sequence of structured lines (prefix, last-or-not, name,
  directory-or-not). Its lemmas state:
  - the depth bound (with -1 meaning unlimited);
  - the hidden-name rule;
  - folders only unless `--A`;
  - `└──` on the last sibling only;
  - four characters of prefix per level;
  - sorted siblings;
  - pre-order emission;
  - that every shown entry within the limit is drawn under the line of its parent
    directory, and every line draws such an entry.
- `Cli` (`cli.dfy`): the argument loop as a method with a `while` loop, proved against
  functions of the argument prefix, plus the root line and `path.basename`.
- `Output` (`output.dfy`): the output file as a class whose methods append to it. It
  holds `printTree` as recursive methods whose loop appends line by line, proved to
  write exactly the text of `Render`. `Run` is the top level of `index.js`, from the
  argument loop to the last append.

The model follows the code in these cases, which the usage text (index.js:16-20) does not
mention:

- A README.md line keeps its leading white space before `/^#*\s*/` is applied. A line
  `"  # Title"` therefore gives `"# # Title"`: only the spaces are stripped, because the
  pattern strips `#` only at the very start of the line.
- A source-file comment is found on the trimmed line, but `//` is stripped from the
  untrimmed line, so an indented comment is kept whole (`IndentedComment`).
- Reading errors are not absorbed. If README.md, description.txt, package.json or a
  matching source file is a directory when the search reaches it, `readFileSync`
  throws and nothing catches it (`MetadataDirectoryThrows`, `DescriptionDirThrows`,
  `PackageDirThrows`, `FailureIsDirectory`). Only what throws inside the `try` around
  package.json is caught: `JSON.parse`, the property access and the template literal.
- A package.json description is used whenever it is truthy, so a non-string such as
  `[]` or `{}` gives its string form, and `[]` gives `"# "`.
- `--0` is accepted and sets the maximum depth to 0, so only the root line is written.
  Leading zeros are ignored (`--03` is depth 3).
- An empty-string argument counts as "no directory yet", so it may be followed by
  another path.

## Model

| member | source | states |
|---|---|---|
| Seqs.Find | index.js:65 | `find` gives the first position whose element passes the test, and none when no element passes |
| Seqs.Filter | index.js:106 | `filter` keeps exactly the elements that pass, each drawn from the input |
| Seqs.FilterNone | index.js:83 | when no element passes, the filtered list is empty |
| Seqs.FilterCount | index.js:106 | filtering keeps every copy of a passing element and no copy of the others |
| Seqs.FilterPermutation | index.js:110-112 | filtering two permutations of a list gives two permutations of the same elements |
| Seqs.FilterSubsequence | index.js:110-112 | filtering a sorted list leaves it sorted: relative order is kept |
| Strings.IsSpace | index.js:65 | the white space `trim()` and the class `\s` share: tab, line feed, vertical tab, form feed, carriage return, space, no-break space, the byte-order mark, the Unicode space separators and the line and paragraph separators |
| Strings.SpaceRunEnd | index.js:67 | the end of a maximal run of white space (the `\s*` of a pattern) |
| Strings.HashRunEnd | index.js:67 | the end of a maximal run of `#` (the `#*` of a pattern) |
| Strings.TrimStart | index.js:89 | dropping leading white space leaves a suffix that does not start with white space, and only white space was dropped |
| Strings.HeadingEnd | index.js:67 | `/^#*\s*/` removes `#` marks then white space, as much as it can, and nothing else |
| Strings.TrimStartSpaces | index.js:89 | leading white space in front of a text that starts with a non-space is dropped exactly |
| Strings.TrimEnd | index.js:65 | dropping trailing white space leaves a prefix that does not end in white space |
| Strings.TrimEmpty | index.js:65 | `line.trim()` is falsy exactly when the line is all white space |
| Strings.TrimStartsWith | index.js:89 | `trim().startsWith("//")` depends only on the leading white space being removed |
| Strings.Lines | index.js:64 | `split("\n")` gives at least one piece and no piece holds a newline |
| Strings.LinesCons | index.js:64 | a line without a newline followed by a newline splits off as the first piece, and the rest splits on its own |
| Strings.SingleLine | index.js:70 | a text without a newline splits into itself |
| Strings.JoinLinesOfLines | index.js:64 | joining the pieces of `split("\n")` with newlines gives back the text |
| Strings.FirstLineIsPrefix | index.js:70 | `split("\n")[0]` is the text up to its first newline |
| Strings.Trim | index.js:65 | `trim()` drops leading then trailing white space; what it keeps is stated by TrimStart, TrimEnd, TrimEmpty and TrimStartsWith |
| Strings.StripHeading | index.js:67 | `replace(/^#*\s*/, "")` keeps the line from the end `HeadingEnd` fixes: after the `#` marks and the white space that follows them |
| Strings.StrLe | index.js:108 | the order `sort()` uses without a comparator: character by character, a proper prefix first; StrLeTotal, StrLeTransitive and StrLeAntisymmetric make it a total order |
| Strings.StrLeTotal | index.js:108 | any two names are comparable by the sort order |
| Strings.StrLeTransitive | index.js:108 | the sort order is transitive |
| Strings.StrLeAntisymmetric | index.js:108 | two names each at most the other are equal |
| FileTree.Hidden | index.js:106 | `item.startsWith(".")`: a name is hidden exactly when it is non-empty and starts with "." |
| FileTree.Lookup | index.js:60 | `existsSync(join(dir, name))` holds exactly when some entry has that name, and then yields that entry |
| FileTree.LookupPresent | index.js:60-61 | with unique names, looking up an entry's name finds that entry |
| FileTree.UniqueCount | index.js:105 | a directory listing with unique names holds each entry at most once |
| FileTree.DistinctNames | index.js:105 | two different entries of such a listing have different names |
| Description.ReadFile | index.js:59-61 | reading a name is absent exactly when no entry has it, yields the file's text, and throws exactly on a directory of that name |
| Description.NonBlank | index.js:65 | the `find` test `line.trim()`: a line is truthy when its trimmed form is non-empty (NonBlankIff is its partner) |
| Description.NonBlankIff | index.js:65 | a line is truthy after `trim()` exactly when it is not all white space |
| Description.ReadmeTitle | index.js:63-68 | the README rule yields nothing or a text starting with `# ` |
| Description.ReadmeTitleNone | index.js:63-68 | the README rule yields nothing exactly when every line is all white space |
| Description.ReadmeTitleFirst | index.js:64-67 | otherwise it yields `# ` and the first non-blank line with its heading marks stripped |
| Description.PackageTitle | index.js:72-79 | package.json yields `# ` and the description's string form exactly when it parses and its description is truthy; a truthy value whose string form is empty, such as `[]`, still yields `# ` |
| Description.IsSourceName | index.js:83 | the extension test on a name: it ends in .js, .ts, .jsx, .tsx, .css or .scss, dot included |
| Description.IsComment | index.js:89 | the `find` test `line.trim().startsWith("//")` (IsCommentIff is its partner) |
| Description.StripComment | index.js:91 | `/^\/\/\s*/` strips the slashes and following white space only from a line that starts with `//`, and leaves other lines whole |
| Description.IsCommentIff | index.js:89 | the comment test holds exactly when the line starts with `//` after its leading white space |
| Description.CommentTitle | index.js:88-91 | a source file yields nothing or a text starting with `# ` |
| Description.CommentTitleNone | index.js:88-91 | a source file yields nothing exactly when no line starts with `//` after its leading white space |
| Description.CommentTitleFirst | index.js:88-91 | otherwise the first such line decides, with `//` stripped only at the start of the line |
| Description.LeadingComment | index.js:89-91 | `// text` yields `# text` |
| Description.IndentedComment | index.js:89-91 | an indented `//` comment is found but kept whole, indentation included |
| Description.ScanSources | index.js:85-93 | the source scan yields "" or a `# ` text, and fails only by reading a directory among the files |
| Description.ScanSourcesEmpty | index.js:85-95 | the scan yields "" exactly when every file is readable and has no comment line |
| Description.ScanSourcesFirst | index.js:85-93 | otherwise the first file that is a directory or has a comment line decides, in listing order |
| Description.SourceFiles | index.js:83 | the files scanned are exactly the entries whose names end in .js, .ts, .jsx, .tsx, .css or .scss |
| Description.FindDescription | index.js:55-96 | the description is "" or starts with `# ` |
| Description.ReadmeFirst | index.js:58-68 | a README.md with a non-blank line decides, whatever else the directory holds |
| Description.ReadmeHeading | index.js:67 | a README that is the single line `## Title` yields `# Title` |
| Description.ReadmeHeadingFirstLine | index.js:64-67 | a README whose first line is `## Title`, whatever lines follow, yields `# Title` |
| Description.HeadingMarksStripped | index.js:67 | `## Title` with its heading marks stripped is `Title` |
| Description.DescriptionSecond | index.js:69-71 | when README.md is absent or blank, description.txt gives `# ` and its first line, even an empty one |
| Description.PackageThird | index.js:72-79 | when README.md is absent or blank and description.txt is absent, a truthy package.json description decides, whatever its string form |
| Description.SourcesLast | index.js:83-93 | when no metadata file yields a description, the result is the source scan's |
| Description.MetadataDirectoryThrows | index.js:60-61 | a directory named README.md makes the search throw |
| Description.DescriptionDirThrows | index.js:58-61 | when README.md is absent or blank, a directory named description.txt makes the search throw |
| Description.PackageDirThrows | index.js:58-61 | when README.md is absent or blank and description.txt is absent, a directory named package.json makes the search throw |
| Description.FailureIsDirectory | index.js:55-96 | the search fails only on a directory that bears a metadata file's name or a source file's name |
| Description.NothingFound | index.js:95 | with no metadata and no source files, the description is "" |
| Renderer.Connector | index.js:118 | `└──` for the last entry of a listing, `├──` for the others |
| Renderer.Indent | index.js:124 | the indentation added below an entry: four spaces under the last entry, `│` and three spaces under the others |
| Renderer.Pruned | index.js:101 | a call is cut off exactly when a limit is set (not -1) and its depth exceeds it |
| Renderer.Shown | index.js:106-111 | an entry survives the two filters exactly when its name is not hidden and it is a directory or `--A` is set |
| Renderer.Text | index.js:118-121 | the appended line: the prefix, `└──` for the last entry or `├──` otherwise, a space, the name, and "/" for a directory; TextEndsWithSlash is its partner |
| Renderer.Render | index.js:100-129 | `printTree(prefix, dir, depth)`: nothing when the depth limit cuts the call off, otherwise the loop's lines over the listing; its properties are RenderShape, RenderLevel, SiblingListing, EveryShownEntryRendered, EveryLineFromShownEntry and RenderPreOrder |
| Renderer.RenderItems | index.js:114-128 | the `forEach` loop after its first `k` passes: the lines of those iterations in order; RenderItemsShape and RenderItemsLevel state its properties |
| Renderer.Iteration | index.js:114-128 | the pass at index `j`: the callback on the `j`-th listed entry, told it is last exactly at the final index (IterationLevel) |
| Renderer.RenderEntry | index.js:115-127 | the callback: a directory's line followed by its subtree under the extended prefix one level deeper, a file's line only under `--A`, otherwise nothing; RenderEntryShape and RenderEntryLevel state its properties |
| Renderer.Texts | index.js:121 | one written string per line |
| Renderer.TextsIndex | index.js:121 | each written string is the text of its line |
| Renderer.TextsAppend | index.js:114-128 | the text of lines written one after the other is the texts one after the other |
| Renderer.TextEndsWithSlash | index.js:121 | a written line ends in "/" exactly when it names a directory |
| Renderer.SortedPairwise | index.js:108 | in a sorted listing every earlier name is at most every later one |
| Renderer.PairwiseSorted | index.js:108 | and conversely |
| Renderer.Insert | index.js:108 | inserting adds one entry at the front or keeps the first |
| Renderer.InsertSorted | index.js:108 | inserting into a sorted listing keeps it sorted |
| Renderer.InsertPermutation | index.js:108 | inserting adds exactly the one entry |
| Renderer.SortByName | index.js:108 | `sort()` is a permutation of the listing |
| Renderer.SortByNameSorted | index.js:108 | `sort()` puts the listing in name order |
| Renderer.Listing | index.js:105-112 | every entry iterated over is an entry of the directory that is not hidden, and is a directory unless `--A` |
| Renderer.ListingCount | index.js:105-112 | the listing is sorted by name and holds each shown entry exactly as often as the directory, and nothing else |
| Renderer.ListingFacts | index.js:105-112 | dropping hidden names, sorting and dropping files keep exactly the shown entries |
| Renderer.IndentationLength | index.js:124 | a prefix made of indentation blocks has a length that is a multiple of 4 |
| Renderer.LineShapeLift | index.js:124-125 | a line of a child's subtree seen from the parent's call keeps its shape one level up |
| Renderer.RenderShape | index.js:100-129 | every line a call emits extends its prefix by whole indentation blocks, never past the depth limit, with no hidden name, and names a directory unless `--A` |
| Renderer.RenderItemsShape | index.js:114-128 | the same for the lines of the loop |
| Renderer.RenderEntryShape | index.js:120-127 | the same for the lines of one iteration |
| Renderer.OutputLines | index.js:100-129 | from the root: nothing when depth 1 is cut off. Every line has an indentation-only prefix, lies at depth at most `maxDepth` when one is set, has no hidden name, and is a directory unless `--A` |
| Renderer.FoldersOnly | index.js:110-121 | without `--A` every written line ends in "/", for any tree |
| Renderer.LevelLinesAppend | index.js:114-128 | the lines at one level of output written in sequence are those of each part in sequence |
| Renderer.LevelLinesDeeper | index.js:124-125 | a subtree's lines are all deeper than its parent's level |
| Renderer.RenderEntryLevel | index.js:120-127 | one iteration adds exactly its own entry's line to its level |
| Renderer.IterationLevel | index.js:114-127 | the iteration at index `j` adds that entry's line, with `└──` when `j` is the last index |
| Renderer.RenderItemsLevel | index.js:114-128 | the loop's own-level lines are the head lines of its entries, in order |
| Renderer.RenderLevel | index.js:100-129 | an unpruned call's own-level lines are one per entry of its listing |
| Renderer.SiblingListing | index.js:105-121 | one call's own-level lines correspond one to one, index by index, to its listing: as many lines as listed entries, each at the call's prefix with its entry's name and kind, `└──` on the last only, in name order. Every such line names a shown entry and every shown entry has one; with unique names no name appears twice |
| Renderer.HeadsIndex | index.js:114-121 | there is one head line per entry, and the one at index `i` is at the prefix with the `i`-th entry's name and kind |
| Renderer.HeadsShape | index.js:115-118 | head lines of a sorted listing are in name order with `└──` on the last only |
| Renderer.HeadsSound | index.js:105-121 | every head line names a shown entry of the directory with its kind |
| Renderer.HeadsComplete | index.js:105-121 | every shown entry of the directory has a head line |
| Renderer.HeadsDistinct | index.js:114-121 | head lines of entries with distinct names have distinct names |
| Renderer.ListingDistinctNames | index.js:105-112 | with unique names in the directory, the listing's names are pairwise distinct |
| Renderer.InListing | index.js:105-112 | every shown entry is in the listing |
| Renderer.DrawnAtDepth | index.js:124-125 | the `n`-th entry along a path is drawn behind the call's prefix and `n - 1` indentation blocks |
| Renderer.DrawnAtAppend | index.js:114-128 | lines appended after a drawing leave it in place |
| Renderer.DrawnAtShift | index.js:114-128 | lines written before a drawing move it down by their number |
| Renderer.DrawnBelowHead | index.js:121-125 | an entry drawn in a subtree is drawn, one level deeper along the path, once the subtree is written right after its directory's line |
| Renderer.SubtreeDeeper | index.js:124-125 | every line of a child's subtree is deeper than the call's own prefix |
| Renderer.IterationInItems | index.js:114-128 | a drawing within one iteration of the loop is a drawing within the loop's whole output |
| Renderer.EveryShownEntryRendered | index.js:100-129 | every entry reached by a path of shown entries within the depth limit is drawn: its line names it at the right depth and hangs, at exactly one indentation block deeper, under the line that draws the directory before it on the path |
| Renderer.EntryDrawn | index.js:120-127 | one iteration's lines draw its own entry and every shown entry below it within the limit |
| Renderer.EveryLineFromShownEntry | index.js:100-129 | conversely every line of a call draws some path of shown entries within the depth limit: it names the path's last entry and hangs under the lines that draw the entries before it |
| Renderer.ItemsLineFromShownEntry | index.js:114-128 | every line of the loop draws a shown entry within the limit |
| Renderer.IterationLineFromShownEntry | index.js:120-127 | a line of one iteration draws its entry, or an entry below it |
| Renderer.LinesAreShownEntries | index.js:100-129 | from the root every shown entry within the depth limit (every one when `maxDepth` is -1) is drawn, and every line draws such an entry along its chain of parent lines |
| Renderer.RenderPreOrder | index.js:100-129 | every line below a call's own level follows the line of its parent directory, whose prefix it extends by exactly one indentation block, with only deeper lines between |
| Cli.IsDepthFlag | index.js:31 | `/^--\d+$/`: two dashes followed by one or more ASCII digits and nothing else |
| Cli.DepthOf | index.js:32 | `parseInt(arg.slice(2))`: the value of the digits after the two dashes |
| Cli.IsHelp | index.js:33 | the help test: the argument is `-h` or `--help` |
| Cli.IsPositional | index.js:35 | an argument that none of the earlier tests at index.js:27-33 takes, and so is a path |
| Cli.DecimalValue | index.js:32 | `parseInt` of the digits after `--`, read exactly; DecimalLeadingZero and DecimalDigits state its properties |
| Cli.ShowAllAfter | index.js:25-30 | `showAll` after the first `n` arguments: set by the last `--A` or `--F`, false when none; ParseArgs's loop is proved equal to it |
| Cli.DepthAfter | index.js:25-32 | `maxDepth` after the first `n` arguments: the last `--<digits>`, -1 when none; ParseArgs's loop is proved equal to it |
| Cli.DirectoryAfter | index.js:25-41 | `directory` after the first `n` arguments: the first non-empty path, "" when none; DirectoryAfterIsPath and DirectoryAfterOnly state its properties |
| Cli.DigitValue | index.js:32 | a decimal digit has a value below ten |
| Cli.DecimalLeadingZero | index.js:32 | `parseInt` ignores leading zeros |
| Cli.Digits | index.js:32 | not part of the program: the inverse of `parseInt` used by DecimalDigits. The decimal writing of a depth is all digits and starts with `0` only for 0 |
| Cli.DecimalDigits | index.js:32 | every depth written in decimal is read back by `parseInt` |
| Cli.DirectoryAfterIsPath | index.js:35-36 | the directory is "" exactly when every path given is empty, and otherwise it is one of them |
| Cli.DirectoryAfterOnly | index.js:35-40 | without a second path, every non-empty path is the chosen directory |
| Cli.SecondPath | index.js:37-40 | a path after a non-empty directory is a second path |
| Cli.PathsStep | index.js:35-36 | an option, or a path while none is set, adds no second path |
| Cli.ParseArgs | index.js:24-46 | help is given exactly when `-h`/`--help` comes before a second path. Multiple paths is the error exactly when a second path comes without help. No directory is the error exactly when neither holds and every path is empty. Otherwise the result is the last `--A`/`--F`, the last `--<n>` (-1 when none) and the one non-empty path |
| Cli.NoHelpBefore | index.js:33-40 | once a second path ends the loop, no earlier help was seen |
| Cli.NoHelpAt | index.js:33-34 | a loop that ran to the end saw no help |
| Cli.StripTrailingSlashes | index.js:131 | drops exactly the trailing slashes |
| Cli.LastSegment | index.js:131 | the text after the last slash, which has none |
| Cli.Basename | index.js:131 | `basename` has no slash |
| Cli.BasenamePlain | index.js:131 | a path without slashes is its own base name |
| Cli.RootLine | index.js:133 | the root line is the name and "/", then nine spaces and the description when it is truthy |
| Cli.SlashFrom | index.js:131-133 | not part of the program: used by RootLineRoundTrip to read a root line back. It finds the first "/" at or after an index |
| Cli.RootLineRoundTrip | index.js:131-133 | the name and the description can be read back from the root line |
| Output.OutputFile.constructor | index.js:48 | a new output file is empty |
| Output.OutputFile.Truncate | index.js:98 | `writeFileSync(outputFile, "")` empties the file |
| Output.OutputFile.Append | index.js:121 | `appendFileSync` adds one line at the end and changes nothing before it |
| Output.ItemsTextsSnoc | index.js:114-128 | proof step of `PrintItems`: one more pass of the loop appends the text of that iteration |
| Output.RenderTexts | index.js:100-103 | proof step of `PrintTree`: a pruned call writes nothing; otherwise it writes the text of its loop |
| Output.EntryTexts | index.js:120-127 | proof step of `PrintEntry`: an iteration writes a directory's line then its subtree, a file's line under `--A`, and nothing for a file otherwise |
| Output.PrintTree | index.js:100-129 | `printTree` appends exactly the text of `Render`, in order, and changes nothing before it |
| Output.PrintItems | index.js:114-128 | `forEach` appends the text of each iteration in listing order |
| Output.PrintEntry | index.js:115-127 | the callback appends its entry's line and then the subtree |
| Output.NamesDirectory | index.js:50 | the path exists and names a directory, the negation of the test that exits with "Directory does not exist" |
| Output.Report | index.js:131-135 | the file holds the root line with the found description, then the text of the tree; or the search's failure |
| Output.Run | index.js:24-135 | usage errors as `ParseArgs` decides them, and the file is untouched on a usage error or a path that is not a directory. Otherwise the file ends up holding `Report`, or is left empty when the search throws |

## Left out

- The filesystem is a value (`FileTree.Node`), not read. `existsSync`/`statSync` on the
  directory path is the parameter `resolve` of `Run`. `readdirSync` is the order of a
  directory's entries.
- Symbolic links (which `statSync` follows) and I/O failures other than reading a
  directory as a file are not modelled. These include permission errors, a directory
  that cannot be listed, and files changing during the run.
- `JSON.parse(content)` followed by `.description` is the parameter `parse` of
  `FindDescription`. Its result is `Malformed` when parsing, the property access or
  the template literal throws (a description such as `{"toString": 1}` has no
  primitive form), the string form of the description when it is truthy, and no description
  otherwise. How JavaScript forms that string is not modelled.
- `console.log`/`console.error` messages and `process.exit(1)` are the outcomes `Usage`,
  `NoSuchDirectory`, `Crashed` and `Saved`. Their text is not modelled.
- The newline written after each line is not modelled. The output file is its lines,
  each of which is followed by "\n".
- `path.join` is not modelled. Sorting joined paths is sorting names, since all share the
  directory's prefix. `path.basename` is modelled for "/"-separated paths only.
- Renderer.LinesAreShownEntries: says every shown entry is drawn and every line draws
  one, but not that no entry is drawn by two lines of the whole output. That uniqueness
  is stated one listing at a time, by `SiblingListing`.
- Renderer.SortByName: compares characters by code point, not UTF-16 code units as
  `sort()` does. The two orders differ only between characters above U+FFFF and those in
  U+E000–U+FFFF.
- Cli.DecimalValue: reads a depth exactly, where `parseInt` loses precision beyond 2^53.
- The output file `directory_structure.txt` is written in the working directory. When
  that lies inside the walked directory, the file appears in its own listing under
  `--A`. The model takes the tree as a fixed value.
- The unused `__filename`/`__dirname` (index.js:8-9) are not part of this model.
