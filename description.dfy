/**
 * `findDescription`: the comment printed after the root directory's name.
 * It tries README.md, then description.txt, then package.json, then the first
 * `//` comment of the directory's source files, and gives "" when none of
 * them yields anything.
 */
module Description {
  import opened Seqs
  import opened Strings
  import opened FileTree

  /**
   * What `JSON.parse`, `pkg.description` and the template literal around it
   * yield for a package.json text: `Malformed` when any of the three throws (a
   * syntax error, a `null` document, or a description such as
   * `{"toString": 1}` that has no primitive form), otherwise `Parsed(Some(text))` exactly when the field is
   * truthy in JavaScript's sense, with `text` the string the template
   * literal makes of it (possibly empty, as for `[]`), and `Parsed(None)`
   * when it is missing or falsy (`""`, `0`, `false`, `null`).
   */
  datatype Package =
    | Malformed
    | Parsed(description: Option<string>)

  /** `readFileSync` threw: the name exists but is not a readable file. */
  datatype Failure = Unreadable(name: string)

  /** `existsSync` then `readFileSync` of a name in the directory: None when absent. */
  function ReadFile(children: seq<Entry>, name: string): (r: Result<Option<string>, Failure>)
    ensures r == Ok(None) <==> forall i :: 0 <= i < |children| ==> children[i].name != name
    ensures r.Ok? && r.value.Some? ==> Entry(name, File(r.value.value)) in children
    ensures r.Err? ==> r.error == Unreadable(name) && exists n :: Entry(name, Dir(n)) in children
  {
    match Lookup(children, name)
    case None => Ok(None)
    case Some(File(text)) => Ok(Some(text))
    case Some(Dir(_)) => Err(Unreadable(name))
  }

  // ---------------------------------------------------------------------------
  // README.md
  // ---------------------------------------------------------------------------

  predicate NonBlank(line: string) {
    Trim(line) != []
  }

  lemma {:induction false} NonBlankIff(lines: seq<string>)
    ensures forall i :: 0 <= i < |lines| ==> (NonBlank(lines[i]) <==> !AllSpace(lines[i]))
  {
    forall i | 0 <= i < |lines| ensures NonBlank(lines[i]) <==> !AllSpace(lines[i]) {
      TrimEmpty(lines[i]);
    }
  }

  /** The README rule: `# ` and the first line that is not blank, its heading marks stripped; None when every line is blank. */
  function ReadmeTitle(text: string): (r: Option<string>)
    ensures r.Some? ==> "# " <= r.value
  {
    var lines := Lines(text);
    match Find(lines, NonBlank)
    case None => None
    case Some(i) => Some("# " + StripHeading(lines[i]))
  }

  /** The README yields nothing exactly when every one of its lines is white space. */
  lemma {:induction false} ReadmeTitleNone(text: string, lines: seq<string>)
    requires lines == Lines(text)
    ensures ReadmeTitle(text).None? <==> forall i :: 0 <= i < |lines| ==> AllSpace(lines[i])
  {
    var found := Find(lines, NonBlank);
    if found.Some? {
      var k := found.value;
      assert !AllSpace(lines[k]) by { TrimEmpty(lines[k]); }
      assert ReadmeTitle(text).Some?;
    } else {
      forall i | 0 <= i < |lines| ensures AllSpace(lines[i]) {
        assert !NonBlank(lines[i]);
        TrimEmpty(lines[i]);
      }
      assert ReadmeTitle(text).None?;
    }
  }

  /** Otherwise it is the first line that is not all white space, heading marks stripped. */
  lemma {:induction false} ReadmeTitleFirst(text: string, lines: seq<string>, i: nat)
    requires lines == Lines(text)
    requires i < |lines| && !AllSpace(lines[i])
    requires forall j :: 0 <= j < i ==> AllSpace(lines[j])
    ensures ReadmeTitle(text) == Some("# " + StripHeading(lines[i]))
  {
    NonBlankIff(lines);
    assert Find(lines, NonBlank) == Some(i);
  }

  // ---------------------------------------------------------------------------
  // package.json
  // ---------------------------------------------------------------------------

  /** `if (pkg.description) return "# " + pkg.description`, with a parse failure caught and ignored. */
  function PackageTitle(pkg: Package): (r: Option<string>)
    ensures r.Some? <==> pkg.Parsed? && pkg.description.Some?
    ensures r.Some? ==> r.value == "# " + pkg.description.value
  {
    if pkg.Parsed? && pkg.description.Some? then
      Some("# " + pkg.description.value)
    else None
  }

  // ---------------------------------------------------------------------------
  // Source files
  // ---------------------------------------------------------------------------

  const SourceExtensions: seq<string> := [".js", ".ts", ".jsx", ".tsx", ".css", ".scss"]

  /** `/\.(js|ts|jsx|tsx|css|scss)$/.test(name)`. */
  predicate IsSourceName(name: string) {
    exists x :: x in SourceExtensions && EndsWith(name, x)
  }

  predicate IsComment(line: string) {
    "//" <= Trim(line)
  }

  /** `line.replace(/^\/\/\s*\/, "")`: the slashes and the white space after them, only when the line starts with them. */
  function StripComment(line: string): (r: string)
    ensures "//" <= line ==> |r| <= |line| - 2 && r == line[|line| - |r|..]
    ensures "//" <= line ==> forall i :: 2 <= i < |line| - |r| ==> IsSpace(line[i])
    ensures "//" <= line ==> r == [] || !IsSpace(r[0])
    ensures !("//" <= line) ==> r == line
  {
    if "//" <= line then line[SpaceRunEnd(line, 2)..] else line
  }

  lemma {:induction false} IsCommentIff(lines: seq<string>)
    ensures forall i :: 0 <= i < |lines| ==> (IsComment(lines[i]) <==> "//" <= TrimStart(lines[i]))
  {
    forall i | 0 <= i < |lines| ensures IsComment(lines[i]) <==> "//" <= TrimStart(lines[i]) {
      TrimStartsWith(lines[i], "//");
    }
  }

  /** The comment rule for one file: the first line whose trimmed form starts with `//`. */
  function CommentTitle(text: string): (r: Option<string>)
    ensures r.Some? ==> "# " <= r.value
  {
    var lines := Lines(text);
    match Find(lines, IsComment)
    case None => None
    case Some(i) => Some("# " + StripComment(lines[i]))
  }

  /** A file yields no comment exactly when no line starts with `//` after its leading white space. */
  lemma {:induction false} CommentTitleNone(text: string, lines: seq<string>)
    requires lines == Lines(text)
    ensures CommentTitle(text).None? <==> forall i :: 0 <= i < |lines| ==> !("//" <= TrimStart(lines[i]))
  {
    IsCommentIff(lines);
    var found := Find(lines, IsComment);
    if found.Some? {
      assert "//" <= TrimStart(lines[found.value]);
    } else {
      assert forall i :: 0 <= i < |lines| ==> !IsComment(lines[i]);
    }
  }

  /** Otherwise the first such line decides, with `//` stripped only when it is at the very start. */
  lemma {:induction false} CommentTitleFirst(text: string, lines: seq<string>, i: nat)
    requires lines == Lines(text)
    requires i < |lines| && "//" <= TrimStart(lines[i])
    requires forall j :: 0 <= j < i ==> !("//" <= TrimStart(lines[j]))
    ensures CommentTitle(text) == Some("# " + StripComment(lines[i]))
  {
    IsCommentIff(lines);
    assert Find(lines, IsComment) == Some(i);
  }

  /** A comment at the start of a line loses its slashes and the white space after them. */
  lemma {:induction false} LeadingComment(body: string)
    requires body != [] && !IsSpace(body[0]) && '\n' !in body
    ensures CommentTitle("// " + body) == Some("# " + body)
  {
    var line := "// " + body;
    assert Lines(line) == [line] by {
      assert forall i :: 3 <= i < |line| ==> line[i] == body[i - 3];
      SingleLine(line);
    }
    assert "//" <= TrimStart(line) by {
      TrimStartSpaces([], line);
    }
    assert StripComment(line) == body by {
      assert line[2..] == [' '] + body;
      TrimStartSpaces([' '], body);
    }
    CommentTitleFirst(line, [line], 0);
  }

  /** An indented comment is found but kept whole: the slashes are stripped only at the very start of the line. */
  lemma {:induction false} IndentedComment(indent: string, body: string)
    requires indent != [] && AllSpace(indent) && '\n' !in indent + body
    ensures CommentTitle(indent + "//" + body) == Some("# " + (indent + "//" + body))
  {
    var line := indent + "//" + body;
    assert Lines(line) == [line] by {
      assert forall i :: 0 <= i < |indent| ==> line[i] == (indent + body)[i];
      assert forall i :: |indent| + 2 <= i < |line| ==> line[i] == (indent + body)[i - 2];
      SingleLine(line);
    }
    assert "//" <= TrimStart(line) by {
      TrimStartSpaces(indent, "//" + body);
      assert line == indent + ("//" + body);
    }
    assert StripComment(line) == line by {
      assert line[0] == indent[0] && IsSpace(indent[0]);
    }
    CommentTitleFirst(line, [line], 0);
  }

  /** The `for ... of sourceFiles` loop: the first file holding a comment line decides; reading a directory throws. */
  function ScanSources(files: seq<Entry>): (r: Result<string, Failure>)
    ensures r.Ok? ==> r.value == "" || "# " <= r.value
    ensures r.Err? ==> exists i :: 0 <= i < |files| && files[i].node.Dir? && r.error == Unreadable(files[i].name)
  {
    if files == [] then Ok("")
    else match files[0].node
      case Dir(_) => Err(Unreadable(files[0].name))
      case File(text) =>
        match CommentTitle(text)
        case Some(title) => Ok(title)
        case None =>
          var r := ScanSources(files[1..]);
          assert r.Err? ==> exists i :: 0 <= i < |files| && files[i].node.Dir? && r.error == Unreadable(files[i].name) by {
            if r.Err? {
              var i :| 0 <= i < |files[1..]| && files[1..][i].node.Dir? && r.error == Unreadable(files[1..][i].name);
              assert files[1..][i] == files[i + 1];
            }
          }
          r
  }

  /** A source file the scan passes over: readable, with no comment line. */
  predicate Silent(e: Entry) {
    e.node.File? && CommentTitle(e.node.text).None?
  }

  /** The scan finds nothing exactly when every file is readable and holds no comment line. */
  lemma {:induction false} ScanSourcesEmpty(files: seq<Entry>)
    ensures ScanSources(files) == Ok("") <==> forall i :: 0 <= i < |files| ==> Silent(files[i])
  {
    if files != [] {
      var tail := files[1..];
      ScanSourcesEmpty(tail);
      if Silent(files[0]) {
        assert ScanSources(files) == ScanSources(tail);
        assert forall i :: 1 <= i < |files| ==> files[i] == tail[i - 1];
      } else {
        assert ScanSources(files) != Ok("");
      }
    }
  }

  /**
   * Otherwise the scan stops at the first file that is a directory (an
   * error) or that holds a comment line (its title).
   */
  lemma {:induction false} ScanSourcesFirst(files: seq<Entry>, i: nat)
    requires i < |files|
    requires files[i].node.Dir? || CommentTitle(files[i].node.text).Some?
    requires forall j :: 0 <= j < i ==> Silent(files[j])
    ensures files[i].node.Dir? ==> ScanSources(files) == Err(Unreadable(files[i].name))
    ensures files[i].node.File? ==> ScanSources(files) == Ok(CommentTitle(files[i].node.text).value)
  {
    if i > 0 {
      ScanSourcesFirst(files[1..], i - 1);
    }
  }

  /** The source files of the directory, in listing order. */
  function SourceFiles(children: seq<Entry>): (r: seq<Entry>)
    ensures forall i :: 0 <= i < |r| ==> r[i] in children && IsSourceName(r[i].name)
    ensures forall i :: 0 <= i < |children| && IsSourceName(children[i].name) ==> children[i] in r
  {
    Filter(children, IsSourceEntry)
  }

  predicate IsSourceEntry(e: Entry) {
    IsSourceName(e.name)
  }

  // ---------------------------------------------------------------------------
  // The priority search
  // ---------------------------------------------------------------------------

  /**
   * `findDescription(dir)` on the directory's entries; `parse` stands for
   * `JSON.parse(content).description`. An `Err` is the exception
   * `readFileSync` throws on a directory, which nothing catches.
   */
  function FindDescription(children: seq<Entry>, parse: string -> Package): (r: Result<string, Failure>)
    ensures r.Ok? ==> r.value == "" || "# " <= r.value
  {
    match ReadFile(children, "README.md")
    case Err(f) => Err(f)
    case Ok(readme) =>
      if readme.Some? && ReadmeTitle(readme.value).Some? then Ok(ReadmeTitle(readme.value).value)
      else match ReadFile(children, "description.txt")
      case Err(f) => Err(f)
      case Ok(Some(text)) => Ok("# " + Lines(text)[0])
      case Ok(None) =>
        match ReadFile(children, "package.json")
        case Err(f) => Err(f)
        case Ok(pkg) =>
          if pkg.Some? && PackageTitle(parse(pkg.value)).Some? then Ok(PackageTitle(parse(pkg.value)).value)
          else ScanSources(SourceFiles(children))
  }

  /** The metadata files, in the order they are tried. */
  const MetadataFiles: seq<string> := ["README.md", "description.txt", "package.json"]

  /** README.md is absent, or every one of its lines is blank: the search moves on. */
  predicate ReadmeSilent(children: seq<Entry>) {
    match Lookup(children, "README.md")
    case None => true
    case Some(File(text)) => ReadmeTitle(text).None?
    case Some(Dir(_)) => false
  }

  /** package.json is absent, malformed, or without a truthy description: the search moves on. */
  predicate PackageSilent(children: seq<Entry>, parse: string -> Package) {
    match Lookup(children, "package.json")
    case None => true
    case Some(File(text)) => PackageTitle(parse(text)).None?
    case Some(Dir(_)) => false
  }

  /** A README.md with a non-blank line decides, whatever else the directory holds. */
  lemma {:induction false} ReadmeFirst(children: seq<Entry>, parse: string -> Package, text: string, i: nat)
    requires UniqueNames(children) && Entry("README.md", File(text)) in children
    requires i < |Lines(text)| && !AllSpace(Lines(text)[i])
    requires forall j :: 0 <= j < i ==> AllSpace(Lines(text)[j])
    ensures FindDescription(children, parse) == Ok("# " + StripHeading(Lines(text)[i]))
  {
    LookupPresent(children, Entry("README.md", File(text)));
    ReadmeTitleFirst(text, Lines(text), i);
  }

  /** The README rule on a level-two heading: `## Title` becomes `# Title`. */
  lemma {:induction false} ReadmeHeading(title: string)
    requires title != [] && !IsSpace(title[0]) && title[0] != '#' && '\n' !in title
    ensures ReadmeTitle("## " + title) == Some("# " + title)
  {
    var line := "## " + title;
    assert Lines(line) == [line] by {
      assert forall i :: 3 <= i < |line| ==> line[i] == title[i - 3];
      SingleLine(line);
    }
    assert !AllSpace(line) by { assert line[0] == '#'; }
    ReadmeTitleFirst(line, [line], 0);
    HeadingMarksStripped(title);
  }

  /** The same when more lines follow: a first line `## Title` makes the README yield `# Title`. */
  lemma {:induction false} ReadmeHeadingFirstLine(title: string, rest: string)
    requires title != [] && !IsSpace(title[0]) && title[0] != '#' && '\n' !in title
    ensures ReadmeTitle("## " + title + "\n" + rest) == Some("# " + title)
  {
    var line := "## " + title;
    assert '\n' !in line by {
      assert forall i :: 3 <= i < |line| ==> line[i] == title[i - 3];
    }
    LinesCons(line, rest);
    assert "## " + title + "\n" + rest == line + "\n" + rest;
    assert !AllSpace(line) by { assert line[0] == '#'; }
    ReadmeTitleFirst(line + "\n" + rest, [line] + Lines(rest), 0);
    HeadingMarksStripped(title);
  }

  lemma {:induction false} HeadingMarksStripped(title: string)
    requires title != [] && !IsSpace(title[0]) && title[0] != '#'
    ensures StripHeading("## " + title) == title
  {
    var line := "## " + title;
    assert line[0] == '#' && line[1] == '#' && line[2] == ' ' && line[3] == title[0];
    assert HeadingEnd(line) == 3;
    assert line[3..] == title;
  }

  /** Next comes description.txt: its first line, even when that line is empty. */
  lemma {:induction false} DescriptionSecond(children: seq<Entry>, parse: string -> Package, text: string)
    requires UniqueNames(children) && ReadmeSilent(children)
    requires Entry("description.txt", File(text)) in children
    ensures FindDescription(children, parse) == Ok("# " + Lines(text)[0])
  {
    LookupPresent(children, Entry("description.txt", File(text)));
  }

  /** Then a truthy `description` field of package.json. */
  lemma {:induction false} PackageThird(children: seq<Entry>, parse: string -> Package, text: string, description: string)
    requires UniqueNames(children) && ReadmeSilent(children)
    requires Lookup(children, "description.txt").None?
    requires Entry("package.json", File(text)) in children
    requires parse(text) == Parsed(Some(description))
    ensures FindDescription(children, parse) == Ok("# " + description)
  {
    LookupPresent(children, Entry("package.json", File(text)));
  }

  /** When no metadata file speaks, the source files are scanned in listing order. */
  lemma {:induction false} SourcesLast(children: seq<Entry>, parse: string -> Package)
    requires ReadmeSilent(children) && Lookup(children, "description.txt").None?
    requires PackageSilent(children, parse)
    ensures FindDescription(children, parse) == ScanSources(SourceFiles(children))
  {
  }

  /** A directory named like a metadata file is read all the same, and reading it throws. */
  lemma {:induction false} MetadataDirectoryThrows(children: seq<Entry>, parse: string -> Package, n: seq<Entry>)
    requires UniqueNames(children) && Entry("README.md", Dir(n)) in children
    ensures FindDescription(children, parse) == Err(Unreadable("README.md"))
  {
    LookupPresent(children, Entry("README.md", Dir(n)));
  }

  /** The same holds for description.txt, once a silent README.md lets the search reach it. */
  lemma {:induction false} DescriptionDirThrows(children: seq<Entry>, parse: string -> Package, n: seq<Entry>)
    requires UniqueNames(children) && ReadmeSilent(children)
    requires Entry("description.txt", Dir(n)) in children
    ensures FindDescription(children, parse) == Err(Unreadable("description.txt"))
  {
    LookupPresent(children, Entry("description.txt", Dir(n)));
  }

  /** And for package.json, once README.md is silent and description.txt is absent. */
  lemma {:induction false} PackageDirThrows(children: seq<Entry>, parse: string -> Package, n: seq<Entry>)
    requires UniqueNames(children) && ReadmeSilent(children)
    requires Lookup(children, "description.txt").None?
    requires Entry("package.json", Dir(n)) in children
    ensures FindDescription(children, parse) == Err(Unreadable("package.json"))
  {
    LookupPresent(children, Entry("package.json", Dir(n)));
  }

  /** Reading fails only on a directory bearing a metadata file's name or a source file's name. */
  lemma {:induction false} FailureIsDirectory(children: seq<Entry>, parse: string -> Package)
    requires FindDescription(children, parse).Err?
    ensures var name := FindDescription(children, parse).error.name;
      exists i :: 0 <= i < |children| && children[i].name == name && children[i].node.Dir?
        && (name in MetadataFiles || IsSourceName(name))
  {
    var name := FindDescription(children, parse).error.name;
    if ReadmeSilent(children) && Lookup(children, "description.txt").None? && PackageSilent(children, parse) {
      var files := SourceFiles(children);
      var k :| 0 <= k < |files| && files[k].node.Dir? && name == files[k].name;
      assert files[k] in children;
    } else {
      assert name in MetadataFiles;
    }
  }

  /** With nothing to go by the result is the empty string, and the root line gets no comment. */
  lemma {:induction false} NothingFound(children: seq<Entry>, parse: string -> Package)
    requires forall i :: 0 <= i < |children| ==> children[i].name !in MetadataFiles && !IsSourceName(children[i].name)
    ensures FindDescription(children, parse) == Ok("")
  {
    assert Lookup(children, "README.md").None?;
    assert Lookup(children, "description.txt").None?;
    assert Lookup(children, "package.json").None?;
    FilterNone(children, IsSourceEntry);
  }
}
