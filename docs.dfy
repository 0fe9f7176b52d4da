/**
 * Documentation generation: a markdown page and a JSON record for every stored
 * file under `.dotman/docs`, and a README listing them all.
 */
module Docs {
  import opened Wrappers
  import opened Paths
  import opened FileSystem
  import opened Walk
  import opened Config
  import opened Manager
  import Text

  /** What is recorded about one stored file; `lastUpdated` is already formatted. */
  datatype ConfigDoc = ConfigDoc(path: string, description: string, lastUpdated: string,
                                 tags: seq<string>, dependencies: seq<string>, notes: string)

  // ---------------------------------------------------------------------------
  // Tags and dependencies.

  /** `filepath.Base` of an absolute path. */
  function Base(p: Path): string
  {
    if p == [] then "/" else p[|p| - 1]
  }

  /** `filepath.Ext` of a name: from its last dot on, or nothing when it has none. */
  function Ext(name: string): (e: string)
    ensures |e| <= |name| && e == name[|name| - |e|..]
    ensures e != [] ==> e[0] == '.' && '.' !in e[1..]
    ensures e == [] ==> '.' !in name
    decreases |name|
  {
    if name == [] then ""
    else if name[|name| - 1] == '.' then "."
    else
      var e := Ext(name[..|name| - 1]);
      if e == [] then "" else e + [name[|name| - 1]]
  }

  /** The file-type tag an extension earns, if any. */
  function TypeTag(ext: string): (r: Option<string>)
    ensures r.Some? <==> ext in {".rc", ".conf", ".config", ".sh", ".bash", ".zsh", ".vim", ".vimrc", ".gitconfig"}
  {
    if ext in {".rc", ".conf", ".config"} then Some("configuration")
    else if ext in {".sh", ".bash", ".zsh"} then Some("shell")
    else if ext in {".vim", ".vimrc"} then Some("vim")
    else if ext == ".gitconfig" then Some("git")
    else None
  }

  /** Where a tag stands in the output: the type tag first, then the application tags. */
  function TagRank(tag: string): nat
  {
    if tag == "i3" then 1 else if tag == "tmux" then 2 else if tag == "neovim" then 3 else 0
  }

  /** `[x]` when `b` holds, else nothing: one conditional append. */
  function Pick(b: bool, x: string): (r: seq<string>)
    ensures |r| <= 1
    ensures forall y :: y in r <==> b && y == x
  {
    if b then [x] else []
  }

  /**
   * The tags of the file at `p`: at most one type tag, chosen by the extension
   * alone, then "i3", "tmux" and "neovim" for names mentioning "i3", "tmux" and
   * "nvim", in that order.
   */
  function DetectTags(p: Path): (r: seq<string>)
    ensures |r| <= 4
  {
    var base := Base(p);
    var typed := match TypeTag(Ext(base)) case Some(tag) => [tag] case None => [];
    typed + (Pick(Text.Contains(base, "i3"), "i3") + Pick(Text.Contains(base, "tmux"), "tmux")
             + Pick(Text.Contains(base, "nvim"), "neovim"))
  }

  /** Three conditional appends of distinct names, ranked in the order they are appended. */
  lemma {:induction false} PicksRanked(a: bool, b: bool, c: bool, x: string, y: string, z: string, rank: string -> nat)
    requires 0 < rank(x) < rank(y) < rank(z)
    ensures var r := Pick(a, x) + Pick(b, y) + Pick(c, z);
      && |r| <= 3
      && (forall i, j | 0 <= i < j < |r| :: rank(r[i]) < rank(r[j]))
      && (forall i | 0 <= i < |r| :: rank(r[i]) > 0)
  {
    var r := Pick(a, x) + Pick(b, y) + Pick(c, z);
    forall i | 0 <= i < |r|
      ensures r[i] in Pick(a, x) || r[i] in Pick(b, y) || r[i] in Pick(c, z)
      ensures rank(r[i]) > 0
    {
    }
    forall i, j | 0 <= i < j < |r|
      ensures rank(r[i]) < rank(r[j])
    {
      if a {
        assert r[0] == x;
        if i > 0 {
          assert r[1..] == Pick(b, y) + Pick(c, z);
        }
      } else {
        assert r == Pick(b, y) + Pick(c, z);
      }
    }
  }

  /** A list of at most one rank-0 name, then names of positive, increasing rank. */
  lemma {:induction false} TypedFirst(typed: seq<string>, apps: seq<string>, rank: string -> nat)
    requires |typed| <= 1 && forall x | x in typed :: rank(x) == 0
    requires forall i, j | 0 <= i < j < |apps| :: rank(apps[i]) < rank(apps[j])
    requires forall i | 0 <= i < |apps| :: rank(apps[i]) > 0
    ensures var r := typed + apps;
      && (forall i, j | 0 <= i < j < |r| :: rank(r[i]) < rank(r[j]))
      && ((|r| > 0 && rank(r[0]) == 0) <==> typed != [])
      && (typed != [] ==> r[0] == typed[0])
      && (forall x | rank(x) > 0 :: x in r <==> x in apps)
  {
    var r := typed + apps;
    if typed != [] {
      assert r[0] == typed[0];
      assert r[1..] == apps;
    } else {
      assert r == apps;
    }
  }

  /** The tag list assembled from a type tag (if any) and the three name tests. */
  lemma TagsAssembled(typed: seq<string>, i3: bool, tmux: bool, nvim: bool)
    requires |typed| <= 1 && forall x | x in typed :: TagRank(x) == 0
    ensures var r := typed + (Pick(i3, "i3") + Pick(tmux, "tmux") + Pick(nvim, "neovim"));
      && (forall i, j | 0 <= i < j < |r| :: TagRank(r[i]) < TagRank(r[j]))
      && ((|r| > 0 && TagRank(r[0]) == 0) <==> typed != [])
      && (typed != [] ==> r[0] == typed[0])
  {
    var apps := Pick(i3, "i3") + Pick(tmux, "tmux") + Pick(nvim, "neovim");
    PicksRanked(i3, tmux, nvim, "i3", "tmux", "neovim", TagRank);
    TypedFirst(typed, apps, TagRank);
  }

  /** Each application tag is present exactly when its name test passed. */
  lemma TagsPresent(typed: seq<string>, i3: bool, tmux: bool, nvim: bool)
    requires forall x | x in typed :: TagRank(x) == 0
    ensures var r := typed + (Pick(i3, "i3") + Pick(tmux, "tmux") + Pick(nvim, "neovim"));
      && ("i3" in r <==> i3) && ("tmux" in r <==> tmux) && ("neovim" in r <==> nvim)
  {
    assert TagRank("i3") == 1 && TagRank("tmux") == 2 && TagRank("neovim") == 3;
    assert "i3" != "tmux" && "i3" != "neovim" && "tmux" != "neovim";
  }

  /** What the tags say about the file's name. */
  lemma DetectTagsSpec(p: Path)
    ensures var r := DetectTags(p);
      && (forall i, j | 0 <= i < j < |r| :: TagRank(r[i]) < TagRank(r[j]))
      && ((|r| > 0 && TagRank(r[0]) == 0) <==> TypeTag(Ext(Base(p))).Some?)
      && (|r| > 0 && TagRank(r[0]) == 0 ==> r[0] == TypeTag(Ext(Base(p))).value)
      && ("i3" in r <==> Text.Contains(Base(p), "i3"))
      && ("tmux" in r <==> Text.Contains(Base(p), "tmux"))
      && ("neovim" in r <==> Text.Contains(Base(p), "nvim"))
  {
    var base := Base(p);
    var typed := match TypeTag(Ext(base)) case Some(tag) => [tag] case None => [];
    TagsAssembled(typed, Text.Contains(base, "i3"), Text.Contains(base, "tmux"), Text.Contains(base, "nvim"));
    TagsPresent(typed, Text.Contains(base, "i3"), Text.Contains(base, "tmux"), Text.Contains(base, "nvim"));
  }

  function DependencyRank(dep: string): nat
  {
    if dep == "lua" then 1 else if dep == "vim-plug" then 2 else if dep == "shell" then 3 else 0
  }

  /**
   * The dependencies a file's content suggests: "lua", "vim-plug" and "shell"
   * for "require", "plugin" and "source", in that order; none for a file that
   * cannot be read.
   */
  function DetectDependencies(read: Result<Bytes>): (r: seq<string>)
    ensures read.Err? ==> r == []
    ensures |r| <= 3
  {
    match read
    case Err(_) => []
    case Ok(content) =>
      Pick(Text.Contains(content, Ascii("require")), "lua") + Pick(Text.Contains(content, Ascii("plugin")), "vim-plug")
      + Pick(Text.Contains(content, Ascii("source")), "shell")
  }

  /** What the dependencies say about the content. */
  lemma DetectDependenciesSpec(read: Result<Bytes>)
    ensures var r := DetectDependencies(read);
      && (forall i, j | 0 <= i < j < |r| :: DependencyRank(r[i]) < DependencyRank(r[j]))
      && ("lua" in r <==> read.Ok? && Text.Contains(read.value, Ascii("require")))
      && ("vim-plug" in r <==> read.Ok? && Text.Contains(read.value, Ascii("plugin")))
      && ("shell" in r <==> read.Ok? && Text.Contains(read.value, Ascii("source")))
  {
    if read.Ok? {
      var content := read.value;
      PicksRanked(Text.Contains(content, Ascii("require")), Text.Contains(content, Ascii("plugin")),
                  Text.Contains(content, Ascii("source")), "lua", "vim-plug", "shell", DependencyRank);
    }
  }

  // ---------------------------------------------------------------------------
  // The markdown page of one file.

  /** One `- item` line per item, in order. */
  function Bullets(items: seq<string>): string
  {
    if items == [] then "" else Bullets(items[..|items| - 1]) + "- " + items[|items| - 1] + "\n"
  }

  function ListSection(title: string, items: seq<string>): string
  {
    if items == [] then "" else "## " + title + "\n\n" + Bullets(items) + "\n"
  }

  function TextSection(title: string, body: string): string
  {
    if body == "" then "" else "## " + title + "\n\n" + body + "\n\n"
  }

  function Heading(doc: ConfigDoc): (r: string)
    ensures "# " + doc.path + "\n\n" <= r
  {
    "# " + doc.path + "\n\n" + "Last Updated: " + doc.lastUpdated + "\n\n"
  }

  /** The page `writeConfigDoc` writes. */
  function ConfigDocText(doc: ConfigDoc): (r: string)
    ensures "# " + doc.path + "\n\n" <= r
  {
    Heading(doc)
    + (ListSection("Tags", doc.tags) + (ListSection("Dependencies", doc.dependencies)
    + (TextSection("Description", doc.description) + TextSection("Notes", doc.notes))))
  }

  function BulletLines(items: seq<string>): (ls: seq<string>)
    ensures |ls| == |items|
  {
    seq(|items|, i requires 0 <= i < |items| => "- " + items[i])
  }

  function SectionLines(title: string, items: seq<string>): seq<string>
  {
    if items == [] then [] else ["## " + title, ""] + BulletLines(items) + [""]
  }

  function ProseLines(title: string, body: string): seq<string>
  {
    if body == "" then [] else ["## " + title, "", body, ""]
  }

  /** The page line by line: a title, the date, then each section that has something to say. */
  function HeadingLines(doc: ConfigDoc): seq<string>
  {
    ["# " + doc.path, "", "Last Updated: " + doc.lastUpdated, ""]
  }

  function DocLines(doc: ConfigDoc): seq<string>
  {
    HeadingLines(doc)
    + (SectionLines("Tags", doc.tags) + (SectionLines("Dependencies", doc.dependencies)
    + (ProseLines("Description", doc.description) + ProseLines("Notes", doc.notes))))
  }

  lemma {:induction false} BulletsUnlines(items: seq<string>)
    ensures Bullets(items) == Text.Unlines(BulletLines(items))
    decreases |items|
  {
    if items != [] {
      var init := items[..|items| - 1];
      BulletsUnlines(init);
      assert BulletLines(items) == BulletLines(init) + ["- " + items[|items| - 1]];
      Text.UnlinesAppend(BulletLines(init), ["- " + items[|items| - 1]]);
    }
  }

  lemma UnlinesOne(a: string)
    ensures Text.Unlines([a]) == a + "\n"
  {
    assert [a][1..] == [];
  }

  lemma UnlinesTwo(a: string, b: string)
    ensures Text.Unlines([a, b]) == a + "\n" + b + "\n"
  {
    assert [a, b][1..] == [b];
    UnlinesOne(b);
  }

  lemma SectionUnlines(title: string, items: seq<string>)
    ensures ListSection(title, items) == Text.Unlines(SectionLines(title, items))
  {
    if items != [] {
      BulletsUnlines(items);
      UnlinesTwo("## " + title, "");
      UnlinesOne("");
      assert ["## " + title, ""] + BulletLines(items) + [""] == ["## " + title, ""] + (BulletLines(items) + [""]);
      Text.UnlinesAppend(["## " + title, ""], BulletLines(items) + [""]);
      Text.UnlinesAppend(BulletLines(items), [""]);
    }
  }

  lemma ProseUnlines(title: string, body: string)
    ensures TextSection(title, body) == Text.Unlines(ProseLines(title, body))
  {
    if body != "" {
      UnlinesTwo("## " + title, "");
      UnlinesTwo(body, "");
      assert ["## " + title, "", body, ""] == ["## " + title, ""] + [body, ""];
      Text.UnlinesAppend(["## " + title, ""], [body, ""]);
    }
  }

  lemma HeadingUnlines(doc: ConfigDoc)
    ensures Heading(doc) == Text.Unlines(HeadingLines(doc))
  {
    UnlinesTwo("# " + doc.path, "");
    UnlinesTwo("Last Updated: " + doc.lastUpdated, "");
    assert HeadingLines(doc) == ["# " + doc.path, ""] + ["Last Updated: " + doc.lastUpdated, ""];
    Text.UnlinesAppend(["# " + doc.path, ""], ["Last Updated: " + doc.lastUpdated, ""]);
  }

  lemma UnlinesFive(a: seq<string>, b: seq<string>, c: seq<string>, d: seq<string>, e: seq<string>)
    ensures Text.Unlines(a + (b + (c + (d + e))))
         == Text.Unlines(a) + (Text.Unlines(b) + (Text.Unlines(c) + (Text.Unlines(d) + Text.Unlines(e))))
  {
    Text.UnlinesAppend(d, e);
    Text.UnlinesAppend(c, d + e);
    Text.UnlinesAppend(b, c + (d + e));
    Text.UnlinesAppend(a, b + (c + (d + e)));
  }

  lemma ConfigDocUnlines(doc: ConfigDoc)
    ensures ConfigDocText(doc) == Text.Unlines(DocLines(doc))
  {
    HeadingUnlines(doc);
    SectionUnlines("Tags", doc.tags);
    SectionUnlines("Dependencies", doc.dependencies);
    ProseUnlines("Description", doc.description);
    ProseUnlines("Notes", doc.notes);
    UnlinesFive(HeadingLines(doc), SectionLines("Tags", doc.tags), SectionLines("Dependencies", doc.dependencies),
                ProseLines("Description", doc.description), ProseLines("Notes", doc.notes));
  }

  predicate AllOneLine(ls: seq<string>)
  {
    forall i | 0 <= i < |ls| :: Text.OneLine(ls[i])
  }

  lemma AllOneLineJoin(a: seq<string>, b: seq<string>)
    requires AllOneLine(a) && AllOneLine(b)
    ensures AllOneLine(a + b)
  {
    assert forall i | 0 <= i < |a + b| :: (a + b)[i] == if i < |a| then a[i] else b[i - |a|];
  }

  lemma SectionOneLine(title: string, items: seq<string>)
    requires Text.OneLine(title) && AllOneLine(items)
    ensures AllOneLine(SectionLines(title, items))
  {
    if items != [] {
      OneLineJoin("## ", title);
      forall k | 0 <= k < |items|
        ensures Text.OneLine(BulletLines(items)[k])
      {
        OneLineJoin("- ", items[k]);
      }
      AllOneLineJoin(["## " + title, ""], BulletLines(items));
      AllOneLineJoin(["## " + title, ""] + BulletLines(items), [""]);
    }
  }

  lemma ProseOneLine(title: string, body: string)
    requires Text.OneLine(title) && Text.OneLine(body)
    ensures AllOneLine(ProseLines(title, body))
  {
    OneLineJoin("## ", title);
  }

  /** With no field spanning lines, the page reads back as exactly those lines. */
  lemma ConfigDocLines(doc: ConfigDoc)
    requires Text.OneLine(doc.path) && Text.OneLine(doc.lastUpdated)
    requires Text.OneLine(doc.description) && Text.OneLine(doc.notes)
    requires AllOneLine(doc.tags) && AllOneLine(doc.dependencies)
    ensures Text.Lines(ConfigDocText(doc)) == DocLines(doc)
  {
    ConfigDocUnlines(doc);
    OneLineJoin("# ", doc.path);
    OneLineJoin("Last Updated: ", doc.lastUpdated);
    SectionOneLine("Tags", doc.tags);
    SectionOneLine("Dependencies", doc.dependencies);
    ProseOneLine("Description", doc.description);
    ProseOneLine("Notes", doc.notes);
    var d := ProseLines("Description", doc.description);
    var n := ProseLines("Notes", doc.notes);
    var ds := SectionLines("Dependencies", doc.dependencies);
    var ts := SectionLines("Tags", doc.tags);
    AllOneLineJoin(d, n);
    AllOneLineJoin(ds, d + n);
    AllOneLineJoin(ts, ds + (d + n));
    AllOneLineJoin(HeadingLines(doc), ts + (ds + (d + n)));
    Text.LinesUnlines(DocLines(doc));
  }

  lemma OneLineJoin(a: string, b: string)
    requires Text.OneLine(a) && Text.OneLine(b)
    ensures Text.OneLine(a + b)
  {
    assert forall i | 0 <= i < |a + b| :: (a + b)[i] == if i < |a| then a[i] else b[i - |a|];
  }

  /** A line that cannot be taken for a section heading: it does not start with "##". */
  predicate NotHeading(line: string)
  {
    |line| < 2 || line[..2] != "##"
  }

  lemma BulletsNotHeadings(items: seq<string>)
    ensures forall k | 0 <= k < |BulletLines(items)| :: NotHeading(BulletLines(items)[k])
  {
    forall k | 0 <= k < |items|
      ensures NotHeading(BulletLines(items)[k])
    {
      assert BulletLines(items)[k][0] == '-';
    }
  }

  lemma HeadingLinesNotHeadings(doc: ConfigDoc)
    ensures forall k | 0 <= k < 4 :: NotHeading(HeadingLines(doc)[k])
  {
    assert HeadingLines(doc)[0][1] == ' ';
    assert HeadingLines(doc)[2][0] == 'L';
  }

  /** A heading among a section's lines is that section's own. */
  lemma SectionHeadings(title: string, items: seq<string>, h: string)
    requires !NotHeading(h)
    ensures h in SectionLines(title, items) <==> items != [] && h == "## " + title
  {
    BulletsNotHeadings(items);
  }

  /** A generated page has no prose sections: its lines are the heading and the two lists. */
  lemma GeneratedDocLines(doc: ConfigDoc)
    requires doc.description == "" && doc.notes == ""
    ensures DocLines(doc) == HeadingLines(doc) + (SectionLines("Tags", doc.tags) + SectionLines("Dependencies", doc.dependencies))
  {
    assert ProseLines("Description", doc.description) + ProseLines("Notes", doc.notes) == [];
    assert SectionLines("Dependencies", doc.dependencies) + [] == SectionLines("Dependencies", doc.dependencies);
  }

  /** A heading line is in a generated page exactly when it heads a nonempty tag or dependency list. */
  lemma GeneratedHeading(doc: ConfigDoc, h: string)
    requires doc.description == "" && doc.notes == ""
    requires !NotHeading(h)
    ensures h in DocLines(doc) <==>
      (doc.tags != [] && h == "## Tags") || (doc.dependencies != [] && h == "## Dependencies")
  {
    HeadingLinesNotHeadings(doc);
    GeneratedDocLines(doc);
    SectionHeadings("Tags", doc.tags, h);
    SectionHeadings("Dependencies", doc.dependencies, h);
  }

  /**
   * A page as generated (no description, no notes) has a Tags heading exactly
   * when there are tags, a Dependencies heading exactly when there are
   * dependencies, and no Description or Notes heading.
   */
  lemma GeneratedDocSections(doc: ConfigDoc)
    requires doc.description == "" && doc.notes == ""
    ensures "## Tags" in DocLines(doc) <==> doc.tags != []
    ensures "## Dependencies" in DocLines(doc) <==> doc.dependencies != []
    ensures "## Description" !in DocLines(doc) && "## Notes" !in DocLines(doc)
  {
    GeneratedHeading(doc, "## Tags");
    GeneratedHeading(doc, "## Dependencies");
    GeneratedHeading(doc, "## Description");
    GeneratedHeading(doc, "## Notes");
  }


  // ---------------------------------------------------------------------------
  // The README.

  /** A README line linking to one file's page. */
  function ReadmeLink(f: string): string
  {
    "- [" + f + "](" + f + ".md)"
  }

  function ReadmeTopLines(generated: string): seq<string>
  {
    ["# Dotman Configuration Documentation", "", "Generated on: " + generated, "",
     "## Managed Configuration Files", ""]
  }

  const QuickStartLines: seq<string> := ["", "## Quick Start", ""]

  const StepLines: seq<string> := [
    "1. Clone this repository",
    "2. Run `dotman link` to create symbolic links",
    "3. Run `dotman check` to verify your configuration", ""]

  const MaintenanceHeading: seq<string> := ["## Maintenance", ""]

  const MaintenanceLines: seq<string> := [
    "- Run `dotman check` regularly to monitor configuration health",
    "- Use `dotman backup` before making significant changes",
    "- Keep your configuration up to date with `dotman update`"]

  const ReadmeBottomLines: seq<string> := QuickStartLines + (StepLines + (MaintenanceHeading + MaintenanceLines))

  /** One link line per file, in order. */
  function ReadmeList(files: seq<string>): string
  {
    if files == [] then "" else ReadmeList(files[..|files| - 1]) + ReadmeLink(files[|files| - 1]) + "\n"
  }

  /** The README `generateMainReadme` writes; `generated` is the formatted time of the run. */
  function MainReadmeText(files: seq<string>, generated: string): string
  {
    Text.Unlines(ReadmeTopLines(generated)) + (ReadmeList(files) + Text.Unlines(ReadmeBottomLines))
  }

  function LinkLines(files: seq<string>): (ls: seq<string>)
    ensures |ls| == |files|
  {
    seq(|files|, i requires 0 <= i < |files| => ReadmeLink(files[i]))
  }

  lemma {:induction false} ReadmeListUnlines(files: seq<string>)
    ensures ReadmeList(files) == Text.Unlines(LinkLines(files))
    decreases |files|
  {
    if files != [] {
      var init := files[..|files| - 1];
      ReadmeListUnlines(init);
      assert LinkLines(files) == LinkLines(init) + [ReadmeLink(files[|files| - 1])];
      Text.UnlinesAppend(LinkLines(init), [ReadmeLink(files[|files| - 1])]);
      UnlinesOne(ReadmeLink(files[|files| - 1]));
    }
  }

  /** A line naming a file's page: it starts with "- [". */
  predicate IsLinkLine(line: string)
  {
    |line| >= 3 && line[0] == '-' && line[1] == ' ' && line[2] == '['
  }

  predicate NoLinkLines(ls: seq<string>)
  {
    forall k | 0 <= k < |ls| :: !IsLinkLine(ls[k])
  }

  lemma NoLinkLinesJoin(a: seq<string>, b: seq<string>)
    requires NoLinkLines(a) && NoLinkLines(b)
    ensures NoLinkLines(a + b)
  {
    assert forall i | 0 <= i < |a + b| :: (a + b)[i] == if i < |a| then a[i] else b[i - |a|];
  }

  lemma TopLines(generated: string)
    requires Text.OneLine(generated)
    ensures NoLinkLines(ReadmeTopLines(generated)) && AllOneLine(ReadmeTopLines(generated))
  {
    TitlePlain();
    ListHeadingPlain();
    OneLineJoin("Generated on: ", generated);
    assert ReadmeTopLines(generated)[2][2] == 'n';
  }

  lemma TitlePlain()
    ensures Text.OneLine("# Dotman Configuration Documentation")
    ensures !IsLinkLine("# Dotman Configuration Documentation")
  {
    PlainLine("# Dotman Configuration", " Documentation", "");
  }

  lemma ListHeadingPlain()
    ensures Text.OneLine("## Managed Configuration Files")
    ensures !IsLinkLine("## Managed Configuration Files")
  {
    PlainLine("## Managed", " Configuration Files", "");
  }


  lemma QuickStartPlain()
    ensures NoLinkLines(QuickStartLines) && AllOneLine(QuickStartLines)
  {
  }

  lemma StepsPlain()
    ensures NoLinkLines(StepLines) && AllOneLine(StepLines)
  {
    LinkStepPlain();
    CheckStepPlain();
    assert Text.OneLine(StepLines[0]) && !IsLinkLine(StepLines[0]);
  }

  lemma LinkStepPlain()
    ensures Text.OneLine(StepLines[1]) && !IsLinkLine(StepLines[1])
  {
    PlainLine("2. Run `dotman link`", " to create symbolic links", "");
  }

  lemma CheckStepPlain()
    ensures Text.OneLine(StepLines[2]) && !IsLinkLine(StepLines[2])
  {
    PlainLine("3. Run `dotman check`", " to verify your configuration", "");
  }

  lemma MaintenancePlain()
    ensures NoLinkLines(MaintenanceHeading) && AllOneLine(MaintenanceHeading)
    ensures NoLinkLines(MaintenanceLines) && AllOneLine(MaintenanceLines)
  {
    CheckTipPlain();
    BackupTipPlain();
    UpdateTipPlain();
  }

  lemma CheckTipPlain()
    ensures Text.OneLine(MaintenanceLines[0]) && !IsLinkLine(MaintenanceLines[0])
  {
    PlainLine("- Run `dotman check`", " regularly to monitor", " configuration health");
  }

  lemma BackupTipPlain()
    ensures Text.OneLine(MaintenanceLines[1]) && !IsLinkLine(MaintenanceLines[1])
  {
    PlainLine("- Use `dotman backup`", " before making", " significant changes");
  }

  lemma UpdateTipPlain()
    ensures Text.OneLine(MaintenanceLines[2]) && !IsLinkLine(MaintenanceLines[2])
  {
    PlainLine("- Keep your configuration", " up to date with", " `dotman update`");
  }

  /** A line assembled from three newline-free pieces, the first of which shows it is no link line. */
  lemma PlainLine(a: string, b: string, c: string)
    requires Text.OneLine(a) && Text.OneLine(b) && Text.OneLine(c)
    requires |a| >= 3 && a[2] != '['
    ensures Text.OneLine(a + b + c) && !IsLinkLine(a + b + c)
  {
    OneLineJoin(a, b);
    OneLineJoin(a + b, c);
  }

  /** None of the README's fixed lines looks like a link line, and none spans lines. */
  lemma FixedLines(generated: string)
    requires Text.OneLine(generated)
    ensures NoLinkLines(ReadmeTopLines(generated)) && NoLinkLines(ReadmeBottomLines)
    ensures AllOneLine(ReadmeTopLines(generated)) && AllOneLine(ReadmeBottomLines)
  {
    TopLines(generated);
    QuickStartPlain();
    StepsPlain();
    MaintenancePlain();
    NoLinkLinesJoin(MaintenanceHeading, MaintenanceLines);
    NoLinkLinesJoin(StepLines, MaintenanceHeading + MaintenanceLines);
    NoLinkLinesJoin(QuickStartLines, StepLines + (MaintenanceHeading + MaintenanceLines));
    AllOneLineJoin(MaintenanceHeading, MaintenanceLines);
    AllOneLineJoin(StepLines, MaintenanceHeading + MaintenanceLines);
    AllOneLineJoin(QuickStartLines, StepLines + (MaintenanceHeading + MaintenanceLines));
  }

  lemma LinkLinesOneLine(files: seq<string>)
    requires AllOneLine(files)
    ensures AllOneLine(LinkLines(files))
  {
    forall i | 0 <= i < |files|
      ensures Text.OneLine(LinkLines(files)[i])
    {
      OneLineJoin("- [", files[i]);
      OneLineJoin("- [" + files[i], "](");
      OneLineJoin("- [" + files[i] + "](", files[i]);
      OneLineJoin("- [" + files[i] + "](" + files[i], ".md)");
    }
  }

  lemma MainReadmeUnlines(files: seq<string>, generated: string)
    ensures MainReadmeText(files, generated)
         == Text.Unlines(ReadmeTopLines(generated) + (LinkLines(files) + ReadmeBottomLines))
  {
    ReadmeListUnlines(files);
    Text.UnlinesAppend(LinkLines(files), ReadmeBottomLines);
    Text.UnlinesAppend(ReadmeTopLines(generated), LinkLines(files) + ReadmeBottomLines);
  }

  /** Link lines between two blocks of plain lines: the link lines are exactly the middle block. */
  lemma LinksInMiddle(top: seq<string>, mid: seq<string>, bottom: seq<string>)
    requires NoLinkLines(top) && NoLinkLines(bottom)
    requires forall i | 0 <= i < |mid| :: IsLinkLine(mid[i])
    ensures var ls := top + (mid + bottom);
      forall k | 0 <= k < |ls| :: IsLinkLine(ls[k]) <==> |top| <= k < |top| + |mid|
  {
    var ls := top + (mid + bottom);
    forall k | 0 <= k < |ls|
      ensures IsLinkLine(ls[k]) <==> |top| <= k < |top| + |mid|
    {
      if k < |top| {
        assert ls[k] == top[k];
      } else if k < |top| + |mid| {
        assert ls[k] == mid[k - |top|];
      } else {
        assert ls[k] == bottom[k - |top| - |mid|];
      }
    }
  }

  lemma LinkLinesAreLinks(files: seq<string>)
    ensures forall i | 0 <= i < |files| :: IsLinkLine(LinkLines(files)[i])
  {
    forall i | 0 <= i < |files|
      ensures IsLinkLine(LinkLines(files)[i])
    {
      assert LinkLines(files)[i][..3] == "- [";
    }
  }

  /**
   * Read back line by line, the README has its six opening lines, then exactly
   * one link line per file in the order given, then the closing twelve.
   */
  lemma MainReadmeLines(files: seq<string>, generated: string)
    requires Text.OneLine(generated) && AllOneLine(files)
    ensures var ls := Text.Lines(MainReadmeText(files, generated));
      && |ls| == |files| + 18
      && ls[..6] == ReadmeTopLines(generated)
      && (forall i | 0 <= i < |files| :: ls[6 + i] == ReadmeLink(files[i]))
      && ls[6 + |files|..] == ReadmeBottomLines
      && (forall k | 0 <= k < |ls| :: IsLinkLine(ls[k]) <==> 6 <= k < 6 + |files|)
  {
    var top := ReadmeTopLines(generated);
    var links := LinkLines(files);
    var ls := top + (links + ReadmeBottomLines);
    MainReadmeUnlines(files, generated);
    FixedLines(generated);
    LinkLinesOneLine(files);
    AllOneLineJoin(links, ReadmeBottomLines);
    AllOneLineJoin(top, links + ReadmeBottomLines);
    Text.LinesUnlines(ls);
    assert ls[..6] == top;
    assert forall i | 0 <= i < |files| :: ls[6 + i] == links[i];
    assert ls[6 + |files|..] == ReadmeBottomLines;
    LinkLinesAreLinks(files);
    LinksInMiddle(top, links, ReadmeBottomLines);
  }


  // ---------------------------------------------------------------------------
  // Where the pages go.

  function DocsDir(c: Config): Path
  {
    c.DotmanDir + ["docs"]
  }

  /** `docsDir` joined with the file's relative name plus `ext`. */
  function DocPath(docsDir: Path, rel: Path, ext: string): Path
  {
    if rel == [] then docsDir + ["." + ext]
    else docsDir + rel[..|rel| - 1] + [rel[|rel| - 1] + ext]
  }

  /** Every page and record lies inside the docs directory, as deep as the file lies in the store. */
  lemma DocPathInside(docsDir: Path, rel: Path, ext: string)
    ensures docsDir < DocPath(docsDir, rel, ext)
    ensures rel != [] ==> |DocPath(docsDir, rel, ext)| == |docsDir| + |rel|
  {
  }

  /** Different stored files get different pages. */
  lemma DocPathInjective(docsDir: Path, r1: Path, r2: Path, ext: string)
    requires r1 != [] && r2 != [] && DocPath(docsDir, r1, ext) == DocPath(docsDir, r2, ext)
    ensures r1 == r2
  {
    var p := DocPath(docsDir, r1, ext);
    assert r1[..|r1| - 1] == p[|docsDir|..|p| - 1] == r2[..|r2| - 1];
    var l1, l2 := r1[|r1| - 1], r2[|r2| - 1];
    assert l1 + ext == p[|p| - 1] == l2 + ext;
    assert l1 == (l1 + ext)[..|l1|];
    assert r1 == r1[..|r1| - 1] + [l1];
    assert r2 == r2[..|r2| - 1] + [l2];
  }

  /** A markdown page never lands on a JSON record. */
  lemma PagesAndRecordsDiffer(docsDir: Path, r1: Path, r2: Path)
    ensures DocPath(docsDir, r1, ".md") != DocPath(docsDir, r2, ".json")
  {
    var p, q := DocPath(docsDir, r1, ".md"), DocPath(docsDir, r2, ".json");
    var a, b := p[|p| - 1], q[|q| - 1];
    assert a[|a| - 1] == 'd';
    assert b[|b| - 1] == 'n';
  }

  /** The only stored file whose page overwrites the README is one named `README` at the top of the store. */
  lemma PageOnReadme(docsDir: Path, rel: Path)
    ensures DocPath(docsDir, rel, ".md") == docsDir + ["README.md"] <==> rel == ["README"]
  {
    var p := DocPath(docsDir, rel, ".md");
    if rel == [] {
      assert p[|docsDir|] == "." + ".md";
      assert p[|docsDir|][1] == '.';
      assert "README.md"[1] == 'E';
    } else {
      var last := rel[|rel| - 1];
      assert p[|p| - 1] == last + ".md";
      if p == docsDir + ["README.md"] {
        assert |rel| == 1;
        assert last + ".md" == "README.md";
        assert last == (last + ".md")[..|last|] == "README";
        assert rel == [last];
      }
      if rel == ["README"] {
        assert last + ".md" == "README.md";
        assert p == docsDir + [] + ["README.md"];
      }
    }
  }

  // ---------------------------------------------------------------------------
  // Writing the pages.

  /** The record of a stored file as the walk builds it: no description and no notes. */
  function MakeDoc(t: Tree, c: Config, rel: Path, modTime: Path -> string): (doc: ConfigDoc)
    ensures doc.description == "" && doc.notes == ""
  {
    var p := c.ConfigsDir + rel;
    ConfigDoc(RelString(rel), "", modTime(p), DetectTags(p), DetectDependencies(ReadFileOn(t, p)), "")
  }

  /** MkdirAll of the parent, then the write; errors come back unprefixed. */
  function WriteUnder(t: Tree, path: Path, data: Bytes): Effect
  {
    var e := MkdirAllOn(t, Parent(path));
    if e.err.Some? then e else WriteFileOn(e.tree, path, data)
  }

  /** One stored file: its page, then its record, stopping at the first failure. */
  function DocOne(t: Tree, c: Config, docsDir: Path, rel: Path, modTime: Path -> string,
                  encode: ConfigDoc -> Bytes): Effect
  {
    var doc := MakeDoc(t, c, rel, modTime);
    var e := WriteUnder(t, DocPath(docsDir, rel, ".md"), Ascii(ConfigDocText(doc)));
    if e.err.Some? then e else WriteUnder(e.tree, DocPath(docsDir, rel, ".json"), encode(doc))
  }

  /** DocOne with the configuration fixed: the step the walk takes for each stored file. */
  function WriteDocsOf(c: Config, docsDir: Path, modTime: Path -> string, encode: ConfigDoc -> Bytes): (Tree, Path) -> Effect
  {
    (t, rel) => DocOne(t, c, docsDir, rel, modTime, encode)
  }

  /** The walk's callback over `files` in order, stopping at the first failure. */
  function DocsEach(t: Tree, files: seq<Path>, one: (Tree, Path) -> Effect): Effect
    decreases |files|
  {
    if files == [] then Effect(t, None)
    else
      var e := one(t, files[0]);
      if e.err.Some? then e else DocsEach(e.tree, files[1..], one)
  }

  /** `generateConfigDocs`: the walk fails on a missing store, else every stored file in walk order. */
  ghost function ConfigDocsOn(t: Tree, c: Config, docsDir: Path, modTime: Path -> string,
                              encode: ConfigDoc -> Bytes): Effect
  {
    if c.ConfigsDir !in t then Effect(t, Some(LstatError(t, c.ConfigsDir)))
    else DocsEach(t, SortedEnum(Tracked(t, c.ConfigsDir)), WriteDocsOf(c, docsDir, modTime, encode))
  }

  /** `generateMainReadme`: the listing fails on a missing store, else the README is written. */
  ghost function MainReadmeOn(t: Tree, c: Config, docsDir: Path, generated: string): Effect
  {
    if c.ConfigsDir !in t then Effect(t, Some(LstatError(t, c.ConfigsDir)))
    else WriteFileOn(t, docsDir + ["README.md"],
                     Ascii(MainReadmeText(RelStrings(SortedEnum(Tracked(t, c.ConfigsDir))), generated)))
  }

  /** `GenerateDocs`: the docs directory, the README, then the pages, each failure prefixed. */
  ghost function GenerateDocsOn(t: Tree, c: Config, modTime: Path -> string, encode: ConfigDoc -> Bytes,
                                generated: string): Effect
  {
    var e := MkdirAllOn(t, DocsDir(c));
    if e.err.Some? then Wrap(e, "failed to create docs directory: ")
    else
      var r := MainReadmeOn(e.tree, c, DocsDir(c), generated);
      if r.err.Some? then Wrap(r, "failed to generate main README: ")
      else Wrap(ConfigDocsOn(r.tree, c, DocsDir(c), modTime, encode), "failed to generate config docs: ")
  }

  /** Appends one `- item` line per item, as the page's list loops do. */
  method AppendBullets(content: string, items: seq<string>) returns (r: string)
    ensures r == content + Bullets(items)
  {
    r := content;
    var i := 0;
    while i < |items|
      invariant 0 <= i <= |items|
      invariant r == content + Bullets(items[..i])
    {
      assert items[..i + 1][..i] == items[..i];
      r := r + "- " + items[i] + "\n";
      i := i + 1;
    }
    assert items[..i] == items;
  }

  /** A list section: its heading, a line per item and a blank line; nothing for no items. */
  method RenderList(title: string, items: seq<string>) returns (r: string)
    ensures r == ListSection(title, items)
  {
    r := "";
    if |items| > 0 {
      r := AppendBullets("## " + title + "\n\n", items);
      r := r + "\n";
    }
  }

  /** Builds the page of one file, section by section. */
  method RenderConfigDoc(doc: ConfigDoc) returns (content: string)
    ensures content == ConfigDocText(doc)
  {
    var tags := RenderList("Tags", doc.tags);
    var deps := RenderList("Dependencies", doc.dependencies);
    var description := "";
    if doc.description != "" {
      description := "## " + "Description" + "\n\n" + doc.description + "\n\n";
    }
    var notes := "";
    if doc.notes != "" {
      notes := "## " + "Notes" + "\n\n" + doc.notes + "\n\n";
    }
    content := Heading(doc) + (tags + (deps + (description + notes)));
  }

  method WriteConfigDoc(fs: Disk, path: Path, doc: ConfigDoc) returns (err: Option<string>)
    modifies fs
    ensures Effect(fs.tree, err) == WriteUnder(old(fs.tree), path, Ascii(ConfigDocText(doc)))
  {
    err := fs.MkdirAll(Parent(path));
    if err.Some? {
      return;
    }
    var content := RenderConfigDoc(doc);
    err := fs.WriteFile(path, Ascii(content));
  }

  method SaveConfigMetadata(fs: Disk, path: Path, doc: ConfigDoc, encode: ConfigDoc -> Bytes) returns (err: Option<string>)
    modifies fs
    ensures Effect(fs.tree, err) == WriteUnder(old(fs.tree), path, encode(doc))
  {
    err := fs.MkdirAll(Parent(path));
    if err.Some? {
      return;
    }
    err := fs.WriteFile(path, encode(doc));
  }

  /** One more name listed: one more link line at the end. */
  lemma ReadmeListSnoc(names: seq<string>, i: nat)
    requires i < |names|
    ensures ReadmeList(names[..i + 1]) == ReadmeList(names[..i]) + (ReadmeLink(names[i]) + "\n")
  {
    assert names[..i + 1][..i] == names[..i];
  }

  method AppendLinks(content: string, files: seq<Path>) returns (r: string)
    ensures r == content + ReadmeList(RelStrings(files))
  {
    var names := RelStrings(files);
    r := content;
    var i := 0;
    while i < |files|
      invariant 0 <= i <= |files|
      invariant r == content + ReadmeList(names[..i])
    {
      var line := ReadmeLink(names[i]) + "\n";
      ReadmeListSnoc(names, i);
      Text.AppendAssoc(content, ReadmeList(names[..i]), line);
      r := r + line;
      i := i + 1;
    }
    assert names[..i] == names;
  }

  method GenerateMainReadme(c: Config, fs: Disk, docsDir: Path, generated: string) returns (err: Option<string>)
    modifies fs
    ensures Effect(fs.tree, err) == MainReadmeOn(old(fs.tree), c, docsDir, generated)
  {
    var files;
    files, err := ListFiles(c, fs.tree);
    if err.Some? {
      return;
    }
    var top := Text.Unlines(ReadmeTopLines(generated));
    var content := AppendLinks(top, files);
    Text.AppendAssoc(top, ReadmeList(RelStrings(files)), Text.Unlines(ReadmeBottomLines));
    content := content + Text.Unlines(ReadmeBottomLines);
    err := fs.WriteFile(docsDir + ["README.md"], Ascii(content));
  }

  method GenerateConfigDocs(c: Config, fs: Disk, docsDir: Path, modTime: Path -> string,
                            encode: ConfigDoc -> Bytes) returns (err: Option<string>)
    modifies fs
    ensures Effect(fs.tree, err) == ConfigDocsOn(old(fs.tree), c, docsDir, modTime, encode)
  {
    var files;
    files, err := WalkFiles(fs.tree, c.ConfigsDir);
    if err.Some? {
      return;
    }
    var i := 0;
    while i < |files|
      invariant 0 <= i <= |files|
      invariant DocsEach(fs.tree, files[i..], WriteDocsOf(c, docsDir, modTime, encode))
             == ConfigDocsOn(old(fs.tree), c, docsDir, modTime, encode)
    {
      assert files[i..][1..] == files[i + 1..];
      var doc := MakeDoc(fs.tree, c, files[i], modTime);
      err := WriteConfigDoc(fs, DocPath(docsDir, files[i], ".md"), doc);
      if err.Some? {
        return;
      }
      err := SaveConfigMetadata(fs, DocPath(docsDir, files[i], ".json"), doc, encode);
      if err.Some? {
        return;
      }
      i := i + 1;
    }
    err := None;
  }

  method GenerateDocs(c: Config, fs: Disk, modTime: Path -> string, encode: ConfigDoc -> Bytes,
                      generated: string) returns (err: Option<string>)
    modifies fs
    ensures Effect(fs.tree, err) == GenerateDocsOn(old(fs.tree), c, modTime, encode, generated)
  {
    var docsDir := DocsDir(c);
    err := fs.MkdirAll(docsDir);
    if err.Some? {
      return Some("failed to create docs directory: " + err.value);
    }
    err := GenerateMainReadme(c, fs, docsDir, generated);
    if err.Some? {
      return Some("failed to generate main README: " + err.value);
    }
    err := GenerateConfigDocs(c, fs, docsDir, modTime, encode);
    if err.Some? {
      return Some("failed to generate config docs: " + err.value);
    }
  }

  // ---------------------------------------------------------------------------
  // What generation leaves behind.

  /** No symbolic link at or below `d`, so every write there lands on the path itself. */
  predicate NoLinksUnder(t: Tree, d: Path)
  {
    forall q | q in t && d <= q :: !t[q].Symlink?
  }

  /** A write below `d` that succeeds puts the bytes at the path and adds only directories on the way to it. */
  lemma WriteUnderSpec(t: Tree, d: Path, path: Path, data: Bytes)
    requires ValidTree(t) && NoLinksUnder(t, d) && d <= path
    requires WriteUnder(t, path, data).err.None?
    ensures var t' := WriteUnder(t, path, data).tree;
      && ValidTree(t') && NoLinksUnder(t', d)
      && path in t' && t'[path].File? && t'[path].data == data
      && (forall q | q in t && q != path :: q in t' && t'[q] == t[q])
      && (forall q | q in t' && q !in t :: q == path || (q < path && t'[q] == Dir))
  {
    var e := MkdirAllOn(t, Parent(path));
    MkdirAllSpec(t, Parent(path));
    WriteFileSpec(e.tree, path, data);
    assert WriteTarget(e.tree, path) == path;
  }

  /** The paths of the pages and records of `files`. */
  predicate IsDocOf(docsDir: Path, files: seq<Path>, q: Path)
    decreases |files|
  {
    files != [] &&
    (q == DocPath(docsDir, files[0], ".md") || q == DocPath(docsDir, files[0], ".json") || IsDocOf(docsDir, files[1..], q))
  }

  /** The file's page and record are both regular files. */
  predicate HasDocs(t: Tree, docsDir: Path, rel: Path)
  {
    var md, json := DocPath(docsDir, rel, ".md"), DocPath(docsDir, rel, ".json");
    md in t && t[md].File? && json in t && t[json].File?
  }

  /** Two writes below `d`, the second only if the first succeeds. */
  function WritePair(t: Tree, first: Path, firstData: Bytes, second: Path, secondData: Bytes): Effect
  {
    var e := WriteUnder(t, first, firstData);
    if e.err.Some? then e else WriteUnder(e.tree, second, secondData)
  }

  lemma WritePairSpec(t: Tree, d: Path, first: Path, firstData: Bytes, second: Path, secondData: Bytes)
    requires ValidTree(t) && NoLinksUnder(t, d) && d <= first && d <= second && first != second
    requires WritePair(t, first, firstData, second, secondData).err.None?
    ensures var t' := WritePair(t, first, firstData, second, secondData).tree;
      && ValidTree(t') && NoLinksUnder(t', d)
      && first in t' && t'[first].File? && t'[first].data == firstData
      && second in t' && t'[second].File? && t'[second].data == secondData
      && (forall q | q in t && q != first && q != second :: q in t' && t'[q] == t[q])
  {
    var e := WriteUnder(t, first, firstData);
    WriteUnderSpec(t, d, first, firstData);
    WriteUnderSpec(e.tree, d, second, secondData);
  }

  /**
   * One step, on a tree without links under the docs directory, writes the
   * file's page and record with the texts made from the tree it started from,
   * and otherwise only adds directories.
   */
  lemma DocOneWrites(t: Tree, c: Config, docsDir: Path, rel: Path, modTime: Path -> string, encode: ConfigDoc -> Bytes)
    requires ValidTree(t) && NoLinksUnder(t, docsDir)
    requires DocOne(t, c, docsDir, rel, modTime, encode).err.None?
    ensures var t' := DocOne(t, c, docsDir, rel, modTime, encode).tree;
      var md, json := DocPath(docsDir, rel, ".md"), DocPath(docsDir, rel, ".json");
      var doc := MakeDoc(t, c, rel, modTime);
      && ValidTree(t') && NoLinksUnder(t', docsDir)
      && md in t' && t'[md].File? && t'[md].data == Ascii(ConfigDocText(doc))
      && json in t' && t'[json].File? && t'[json].data == encode(doc)
      && (forall q | q in t && q != md && q != json :: q in t' && t'[q] == t[q])
  {
    var doc := MakeDoc(t, c, rel, modTime);
    PagesAndRecordsDiffer(docsDir, rel, rel);
    DocPathInside(docsDir, rel, ".md");
    DocPathInside(docsDir, rel, ".json");
    WritePairSpec(t, docsDir, DocPath(docsDir, rel, ".md"), Ascii(ConfigDocText(doc)),
                  DocPath(docsDir, rel, ".json"), encode(doc));
  }

  /** What one step leaves behind: `rel`'s page and record, no links under the docs directory, everything else kept. */
  predicate StepWrote(t: Tree, t': Tree, docsDir: Path, rel: Path)
  {
    && ValidTree(t') && NoLinksUnder(t', docsDir) && HasDocs(t', docsDir, rel)
    && (forall q | q in t && q != DocPath(docsDir, rel, ".md") && q != DocPath(docsDir, rel, ".json") ::
          q in t' && t'[q] == t[q])
  }

  /** A step that, whenever it succeeds on a tree without links under the docs directory, leaves what StepWrote says. */
  ghost predicate WritesPairs(one: (Tree, Path) -> Effect, docsDir: Path)
  {
    forall t: Tree, rel: Path | ValidTree(t) && NoLinksUnder(t, docsDir) && one(t, rel).err.None? ::
      StepWrote(t, one(t, rel).tree, docsDir, rel)
  }

  /** The step the walk takes writes pairs. */
  lemma DocStepWrites(c: Config, docsDir: Path, modTime: Path -> string, encode: ConfigDoc -> Bytes)
    ensures WritesPairs(WriteDocsOf(c, docsDir, modTime, encode), docsDir)
  {
    var one := WriteDocsOf(c, docsDir, modTime, encode);
    forall t: Tree, rel: Path | ValidTree(t) && NoLinksUnder(t, docsDir) && one(t, rel).err.None?
      ensures StepWrote(t, one(t, rel).tree, docsDir, rel)
    {
      assert one(t, rel) == DocOne(t, c, docsDir, rel, modTime, encode);
      DocOneWrites(t, c, docsDir, rel, modTime, encode);
    }
  }

  /** A path that is not `rel`'s page or record when `rel` is missing from `files`. */
  lemma {:induction false} NotDocOfOthers(docsDir: Path, rel: Path, files: seq<Path>)
    requires rel != [] && forall k | 0 <= k < |files| :: files[k] != [] && files[k] != rel
    ensures !IsDocOf(docsDir, files, DocPath(docsDir, rel, ".md"))
    ensures !IsDocOf(docsDir, files, DocPath(docsDir, rel, ".json"))
    decreases |files|
  {
    if files != [] {
      var other := files[0];
      PagesAndRecordsDiffer(docsDir, rel, other);
      PagesAndRecordsDiffer(docsDir, other, rel);
      if DocPath(docsDir, rel, ".md") == DocPath(docsDir, other, ".md") {
        DocPathInjective(docsDir, rel, other, ".md");
      }
      if DocPath(docsDir, rel, ".json") == DocPath(docsDir, other, ".json") {
        DocPathInjective(docsDir, rel, other, ".json");
      }
      NotDocOfOthers(docsDir, rel, files[1..]);
    }
  }

  /** Everything in `t` that is no page or record of `files` is still there, unchanged, in `t'`. */
  predicate OthersKept(t: Tree, t': Tree, docsDir: Path, files: seq<Path>)
  {
    forall q | q in t && !IsDocOf(docsDir, files, q) :: q in t' && t'[q] == t[q]
  }

  /** The first file's pair, written by a successful DocsEach: the tree it leaves for the rest. */
  lemma DocsFirst(t: Tree, docsDir: Path, files: seq<Path>, one: (Tree, Path) -> Effect) returns (t1: Tree)
    requires WritesPairs(one, docsDir)
    requires ValidTree(t) && NoLinksUnder(t, docsDir) && files != []
    requires DocsEach(t, files, one).err.None?
    ensures DocsEach(t, files, one) == DocsEach(t1, files[1..], one)
    ensures StepWrote(t, t1, docsDir, files[0])
  {
    t1 := one(t, files[0]).tree;
  }

  /** One file's pair written, then the rest: the pages of all of them are there, and nothing else moved. */
  lemma EachStep(t: Tree, t1: Tree, t': Tree, docsDir: Path, files: seq<Path>)
    requires files != []
    requires StepWrote(t, t1, docsDir, files[0])
    requires !IsDocOf(docsDir, files[1..], DocPath(docsDir, files[0], ".md"))
    requires !IsDocOf(docsDir, files[1..], DocPath(docsDir, files[0], ".json"))
    requires forall k | 0 <= k < |files[1..]| :: HasDocs(t', docsDir, files[1..][k])
    requires OthersKept(t1, t', docsDir, files[1..])
    ensures forall k | 0 <= k < |files| :: HasDocs(t', docsDir, files[k])
    ensures OthersKept(t, t', docsDir, files)
  {
    var rest := files[1..];
    var md, json := DocPath(docsDir, files[0], ".md"), DocPath(docsDir, files[0], ".json");
    assert md in t1 && json in t1;
    assert t'[md] == t1[md] && t'[json] == t1[json];
    forall k | 0 <= k < |files|
      ensures HasDocs(t', docsDir, files[k])
    {
      if k > 0 {
        assert files[k] == rest[k - 1];
      }
    }
    forall q | q in t && !IsDocOf(docsDir, files, q)
      ensures q in t' && t'[q] == t[q]
    {
      assert q != md && q != json && !IsDocOf(docsDir, rest, q);
    }
  }

  /**
   * Over distinct, non-empty relative names, every file gets its page and its
   * record as regular files, and nothing else that existed is changed.
   */
  lemma {:induction false} DocsEachSpec(t: Tree, docsDir: Path, files: seq<Path>, one: (Tree, Path) -> Effect)
    requires WritesPairs(one, docsDir)
    requires ValidTree(t) && NoLinksUnder(t, docsDir)
    requires forall k | 0 <= k < |files| :: files[k] != []
    requires forall i, j | 0 <= i < j < |files| :: files[i] != files[j]
    requires DocsEach(t, files, one).err.None?
    ensures var t' := DocsEach(t, files, one).tree;
      && ValidTree(t') && NoLinksUnder(t', docsDir)
      && (forall k | 0 <= k < |files| :: HasDocs(t', docsDir, files[k]))
      && OthersKept(t, t', docsDir, files)
    decreases |files|
  {
    if files != [] {
      var t1 := DocsFirst(t, docsDir, files, one);
      var rest := files[1..];
      assert forall k | 0 <= k < |rest| :: rest[k] == files[k + 1];
      DocsEachSpec(t1, docsDir, rest, one);
      NotDocOfOthers(docsDir, files[0], rest);
      EachStep(t, t1, DocsEach(t1, rest, one).tree, docsDir, files);
    }
  }

  /** The docs directory and the store are side by side in `.dotman`: neither lies within the other. */
  lemma DocsBesideStore(c: Config, q: Path)
    requires Nested(c) && DocsDir(c) <= q
    ensures !(c.ConfigsDir <= q) && !(q <= c.ConfigsDir)
  {
    assert q[|c.DotmanDir|] == "docs";
    assert c.ConfigsDir[|c.DotmanDir|] == "configs";
  }

  /** Making the docs directory adds directories beside the store only. */
  lemma DocsDirStage(t: Tree, c: Config)
    requires ValidTree(t) && Nested(c) && NoLinksUnder(t, DocsDir(c))
    requires MkdirAllOn(t, DocsDir(c)).err.None?
    ensures var t1 := MkdirAllOn(t, DocsDir(c)).tree;
      && ValidTree(t1) && NoLinksUnder(t1, DocsDir(c))
      && (forall q | c.ConfigsDir <= q :: (q in t <==> q in t1) && (q in t ==> t[q] == t1[q]))
  {
    var docs := DocsDir(c);
    var t1 := MkdirAllOn(t, docs).tree;
    MkdirAllSpec(t, docs);
    forall q | c.ConfigsDir <= q
      ensures (q in t <==> q in t1) && (q in t ==> t[q] == t1[q])
    {
      if q in t1 && q !in t {
        DocsBesideStore(c, q);
      }
    }
  }

  /** Writing the README changes the README only. */
  lemma ReadmeStage(t: Tree, c: Config, generated: string)
    requires ValidTree(t) && Nested(c) && NoLinksUnder(t, DocsDir(c))
    requires MainReadmeOn(t, c, DocsDir(c), generated).err.None?
    ensures var t1 := MainReadmeOn(t, c, DocsDir(c), generated).tree;
      var readme := DocsDir(c) + ["README.md"];
      && ValidTree(t1) && NoLinksUnder(t1, DocsDir(c))
      && readme in t1 && t1[readme].File?
      && (forall q | c.ConfigsDir <= q :: (q in t <==> q in t1) && (q in t ==> t[q] == t1[q]))
  {
    var content := Ascii(MainReadmeText(RelStrings(SortedEnum(Tracked(t, c.ConfigsDir))), generated));
    ReadmeWrite(t, c, content);
  }

  /** Writing the README, whatever its bytes, touches nothing under the store. */
  lemma ReadmeWrite(t: Tree, c: Config, data: Bytes)
    requires ValidTree(t) && Nested(c) && NoLinksUnder(t, DocsDir(c))
    requires WriteFileOn(t, DocsDir(c) + ["README.md"], data).err.None?
    ensures var t1 := WriteFileOn(t, DocsDir(c) + ["README.md"], data).tree;
      var readme := DocsDir(c) + ["README.md"];
      && ValidTree(t1) && NoLinksUnder(t1, DocsDir(c))
      && readme in t1 && t1[readme].File?
      && (forall q | c.ConfigsDir <= q :: (q in t <==> q in t1) && (q in t ==> t[q] == t1[q]))
  {
    var readme := DocsDir(c) + ["README.md"];
    WriteFileSpec(t, readme, data);
    assert WriteTarget(t, readme) == readme;
    DocsBesideStore(c, readme);
  }

  /** The files the walk visits in a store that is a directory: distinct, and none the store itself. */
  lemma WalkedNames(t: Tree, c: Config)
    requires c.ConfigsDir in t && t[c.ConfigsDir] == Dir
    ensures var files := SortedEnum(Tracked(t, c.ConfigsDir));
      && (forall k | 0 <= k < |files| :: files[k] != [])
      && (forall i, j | 0 <= i < j < |files| :: files[i] != files[j])
      && (forall rel :: rel in files <==> rel in Tracked(t, c.ConfigsDir))
  {
    var files := SortedEnum(Tracked(t, c.ConfigsDir));
    SortedEnumSpec(Tracked(t, c.ConfigsDir));
    forall k | 0 <= k < |files|
      ensures files[k] != []
    {
      TrackedMember(t, c.ConfigsDir, files[k]);
      assert c.ConfigsDir + [] == c.ConfigsDir;
    }
    forall i, j | 0 <= i < j < |files|
      ensures files[i] != files[j]
    {
      SortedDistinct(files, i, j);
    }
  }

  /**
   * When GenerateDocs succeeds on a tree whose store is a directory and whose
   * docs directory holds no links, every stored file has its page and its
   * record, and the README is there.
   */
  lemma GenerateDocsWrites(t: Tree, c: Config, modTime: Path -> string, encode: ConfigDoc -> Bytes, generated: string)
    requires ValidTree(t) && Nested(c) && NoLinksUnder(t, DocsDir(c))
    requires c.ConfigsDir in t && t[c.ConfigsDir] == Dir
    requires GenerateDocsOn(t, c, modTime, encode, generated).err.None?
    ensures var t' := GenerateDocsOn(t, c, modTime, encode, generated).tree;
      && (forall rel | rel in Tracked(t, c.ConfigsDir) :: HasDocs(t', DocsDir(c), rel))
      && DocsDir(c) + ["README.md"] in t' && t'[DocsDir(c) + ["README.md"]].File?
  {
    var docs := DocsDir(c);
    var readme := docs + ["README.md"];
    var t1 := MkdirAllOn(t, docs).tree;
    DocsDirStage(t, c);
    TrackedFrame(t, t1, c.ConfigsDir);
    var t2 := MainReadmeOn(t1, c, docs, generated).tree;
    ReadmeStage(t1, c, generated);
    TrackedFrame(t1, t2, c.ConfigsDir);
    var files := SortedEnum(Tracked(t, c.ConfigsDir));
    var one := WriteDocsOf(c, docs, modTime, encode);
    assert ConfigDocsOn(t2, c, docs, modTime, encode) == DocsEach(t2, files, one);
    DocStepWrites(c, docs, modTime, encode);
    WalkedNames(t, c);
    DocsEachSpec(t2, docs, files, one);
    var t' := DocsEach(t2, files, one).tree;
    ReadmeAmongDocs(docs, files, t');
    assert readme in t' && t'[readme].File?;
  }

  /** A path that is some file's page or record is a regular file once every file has its docs. */
  lemma {:induction false} ReadmeAmongDocs(docsDir: Path, files: seq<Path>, t: Tree)
    requires forall k | 0 <= k < |files| :: HasDocs(t, docsDir, files[k])
    ensures forall q | IsDocOf(docsDir, files, q) :: q in t && t[q].File?
    decreases |files|
  {
    if files != [] {
      ReadmeAmongDocs(docsDir, files[1..], t);
      assert HasDocs(t, docsDir, files[0]);
    }
  }
}
