/**
 * Prompt templates are the `*.j2` files of the templates directory. A template
 * is listed under the stem of its file name, and loaded from
 * `<dir>/<name>.j2`. Only this name <-> file-name mapping is modelled; the
 * directory listing is a parameter and file contents are not read.
 */
module Templates {
  import opened Wrappers

  const TemplatesDir: string := "prompt-templates"
  const Suffix: string := ".j2"

  /** The path of a file of the templates directory. */
  function FilePath(file: string): string {
    TemplatesDir + "/" + file
  }

  /**
   * The path `get_template_content` reads for a template name: a path in the
   * templates directory ending in `.j2`, from which the name can be read back.
   */
  function TemplatePath(name: string): (path: string)
    ensures |path| == |TemplatesDir| + 1 + |name| + |Suffix|
    ensures path[..|TemplatesDir| + 1] == TemplatesDir + "/"
    ensures path[|TemplatesDir| + 1..|path| - |Suffix|] == name
    ensures MatchesGlob(path)
  {
    var path := TemplatesDir + "/" + name + Suffix;
    assert path[..|TemplatesDir| + 1] == TemplatesDir + "/";
    assert path[|TemplatesDir| + 1..|path| - |Suffix|] == name;
    assert path[|path| - |Suffix|..] == Suffix;
    path
  }

  /**
   * The file names that the glob `*.j2` matches: exactly the names that are
   * some string followed by `.j2`, `.j2` itself included.
   */
  predicate MatchesGlob(file: string): (r: bool)
    ensures r <==> exists stem :: stem + Suffix == file
  {
    if |file| >= |Suffix| && file[|file| - |Suffix|..] == Suffix then
      assert file[..|file| - |Suffix|] + Suffix == file;
      true
    else
      assert forall stem :: (stem + Suffix)[|stem + Suffix| - |Suffix|..] == Suffix;
      false
  }

  /** Python's `str.rfind`: the last position of `c` in `s`. */
  function LastIndexOf(s: string, c: char): (r: Option<nat>)
    ensures r.None? ==> forall i :: 0 <= i < |s| ==> s[i] != c
    ensures r.Some? ==> r.value < |s| && s[r.value] == c
    ensures r.Some? ==> forall i :: r.value < i < |s| ==> s[i] != c
  {
    if s == [] then None
    else if s[|s| - 1] == c then Some(|s| - 1)
    else LastIndexOf(s[..|s| - 1], c)
  }

  /**
   * `PurePath.stem`: the name without its last suffix. A dot at the very
   * start or the very end of the name does not begin a suffix.
   */
  function Stem(name: string): (r: string)
    ensures |r| <= |name| && r == name[..|r|]
    ensures name != "" ==> r != ""
    ensures r != name ==> 0 < |r| < |name| - 1 && name[|r|] == '.'
    ensures r != name ==> forall i :: |r| < i < |name| ==> name[i] != '.'
  {
    match LastIndexOf(name, '.')
    case Some(i) => if 0 < i < |name| - 1 then name[..i] else name
    case None => name
  }

  /** The entries of `files`, in order, for which `keep` holds. */
  function Filter(files: seq<string>, keep: string -> bool): (r: seq<string>)
    ensures |r| <= |files|
    ensures forall f :: f in r <==> f in files && keep(f)
    ensures forall i :: 0 <= i < |r| ==> keep(r[i])
  {
    if files == [] then []
    else if keep(files[0]) then [files[0]] + Filter(files[1..], keep)
    else Filter(files[1..], keep)
  }

  /**
   * `get_available_templates` over a directory listing `files`: one
   * non-empty name per matching file, and every template `t.j2` with a
   * non-empty `t` present in the directory is listed as `t`.
   */
  function AvailableTemplates(files: seq<string>): (names: seq<string>)
    ensures |names| == |Filter(files, MatchesGlob)| <= |files|
    ensures forall i :: 0 <= i < |names| ==> names[i] != ""
    ensures forall t :: t != "" && t + Suffix in files ==> t in names
  {
    var matching := Filter(files, MatchesGlob);
    var names := seq(|matching|, i requires 0 <= i < |matching| => Stem(matching[i]));
    assert forall t :: t != "" && t + Suffix in files ==> t in names by {
      forall t | t != "" && t + Suffix in files
        ensures t in names
      {
        TemplateNameOfFile(t);
        var k :| 0 <= k < |matching| && matching[k] == t + Suffix;
        assert names[k] == t;
      }
    }
    names
  }

  /** A name with a non-empty stem: listing it under its stem and loading it back finds the same file. */
  lemma TemplateNameOfFile(name: string)
    requires name != ""
    ensures Stem(name + Suffix) == name
    ensures MatchesGlob(name + Suffix)
  {
    var file := name + Suffix;
    assert file[|name|] == '.' && file[|name| + 1] == 'j' && file[|name| + 2] == '2';
    var r := LastIndexOf(file, '.');
    assert r.Some? && r.value == |name|;
    assert file[..|name|] == name;
    assert file[|file| - |Suffix|..] == Suffix;
  }

  /** A matching file other than `.j2` itself: the path rebuilt from its stem is the file's own path. */
  lemma StemRoundTrip(file: string)
    requires MatchesGlob(file) && file != Suffix
    ensures TemplatePath(Stem(file)) == FilePath(file)
  {
    var name := file[..|file| - |Suffix|];
    assert name + Suffix == file;
    TemplateNameOfFile(name);
  }

  /** Every listed template whose file is not literally `.j2` loads from the file it was listed for. */
  lemma AvailableTemplatesRoundTrip(files: seq<string>, k: nat)
    requires k < |Filter(files, MatchesGlob)|
    requires Filter(files, MatchesGlob)[k] != Suffix
    ensures k < |AvailableTemplates(files)|
    ensures TemplatePath(AvailableTemplates(files)[k]) == FilePath(Filter(files, MatchesGlob)[k])
  {
    StemRoundTrip(Filter(files, MatchesGlob)[k]);
  }

  /** A file named exactly `.j2` is listed as `.j2`, and loading that name reads `.j2.j2`. */
  lemma BareSuffixFileRoundTripFails()
    ensures AvailableTemplates([Suffix]) == [Suffix]
    ensures TemplatePath(AvailableTemplates([Suffix])[0]) != FilePath(Suffix)
  {
  }

  /**
   * The corrected listing: every matching file with its `.j2` removed, so that
   * `.j2` itself is listed under the empty name.
   */
  function TemplateNames(files: seq<string>): (names: seq<string>)
    ensures |names| == |Filter(files, MatchesGlob)|
  {
    var matching := Filter(files, MatchesGlob);
    seq(|matching|, i requires 0 <= i < |matching| => matching[i][..|matching[i]| - |Suffix|])
  }

  /** Every name of the corrected listing, the empty one included, loads from the file it was listed for. */
  lemma TemplateNamesRoundTrip(files: seq<string>, k: nat)
    requires k < |Filter(files, MatchesGlob)|
    ensures k < |TemplateNames(files)|
    ensures TemplatePath(TemplateNames(files)[k]) == FilePath(Filter(files, MatchesGlob)[k])
  {
    var file := Filter(files, MatchesGlob)[k];
    assert file[..|file| - |Suffix|] + Suffix == file;
  }

  /**
   * The corrected listing names every template present, and agrees with the
   * stem wherever the name is non-empty.
   */
  lemma TemplateNamesComplete(files: seq<string>, name: string)
    requires name + Suffix in files
    ensures name in TemplateNames(files)
    ensures name != "" ==> Stem(name + Suffix) == name
  {
    var file := name + Suffix;
    if name != "" {
      TemplateNameOfFile(name);
    }
    assert MatchesGlob(file);
    var matching := Filter(files, MatchesGlob);
    assert file in matching;
    var k :| 0 <= k < |matching| && matching[k] == file;
    assert file[..|file| - |Suffix|] == name;
    assert TemplateNames(files)[k] == name;
  }
}
