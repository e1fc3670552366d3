/**
 * Where `write_file` puts a report: the directory and file name it composes, using
 * the POSIX rules of `os.path.dirname`, `basename`, `splitext` and `join`. The clock
 * reading of the default name and the working directory are inputs.
 */
module ReportPath {
  import opened Errors

  /** `s.rfind(c)`: the last position of `c`, or -1. */
  function LastIndexOf(s: string, c: char): (i: int)
    ensures -1 <= i < |s|
    ensures i >= 0 ==> s[i] == c
    ensures forall k :: i < k < |s| ==> s[k] != c
    decreases |s|
  {
    if s == [] then -1
    else if s[|s| - 1] == c then |s| - 1
    else LastIndexOf(s[..|s| - 1], c)
  }

  /** Characters after `c`-free text do not move the last `c`. */
  lemma {:induction false} LastIndexOfAppend(a: string, b: string, c: char)
    requires c !in b
    ensures LastIndexOf(a + b, c) == LastIndexOf(a, c)
    decreases |b|
  {
    if b == [] {
      assert a + b == a;
    } else {
      var ab := a + b;
      assert ab[|ab| - 1] == b[|b| - 1];
      assert ab[..|ab| - 1] == a + b[..|b| - 1];
      LastIndexOfAppend(a, b[..|b| - 1], c);
    }
  }

  /** `os.path.basename`: everything after the last slash. */
  function Basename(p: string): (b: string)
    ensures '/' !in b
    ensures |b| <= |p| && p[|p| - |b|..] == b
    ensures '/' !in p ==> b == p
  {
    p[LastIndexOf(p, '/') + 1..]
  }

  predicate AllSlashes(s: string) {
    forall k :: 0 <= k < |s| ==> s[k] == '/'
  }

  /** `s.rstrip('/')`. */
  function RStripSlashes(s: string): (r: string)
    ensures |r| <= |s| && r == s[..|r|]
    ensures r != [] ==> r[|r| - 1] != '/'
    ensures AllSlashes(s[|r|..])
    decreases |s|
  {
    if s != [] && s[|s| - 1] == '/' then
      var r := RStripSlashes(s[..|s| - 1]);
      assert s[..|r|] == s[..|s| - 1][..|r|];
      assert s[|r|..] == s[..|s| - 1][|r|..] + [s[|s| - 1]];
      r
    else
      s
  }

  /**
   * `os.path.dirname`: everything up to the last slash, with trailing slashes removed
   * unless the head is made of slashes only (the root).
   */
  function Dirname(p: string): (d: string)
    ensures |d| <= |p| && p[..|d|] == d
    ensures '/' !in p ==> d == []
  {
    var head := p[..LastIndexOf(p, '/') + 1];
    if head != [] && !AllSlashes(head) then RStripSlashes(head) else head
  }

  /**
   * `os.path.splitext`: the extension is the text from the last dot after the last
   * slash, provided a character other than a dot comes before that dot in the final
   * component; otherwise there is no extension.
   */
  function SplitExt(p: string): (string, string) {
    var sep, dot := LastIndexOf(p, '/'), LastIndexOf(p, '.');
    if dot > sep && exists k :: sep + 1 <= k < dot && p[k] != '.' then (p[..dot], p[dot..])
    else (p, [])
  }

  /**
   * Splitting loses nothing; an extension is one dot followed by dot-free text, and a
   * leading-dot name such as ".profile" has none.
   */
  lemma SplitExtMeaning(p: string)
    ensures SplitExt(p).0 + SplitExt(p).1 == p
    ensures var ext := SplitExt(p).1;
      ext != [] ==> ext[0] == '.' && '.' !in ext[1..] && '/' !in ext
    ensures var ext := SplitExt(p).1;
      ext != [] ==> exists k :: 0 <= k < |SplitExt(p).0| && SplitExt(p).0[k] != '.' && '/' !in SplitExt(p).0[k..]
    ensures AllDots(p) ==> SplitExt(p) == (p, [])
  {
    var sep, dot := LastIndexOf(p, '/'), LastIndexOf(p, '.');
    if dot > sep && exists k :: sep + 1 <= k < dot && p[k] != '.' {
      var k :| sep + 1 <= k < dot && p[k] != '.';
      ExtensionParts(p, sep, dot, k);
    }
  }

  /** The two halves of a split at the last dot, when a non-dot after the last slash precedes it. */
  lemma ExtensionParts(p: string, sep: int, dot: int, k: int)
    requires sep == LastIndexOf(p, '/') && dot == LastIndexOf(p, '.')
    requires sep + 1 <= k < dot && p[k] != '.'
    ensures p[..dot] + p[dot..] == p
    ensures p[dot..] != [] && p[dot..][0] == '.' && '.' !in p[dot..][1..] && '/' !in p[dot..]
    ensures 0 <= k < |p[..dot]| && p[..dot][k] != '.' && '/' !in p[..dot][k..]
  {
    var stem, ext := p[..dot], p[dot..];
    assert stem[k] == p[k];
    assert forall j :: 0 <= j < |stem[k..]| ==> stem[k..][j] == p[k + j];
    assert forall j :: 0 <= j < |ext[1..]| ==> ext[1..][j] == p[dot + 1 + j];
    assert forall j :: 0 <= j < |ext| ==> ext[j] == p[dot + j];
  }

  /**
   * A dot in the final component that follows a character other than a dot there makes
   * an extension: the text from the last dot on.
   */
  lemma SplitExtFindsExtension(p: string, k: int, d: int)
    requires LastIndexOf(p, '/') < k < d < |p| && p[k] != '.' && p[d] == '.'
    ensures SplitExt(p) == (p[..LastIndexOf(p, '.')], p[LastIndexOf(p, '.')..])
    ensures SplitExt(p).1 != [] && SplitExt(p).1[0] == '.'
  {
    var sep, dot := LastIndexOf(p, '/'), LastIndexOf(p, '.');
    assert d <= dot;
    assert sep + 1 <= k < dot && p[k] != '.';
  }

  /** "report.csv" splits into "report" and ".csv". */
  lemma SplitExtOfReportCsv()
    ensures '/' !in "report.csv"
    ensures SplitExt("report.csv") == ("report", ".csv")
  {
    var p := "report.csv";
    assert p == ['r', 'e', 'p', 'o', 'r', 't', '.', 'c', 's', 'v'];
    var sep, dot := LastIndexOf(p, '/'), LastIndexOf(p, '.');
    assert sep == -1;
    assert p[6] == '.';
    assert dot == 6;
    SplitExtFindsExtension(p, 0, 6);
    assert p[..6] == "report" && p[6..] == ".csv";
    assert '/' !in p;
  }

  predicate AllDots(s: string) {
    forall k :: 0 <= k < |s| ==> s[k] == '.'
  }

  /** `os.path.join(a, b)`: an absolute `b` replaces `a`; otherwise one slash separates them. */
  function Join(a: string, b: string): string {
    if b != [] && b[0] == '/' then b
    else if a == [] || a[|a| - 1] == '/' then a + b
    else a + "/" + b
  }

  /** The keyword arguments `write_file` reads. */
  datatype WriteOptions = WriteOptions(
    prefix: string,
    postfix: string,
    reportDir: Option<string>,
    exportFormat: Option<string>)

  /** `'pytan_report_{}.{}'.format(get_now(), export_format)`; an absent format prints as None. */
  function DefaultReportFile(now: string, exportFormat: Option<string>): string {
    "pytan_report_" + now + "." + exportFormat.GetOr("None")
  }

  /** The report directory: `report_dir`, else the directory of the report file, else the working directory. */
  function ReportDir(opts: WriteOptions, reportFile: string, cwd: string): string {
    if opts.reportDir.Some? && opts.reportDir.value != [] then opts.reportDir.value
    else if Dirname(reportFile) != [] then Dirname(reportFile)
    else cwd
  }

  /** The file name: prefix, stem, postfix, extension, from the report file's base name. */
  function ReportName(opts: WriteOptions, reportFile: string): string {
    var (stem, ext) := SplitExt(Basename(reportFile));
    opts.prefix + stem + opts.postfix + ext
  }

  /** The path `write_file` writes to. */
  function WriteFilePath(reportFile: Option<string>, opts: WriteOptions, now: string, cwd: string): string {
    var file := reportFile.GetOr(DefaultReportFile(now, opts.exportFormat));
    Join(ReportDir(opts, file, cwd), ReportName(opts, file))
  }

  /** Without prefix or postfix the report keeps the base name of the file it was given. */
  lemma ReportNameKeepsBasename(opts: WriteOptions, reportFile: string)
    requires opts.prefix == [] && opts.postfix == []
    ensures ReportName(opts, reportFile) == Basename(reportFile)
  {
    SplitExtMeaning(Basename(reportFile));
  }

  /**
   * The name carries the base name's extension at its end and the prefix at its
   * start, with the postfix just before the extension.
   */
  lemma ReportNameShape(opts: WriteOptions, reportFile: string)
    ensures var name, ext := ReportName(opts, reportFile), SplitExt(Basename(reportFile)).1;
      && |opts.prefix| + |opts.postfix| + |ext| <= |name|
      && name[..|opts.prefix|] == opts.prefix
      && name[|name| - |ext|..] == ext
      && name[|name| - |ext| - |opts.postfix|..|name| - |ext|] == opts.postfix
      && |name| == |opts.prefix| + |Basename(reportFile)| + |opts.postfix|
  {
    SplitExtMeaning(Basename(reportFile));
    var (stem, ext) := SplitExt(Basename(reportFile));
    var name := opts.prefix + stem + opts.postfix + ext;
    assert name == opts.prefix + (stem + opts.postfix + ext);
    assert name == (opts.prefix + stem + opts.postfix) + ext;
    assert name == (opts.prefix + stem) + opts.postfix + ext;
  }

  /** With prefix "a_" and postfix "_b", "out/report.csv" becomes "a_report_b.csv": the postfix goes before the extension. */
  lemma ReportNameOfReportCsv()
    ensures ReportName(WriteOptions("a_", "_b", None, None), "out/report.csv") == "a_report_b.csv"
  {
    BasenameOfOutReportCsv();
    SplitExtOfReportCsv();
    var name := "a_" + "report" + "_b" + ".csv";
    assert name == ['a', '_', 'r', 'e', 'p', 'o', 'r', 't', '_', 'b', '.', 'c', 's', 'v'];
  }

  /** The base name of "out/report.csv" is "report.csv". */
  lemma BasenameOfOutReportCsv()
    ensures Basename("out/report.csv") == "report.csv"
  {
    var dir, name, file := "out/", "report.csv", "out/report.csv";
    SplitExtOfReportCsv();
    BasenameAfterSlash(dir, name);
    assert dir == ['o', 'u', 't', '/'];
    assert name == ['r', 'e', 'p', 'o', 'r', 't', '.', 'c', 's', 'v'];
    assert file == ['o', 'u', 't', '/', 'r', 'e', 'p', 'o', 'r', 't', '.', 'c', 's', 'v'];
    assert file == dir + name;
  }

  /**
   * A given `report_dir` wins over the report file's own directory, and the working
   * directory is used only when neither names one.
   */
  lemma ReportDirPriority(opts: WriteOptions, reportFile: string, cwd: string)
    ensures opts.reportDir.Some? && opts.reportDir.value != [] ==> ReportDir(opts, reportFile, cwd) == opts.reportDir.value
    ensures (opts.reportDir.None? || opts.reportDir == Some([])) && Dirname(reportFile) != [] ==>
      ReportDir(opts, reportFile, cwd) == Dirname(reportFile)
    ensures (opts.reportDir.None? || opts.reportDir == Some([])) && '/' !in reportFile ==>
      ReportDir(opts, reportFile, cwd) == cwd
  {
  }

  /** After a directory ending in a slash (or no directory), a slash-free name is the base name. */
  lemma BasenameAfterSlash(d: string, name: string)
    requires d == [] || d[|d| - 1] == '/'
    requires '/' !in name
    ensures Basename(d + name) == name
  {
    LastIndexOfAppend(d, name, '/');
    assert LastIndexOf(d, '/') == |d| - 1;
    assert (d + name)[|d|..] == name;
  }

  /** Joining a slash-free name puts it directly inside the directory. */
  lemma JoinSlashFree(dir: string, name: string)
    requires '/' !in name
    ensures Basename(Join(dir, name)) == name
    ensures |dir| <= |Join(dir, name)| && Join(dir, name)[..|dir|] == dir
  {
    assert name == [] || name[0] != '/' by {
      if name != [] {
        assert name[0] in name;
      }
    }
    if dir == [] || dir[|dir| - 1] == '/' {
      assert Join(dir, name) == dir + name;
      BasenameAfterSlash(dir, name);
      assert (dir + name)[..|dir|] == dir;
    } else {
      var d := dir + "/";
      assert Join(dir, name) == d + name;
      BasenameAfterSlash(d, name);
      assert (d + name)[..|dir|] == dir;
    }
  }

  /** A concatenation holds a character exactly when one of its parts does. */
  lemma InConcat(a: string, b: string, c: char)
    ensures c in a + b <==> c in a || c in b
  {
    if c in a + b {
      var k :| 0 <= k < |a + b| && (a + b)[k] == c;
      if k >= |a| {
        assert b[k - |a|] == c;
      }
    }
    if c in a {
      var k :| 0 <= k < |a| && a[k] == c;
      assert (a + b)[k] == c;
    }
    if c in b {
      var k :| 0 <= k < |b| && b[k] == c;
      assert (a + b)[|a| + k] == c;
    }
  }

  /** The composed name has a slash only where the prefix or postfix brought one. */
  lemma ReportNameSlashFree(opts: WriteOptions, reportFile: string)
    requires '/' !in opts.prefix && '/' !in opts.postfix
    ensures '/' !in ReportName(opts, reportFile)
  {
    var base := Basename(reportFile);
    SplitExtMeaning(base);
    var (stem, ext) := SplitExt(base);
    InConcat(stem, ext, '/');
    InConcat(opts.prefix, stem, '/');
    InConcat(opts.prefix + stem, opts.postfix, '/');
    InConcat(opts.prefix + stem + opts.postfix, ext, '/');
  }

  /**
   * When neither prefix nor postfix holds a slash, the report lands directly in the
   * report directory under the composed name.
   */
  lemma WriteFilePathInReportDir(reportFile: string, opts: WriteOptions, now: string, cwd: string)
    requires '/' !in opts.prefix && '/' !in opts.postfix
    ensures var dir, name := ReportDir(opts, reportFile, cwd), ReportName(opts, reportFile);
      var path := WriteFilePath(Some(reportFile), opts, now, cwd);
      && Basename(path) == name
      && |dir| <= |path| && path[..|dir|] == dir
  {
    ReportNameSlashFree(opts, reportFile);
    JoinSlashFree(ReportDir(opts, reportFile, cwd), ReportName(opts, reportFile));
  }
}
