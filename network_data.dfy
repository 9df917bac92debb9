/**
 * The edgelist bookkeeping of the network datasets: which datasets exist and how each one's
 * edgelist is obtained, the rewrite of a downloaded edgelist into the common `u;v` format, the
 * edge lines written for generated graphs, and the names of the cache files.
 * File access, the download itself and the graph generators are inputs; see `Download`.
 */
module NetworkData {
  import opened Wrappers

  /** How a dataset's edgelist is obtained: downloaded from a URL and rewritten from the given
      delimiter, or generated. The generators' edge probability `p` (a float) is not modelled. */
  datatype Source =
    | Remote(url: string, delimiter: char)
    | ErdosRenyi(n: nat)
    | WattsStrogatz(n: nat, k: nat)

  const METADATA: map<string, Source> := map[
    "gnutella" := Remote("http://snap.stanford.edu/data/p2p-Gnutella08.txt.gz", '\t'),
    "fb" := Remote("https://snap.stanford.edu/data/facebook_combined.txt.gz", ' '),
    "internet" := Remote("https://snap.stanford.edu/data/as20000102.txt.gz", '\t'),
    "toy_erdos" := ErdosRenyi(50),
    "toy_watts_strogatz" := WattsStrogatz(50, 3)
  ]

  /** The keys of METADATA in insertion order, the order `list(METADATA)` yields them in. */
  const DATASETS: seq<string> := ["gnutella", "fb", "internet", "toy_erdos", "toy_watts_strogatz"]

  /** The delimiter of every edgelist this module writes. */
  const COMMON_DELIMITER: char := ';'

  // ---------------------------------------------------------------------------------------------
  // Text helpers

  /** `part` occurs in `s` starting at some position. */
  predicate Contains(s: string, part: string)
  {
    exists k :: 0 <= k <= |s| && part <= s[k..]
  }

  lemma ContainsMiddle(a: string, part: string, b: string)
    ensures Contains(a + part + b, part)
  {
    assert part <= (a + part + b)[|a|..];
  }

  lemma ContainsAfter(s: string, part: string, a: string)
    requires Contains(s, part)
    ensures Contains(a + s, part)
  {
    var k :| 0 <= k <= |s| && part <= s[k..];
    assert (a + s)[|a| + k..] == s[k..];
  }

  lemma ContainsBefore(s: string, part: string, b: string)
    requires Contains(s, part)
    ensures Contains(s + b, part)
  {
    var k :| 0 <= k <= |s| && part <= s[k..];
    assert (s + b)[k..] == s[k..] + b;
  }

  predicate EndsWith(s: string, suffix: string)
  {
    |suffix| <= |s| && s[|s| - |suffix|..] == suffix
  }

  /** `line.startswith("#")`: the line has `#` as a prefix. */
  function IsComment(line: string): (r: bool)
    ensures r <==> "#" <= line
  {
    |line| > 0 && line[0] == '#'
  }

  /** `s.replace(target, replacement)` for single characters: every occurrence is replaced. */
  function Replace(s: string, target: char, replacement: char): (r: string)
    ensures |r| == |s|
    ensures forall i :: 0 <= i < |s| ==> r[i] == (if s[i] == target then replacement else s[i])
    ensures target != replacement ==> target !in r
  {
    if s == [] then []
    else
      var c := s[|s| - 1];
      Replace(s[..|s| - 1], target, replacement) + [if c == target then replacement else c]
  }

  // ---------------------------------------------------------------------------------------------
  // Rewriting a downloaded edgelist

  /** The lines a downloaded edgelist is rewritten to: comment lines dropped, every other line
      kept with its delimiter replaced by the common one. */
  function NormaliseLines(lines: seq<string>, delimiter: char): (r: seq<string>)
    ensures |r| <= |lines|
    ensures forall j :: 0 <= j < |r| ==> !IsComment(r[j])
    ensures delimiter != COMMON_DELIMITER ==> forall j :: 0 <= j < |r| ==> delimiter !in r[j]
  {
    if lines == [] then []
    else
      var rest := NormaliseLines(lines[..|lines| - 1], delimiter);
      var last := lines[|lines| - 1];
      if IsComment(last) then rest else rest + [Replace(last, delimiter, COMMON_DELIMITER)]
  }

  /** The positions of the lines that are not comments, in increasing order. */
  function KeptIndices(lines: seq<string>): (r: seq<nat>)
    ensures forall j :: 0 <= j < |r| ==> r[j] < |lines| && !IsComment(lines[r[j]])
    ensures forall i, j :: 0 <= i < j < |r| ==> r[i] < r[j]
    ensures forall i :: 0 <= i < |lines| && !IsComment(lines[i]) ==> i in r
  {
    if lines == [] then []
    else
      var rest := KeptIndices(lines[..|lines| - 1]);
      if IsComment(lines[|lines| - 1]) then rest else rest + [|lines| - 1]
  }

  /** The rewrite keeps exactly the non-comment lines, each once and in their original order,
      each with the delimiter replaced and its length unchanged. */
  lemma {:induction false} NormaliseKeepsNonComments(lines: seq<string>, delimiter: char)
    ensures var r, kept := NormaliseLines(lines, delimiter), KeptIndices(lines);
      && |r| == |kept|
      && forall j :: 0 <= j < |r| ==>
           r[j] == Replace(lines[kept[j]], delimiter, COMMON_DELIMITER) && |r[j]| == |lines[kept[j]]|
  {
    if lines != [] {
      NormaliseKeepsNonComments(lines[..|lines| - 1], delimiter);
    }
  }

  /** The loop over the downloaded lines, each non-comment line written with the common delimiter. */
  method RewriteLines(lines: seq<string>, delimiter: char) returns (written: seq<string>)
    ensures written == NormaliseLines(lines, delimiter)
  {
    written := [];
    var i := 0;
    while i < |lines|
      invariant 0 <= i <= |lines|
      invariant written == NormaliseLines(lines[..i], delimiter)
    {
      assert lines[..i + 1][..i] == lines[..i];
      var line := lines[i];
      if !IsComment(line) {
        written := written + [Replace(line, delimiter, COMMON_DELIMITER)];
      }
      i := i + 1;
    }
    assert lines[..i] == lines;
  }

  // ---------------------------------------------------------------------------------------------
  // Edge lines of generated graphs

  function Digit(d: nat): (c: char)
    requires d < 10
    ensures '0' <= c <= '9'
  {
    (48 + d) as char
  }

  predicate AllDigits(s: string)
  {
    forall i :: 0 <= i < |s| ==> '0' <= s[i] <= '9'
  }

  /** The decimal text of `n`, as an f-string writes a non-negative int. */
  function NatToString(n: nat): (r: string)
    ensures |r| >= 1 && AllDigits(r)
    decreases n
  {
    if n < 10 then [Digit(n)] else NatToString(n / 10) + [Digit(n % 10)]
  }

  /** The value of a string of decimal digits. */
  function DigitsValue(s: string): nat
    requires AllDigits(s)
  {
    if s == [] then 0 else DigitsValue(s[..|s| - 1]) * 10 + (s[|s| - 1] as int - 48)
  }

  /** Reads a non-empty string of decimal digits back as a number. */
  function ParseNat(s: string): (r: Option<nat>)
    ensures r.Some? <==> |s| >= 1 && AllDigits(s)
  {
    if |s| >= 1 && AllDigits(s) then Some(DigitsValue(s)) else None
  }

  lemma {:induction false} NatToStringRoundTrip(n: nat)
    ensures ParseNat(NatToString(n)) == Some(n)
    decreases n
  {
    var s := NatToString(n);
    if n < 10 {
      assert s[..0] == [];
      assert DigitsValue(s) == n;
    } else {
      NatToStringRoundTrip(n / 10);
      assert s[..|s| - 1] == NatToString(n / 10);
      assert DigitsValue(s) == DigitsValue(NatToString(n / 10)) * 10 + n % 10;
    }
  }

  /** The position of the first `c` in `s`, if any. */
  function IndexOf(s: string, c: char): (r: Option<nat>)
    ensures r.None? <==> c !in s
    ensures r.Some? ==> r.value < |s| && s[r.value] == c && c !in s[..r.value]
  {
    if s == [] then None
    else if s[0] == c then Some(0)
    else match IndexOf(s[1..], c)
      case None => None
      case Some(i) => assert s[..i + 1] == [s[0]] + s[1..][..i]; Some(i + 1)
  }

  /** `f"{u};{v}\n"`: one edge, one line. */
  function EdgeLine(u: nat, v: nat): (r: string)
    ensures |r| >= 4 && r[|r| - 1] == '\n' && '\n' !in r[..|r| - 1]
  {
    var body := NatToString(u) + [COMMON_DELIMITER] + NatToString(v);
    assert forall i :: 0 <= i < |body| ==> body[i] != '\n';
    assert (body + "\n")[..|body|] == body;
    body + "\n"
  }

  /** Reads a `u;v` line back: the numbers before and after the first `;`, up to the newline. */
  function ParseEdgeLine(line: string): Option<(nat, nat)>
  {
    if |line| == 0 || line[|line| - 1] != '\n' then None
    else
      var body := line[..|line| - 1];
      match IndexOf(body, COMMON_DELIMITER)
      case None => None
      case Some(i) =>
        match (ParseNat(body[..i]), ParseNat(body[i + 1..]))
        case (Some(u), Some(v)) => Some((u, v))
        case _ => None
  }

  /** Every written edge line reads back as the edge it was written for. */
  lemma EdgeLineRoundTrip(u: nat, v: nat)
    ensures ParseEdgeLine(EdgeLine(u, v)) == Some((u, v))
  {
    var su, sv := NatToString(u), NatToString(v);
    var body := su + [COMMON_DELIMITER] + sv;
    assert EdgeLine(u, v)[..|EdgeLine(u, v)| - 1] == body;
    assert COMMON_DELIMITER !in su;
    assert IndexOf(body, COMMON_DELIMITER) == Some(|su|);
    assert body[..|su|] == su && body[|su| + 1..] == sv;
    NatToStringRoundTrip(u);
    NatToStringRoundTrip(v);
  }

  /** The lines written for a generated graph's edges. */
  function EdgeLines(edges: seq<(nat, nat)>): (r: seq<string>)
    ensures |r| == |edges|
    ensures forall i :: 0 <= i < |edges| ==> ParseEdgeLine(r[i]) == Some(edges[i])
  {
    var r := seq(|edges|, i requires 0 <= i < |edges| => EdgeLine(edges[i].0, edges[i].1));
    assert forall i :: 0 <= i < |edges| ==> ParseEdgeLine(r[i]) == Some(edges[i]) by {
      forall i | 0 <= i < |edges| ensures ParseEdgeLine(r[i]) == Some(edges[i]) {
        EdgeLineRoundTrip(edges[i].0, edges[i].1);
      }
    }
    r
  }

  /** The loop over a generated graph's edges: exactly one line per edge, in edge order, each
      reading back as its edge. */
  method WriteEdges(edges: seq<(nat, nat)>) returns (written: seq<string>)
    ensures written == EdgeLines(edges)
    ensures |written| == |edges|
    ensures forall i :: 0 <= i < |edges| ==> ParseEdgeLine(written[i]) == Some(edges[i])
  {
    written := [];
    var i := 0;
    while i < |edges|
      invariant 0 <= i <= |edges|
      invariant |written| == i
      invariant forall j :: 0 <= j < i ==> written[j] == EdgeLine(edges[j].0, edges[j].1)
    {
      written := written + [EdgeLine(edges[i].0, edges[i].1)];
      i := i + 1;
    }
  }

  // ---------------------------------------------------------------------------------------------
  // Dispatch on the dataset name

  /** A string as Python's `repr` writes one that holds no quote or backslash. */
  function Quote(s: string): string
  {
    "'" + s + "'"
  }

  /** The quoted name is the name between two single quotes. */
  lemma QuoteParts(s: string)
    ensures var r := Quote(s);
      |r| == |s| + 2 && r[0] == '\'' && r[|r| - 1] == '\'' && r[1..|r| - 1] == s
  {
  }

  /** The items of a list of names as `repr` writes them, separated by ", ". */
  function Items(names: seq<string>): (r: string)
    ensures forall i :: 0 <= i < |names| ==> Contains(r, Quote(names[i]))
  {
    if names == [] then ""
    else if |names| == 1 then
      ContainsMiddle("", Quote(names[0]), "");
      assert "" + Quote(names[0]) + "" == Quote(names[0]);
      Quote(names[0])
    else
      var head, rest := Quote(names[0]), Items(names[1..]);
      var r := head + ", " + rest;
      ContainsMiddle("", head, ", " + rest);
      assert "" + head + (", " + rest) == r;
      forall i | 1 <= i < |names| ensures Contains(r, Quote(names[i])) {
        assert names[1..][i - 1] == names[i];
        ContainsAfter(rest, Quote(names[i]), head + ", ");
      }
      r
  }

  /** `repr` of a list of names. */
  function ListRepr(names: seq<string>): (r: string)
    ensures forall i :: 0 <= i < |names| ==> Contains(r, Quote(names[i]))
  {
    var items := Items(names);
    forall i | 0 <= i < |names| ensures Contains("[" + items + "]", Quote(names[i])) {
      ContainsAfter(items, Quote(names[i]), "[");
      ContainsBefore("[" + items, Quote(names[i]), "]");
    }
    "[" + items + "]"
  }

  /** The message of the error raised for an unknown name: it quotes the name and every known
      name. */
  function UnknownDataset(dataset: string, known: seq<string>): (msg: string)
    ensures Contains(msg, Quote(dataset))
    ensures forall i :: 0 <= i < |known| ==> Contains(msg, Quote(known[i]))
  {
    var prefix, middle := "unknown dataset ", ", known datasets: ";
    var list := ListRepr(known);
    var msg := prefix + Quote(dataset) + middle + list;
    ContainsMiddle(prefix, Quote(dataset), middle);
    ContainsBefore(prefix + Quote(dataset) + middle, Quote(dataset), list);
    forall i | 0 <= i < |known| ensures Contains(msg, Quote(known[i])) {
      ContainsAfter(list, Quote(known[i]), prefix + Quote(dataset) + middle);
    }
    msg
  }

  /** DATASETS lists each key of METADATA once and nothing else. */
  lemma DatasetsAreMetadataKeys()
    ensures forall name :: name in METADATA <==> name in DATASETS
    ensures forall i, j :: 0 <= i < j < |DATASETS| ==> DATASETS[i] != DATASETS[j]
  {
  }

  /** `download`: the edgelist file it writes, as a sequence of written lines, given the lines of
      the fetched file (for the three remote datasets) and the edges of the generated graph
      (for the two toy datasets). The name dispatch is on literal names; the contract ties it to
      METADATA: every known name is handled, every other one fails with the error message. */
  method Download(dataset: string, fetched: seq<string>, edges: seq<(nat, nat)>)
    returns (r: Result<seq<string>, string>)
    ensures r.Failure? <==> dataset !in METADATA
    ensures dataset in METADATA && METADATA[dataset].Remote? ==>
      r == Success(NormaliseLines(fetched, METADATA[dataset].delimiter))
    ensures dataset in METADATA && !METADATA[dataset].Remote? ==> r == Success(EdgeLines(edges))
    ensures dataset in METADATA && METADATA[dataset].Remote? ==>
      forall j :: 0 <= j < |r.value| ==> METADATA[dataset].delimiter !in r.value[j]
    ensures r.Failure? ==> r.error == UnknownDataset(dataset, DATASETS)
  {
    if dataset in ["gnutella", "fb", "internet"] {
      var written := RewriteLines(fetched, METADATA[dataset].delimiter);
      r := Success(written);
    } else if dataset == "toy_erdos" {
      var written := WriteEdges(edges);
      r := Success(written);
    } else if dataset == "toy_watts_strogatz" {
      var written := WriteEdges(edges);
      r := Success(written);
    } else {
      r := Failure(UnknownDataset(dataset, DATASETS));
    }
  }

  // ---------------------------------------------------------------------------------------------
  // Cache file names

  /** `os.path.join(a, b)` on POSIX: an absolute `b` replaces `a`; otherwise `b` is appended,
      with a `/` in between unless `a` is empty or already ends with one. */
  function PathJoin(a: string, b: string): string
  {
    if |b| > 0 && b[0] == '/' then b
    else if a == [] || a[|a| - 1] == '/' then a + b
    else a + "/" + b
  }

  /** The join ends with its second part; an absolute second part replaces the first, and
      otherwise the first part is kept as a prefix. */
  lemma PathJoinParts(a: string, b: string)
    ensures var r := PathJoin(a, b);
      && EndsWith(r, b)
      && (|b| > 0 && b[0] == '/' ==> r == b)
      && (!(|b| > 0 && b[0] == '/') ==> |a| <= |r| && r[..|a|] == a)
  {
    var r := PathJoin(a, b);
    if !(|b| > 0 && b[0] == '/') {
      if a == [] || a[|a| - 1] == '/' {
        assert r == a + b;
      } else {
        assert r == a + ("/" + b);
      }
    }
  }

  /** The last component of a path: what follows its last `/`. */
  function BaseName(path: string): (r: string)
    ensures '/' !in r
    ensures EndsWith(path, r)
  {
    if path == [] || path[|path| - 1] == '/' then ""
    else
      var r := BaseName(path[..|path| - 1]) + [path[|path| - 1]];
      assert path[|path| - |r|..] == path[..|path| - 1][|path| - |r|..] + [path[|path| - 1]];
      r
  }

  /** `BaseName` is the whole last component: it holds no `/`, ends the path, and is either the
      whole path or preceded by a `/`. */
  lemma {:induction false} BaseNameIsLastComponent(path: string)
    ensures var r := BaseName(path);
      && '/' !in r && EndsWith(path, r)
      && (r == path || (|r| < |path| && path[|path| - |r| - 1] == '/'))
  {
    if path != [] && path[|path| - 1] != '/' {
      var init := path[..|path| - 1];
      BaseNameIsLastComponent(init);
      var b := BaseName(init);
      assert BaseName(path) == b + [path[|path| - 1]];
      if b == init {
        assert BaseName(path) == path;
      } else {
        assert path[|path| - |b| - 2] == init[|init| - |b| - 1];
      }
    }
  }

  /** `get_edgelist_path`, with the data directory as a parameter. */
  function EdgelistPath(dataDir: string, dataset: string): string
  {
    PathJoin(PathJoin(dataDir, "edgelists"), dataset + "_edgelist.csv")
  }

  /** `get_ppr_matrix_path`, with the data directory as a parameter and alpha as the text the
      f-string gives it. */
  function PprMatrixPath(dataDir: string, dataset: string, alpha: string, symmetric: bool): string
  {
    PathJoin(PathJoin(dataDir, "ppr_mats"),
             dataset + "_alpha" + alpha + (if symmetric then "_symm.npy" else "_asymm.npy"))
  }

  /** Joining a file name that holds no `/` onto a directory: the result lies directly in that
      directory and its last component is the file name. */
  lemma {:induction false} JoinFileName(dir: string, name: string)
    requires '/' !in name && |name| > 0
    requires |dir| > 0 && dir[|dir| - 1] != '/'
    ensures PathJoin(dir, name) == dir + "/" + name
    ensures BaseName(PathJoin(dir, name)) == name
    decreases |name|
  {
    var p := dir + "/" + name;
    var init := name[..|name| - 1];
    if init == [] {
      assert p[..|p| - 1] == dir + "/";
    } else {
      JoinFileName(dir, init);
      assert p[..|p| - 1] == dir + "/" + init;
    }
  }

  /** A file name without `/` joined onto a sub-directory of the data directory lies directly
      in that sub-directory. */
  lemma {:induction false} JoinInSubdir(dataDir: string, subdir: string, name: string)
    requires |subdir| > 0 && subdir[0] != '/' && subdir[|subdir| - 1] != '/'
    requires '/' !in name && |name| > 0
    ensures var dir := PathJoin(dataDir, subdir);
      && PathJoin(dir, name) == dir + "/" + name
      && BaseName(PathJoin(dir, name)) == name
  {
    var dir := PathJoin(dataDir, subdir);
    assert dir[|dir| - 1] == subdir[|subdir| - 1];
    JoinFileName(dir, name);
  }

  lemma NoSlashConcat(a: string, b: string)
    requires '/' !in a && '/' !in b
    ensures '/' !in a + b
  {
    assert forall i :: 0 <= i < |a + b| ==> (a + b)[i] == if i < |a| then a[i] else b[i - |a|];
  }

  lemma CacheNameLiterals()
    ensures "edgelists"[0] != '/' && "edgelists"[8] != '/'
    ensures "ppr_mats"[0] != '/' && "ppr_mats"[7] != '/'
    ensures '/' !in "_edgelist.csv" && '/' !in "_alpha" && '/' !in "_symm.npy" && '/' !in "_asymm.npy"
  {
  }

  /** A dataset name without `/` gives `<dataset>_edgelist.csv` directly under `edgelists` in
      the data directory; distinct such names give distinct files. */
  lemma EdgelistPathShape(dataDir: string, dataset: string, other: string)
    requires '/' !in dataset && '/' !in other
    ensures var dir := PathJoin(dataDir, "edgelists");
      && EdgelistPath(dataDir, dataset) == dir + "/" + dataset + "_edgelist.csv"
      && BaseName(EdgelistPath(dataDir, dataset)) == dataset + "_edgelist.csv"
    ensures dataset != other ==> EdgelistPath(dataDir, dataset) != EdgelistPath(dataDir, other)
  {
    var dir := PathJoin(dataDir, "edgelists");
    var suffix := "_edgelist.csv";
    CacheNameLiterals();
    NoSlashConcat(dataset, suffix);
    NoSlashConcat(other, suffix);
    JoinInSubdir(dataDir, "edgelists", dataset + suffix);
    JoinInSubdir(dataDir, "edgelists", other + suffix);
    if EdgelistPath(dataDir, dataset) == EdgelistPath(dataDir, other) {
      var a, b := dir + "/" + (dataset + suffix), dir + "/" + (other + suffix);
      assert a[|dir| + 1..] == dataset + suffix;
      assert b[|dir| + 1..] == other + suffix;
      assert (dataset + suffix)[..|dataset|] == dataset;
      assert (other + suffix)[..|other|] == other;
    }
  }

  /** Without the `/`-free hypothesis names can collide: a dataset name starting with `/`
      replaces the data directory, so a second name lands on the first one's file. */
  lemma AbsoluteNameCollides()
    ensures EdgelistPath("/d", "a") == EdgelistPath("/d", "/d/edgelists/a")
    ensures "a" != "/d/edgelists/a"
  {
    var dir := PathJoin("/d", "edgelists");
    assert dir == "/d/edgelists" by {
      assert "/d" + "/" + "edgelists" == "/d/edgelists";
    }
    assert EdgelistPath("/d", "a") == "/d/edgelists/a_edgelist.csv" by {
      assert "a" + "_edgelist.csv" == "a_edgelist.csv";
      assert "/d/edgelists" + "/" + "a_edgelist.csv" == "/d/edgelists/a_edgelist.csv";
    }
    assert EdgelistPath("/d", "/d/edgelists/a") == "/d/edgelists/a_edgelist.csv" by {
      assert "/d/edgelists/a" + "_edgelist.csv" == "/d/edgelists/a_edgelist.csv";
    }
    assert "a"[0] != "/d/edgelists/a"[0];
  }

  /** With a dataset name and alpha text free of `/`, the ppr matrix file is
      `<dataset>_alpha<alpha>_symm.npy` or `..._asymm.npy` directly under `ppr_mats`. */
  lemma PprMatrixPathShape(dataDir: string, dataset: string, alpha: string, symmetric: bool)
    requires '/' !in dataset && '/' !in alpha
    ensures var dir := PathJoin(dataDir, "ppr_mats");
      var name := dataset + "_alpha" + alpha + (if symmetric then "_symm.npy" else "_asymm.npy");
      && PprMatrixPath(dataDir, dataset, alpha, symmetric) == dir + "/" + name
      && BaseName(PprMatrixPath(dataDir, dataset, alpha, symmetric)) == name
  {
    var tail := if symmetric then "_symm.npy" else "_asymm.npy";
    CacheNameLiterals();
    NoSlashConcat(dataset, "_alpha");
    NoSlashConcat(dataset + "_alpha", alpha);
    NoSlashConcat(dataset + "_alpha" + alpha, tail);
    JoinInSubdir(dataDir, "ppr_mats", dataset + "_alpha" + alpha + tail);
  }

  lemma EndsWithJoin(a: string, b: string)
    ensures EndsWith(PathJoin(a, b), b)
  {
    var p := PathJoin(a, b);
    assert p[|p| - |b|..] == b;
  }

  lemma EndsWithConcat(a: string, b: string)
    ensures EndsWith(a + b, b)
  {
    assert (a + b)[|a|..] == b;
  }

  lemma EndsWithTrans(s: string, x: string, y: string)
    requires EndsWith(s, x) && EndsWith(x, y)
    ensures EndsWith(s, y)
  {
    assert s[|s| - |y|..] == s[|s| - |x|..][|x| - |y|..];
  }

  /** Two suffixes of one string: the shorter is a suffix of the longer. */
  lemma EndsWithBoth(s: string, x: string, y: string)
    requires EndsWith(s, x) && EndsWith(s, y) && |y| <= |x|
    ensures EndsWith(x, y)
  {
    assert s[|s| - |y|..] == s[|s| - |x|..][|x| - |y|..];
  }

  lemma FileSuffixes()
    ensures EndsWith("_symm.npy", ".npy") && EndsWith("_asymm.npy", ".npy")
    ensures !EndsWith("_asymm.npy", "_symm.npy") && !EndsWith(".npy", ".csv")
  {
    assert "_symm.npy"[5..] == ".npy";
    assert "_asymm.npy"[6..] == ".npy";
    assert "_asymm.npy"[1..][0] != "_symm.npy"[0];
    assert ".npy"[1] != ".csv"[1];
  }

  /** The ppr matrix file ends in `_symm.npy` exactly when the symmetric form is asked for, and in
      `_asymm.npy` otherwise, so the two forms never share a file; neither is ever an edgelist. */
  lemma PprMatrixPathForm(dataDir: string, dataset: string, alpha: string, symmetric: bool)
    ensures var path := PprMatrixPath(dataDir, dataset, alpha, symmetric);
      && (symmetric <==> EndsWith(path, "_symm.npy"))
      && (!symmetric <==> EndsWith(path, "_asymm.npy"))
      && !EndsWith(path, ".csv")
  {
    var tail := if symmetric then "_symm.npy" else "_asymm.npy";
    var head := dataset + "_alpha" + alpha;
    var path := PprMatrixPath(dataDir, dataset, alpha, symmetric);
    EndsWithJoin(PathJoin(dataDir, "ppr_mats"), head + tail);
    EndsWithConcat(head, tail);
    EndsWithTrans(path, head + tail, tail);
    FileSuffixes();
    EndsWithTrans(path, tail, ".npy");
    if EndsWith(path, ".csv") {
      EndsWithBoth(path, ".npy", ".csv");
    }
    if EndsWith(path, "_symm.npy") && EndsWith(path, "_asymm.npy") {
      EndsWithBoth(path, "_asymm.npy", "_symm.npy");
    }
  }
}
