/**
 The repository analysis: what the backend reads out of a freshly cloned
 working tree. The filesystem is an abstract tree of named entries in
 listing order, each file carrying its text and, where it parses as
 JSON, the parts of the parsed document the analysis looks at. The
 commit log is an abstract list of commits.
 */
module GitHubService {
  import opened Text
  import opened Schemas

  // ---------------------------------------------------------------------
  // The abstract filesystem
  // ---------------------------------------------------------------------

  /** A key of a JSON object: missing, `null`, a string, or another value
      (a number, a boolean, a list or an object). For another value,
      `shown` is what Python's `str` prints for it, and `truthy` is its
      truth value: false for `0`, `false`, `[]` and `{}`. */
  datatype JsonField = Absent | Null | Str(s: string) | OtherValue(shown: string, truthy: bool)

  /** A key of a JSON object that is spread as a mapping: missing, an
      object with these keys, or a value that is not an object. */
  datatype JsonKeys = NoKey | Keys(names: seq<string>) | NotObject

  /** What `json.load` yields for a file, as far as the analysis looks. */
  datatype Json =
    | Object(description: JsonField, dependencies: JsonKeys, devDependencies: JsonKeys)
    | NotAnObject

  /** A file or a directory. `readable` is false where opening or listing
      it raises a permission error. `text` is what a text-mode `read()`
      returns: the bytes that decode, with `\r\n` and `\r` already turned
      into `\n`. `utf8` is false where the file's bytes are not valid
      UTF-8: a strict read then raises, while a read with `errors='ignore'`
      still gets `text`. `json` is `None` where the text is not valid
      JSON. */
  datatype Node =
    | File(readable: bool, utf8: bool, text: string, json: Option<Json>)
    | Dir(readable: bool, children: seq<Child>)

  datatype Child = Child(name: string, node: Node)

  /** `os.path.join(root, name)` followed by a lookup, for a name without
      separators. */
  function Lookup(root: Node, name: string): (r: Option<Node>)
    ensures r.Some? <==> root.Dir? && exists i :: 0 <= i < |root.children| && root.children[i].name == name
  {
    if root.File? then None else LookupIn(root.children, name)
  }

  function LookupIn(cs: seq<Child>, name: string): (r: Option<Node>)
    ensures r.Some? <==> exists i :: 0 <= i < |cs| && cs[i].name == name
    ensures r.Some? ==> exists i :: 0 <= i < |cs| && cs[i].name == name && cs[i].node == r.value
  {
    if |cs| == 0 then None
    else if cs[0].name == name then Some(cs[0].node)
    else LookupIn(cs[1..], name)
  }

  /** `os.path.exists`. */
  predicate Exists(root: Node, name: string) {
    Lookup(root, name).Some?
  }

  /** Reading a file as text: the text, or `None` where `open` raises
      (a directory, a permission error). */
  function ReadText(n: Node): (r: Option<string>)
    ensures r.Some? <==> n.File? && n.readable
  {
    if n.File? && n.readable then Some(n.text) else None
  }

  /** Reading a file as strict UTF-8 text (`encoding='utf-8'` without an
      error handler): `None` also where the bytes do not decode. */
  function ReadStrict(n: Node): (r: Option<string>)
    ensures r.Some? <==> n.File? && n.readable && n.utf8
    ensures r.Some? ==> r == ReadText(n)
  {
    if n.File? && n.readable && n.utf8 then Some(n.text) else None
  }

  /** `os.path.basename` of a path with `/` separators. */
  function Basename(path: string): (r: string)
    ensures '/' !in r
    ensures |r| <= |path| && r == path[|path| - |r|..]
    ensures |r| < |path| ==> path[|path| - |r| - 1] == '/'
  {
    path[BaseStart(path, |path|)..]
  }

  /** Where the last component of `path[..end]` starts: just after its
      last `/`, or at 0. */
  function BaseStart(path: string, end: nat): (k: nat)
    requires end <= |path|
    ensures k <= end
    ensures forall i :: k <= i < end ==> path[i] != '/'
    ensures k > 0 ==> path[k - 1] == '/'
  {
    if end == 0 then 0
    else if path[end - 1] == '/' then end
    else BaseStart(path, end - 1)
  }

  // ---------------------------------------------------------------------
  // Description (github_service.py, `_extract_description`)
  // ---------------------------------------------------------------------

  const ReadmeNames: seq<string> := ["README.md", "README.txt", "README.rst", "readme.md"]

  /** A line that can serve as a description. */
  predicate Describes(line: string) {
    |Strip(line)| > 0 && !StartsWith(line, "#")
  }

  /** The index of the first line at or after `k` that satisfies `p`. */
  function FirstWhere(p: string -> bool, lines: seq<string>, k: nat): (r: Option<nat>)
    ensures r.Some? ==> k <= r.value < |lines| && p(lines[r.value])
    ensures r.Some? ==> forall j :: k <= j < r.value ==> !p(lines[j])
    ensures r.None? ==> forall j :: k <= j < |lines| ==> !p(lines[j])
    decreases |lines| - k
  {
    if k >= |lines| then None
    else if p(lines[k]) then Some(k)
    else FirstWhere(p, lines, k + 1)
  }

  /** The part of a README that is read: its first 500 characters. */
  function ReadmeHead(text: string): (r: string)
    ensures |r| <= 500 && StartsWith(text, r)
    ensures |text| <= 500 ==> r == text
  {
    if |text| <= 500 then text else text[..500]
  }

  /** The description a README's text offers: the head is split into
      lines, the title line is skipped, and the first describing line is
      returned stripped. */
  function ReadmeDescription(text: string): (r: Option<string>)
    ensures r.Some? ==> |r.value| > 0
    ensures r.None? <==> forall j :: 1 <= j < |Split(ReadmeHead(text), "\n")| ==> !Describes(Split(ReadmeHead(text), "\n")[j])
    ensures r.Some? ==> exists i :: 1 <= i < |Split(ReadmeHead(text), "\n")|
                          && Describes(Split(ReadmeHead(text), "\n")[i])
                          && r.value == Strip(Split(ReadmeHead(text), "\n")[i])
                          && forall j :: 1 <= j < i ==> !Describes(Split(ReadmeHead(text), "\n")[j])
  {
    var lines := Split(ReadmeHead(text), "\n");
    match FirstWhere(Describes, lines, 1)
    case Some(i) => Some(Strip(lines[i]))
    case None => None
  }

  /** The first line is the title and is never offered, so a one-line
      README describes nothing. */
  lemma ReadmeTitleSkipped(text: string)
    requires '\n' !in text
    ensures ReadmeDescription(text).None?
  {
    var h := ReadmeHead(text);
    assert '\n' !in h by {
      forall k | 0 <= k < |h|
        ensures h[k] != '\n'
      {
        assert h[k] == text[k];
      }
    }
    CountChar(h, '\n');
    SplitLength(h, "\n");
  }

  /** The README candidates `names`, tried in order. A candidate that is
      present but cannot be opened raises; one without a describing line
      passes on to the next. */
  function FromReadmes(root: Node, names: seq<string>): Result<Option<string>>
  {
    if |names| == 0 then Success(None)
    else match Lookup(root, names[0])
      case None => FromReadmes(root, names[1..])
      case Some(n) =>
        match ReadText(n)
        case None => Failure("cannot open " + names[0])
        case Some(text) =>
          match ReadmeDescription(text)
          case Some(d) => Success(Some(d))
          case None => FromReadmes(root, names[1..])
  }

  /** The `package.json` object, where the file exists, reads strictly and
      parses to an object. */
  predicate PackageObject(root: Node) {
    Lookup(root, "package.json").Some?
    && ReadStrict(Lookup(root, "package.json").value).Some?
    && Lookup(root, "package.json").value.json.Some?
    && Lookup(root, "package.json").value.json.value.Object?
  }

  /** The `description` of `package.json`, where it is a readable object;
      every failure on the way is swallowed. A value that is not a string
      is returned unchanged and printed by the prompt, so it is kept as its
      printed text; a false value, like the empty string, is passed over by
      the prompt's `or`, and is kept as `""`. */
  function PackageDescription(root: Node): (r: Option<string>)
    ensures r.Some? ==> Exists(root, "package.json")
    ensures r.Some? <==> PackageObject(root)
                         && Lookup(root, "package.json").value.json.value.description !in {Absent, Null}
    ensures PackageObject(root) && Lookup(root, "package.json").value.json.value.description.Str?
            ==> r == Some(Lookup(root, "package.json").value.json.value.description.s)
    ensures PackageObject(root) && Lookup(root, "package.json").value.json.value.description.OtherValue?
            ==> r == Some(if Lookup(root, "package.json").value.json.value.description.truthy
                          then Lookup(root, "package.json").value.json.value.description.shown else "")
  {
    if !PackageObject(root) then None
    else
      match Lookup(root, "package.json").value.json.value.description
      case Absent => None
      case Null => None
      case Str(s) => Some(s)
      case OtherValue(shown, truthy) => Some(if truthy then shown else "")
  }

  function ExtractDescription(root: Node): (r: Result<Option<string>>)
    ensures FromReadmes(root, ReadmeNames).Failure? ==> r.Failure?
    ensures FromReadmes(root, ReadmeNames) == Success(None) ==> r == Success(PackageDescription(root))
    ensures FromReadmes(root, ReadmeNames).Success? && FromReadmes(root, ReadmeNames).value.Some?
            ==> r == FromReadmes(root, ReadmeNames)
  {
    match FromReadmes(root, ReadmeNames)
    case Failure(e) => Failure(e)
    case Success(Some(d)) => Success(Some(d))
    case Success(None) => Success(PackageDescription(root))
  }

  // ---------------------------------------------------------------------
  // Primary language (`_detect_primary_language`)
  // ---------------------------------------------------------------------

  /** Directories the walk does not enter. */
  predicate SkippedDir(name: string) {
    StartsWith(name, ".") || name in ["node_modules", "__pycache__", "venv", "env"]
  }

  /** `os.path.splitext(name)[1]`: from the last dot, unless every
      character before that dot is a dot too. */
  function Extension(name: string): (r: string)
    ensures |r| == 0 || r[0] == '.'
    ensures |r| <= |name| && r == name[|name| - |r|..]
  {
    match LastDot(name, |name|)
    case None => ""
    case Some(d) => if exists k :: 0 <= k < d && name[k] != '.' then name[d..] else ""
  }

  function LastDot(name: string, upTo: nat): (r: Option<nat>)
    requires upTo <= |name|
    ensures r.Some? ==> r.value < upTo && name[r.value] == '.'
    ensures r.Some? ==> forall k :: r.value < k < upTo ==> name[k] != '.'
    ensures r.None? ==> forall k :: 0 <= k < upTo ==> name[k] != '.'
  {
    if upTo == 0 then None
    else if name[upTo - 1] == '.' then Some(upTo - 1)
    else LastDot(name, upTo - 1)
  }

  /** The fifteen-entry extension table. */
  function LanguageOf(ext: string): Option<string> {
    if ext == ".py" then Some("Python")
    else if ext == ".js" then Some("JavaScript")
    else if ext == ".ts" then Some("TypeScript")
    else if ext == ".tsx" then Some("TypeScript")
    else if ext == ".jsx" then Some("JavaScript")
    else if ext == ".java" then Some("Java")
    else if ext == ".cpp" then Some("C++")
    else if ext == ".c" then Some("C")
    else if ext == ".cs" then Some("C#")
    else if ext == ".php" then Some("PHP")
    else if ext == ".rb" then Some("Ruby")
    else if ext == ".go" then Some("Go")
    else if ext == ".rs" then Some("Rust")
    else if ext == ".swift" then Some("Swift")
    else if ext == ".kt" then Some("Kotlin")
    else None
  }

  /** The file names `os.walk` visits, top-down: a directory's own files
      in listing order, then the directories it enters. An unreadable
      directory yields nothing. */
  function WalkFiles(n: Node): seq<string>
    decreases n, 1
  {
    match n
    case File(_, _, _, _) => []
    case Dir(readable, cs) => if readable then FileNames(cs) + WalkDirs(cs) else []
  }

  function FileNames(cs: seq<Child>): seq<string> {
    if |cs| == 0 then []
    else (if cs[0].node.File? then [cs[0].name] else []) + FileNames(cs[1..])
  }

  function WalkDirs(cs: seq<Child>): seq<string>
    decreases cs, 0
  {
    if |cs| == 0 then []
    else
      (if cs[0].node.Dir? && !SkippedDir(cs[0].name) then WalkFiles(cs[0].node) else [])
      + WalkDirs(cs[1..])
  }

  /** The languages of the visited files, in visiting order. */
  function Languages(files: seq<string>): (r: seq<string>)
    ensures |r| <= |files|
  {
    if |files| == 0 then []
    else
      match LanguageOf(Lower(Extension(files[0])))
      case Some(l) => [l] + Languages(files[1..])
      case None => Languages(files[1..])
  }

  /** The keys of the counting dict, in first-insertion order. */
  function FirstSeen(xs: seq<string>): (r: seq<string>)
    ensures forall x :: x in r <==> x in xs
    ensures forall i, j :: 0 <= i < j < |r| ==> r[i] != r[j]
    ensures |xs| > 0 ==> |r| > 0 && r[0] == xs[0]
  {
    if |xs| == 0 then []
    else
      var p := FirstSeen(xs[..|xs| - 1]);
      assert forall x :: x in xs <==> x in xs[..|xs| - 1] || x == xs[|xs| - 1];
      if xs[|xs| - 1] in p then p else p + [xs[|xs| - 1]]
  }

  /** The position of the first occurrence of `x` in `xs`. */
  function FirstIndex(xs: seq<string>, x: string): (k: nat)
    requires x in xs
    ensures k < |xs| && xs[k] == x
    ensures forall j :: 0 <= j < k ==> xs[j] != x
  {
    if xs[0] == x then 0 else 1 + FirstIndex(xs[1..], x)
  }

  /** The dict's keys are in the order of their first occurrences: a key
      comes before another exactly when it was first counted earlier. */
  lemma {:induction false} FirstSeenInOrder(xs: seq<string>)
    ensures forall i, j :: 0 <= i < |FirstSeen(xs)| && 0 <= j < |FirstSeen(xs)| ==>
              (i < j <==> FirstIndex(xs, FirstSeen(xs)[i]) < FirstIndex(xs, FirstSeen(xs)[j]))
  {
    if |xs| > 0 {
      var front := xs[..|xs| - 1];
      FirstSeenInOrder(front);
      var p := FirstSeen(front);
      var r := FirstSeen(xs);
      forall x | x in p
        ensures FirstIndex(xs, x) == FirstIndex(front, x)
      {
        FirstIndexPrefix(xs, front, x);
      }
      if xs[|xs| - 1] !in p {
        var last := xs[|xs| - 1];
        assert r == p + [last];
        assert FirstIndex(xs, last) == |xs| - 1 by {
          LastNew(xs, front, last);
        }
      }
    }
  }

  /** A value already in a prefix is first found inside the prefix. */
  lemma FirstIndexPrefix(xs: seq<string>, front: seq<string>, x: string)
    requires front <= xs && x in front
    ensures FirstIndex(xs, x) == FirstIndex(front, x)
  {
    var k := FirstIndex(front, x);
    assert xs[k] == x;
    var m := FirstIndex(xs, x);
    assert m <= k;
    assert front[m] == x;
  }

  /** A value missing from every earlier position is first found last. */
  lemma LastNew(xs: seq<string>, front: seq<string>, last: string)
    requires |xs| > 0 && front == xs[..|xs| - 1] && last == xs[|xs| - 1] && last !in front
    ensures FirstIndex(xs, last) == |xs| - 1
  {
    assert forall j :: 0 <= j < |xs| - 1 ==> xs[j] == front[j];
  }

  /** `max(keys, key=counts.get)`: a later key replaces the current best
      only with a strictly larger count, so ties go to the earliest. */
  function Best(keys: seq<string>, counts: multiset<string>): (b: string)
    requires |keys| > 0
    ensures b in keys
    ensures forall k :: k in keys ==> counts[k] <= counts[b]
    ensures exists i :: 0 <= i < |keys| && keys[i] == b && forall j :: 0 <= j < i ==> counts[keys[j]] < counts[b]
  {
    var i := BestIndex(keys, counts);
    keys[i]
  }

  /** The position of the best key. */
  function BestIndex(keys: seq<string>, counts: multiset<string>): (i: nat)
    requires |keys| > 0
    ensures i < |keys|
    ensures forall j :: 0 <= j < |keys| ==> counts[keys[j]] <= counts[keys[i]]
    ensures forall j :: 0 <= j < i ==> counts[keys[j]] < counts[keys[i]]
  {
    if |keys| == 1 then 0
    else
      var front := keys[..|keys| - 1];
      var i := BestIndex(front, counts);
      assert forall j :: 0 <= j < |front| ==> front[j] == keys[j];
      if counts[keys[|keys| - 1]] > counts[keys[i]] then |keys| - 1 else i
  }

  /** Every language seen before `l` was seen fewer times than `l`. */
  predicate TieGoesToFirst(langs: seq<string>, l: string) {
    exists i :: 0 <= i < |FirstSeen(langs)| && FirstSeen(langs)[i] == l
                && forall j :: 0 <= j < i ==> multiset(langs)[FirstSeen(langs)[j]] < multiset(langs)[l]
  }

  function DetectPrimaryLanguage(root: Node): (r: Option<string>)
    ensures r.None? <==> |Languages(WalkFiles(root))| == 0
    ensures r.Some? ==> r.value in Languages(WalkFiles(root))
    ensures r.Some? ==> forall l :: multiset(Languages(WalkFiles(root)))[l]
                                     <= multiset(Languages(WalkFiles(root)))[r.value]
    ensures r.Some? ==> TieGoesToFirst(Languages(WalkFiles(root)), r.value)
  {
    var langs := Languages(WalkFiles(root));
    if |langs| == 0 then None
    else
      var b := Best(FirstSeen(langs), multiset(langs));
      assert forall l :: multiset(langs)[l] > 0 ==> l in FirstSeen(langs);
      Some(b)
  }

  // ---------------------------------------------------------------------
  // Technologies (`_detect_technologies`)
  // ---------------------------------------------------------------------

  /** The dependency names of a package manifest, or `None` where reading
      or spreading them raises. */
  function DependencyNames(n: Node): Option<seq<string>> {
    if ReadStrict(n).None? || n.json.None? || n.json.value.NotAnObject? then None
    else
      var deps := n.json.value.dependencies;
      var dev := n.json.value.devDependencies;
      if deps.NotObject? || dev.NotObject? then None
      else Some((if deps.Keys? then deps.names else []) + (if dev.Keys? then dev.names else []))
  }

  /** The technologies a table reveals: the technology of every entry
      whose key is present. Two keys may reveal the same technology. */
  function Reveal(table: seq<(string, string)>, present: string -> bool): set<string> {
    if |table| == 0 then {}
    else (if present(table[0].0) then {table[0].1} else {}) + Reveal(table[1..], present)
  }

  /** A technology is revealed exactly when some entry naming it has a
      present key. */
  lemma {:induction false} RevealExactly(table: seq<(string, string)>, present: string -> bool, x: string)
    ensures x in Reveal(table, present) <==> exists i :: 0 <= i < |table| && table[i].1 == x && present(table[i].0)
  {
    if |table| > 0 {
      RevealExactly(table[1..], present, x);
      if x in Reveal(table[1..], present) {
        var i :| 0 <= i < |table[1..]| && table[1..][i].1 == x && present(table[1..][i].0);
        assert table[i + 1] == table[1..][i];
      }
      if exists i :: 0 <= i < |table| && table[i].1 == x && present(table[i].0) {
        var i :| 0 <= i < |table| && table[i].1 == x && present(table[i].0);
        if i > 0 {
          assert table[1..][i - 1] == table[i];
        }
      }
    }
  }

  /** A technology no entry names is never revealed. */
  lemma {:induction false} RevealUnnamed(table: seq<(string, string)>, present: string -> bool, x: string)
    requires forall i :: 0 <= i < |table| ==> table[i].1 != x
    ensures x !in Reveal(table, present)
  {
    if |table| > 0 {
      assert forall i :: 0 <= i < |table[1..]| ==> table[1..][i] == table[i + 1];
      RevealUnnamed(table[1..], present, x);
    }
  }

  /** The dependency table; both Angular packages reveal Angular. */
  const NodeTable: seq<(string, string)> := [
    ("react", "React"), ("vue", "Vue.js"), ("angular", "Angular"), ("@angular/core", "Angular"),
    ("express", "Express.js"), ("next", "Next.js"), ("typescript", "TypeScript")]

  /** The requirements table, matched against the lower-cased text. */
  const PythonTable: seq<(string, string)> := [
    ("django", "Django"), ("flask", "Flask"), ("fastapi", "FastAPI"), ("tensorflow", "TensorFlow"),
    ("pytorch", "PyTorch")]

  /** The marker-file table. */
  const MarkerTable: seq<(string, string)> := [
    ("Dockerfile", "Docker"), ("docker-compose.yml", "Docker Compose"), ("Cargo.toml", "Rust"),
    ("go.mod", "Go"), ("pom.xml", "Maven"), ("build.gradle", "Gradle"), ("composer.json", "PHP/Composer")]

  /** The technologies a package manifest's dependencies reveal. */
  function NodeFrameworks(deps: seq<string>): set<string> {
    Reveal(NodeTable, k => k in deps)
  }

  /** The technologies a requirements file reveals, by substring of its
      lower-cased text. */
  function PythonFrameworks(text: string): set<string> {
    Reveal(PythonTable, k => Mentions(text, k))
  }

  /** The lower-cased text contains the non-empty key. */
  predicate Mentions(text: string, key: string) {
    |key| > 0 && Contains(Lower(text), key)
  }

  /** The technologies that marker files at the top level reveal. */
  function MarkerTechnologies(root: Node): set<string> {
    Reveal(MarkerTable, name => Exists(root, name))
  }

  /** What `package.json` reveals: Node.js, and the frameworks among its
      dependencies when the manifest parses. */
  function NodeTechnologies(root: Node): set<string> {
    match Lookup(root, "package.json")
    case None => {}
    case Some(n) =>
      {"Node.js"} + (match DependencyNames(n) case Some(d) => NodeFrameworks(d) case None => {})
  }

  /** What `requirements.txt` reveals: Python, and the frameworks its text
      mentions when it can be read. */
  function PythonTechnologies(root: Node): set<string> {
    match Lookup(root, "requirements.txt")
    case None => {}
    case Some(n) =>
      {"Python"} + (match ReadStrict(n) case Some(t) => PythonFrameworks(t) case None => {})
  }

  /** The technology list. Its order comes from a Python set and is not
      specified, so it is modelled as a set; it has no duplicates. */
  function DetectTechnologies(root: Node): set<string> {
    NodeTechnologies(root) + PythonTechnologies(root) + MarkerTechnologies(root)
  }

  lemma NodeTechnologiesNamed(root: Node)
    ensures "Node.js" in NodeTechnologies(root) <==> Exists(root, "package.json")
    ensures "Python" !in NodeTechnologies(root) && "Django" !in NodeTechnologies(root)
  {
    match Lookup(root, "package.json") {
      case None =>
      case Some(n) =>
        if DependencyNames(n).Some? {
          NodeFrameworksNamed(DependencyNames(n).value);
        }
    }
  }

  lemma PythonTechnologiesNamed(root: Node)
    ensures "Python" in PythonTechnologies(root) <==> Exists(root, "requirements.txt")
    ensures "Node.js" !in PythonTechnologies(root)
    ensures "Django" in PythonTechnologies(root)
            <==> Exists(root, "requirements.txt") && ReadStrict(Lookup(root, "requirements.txt").value).Some?
                 && Contains(Lower(ReadStrict(Lookup(root, "requirements.txt").value).value), "django")
  {
    match Lookup(root, "requirements.txt") {
      case None =>
      case Some(n) =>
        if ReadStrict(n).Some? {
          PythonFrameworksNamed(ReadStrict(n).value);
        }
    }
  }

  /** "Node.js" is listed exactly when `package.json` exists and "Python"
      exactly when `requirements.txt` does, whatever their contents; the
      requirements checks look at the lower-cased text. */
  lemma TechnologyMarkers(root: Node)
    ensures "Node.js" in DetectTechnologies(root) <==> Exists(root, "package.json")
    ensures "Python" in DetectTechnologies(root) <==> Exists(root, "requirements.txt")
    ensures "Django" in DetectTechnologies(root)
            <==> Exists(root, "requirements.txt") && ReadStrict(Lookup(root, "requirements.txt").value).Some?
                 && Contains(Lower(ReadStrict(Lookup(root, "requirements.txt").value).value), "django")
  {
    MarkersNamed(root);
    NodeTechnologiesNamed(root);
    PythonTechnologiesNamed(root);
  }

  /** None of the three tables names Node.js, Python or Django, except
      the requirements table's own Django entry. */
  lemma TablesNamed()
    ensures forall i :: 0 <= i < |MarkerTable| ==> MarkerTable[i].1 !in {"Node.js", "Python", "Django"}
    ensures forall i :: 0 <= i < |NodeTable| ==> NodeTable[i].1 !in {"Node.js", "Python", "Django"}
    ensures forall i :: 0 <= i < |PythonTable| ==> PythonTable[i].1 !in {"Node.js", "Python"}
    ensures forall i :: 0 < i < |PythonTable| ==> PythonTable[i].1 != "Django"
  {
    forall i | 0 <= i < |MarkerTable|
      ensures MarkerTable[i].1 !in {"Node.js", "Python", "Django"}
    {
      assert |MarkerTable[i].1| != 6 || MarkerTable[i].1[0] in "DG";
    }
    forall i | 0 <= i < |NodeTable|
      ensures NodeTable[i].1 !in {"Node.js", "Python", "Django"}
    {
      assert NodeTable[i].1[0] in "RVAENT";
    }
  }

  /** Marker files reveal only marker technologies. */
  lemma MarkersNamed(root: Node)
    ensures "Node.js" !in MarkerTechnologies(root)
    ensures "Python" !in MarkerTechnologies(root)
    ensures "Django" !in MarkerTechnologies(root)
  {
    TablesNamed();
    var present := name => Exists(root, name);
    RevealUnnamed(MarkerTable, present, "Node.js");
    RevealUnnamed(MarkerTable, present, "Python");
    RevealUnnamed(MarkerTable, present, "Django");
  }

  lemma NodeFrameworksNamed(d: seq<string>)
    ensures "Node.js" !in NodeFrameworks(d) && "Python" !in NodeFrameworks(d) && "Django" !in NodeFrameworks(d)
  {
    TablesNamed();
    var present := k => k in d;
    RevealUnnamed(NodeTable, present, "Node.js");
    RevealUnnamed(NodeTable, present, "Python");
    RevealUnnamed(NodeTable, present, "Django");
  }

  /** The requirements checks are substring tests on the lower-cased text. */
  lemma PythonFrameworksNamed(t: string)
    ensures "Node.js" !in PythonFrameworks(t) && "Python" !in PythonFrameworks(t)
    ensures "Django" in PythonFrameworks(t) <==> Contains(Lower(t), "django")
  {
    TablesNamed();
    var present := k => Mentions(t, k);
    RevealUnnamed(PythonTable, present, "Node.js");
    RevealUnnamed(PythonTable, present, "Python");
    RevealUnnamed(PythonTable[1..], present, "Django");
    assert PythonTable[0] == ("django", "Django");
    assert Reveal(PythonTable, present)
        == (if present("django") then {"Django"} else {}) + Reveal(PythonTable[1..], present);
  }

  /** A directory the walk skips contributes no files, however many it
      holds. */
  lemma SkippedDirUncounted(name: string, d: Node, files: seq<Child>)
    requires SkippedDir(name) && d.Dir?
    ensures WalkFiles(Dir(true, files + [Child(name, d)])) == WalkFiles(Dir(true, files))
  {
    var cs := files + [Child(name, d)];
    FileNamesAppend(files, Child(name, d));
    WalkDirsAppend(files, Child(name, d));
  }

  lemma {:induction false} FileNamesAppend(cs: seq<Child>, c: Child)
    ensures FileNames(cs + [c]) == FileNames(cs) + (if c.node.File? then [c.name] else [])
  {
    if |cs| > 0 {
      assert (cs + [c])[1..] == cs[1..] + [c];
      FileNamesAppend(cs[1..], c);
    } else {
      assert (cs + [c])[1..] == [];
    }
  }

  lemma {:induction false} WalkDirsAppend(cs: seq<Child>, c: Child)
    ensures WalkDirs(cs + [c]) == WalkDirs(cs) + (if c.node.Dir? && !SkippedDir(c.name) then WalkFiles(c.node) else [])
  {
    if |cs| > 0 {
      assert (cs + [c])[1..] == cs[1..] + [c];
      WalkDirsAppend(cs[1..], c);
    } else {
      assert (cs + [c])[1..] == [];
    }
  }

  /** A leading dot is not an extension, and only the last dot counts. */
  /** `splitext` finds an extension exactly when the name has a last dot
      with something other than a dot before it; the extension then runs
      from that dot and holds no other dot. */
  lemma ExtensionSplits(name: string)
    ensures |Extension(name)| > 0 <==>
              exists d :: 0 <= d < |name| && name[d] == '.' && (forall k :: d < k < |name| ==> name[k] != '.')
                          && exists k :: 0 <= k < d && name[k] != '.'
    ensures |Extension(name)| > 0 ==> forall k :: |name| - |Extension(name)| < k < |name| ==> name[k] != '.'
  {
    var last := LastDot(name, |name|);
    if d :| 0 <= d < |name| && name[d] == '.' && (forall k :: d < k < |name| ==> name[k] != '.')
            && exists k :: 0 <= k < d && name[k] != '.' {
      assert last.Some?;
      assert last.value == d;
    }
  }

  // ---------------------------------------------------------------------
  // Directory structure (`_get_directory_structure`)
  // ---------------------------------------------------------------------

  const MaxDepth: nat := 3

  /** Directories left out of the structure. */
  predicate IgnoredDir(name: string) {
    name in ["node_modules", "__pycache__", ".git", "venv", "env"]
  }

  /** `build_tree`: a directory's visible entries, directories keyed with
      a trailing `/` and expanded one level deeper, files mapped to
      "file". At the depth limit, and for an unreadable directory, the
      result is empty. */
  function BuildTree(n: Node, depth: nat): Structure
    decreases n, 1
  {
    if depth >= MaxDepth || !n.Dir? || !n.readable then Structure([])
    else Structure(TreeEntries(n.children, depth))
  }

  function TreeEntries(cs: seq<Child>, depth: nat): seq<Entry>
    decreases cs, 0
  {
    if |cs| == 0 then [] else ChildEntries(cs[0], depth) + TreeEntries(cs[1..], depth)
  }

  /** What one child contributes: nothing for a hidden name or an ignored
      directory, otherwise one entry. */
  function ChildEntries(c: Child, depth: nat): seq<Entry>
    decreases c, 2
  {
    if StartsWith(c.name, ".") then []
    else if c.node.Dir? then
      (if IgnoredDir(c.name) then [] else [Entry(c.name + "/", Nested(BuildTree(c.node, depth + 1)))])
    else [Entry(c.name, FileMarker)]
  }

  /** How many levels of nested dicts a structure has. */
  function Height(s: Structure): nat
    decreases s, 1
  {
    if |s.entries| == 0 then 0 else 1 + MaxHeight(s.entries)
  }

  function MaxHeight(es: seq<Entry>): nat
    decreases es, 0
  {
    if |es| == 0 then 0
    else
      var h := if es[0].value.Nested? then Height(es[0].value.sub) else 0;
      var rest := MaxHeight(es[1..]);
      if h > rest then h else rest
  }

  /** Every key of a built tree is visible: no leading dot, and a
      directory's key ends in `/`. */
  predicate WellKeyed(s: Structure)
    decreases s, 1
  {
    forall i :: 0 <= i < |s.entries| ==> KeyedEntry(s.entries[i])
  }

  predicate KeyedEntry(e: Entry)
    decreases e, 0
  {
    !StartsWith(e.key, ".")
    && (e.value.Nested? ==> |e.key| > 0 && e.key[|e.key| - 1] == '/' && WellKeyed(e.value.sub))
  }

  /** The structure stops at depth 3 and holds only visible keys. */
  lemma {:induction false} BuildTreeShape(n: Node, depth: nat)
    requires depth <= MaxDepth
    ensures Height(BuildTree(n, depth)) <= MaxDepth - depth
    ensures WellKeyed(BuildTree(n, depth))
    decreases n, 1
  {
    if depth < MaxDepth && n.Dir? && n.readable {
      TreeEntriesShape(n.children, depth);
    }
  }

  lemma {:induction false} TreeEntriesShape(cs: seq<Child>, depth: nat)
    requires depth < MaxDepth
    ensures MaxHeight(TreeEntries(cs, depth)) < MaxDepth - depth
    ensures forall i :: 0 <= i < |TreeEntries(cs, depth)| ==> KeyedEntry(TreeEntries(cs, depth)[i])
    decreases cs, 0
  {
    if |cs| > 0 {
      TreeEntriesShape(cs[1..], depth);
      var rest := TreeEntries(cs[1..], depth);
      ChildEntriesShape(cs[0], depth);
      var here := ChildEntries(cs[0], depth);
      if |here| == 1 {
        assert here == [here[0]];
        EntryCons(here[0], rest, MaxDepth - depth);
      } else {
        assert here + rest == rest;
      }
    }
  }

  lemma ChildEntriesShape(c: Child, depth: nat)
    requires depth < MaxDepth
    ensures |ChildEntries(c, depth)| <= 1
    ensures |ChildEntries(c, depth)| == 1 ==>
      var e := ChildEntries(c, depth)[0];
      KeyedEntry(e) && (e.value.Nested? ==> Height(e.value.sub) < MaxDepth - depth)
    decreases c, 2
  {
    if !StartsWith(c.name, ".") && c.node.Dir? && !IgnoredDir(c.name) {
      BuildTreeShape(c.node, depth + 1);
      DirKeyVisible(c.name);
    }
  }

  /** A visible directory name stays visible with its `/`. */
  lemma DirKeyVisible(name: string)
    requires !StartsWith(name, ".")
    ensures !StartsWith(name + "/", ".")
  {
    assert (name + "/")[0] == if |name| > 0 then name[0] else '/';
    if |name| > 0 {
      assert name[..1] != ".";
    }
  }

  /** Putting a keyed entry below the bound in front of keyed entries
      below the bound keeps both facts. */
  lemma EntryCons(e: Entry, rest: seq<Entry>, bound: nat)
    requires KeyedEntry(e) && (e.value.Nested? ==> Height(e.value.sub) < bound)
    requires MaxHeight(rest) < bound
    requires forall i :: 0 <= i < |rest| ==> KeyedEntry(rest[i])
    ensures MaxHeight([e] + rest) < bound
    ensures forall i :: 0 <= i < |[e] + rest| ==> KeyedEntry(([e] + rest)[i])
  {
    assert ([e] + rest)[1..] == rest;
  }

  /** A child the listing shows: not hidden, and not an ignored directory. */
  predicate Shown(c: Child) {
    !StartsWith(c.name, ".") && !(c.node.Dir? && IgnoredDir(c.name))
  }

  /** The children a listing shows, in listing order. */
  function ShownChildren(cs: seq<Child>): (r: seq<Child>)
    ensures forall c :: c in r <==> c in cs && Shown(c)
  {
    if |cs| == 0 then []
    else
      assert forall c :: c in cs <==> c == cs[0] || c in cs[1..];
      (if Shown(cs[0]) then [cs[0]] else []) + ShownChildren(cs[1..])
  }

  /** The entry a shown child gets: a directory its `/`-suffixed name and
      its listing one level deeper, a file its name and the file marker. */
  function EntryOf(c: Child, depth: nat): Entry {
    if c.node.Dir? then Entry(c.name + "/", Nested(BuildTree(c.node, depth + 1)))
    else Entry(c.name, FileMarker)
  }

  /** One entry per shown child, in listing order. */
  lemma {:induction false} TreeEntriesFollowChildren(cs: seq<Child>, depth: nat)
    ensures |TreeEntries(cs, depth)| == |ShownChildren(cs)|
    ensures forall i :: 0 <= i < |ShownChildren(cs)| ==>
              TreeEntries(cs, depth)[i] == EntryOf(ShownChildren(cs)[i], depth)
  {
    if |cs| > 0 {
      TreeEntriesFollowChildren(cs[1..], depth);
      ChildEntriesOf(cs[0], depth);
      EntriesCons(ChildEntries(cs[0], depth), TreeEntries(cs[1..], depth),
                  if Shown(cs[0]) then [cs[0]] else [], ShownChildren(cs[1..]), depth);
    }
  }

  /** What one child contributes, in the terms of `Shown` and `EntryOf`. */
  lemma ChildEntriesOf(c: Child, depth: nat)
    ensures ChildEntries(c, depth) == if Shown(c) then [EntryOf(c, depth)] else []
  {
  }

  /** Entries of the children so far, in front of entries of the rest. */
  lemma EntriesCons(h: seq<Entry>, t: seq<Entry>, hs: seq<Child>, ts: seq<Child>, depth: nat)
    requires |h| == |hs| && forall i :: 0 <= i < |hs| ==> h[i] == EntryOf(hs[i], depth)
    requires |t| == |ts| && forall i :: 0 <= i < |ts| ==> t[i] == EntryOf(ts[i], depth)
    ensures |h + t| == |hs + ts|
    ensures forall i :: 0 <= i < |hs + ts| ==> (h + t)[i] == EntryOf((hs + ts)[i], depth)
  {
    forall i | 0 <= i < |hs + ts|
      ensures (h + t)[i] == EntryOf((hs + ts)[i], depth)
    {
      if i >= |hs| {
        assert (h + t)[i] == t[i - |h|] && (hs + ts)[i] == ts[i - |hs|];
      }
    }
  }

  /** An entry is listed exactly when it is the entry of a shown child:
      hidden items and ignored directories give nothing, and nothing else
      appears. */
  lemma ListedExactlyShown(cs: seq<Child>, depth: nat)
    ensures forall e :: e in TreeEntries(cs, depth) <==> exists c :: c in cs && Shown(c) && e == EntryOf(c, depth)
  {
    TreeEntriesFollowChildren(cs, depth);
    var es, sc := TreeEntries(cs, depth), ShownChildren(cs);
    forall e | e in es
      ensures exists c :: c in cs && Shown(c) && e == EntryOf(c, depth)
    {
      var i :| 0 <= i < |es| && es[i] == e;
      assert sc[i] in sc;
    }
    forall c | c in cs && Shown(c)
      ensures EntryOf(c, depth) in es
    {
      var i :| 0 <= i < |sc| && sc[i] == c;
      assert es[i] == EntryOf(c, depth);
    }
  }

  /** `build_tree` below the depth limit lists a readable directory's shown
      children in order; at the limit, or for a file or an unreadable
      directory, it is empty. */
  lemma BuildTreeLists(n: Node, depth: nat)
    ensures depth < MaxDepth && n.Dir? && n.readable ==>
              |BuildTree(n, depth).entries| == |ShownChildren(n.children)|
              && forall i :: 0 <= i < |ShownChildren(n.children)| ==>
                   BuildTree(n, depth).entries[i] == EntryOf(ShownChildren(n.children)[i], depth)
    ensures !(depth < MaxDepth && n.Dir? && n.readable) ==> BuildTree(n, depth).entries == []
  {
    if n.Dir? {
      TreeEntriesFollowChildren(n.children, depth);
    }
  }

  function GetDirectoryStructure(root: Node): Structure {
    BuildTree(root, 0)
  }

  // ---------------------------------------------------------------------
  // README and licence (`_check_readme_exists`, `_detect_license`)
  // ---------------------------------------------------------------------

  const ReadmeFiles: seq<string> := ["README.md", "README.txt", "README.rst", "readme.md", "Readme.md"]

  function CheckReadmeExists(root: Node): (r: bool)
    ensures r <==> exists i :: 0 <= i < |ReadmeFiles| && Exists(root, ReadmeFiles[i])
  {
    AnyExists(root, ReadmeFiles)
  }

  function AnyExists(root: Node, names: seq<string>): (r: bool)
    ensures r <==> exists i :: 0 <= i < |names| && Exists(root, names[i])
  {
    if |names| == 0 then false
    else
      assert forall i :: 1 <= i < |names| ==> names[i] == names[1..][i - 1];
      Exists(root, names[0]) || AnyExists(root, names[1..])
  }

  const LicenseFiles: seq<string> := ["LICENSE", "LICENSE.txt", "LICENSE.md", "license", "license.txt"]

  /** The licence a text names: the first of MIT, APACHE, GPL, BSD found
      in its upper-cased text, else "Custom". */
  function ClassifyLicense(text: string): (r: string)
    ensures r in ["MIT", "Apache 2.0", "GPL", "BSD", "Custom"]
    ensures r == "MIT" <==> Contains(Upper(text), "MIT")
    ensures r == "Apache 2.0" <==> !Contains(Upper(text), "MIT") && Contains(Upper(text), "APACHE")
    ensures r == "GPL" <==> !Contains(Upper(text), "MIT") && !Contains(Upper(text), "APACHE")
                            && Contains(Upper(text), "GPL")
    ensures r == "BSD" <==> !Contains(Upper(text), "MIT") && !Contains(Upper(text), "APACHE")
                            && !Contains(Upper(text), "GPL") && Contains(Upper(text), "BSD")
    ensures r == "Custom" <==> !Contains(Upper(text), "MIT") && !Contains(Upper(text), "APACHE")
                               && !Contains(Upper(text), "GPL") && !Contains(Upper(text), "BSD")
  {
    var u := Upper(text);
    if Contains(u, "MIT") then "MIT"
    else if Contains(u, "APACHE") then "Apache 2.0"
    else if Contains(u, "GPL") then "GPL"
    else if Contains(u, "BSD") then "BSD"
    else "Custom"
  }

  /** The entry `name` is present and can be opened and read. */
  predicate Readable(root: Node, name: string) {
    Lookup(root, name).Some? && ReadText(Lookup(root, name).value).Some?
  }

  /** The first licence candidate that can be read decides; candidates
      that are missing or cannot be opened are passed over. */
  function LicenseFrom(root: Node, names: seq<string>): (r: Option<string>)
    ensures r.None? <==> forall i :: 0 <= i < |names| ==> !Readable(root, names[i])
    ensures r.Some? ==> exists i :: 0 <= i < |names| && Readable(root, names[i])
                          && r.value == ClassifyLicense(ReadText(Lookup(root, names[i]).value).value)
                          && forall j :: 0 <= j < i ==> !Readable(root, names[j])
  {
    match FirstWhere(name => Readable(root, name), names, 0)
    case None => None
    case Some(i) => Some(ClassifyLicense(ReadText(Lookup(root, names[i]).value).value))
  }

  function DetectLicense(root: Node): Option<string> {
    LicenseFrom(root, LicenseFiles)
  }

  /** A Markdown file has no language. */
  lemma MarkdownHasNoLanguage()
    ensures LanguageOf(Lower(Extension("README.md"))).None?
  {
    var name := "README.md";
    assert LastDot(name, 7) == Some(6);
    assert LastDot(name, 9) == Some(6);
    assert name[0] != '.';
    assert Extension(name) == ".md";
    var l := Lower(".md");
    assert l[0] == '.' && l[1] == 'm' && l[2] == 'd';
    assert l == ".md";
  }

  /** A tree holding one readable README and nothing else counts no
      language. */
  lemma SingleReadmeNoLanguage(text: string)
    ensures DetectPrimaryLanguage(Dir(true, [Child("README.md", File(true, true, text, None))])).None?
  {
    var cs := [Child("README.md", File(true, true, text, None))];
    assert cs[1..] == [];
    assert FileNames(cs) == ["README.md"] + FileNames([]);
    assert WalkDirs(cs) == [] + WalkDirs([]);
    assert WalkFiles(Dir(true, cs)) == ["README.md"];
    MarkdownHasNoLanguage();
    assert Languages(["README.md"]) == [] by {
      assert ["README.md"][1..] == [];
    }
  }

  /** Reading such a README cannot fail: either it describes, or the
      absent candidates after it leave the search empty-handed. */
  lemma SingleReadmeDescribes(text: string)
    ensures ExtractDescription(Dir(true, [Child("README.md", File(true, true, text, None))])).Success?
  {
    var root := Dir(true, [Child("README.md", File(true, true, text, None))]);
    var rest := ReadmeNames[1..];
    assert forall i :: 0 <= i < |rest| ==> !Exists(root, rest[i]) by {
      forall i | 0 <= i < |rest|
        ensures !Exists(root, rest[i])
      {
        assert rest[i] != "README.md";
      }
    }
    FromReadmesAbsent(root, rest);
    assert Lookup(root, ReadmeNames[0]) == Some(File(true, true, text, None));
  }

  /** A README spelled `Readme.md` counts as present, but the description
      is never read from it. */
  lemma ReadmeOnlyCapitalised(md: Node)
    ensures CheckReadmeExists(Dir(true, [Child("Readme.md", md)]))
    ensures FromReadmes(Dir(true, [Child("Readme.md", md)]), ReadmeNames) == Success(None)
  {
    var root := Dir(true, [Child("Readme.md", md)]);
    assert Exists(root, ReadmeFiles[4]);
    FromReadmesAbsent(root, ReadmeNames);
  }

  /** When no candidate is present the READMEs offer nothing. */
  lemma {:induction false} FromReadmesAbsent(root: Node, names: seq<string>)
    requires forall i :: 0 <= i < |names| ==> !Exists(root, names[i])
    ensures FromReadmes(root, names) == Success(None)
  {
    if |names| > 0 {
      assert forall i :: 1 <= i < |names| ==> names[1..][i - 1] == names[i];
      FromReadmesAbsent(root, names[1..]);
    }
  }

  // ---------------------------------------------------------------------
  // Commit history (`_get_git_history`)
  // ---------------------------------------------------------------------

  datatype RawCommit = RawCommit(hexsha: string, message: string, author: string, date: string)

  /** A working tree that git can open, with its log newest first (`None`
      where iterating it raises), or a directory git cannot open. */
  datatype GitRepo = NotARepository | Repository(log: Option<seq<RawCommit>>)

  /** One commit as recorded: the hash cut to eight characters and the
      message stripped. */
  function Record(c: RawCommit): (r: Commit)
    ensures |r.hash| <= 8 && StartsWith(c.hexsha, r.hash)
    ensures |c.hexsha| >= 8 ==> |r.hash| == 8
    ensures r.message == Strip(c.message)
    ensures r.author == c.author && r.date == c.date
  {
    Commit(if |c.hexsha| <= 8 then c.hexsha else c.hexsha[..8], Strip(c.message), c.author, c.date)
  }

  /** `_get_git_history`: the first `limit` commits of the log, recorded
      in order; a failing log yields none. */
  function GitHistory(log: Option<seq<RawCommit>>, limit: nat): (r: seq<Commit>)
    ensures |r| <= limit
    ensures log.None? ==> r == []
    ensures log.Some? ==> |r| == (if |log.value| < limit then |log.value| else limit)
    ensures log.Some? ==> forall i :: 0 <= i < |r| ==> r[i] == Record(log.value[i])
  {
    if log.None? then []
    else
      var n := if |log.value| < limit then |log.value| else limit;
      seq(n, i requires 0 <= i < n => Record(log.value[i]))
  }

  // ---------------------------------------------------------------------
  // Cloning and the whole analysis
  // ---------------------------------------------------------------------

  /** `clone_repository`: the working-tree path, or the clone's error
      under the service's prefix. */
  function CloneRepository(cloned: Result<string>): (r: Result<string>)
    ensures cloned.Success? ==> r == cloned
    ensures cloned.Failure? ==> r == Failure("Failed to clone repository: " + cloned.error)
  {
    match cloned
    case Success(path) => Success(path)
    case Failure(e) => Failure("Failed to clone repository: " + e)
  }

  const HistoryLimit: nat := 10

  /** The analysis of an opened repository whose description was read:
      every remaining step swallows its own errors. */
  function Analysis(repoPath: string, root: Node, log: Option<seq<RawCommit>>, description: Option<string>): (a: RepoAnalysis)
    ensures a.name == Basename(repoPath) && a.description == description
    ensures a.language == DetectPrimaryLanguage(root)
    ensures a.technologies == DetectTechnologies(root)
    ensures a.gitHistory == GitHistory(log, HistoryLimit) && |a.gitHistory| <= HistoryLimit
    ensures a.structure == BuildTree(root, 0) && a.readmeExists == CheckReadmeExists(root)
    ensures a.licenseType == LicenseFrom(root, LicenseFiles)
  {
    RepoAnalysis(
      Basename(repoPath),
      description,
      DetectPrimaryLanguage(root),
      DetectTechnologies(root),
      GetDirectoryStructure(root),
      CheckReadmeExists(root),
      DetectLicense(root),
      GitHistory(log, HistoryLimit))
  }

  /** `analyze_repository`: only opening the repository and reading a
      README can raise; every other step swallows its errors. */
  function AnalyzeRepository(repoPath: string, root: Node, repo: GitRepo): (r: Result<RepoAnalysis>)
    ensures r.Success? <==> repo.Repository? && ExtractDescription(root).Success?
    ensures r.Failure? ==> StartsWith(r.error, "Failed to analyze repository: ")
    ensures repo.Repository? && ExtractDescription(root).Failure?
            ==> r.error == "Failed to analyze repository: " + ExtractDescription(root).error
    ensures r.Success? ==> r.value.name == Basename(repoPath)
    ensures r.Success? ==> r.value.description == ExtractDescription(root).value
    ensures r.Success? ==> r.value.language == DetectPrimaryLanguage(root)
    ensures r.Success? ==> r.value.technologies == DetectTechnologies(root)
    ensures r.Success? ==> r.value.structure == BuildTree(root, 0)
    ensures r.Success? ==> r.value.readmeExists == CheckReadmeExists(root)
    ensures r.Success? ==> r.value.licenseType == LicenseFrom(root, LicenseFiles)
    ensures r.Success? ==> r.value.gitHistory == GitHistory(repo.log, HistoryLimit) && |r.value.gitHistory| <= HistoryLimit
  {
    match repo
    case NotARepository => Failure("Failed to analyze repository: " + "not a git repository")
    case Repository(log) =>
      match ExtractDescription(root)
      case Failure(e) => Failure("Failed to analyze repository: " + e)
      case Success(description) => Success(Analysis(repoPath, root, log, description))
  }
}
