// Which backend a run uses: the rule, and the process state around it
// (frontend/_backends_.py and frontend/__init__.py).
module Backends {
  import opened Wrappers
  import opened Strings

  const GPU_BACKENDS: seq<string> := ["cuda", "rocm", "metal"]
  const BACKENDS: seq<string> := GPU_BACKENDS + ["cpu"]

  const PROBE_UNUSABLE := 3
  const WINDOWS_LOADER_FAILURE: set<int> := {3221225781, 3221225785, 3221225794}

  datatype Probe = Probe(backend: string, usable: bool, detail: string, stamp: string)

  datatype Error =
    | UnknownBackend(name: string)
    | NotBuilt(name: string)
    | NothingBuilt
    | NoUsableGpu
    | NamedEmpty(directory: string)
    | NoSolver(directory: string)
    | NotAnswered(directory: string)
    | StampMismatch(backend: string, directory: string)
    | CannotRun(backend: string)

  // ---- The builds on disk (frontend/_backends_.py:91-114) -----------------------------

  // Marker text by build directory, already stripped.
  type Markers = map<string, string>

  // os.path.join of a relative name.
  function Join(a: string, b: string): string {
    if a == "" || a[|a| - 1] == '/' then a + b else a + "/" + b
  }

  // The path is the name under the parent.
  predicate Under(path: string, parent: string, name: string) {
    var closed := parent == "" || parent[|parent| - 1] == '/';
    (closed ==> path == parent + name) && (!closed ==> path == parent + "/" + name)
  }

  predicate Marked(markers: Markers, directory: string, name: string) {
    directory in markers && markers[directory] == name && name != ""
  }

  function ReadMarker(markers: Markers, directory: string): Option<string> {
    if directory in markers && markers[directory] != "" then Some(markers[directory]) else None
  }

  // Which of the directories is the first to hold the backend.
  ghost predicate FirstHolding(dirs: seq<string>, profile: string, markers: Markers, name: string, i: int) {
    && 0 <= i < |dirs| && ReadMarker(markers, Join(dirs[i], profile)) == Some(name)
    && forall j :: 0 <= j < i ==> ReadMarker(markers, Join(dirs[j], profile)) != Some(name)
  }

  ghost predicate FirstWins(dirs: seq<string>, profile: string, markers: Markers, found: map<string, string>) {
    && (forall i :: 0 <= i < |dirs| && ReadMarker(markers, Join(dirs[i], profile)).Some? ==>
      ReadMarker(markers, Join(dirs[i], profile)).value in found)
    && forall name :: name in found ==>
      exists i :: FirstHolding(dirs, profile, markers, name, i) && found[name] == Join(dirs[i], profile)
  }

  function Builds(dirs: seq<string>, profile: string, markers: Markers): (found: map<string, string>)
    ensures FirstWins(dirs, profile, markers, found)
  {
    if dirs == [] then map[] else
    var front := dirs[..|dirs| - 1];
    var found := Builds(front, profile, markers);
    var directory := Join(dirs[|dirs| - 1], profile);
    var name := ReadMarker(markers, directory);
    FirstWinsStep(front, dirs[|dirs| - 1], profile, markers, found);
    assert dirs == front + [dirs[|dirs| - 1]];
    if name.Some? && name.value !in found then found[name.value := directory] else found
  }

  lemma FirstWinsStep(front: seq<string>, dir: string, profile: string, markers: Markers, found: map<string, string>)
    requires FirstWins(front, profile, markers, found)
    ensures var directory := Join(dir, profile);
      var name := ReadMarker(markers, directory);
      FirstWins(front + [dir], profile, markers,
        if name.Some? && name.value !in found then found[name.value := directory] else found)
  {
    var directory := Join(dir, profile);
    var name := ReadMarker(markers, directory);
    var dirs := front + [dir];
    hide ReadMarker, Join;
    forall other | other in found
      ensures exists i :: FirstHolding(dirs, profile, markers, other, i) && found[other] == Join(dirs[i], profile)
    {
      var i :| FirstHolding(front, profile, markers, other, i) && found[other] == Join(front[i], profile);
      assert FirstHolding(dirs, profile, markers, other, i);
    }
    if name.Some? && name.value !in found {
      forall j | 0 <= j < |front| ensures ReadMarker(markers, Join(front[j], profile)) != name {
      }
      assert FirstHolding(dirs, profile, markers, name.value, |front|);
    }
  }

  method FindBuilds(dirs: seq<string>, profile: string, markers: Markers) returns (found: map<string, string>)
    ensures found == Builds(dirs, profile, markers) && FirstWins(dirs, profile, markers, found)
  {
    hide Join, ReadMarker;
    found := map[];
    for i := 0 to |dirs|
      invariant found == Builds(dirs[..i], profile, markers)
    {
      assert dirs[..i + 1][..i] == dirs[..i];
      var directory := Join(dirs[i], profile);
      var name := ReadMarker(markers, directory);
      if name.Some? && name.value !in found {
        found := found[name.value := directory];
      }
    }
    assert dirs[..|dirs|] == dirs;
  }

  // ---- Reading a probe (frontend/_backends_.py:117-152) ----------------------------------

  // "key: value" split at the first separator.
  function KeyOf(line: string): Option<string> {
    var i := Find(line, ": ", 0);
    if i == -1 then None else Some(line[..i])
  }

  function ValueOf(line: string): string
    requires KeyOf(line).Some?
  {
    Strip(line[Find(line, ": ", 0) + 2..])
  }

  ghost predicate FirstLine(lines: seq<string>, key: string, i: int) {
    0 <= i < |lines| && KeyOf(lines[i]) == Some(key) && forall j :: 0 <= j < i ==> KeyOf(lines[j]) != Some(key)
  }

  // The first line with a key gives its value.
  ghost predicate FieldsOf(lines: seq<string>, fields: map<string, string>) {
    && (forall i :: 0 <= i < |lines| && KeyOf(lines[i]).Some? ==> KeyOf(lines[i]).value in fields)
    && forall key :: key in fields ==> exists i :: FirstLine(lines, key, i) && fields[key] == ValueOf(lines[i])
  }

  function Fields(lines: seq<string>): (fields: map<string, string>)
    ensures FieldsOf(lines, fields)
  {
    if lines == [] then map[] else
    var front, line := lines[..|lines| - 1], lines[|lines| - 1];
    var fields := Fields(front);
    FieldsStep(front, line, fields);
    assert lines == front + [line];
    if KeyOf(line).Some? && KeyOf(line).value !in fields then fields[KeyOf(line).value := ValueOf(line)] else fields
  }

  lemma FieldsStep(front: seq<string>, line: string, fields: map<string, string>)
    requires FieldsOf(front, fields)
    ensures FieldsOf(front + [line],
      if KeyOf(line).Some? && KeyOf(line).value !in fields then fields[KeyOf(line).value := ValueOf(line)] else fields)
  {
    hide KeyOf, ValueOf;
    var lines := front + [line];
    forall key | key in fields ensures exists i :: FirstLine(lines, key, i) && fields[key] == ValueOf(lines[i]) {
      var i :| FirstLine(front, key, i) && fields[key] == ValueOf(front[i]);
      assert FirstLine(lines, key, i);
    }
    if KeyOf(line).Some? && KeyOf(line).value !in fields {
      assert FirstLine(lines, KeyOf(line).value, |front|);
    }
  }

  const LOADER_REFUSED := "its runtime library is not installed on this machine"

  predicate Answers(fields: map<string, string>, key: string) {
    "backend" in fields && "stamp" in fields && key in fields
  }

  function ReadAnswer(fields: map<string, string>, code: int, backend: Option<string>): Option<Probe> {
    if Answers(fields, "device") && code == 0 then
      Some(Probe(fields["backend"], true, fields["device"], fields["stamp"]))
    else if Answers(fields, "unusable") && code == PROBE_UNUSABLE then
      Some(Probe(fields["backend"], false, fields["unusable"], fields["stamp"]))
    else if backend.Some? && code in WINDOWS_LOADER_FAILURE then
      Some(Probe(backend.value, false, LOADER_REFUSED, ""))
    else None
  }

  method ParseProbe(lines: seq<string>, code: int, backend: Option<string>) returns (answer: Option<Probe>)
    ensures answer == ReadAnswer(Fields(lines), code, backend)
  {
    hide KeyOf, ValueOf;
    var fields: map<string, string> := map[];
    for i := 0 to |lines|
      invariant fields == Fields(lines[..i])
    {
      assert lines[..i + 1][..i] == lines[..i];
      var key := KeyOf(lines[i]);
      if key.Some? && key.value !in fields {
        fields := fields[key.value := ValueOf(lines[i])];
      }
    }
    assert lines[..|lines|] == lines;
    if "backend" in fields && "stamp" in fields {
      if code == 0 && "device" in fields {
        return Some(Probe(fields["backend"], true, fields["device"], fields["stamp"]));
      }
      if code == PROBE_UNUSABLE && "unusable" in fields {
        return Some(Probe(fields["backend"], false, fields["unusable"], fields["stamp"]));
      }
    }
    if backend.Some? && code in WINDOWS_LOADER_FAILURE {
      return Some(Probe(backend.value, false, LOADER_REFUSED, ""));
    }
    return None;
  }

  // The first ": " of the line ends this key.
  predicate Separates(line: string, key: string) {
    && |key| + 2 <= |line| && line[..|key|] == key && line[|key|] == ':' && line[|key| + 1] == ' '
    && forall j :: 0 <= j < |key| ==> line[j] != ':' || line[j + 1] != ' '
  }

  lemma SeparatorAt(line: string, k: int)
    requires 0 <= k < |line| - 1
    ensures At(line, ": ", k) <==> line[k] == ':' && line[k + 1] == ' '
  {
    assert line[k..k + 2] == [line[k], line[k + 1]];
  }

  lemma AtFits(line: string, k: int)
    requires At(line, ": ", k)
    ensures 0 <= k < |line| - 1
  {
  }

  lemma SeparatesIs(line: string, key: string)
    ensures Separates(line, key) <==> KeyOf(line) == Some(key)
    ensures Separates(line, key) ==> ValueOf(line) == Strip(line[|key| + 2..])
  {
    hide At, Strip;
    var r := Find(line, ": ", 0);
    if Separates(line, key) {
      SeparatorAt(line, |key|);
      forall j | 0 <= j < |key| ensures !At(line, ": ", j) {
        SeparatorAt(line, j);
      }
    }
    if KeyOf(line) == Some(key) {
      AtFits(line, r);
      SeparatorAt(line, r);
      forall j | 0 <= j < r ensures line[j] != ':' || line[j + 1] != ' ' {
        SeparatorAt(line, j);
      }
    }
  }

  // The first line with the key has the value, up to white space around it.
  ghost predicate Says(lines: seq<string>, key: string, value: string) {
    exists i :: SaysAt(lines, key, value, i)
  }

  ghost predicate SaysAt(lines: seq<string>, key: string, value: string, i: int) {
    && 0 <= i < |lines| && Separates(lines[i], key) && Stripped(lines[i][|key| + 2..], value)
    && forall j :: 0 <= j < i ==> !Separates(lines[j], key)
  }

  lemma SaysIs(lines: seq<string>, key: string, value: string)
    ensures Says(lines, key, value) <==> key in Fields(lines) && Fields(lines)[key] == value
  {
    var fields := Fields(lines);
    assert FieldsOf(lines, fields);
    hide Fields, KeyOf, ValueOf, Separates, Stripped, Strip;
    forall i | 0 <= i < |lines|
      ensures Separates(lines[i], key) <==> KeyOf(lines[i]) == Some(key)
      ensures Separates(lines[i], key) ==> (Stripped(lines[i][|key| + 2..], value) <==> value == ValueOf(lines[i]))
    {
      SeparatesIs(lines[i], key);
      if Separates(lines[i], key) {
        assert |key| + 2 <= |lines[i]| by {
          SeparatesLength(lines[i], key);
        }
        StripIs(lines[i][|key| + 2..], value);
      }
    }
    if key in fields {
      var i :| FirstLine(lines, key, i) && fields[key] == ValueOf(lines[i]);
      if fields[key] == value {
        assert SaysAt(lines, key, value, i);
      }
      forall m | SaysAt(lines, key, value, m) ensures m == i {
      }
    }
  }

  lemma SeparatesLength(line: string, key: string)
    requires Separates(line, key)
    ensures |key| + 2 <= |line|
  {
  }

  // What is read as an answer: with status 0 a device, with status 3 a reason, each with the
  // solver's own backend and stamp, and with a loader's refusal the marker's backend.
  lemma ProbeAnswers(lines: seq<string>, code: int, backend: Option<string>, answer: Probe)
    ensures ReadAnswer(Fields(lines), code, backend) == Some(answer) <==>
      || (answer.usable && code == 0 && Says(lines, "device", answer.detail)
          && Says(lines, "backend", answer.backend) && Says(lines, "stamp", answer.stamp))
      || (!answer.usable && code == 3 && Says(lines, "unusable", answer.detail)
          && Says(lines, "backend", answer.backend) && Says(lines, "stamp", answer.stamp))
      || (!answer.usable && (code == 3221225781 || code == 3221225785 || code == 3221225794)
          && backend == Some(answer.backend) && answer.stamp == ""
          && answer.detail == "its runtime library is not installed on this machine")
  {
    hide Fields, Says;
    SaysIs(lines, "device", answer.detail);
    SaysIs(lines, "unusable", answer.detail);
    SaysIs(lines, "backend", answer.backend);
    SaysIs(lines, "stamp", answer.stamp);
  }

  // ---- The environment a call finds ------------------------------------------------------

  // A solver binary's real path, size and modification time.
  datatype Key = Key(path: string, size: int, mtime: int)

  datatype Launch = Ran(lines: seq<string>, code: int) | TimedOut | NotStarted

  // override is CARGO_TARGET_DIR, empty where unset; launch is what running a solver does.
  datatype Disk = Disk(override: string, markers: Markers, solvers: map<string, Key>, launch: Key -> Launch)

  datatype Config = Config(root: string, profile: string, stamp: string)

  function TargetDir(cfg: Config, disk: Disk): string {
    if disk.override == "" then Join(cfg.root, "target")
    else if disk.override[0] == '/' then disk.override
    else Join(cfg.root, disk.override)
  }

  const NAMED: seq<string> := ["cpu", "cuda", "metal", "rocm", "gpu"]

  function Wanted(cfg: Config, disk: Disk): (dirs: seq<string>)
    ensures |dirs| > 0 && dirs[0] == TargetDir(cfg, disk)
  {
    var root := Join(cfg.root, "target");
    [TargetDir(cfg, disk), root] + seq(|NAMED|, i requires 0 <= i < |NAMED| => Join(root, NAMED[i]))
  }

  // The directory a build with this CARGO_TARGET_DIR goes to.
  predicate BuildTarget(directory: string, override: string, root: string) {
    && (override == "" ==> Under(directory, root, "target"))
    && (override != "" && override[0] == '/' ==> directory == override)
    && (override != "" && override[0] != '/' ==> Under(directory, root, override))
  }

  // The directories searched, with repeats.
  ghost predicate Candidates(cfg: Config, disk: Disk, all: seq<string>) {
    exists first, tree :: BuildTarget(first, disk.override, cfg.root) && Under(tree, cfg.root, "target")
      && all == [first, tree, tree + "/cpu", tree + "/cuda", tree + "/metal", tree + "/rocm", tree + "/gpu"]
  }

  // Each of all is seen once, in the order of their first occurrences.
  ghost predicate Once(seen: seq<string>, all: seq<string>) {
    && (forall i, j :: 0 <= i < j < |seen| ==> seen[i] != seen[j])
    && (forall d :: d in seen <==> d in all)
    && (forall i, j :: 0 <= i < j < |seen| ==> Precedes(seen[i], seen[j], all))
  }

  ghost predicate Precedes(d: string, e: string, all: seq<string>) {
    exists k :: 0 <= k < |all| && all[k] == d && e !in all[..k]
  }

  // The first directory searched that holds the backend.
  ghost predicate BuildIn(cfg: Config, disk: Disk, name: string, directory: string) {
    exists all, i :: Candidates(cfg, disk, all) && BuildAmong(cfg.profile, disk.markers, all, name, directory, i)
  }

  ghost predicate BuildAmong(profile: string, markers: Markers, all: seq<string>, name: string, directory: string,
                             i: int) {
    && 0 <= i < |all| && Under(directory, all[i], profile) && Marked(markers, directory, name)
    && forall j, other :: 0 <= j < i && Under(other, all[j], profile) ==> !Marked(markers, other, name)
  }

  // First occurrences, in order.
  function Deduped(dirs: seq<string>): (seen: seq<string>)
    ensures dirs != [] ==> seen != [] && seen[0] == dirs[0]
    ensures Once(seen, dirs)
  {
    if dirs == [] then [] else
    var seen := Deduped(dirs[..|dirs| - 1]);
    assert dirs == dirs[..|dirs| - 1] + [dirs[|dirs| - 1]];
    OnceStep(seen, dirs[..|dirs| - 1], dirs[|dirs| - 1]);
    if dirs[|dirs| - 1] in seen then seen else seen + [dirs[|dirs| - 1]]
  }

  lemma OnceStep(seen: seq<string>, front: seq<string>, d: string)
    requires Once(seen, front)
    ensures Once(if d in seen then seen else seen + [d], front + [d])
  {
    hide Precedes;
    var all := front + [d];
    forall a, b | Precedes(a, b, front) ensures Precedes(a, b, all) {
      PrecedesStill(a, b, front, d);
    }
    if d !in seen {
      forall a | a in front ensures Precedes(a, d, all) {
        PrecedesLast(a, front, d);
      }
    }
  }

  lemma PrecedesStill(a: string, b: string, front: seq<string>, d: string)
    requires Precedes(a, b, front)
    ensures Precedes(a, b, front + [d])
  {
    var k :| 0 <= k < |front| && front[k] == a && b !in front[..k];
    assert (front + [d])[..k] == front[..k];
  }

  lemma PrecedesLast(a: string, front: seq<string>, d: string)
    requires a in front && d !in front
    ensures Precedes(a, d, front + [d])
  {
    var k :| 0 <= k < |front| && front[k] == a;
    assert (front + [d])[..k] == front[..k];
  }

  // The candidates spelled out.
  lemma CandidatesAre(cfg: Config, disk: Disk, all: seq<string>)
    ensures Candidates(cfg, disk, all) <==> all == Wanted(cfg, disk)
  {
    var first, tree := TargetDir(cfg, disk), Join(cfg.root, "target");
    assert BuildTarget(first, disk.override, cfg.root) && Under(tree, cfg.root, "target");
    assert tree[|tree| - 1] == 't';
    assert NAMED == ["cpu", "cuda", "metal", "rocm", "gpu"];
    forall i | 0 <= i < |NAMED| ensures Join(tree, NAMED[i]) == tree + ("/" + NAMED[i]) {
      Slashed(tree, NAMED[i]);
    }
    assert "/" + "cpu" == "/cpu" && "/" + "cuda" == "/cuda" && "/" + "metal" == "/metal";
    assert "/" + "rocm" == "/rocm" && "/" + "gpu" == "/gpu";
    assert Wanted(cfg, disk)
      == [first, tree, tree + "/cpu", tree + "/cuda", tree + "/metal", tree + "/rocm", tree + "/gpu"];
  }

  lemma Slashed(tree: string, name: string)
    requires tree != "" && tree[|tree| - 1] != '/'
    ensures Join(tree, name) == tree + ("/" + name)
  {
    assert tree + "/" + name == tree + ("/" + name);
  }

  method CandidateTargetDirs(cfg: Config, disk: Disk) returns (seen: seq<string>)
    ensures seen == Deduped(Wanted(cfg, disk))
    ensures exists all :: Candidates(cfg, disk, all) && Once(seen, all)
  {
    hide Once, Wanted, Candidates;
    var wanted := Wanted(cfg, disk);
    CandidatesAre(cfg, disk, wanted);
    seen := [];
    for i := 0 to |wanted|
      invariant seen == Deduped(wanted[..i])
    {
      assert wanted[..i + 1][..i] == wanted[..i];
      if wanted[i] !in seen {
        seen := seen + [wanted[i]];
      }
    }
    assert wanted[..|wanted|] == wanted;
  }

  function Built(cfg: Config, disk: Disk): map<string, string> {
    Builds(Deduped(Wanted(cfg, disk)), cfg.profile, disk.markers)
  }

  lemma MarkedIs(markers: Markers, directory: string, name: string)
    ensures Marked(markers, directory, name) <==> ReadMarker(markers, directory) == Some(name)
  {
  }

  lemma UnderIs(path: string, parent: string, name: string)
    ensures Under(path, parent, name) <==> path == Join(parent, name)
  {
  }

  // The first of all to hold a backend is the first of those seen once.
  lemma FirstAmong(profile: string, markers: Markers, seen: seq<string>, all: seq<string>, name: string, m: int)
    returns (k: int)
    requires Once(seen, all) && FirstHolding(seen, profile, markers, name, m)
    ensures BuildAmong(profile, markers, all, name, Join(seen[m], profile), k)
  {
    hide Join, ReadMarker, Under, Marked;
    k := FirstAt(all, seen[m]);
    UnderIs(Join(seen[m], profile), all[k], profile);
    MarkedIs(markers, Join(seen[m], profile), name);
    forall j, other | 0 <= j < k && Under(other, all[j], profile) ensures !Marked(markers, other, name) {
      UnderIs(other, all[j], profile);
      MarkedIs(markers, other, name);
      EarlierSeen(seen, all, m, k, j);
    }
  }

  lemma {:induction false} FirstAt(all: seq<string>, d: string) returns (k: int)
    requires d in all
    ensures 0 <= k < |all| && all[k] == d && d !in all[..k]
  {
    if all[0] == d {
      k := 0;
    } else {
      k := FirstAt(all[1..], d);
      k := k + 1;
      assert all[..k] == [all[0]] + all[1..][..k - 1];
    }
  }

  lemma PrecedesBefore(d: string, e: string, all: seq<string>, k: int, j: int)
    requires Precedes(d, e, all) && 0 <= j < k <= |all| && d !in all[..k]
    ensures all[j] != e
  {
    var k2 :| 0 <= k2 < |all| && all[k2] == d && e !in all[..k2];
    assert forall i :: 0 <= i < k ==> all[i] in all[..k];
    assert all[..k2][j] == all[j];
  }

  lemma EarlierSeen(seen: seq<string>, all: seq<string>, m: int, k: int, j: int)
    requires Once(seen, all) && 0 <= m < |seen| && 0 <= j < k < |all| && all[k] == seen[m] && seen[m] !in all[..k]
    ensures exists i :: 0 <= i < m && seen[i] == all[j]
  {
    assert all[j] in all[..k] && all[j] in seen;
    var i :| 0 <= i < |seen| && seen[i] == all[j];
    hide Precedes;
    if i > m {
      PrecedesBefore(seen[m], seen[i], all, k, j);
    }
  }

  // What is built, and where: the first directory searched whose marker names it.
  lemma BuiltInOrder(cfg: Config, disk: Disk, name: string, directory: string)
    ensures name in Built(cfg, disk) && Built(cfg, disk)[name] == directory <==> BuildIn(cfg, disk, name, directory)
  {
    hide Wanted, Candidates, Deduped, Builds, Join, ReadMarker, BuildAmong, Once;
    var all, seen, found := Wanted(cfg, disk), Deduped(Wanted(cfg, disk)), Built(cfg, disk);
    forall other ensures Candidates(cfg, disk, other) <==> other == all {
      CandidatesAre(cfg, disk, other);
    }
    if name in found {
      var m :| FirstHolding(seen, cfg.profile, disk.markers, name, m) && found[name] == Join(seen[m], cfg.profile);
      var k := FirstAmong(cfg.profile, disk.markers, seen, all, name, m);
      forall i | BuildAmong(cfg.profile, disk.markers, all, name, directory, i) ensures directory == found[name] {
        FirstUnique(cfg.profile, disk.markers, all, name, directory, i, found[name], k);
      }
    } else {
      forall i | BuildAmong(cfg.profile, disk.markers, all, name, directory, i) ensures false {
        AmongFound(cfg.profile, disk.markers, seen, all, found, name, directory, i);
      }
    }
  }

  lemma FirstUnique(profile: string, markers: Markers, all: seq<string>, name: string, a: string, i: int, b: string,
                    k: int)
    requires BuildAmong(profile, markers, all, name, a, i) && BuildAmong(profile, markers, all, name, b, k)
    ensures a == b
  {
    hide Marked;
  }

  lemma AmongFound(profile: string, markers: Markers, seen: seq<string>, all: seq<string>, found: map<string, string>,
                   name: string, directory: string, i: int)
    requires Once(seen, all) && FirstWins(seen, profile, markers, found)
    requires BuildAmong(profile, markers, all, name, directory, i)
    ensures name in found
  {
    hide Join, ReadMarker, Marked, Under;
    UnderIs(directory, all[i], profile);
    MarkedIs(markers, directory, name);
    assert all[i] in seen;
    var m :| 0 <= m < |seen| && seen[m] == all[i];
  }

  // ---- The process state -----------------------------------------------------------------

  datatype Notice = Notice(reasons: seq<(string, string)>)

  // printed and answered record what the process has said and which solvers have answered.
  datatype State = State(choice: Option<string>, probes: map<Key, Probe>, noticeShown: bool,
    printed: seq<Notice>, answered: seq<Key>)

  const START := State(None, map[], false, [], [])

  // Asking the solver in one directory (frontend/__init__.py:300-343).
  function ProbeDirectory(s: State, disk: Disk, directory: string): (State, Result<Probe, Error>) {
    if directory !in disk.solvers then (s, Err(NoSolver(directory))) else
    var key := disk.solvers[directory];
    if key in s.probes then (s, Ok(s.probes[key])) else
    match disk.launch(key)
    case TimedOut => (s, Err(NotAnswered(directory)))
    case NotStarted => (s, Err(NotAnswered(directory)))
    case Ran(lines, code) =>
      var answer := ReadAnswer(Fields(lines), code, ReadMarker(disk.markers, directory));
      if answer.None? then (s, Err(NotAnswered(directory)))
      else (s.(probes := s.probes[key := answer.value], answered := s.answered + [key]), Ok(answer.value))
  }

  // Asking each in turn, stopping at the first that raises.
  function ProbeAll(s: State, disk: Disk, built: map<string, string>, names: seq<string>)
    : (State, Result<seq<Probe>, Error>)
    requires forall i :: 0 <= i < |names| ==> names[i] in built
    decreases |names|
  {
    if names == [] then (s, Ok([])) else
    var (s1, first) := ProbeDirectory(s, disk, built[names[0]]);
    if first.Err? then (s1, Err(first.error)) else
    var (s2, rest) := ProbeAll(s1, disk, built, names[1..]);
    if rest.Err? then (s2, Err(rest.error)) else (s2, Ok([first.value] + rest.value))
  }

  // [name for name in order if name in built]
  function Select(order: seq<string>, built: map<string, string>): (names: seq<string>)
    ensures forall i :: 0 <= i < |names| ==> names[i] in built && names[i] in order
    ensures forall name :: name in order && name in built ==> name in names
  {
    if order == [] then [] else
    (if order[0] in built then [order[0]] else []) + Select(order[1..], built)
  }

  function Gpus(built: map<string, string>): seq<string> {
    Select(GPU_BACKENDS, built)
  }

  // The first usable one, or the number of them.
  function FirstUsable(answers: seq<Probe>): (k: nat)
    ensures k <= |answers| && (k < |answers| ==> answers[k].usable)
    ensures forall i :: 0 <= i < k ==> !answers[i].usable
  {
    if answers == [] || answers[0].usable then 0 else 1 + FirstUsable(answers[1..])
  }

  datatype Resolution = Resolution(backend: string, notice: Option<Notice>)

  function Reasons(gpus: seq<string>, answers: seq<Probe>): seq<(string, string)>
    requires |gpus| == |answers|
  {
    seq(|gpus|, i requires 0 <= i < |gpus| => (gpus[i], answers[i].detail))
  }

  function Pick(built: map<string, string>, gpus: seq<string>, answers: seq<Probe>): Result<Resolution, Error>
    requires |gpus| == |answers|
  {
    var k := FirstUsable(answers);
    if k < |gpus| then Ok(Resolution(gpus[k], None))
    else if "cpu" in built then Ok(Resolution("cpu", Some(Notice(Reasons(gpus, answers)))))
    else Err(NoUsableGpu)
  }

  // The rule itself (frontend/_backends_.py:169-230).
  function Rule(s: State, disk: Disk, built: map<string, string>, choice: Option<string>)
    : (State, Result<Resolution, Error>)
  {
    if choice.Some? then
      if choice.value !in BACKENDS then (s, Err(UnknownBackend(choice.value)))
      else if choice.value !in built then (s, Err(NotBuilt(choice.value)))
      else (s, Ok(Resolution(choice.value, None)))
    else
      var gpus := Gpus(built);
      if gpus == [] then (s, if "cpu" in built then Ok(Resolution("cpu", None)) else Err(NothingBuilt))
      else if |gpus| == 1 && "cpu" !in built then (s, Ok(Resolution(gpus[0], None)))
      else
        var (s', answers) := ProbeAll(s, disk, built, gpus);
        ProbeAllLength(s, disk, built, gpus);
        (s', if answers.Err? then Err(answers.error) else Pick(built, gpus, answers.value))
  }

  lemma {:induction false} ProbeAllLength(s: State, disk: Disk, built: map<string, string>, names: seq<string>)
    requires forall i :: 0 <= i < |names| ==> names[i] in built
    ensures var r := ProbeAll(s, disk, built, names).1; r.Ok? ==> |r.value| == |names|
    decreases |names|
  {
    hide ProbeDirectory;
    if names != [] {
      ProbeAllLength(ProbeDirectory(s, disk, built[names[0]]).0, disk, built, names[1..]);
    }
  }

  // What the process was told (frontend/__init__.py:346-360).
  function ExplicitChoice(cfg: Config, s: State, disk: Disk): Result<Option<string>, Error> {
    if s.choice.Some? then Ok(s.choice)
    else if disk.override != "" then
      var found := ReadMarker(disk.markers, Join(TargetDir(cfg, disk), cfg.profile));
      if found.None? then Err(NamedEmpty(TargetDir(cfg, disk))) else Ok(found)
    else Ok(None)
  }

  datatype Chosen = Chosen(backend: string, directory: string)

  function Announce(s: State, notice: Option<Notice>): State {
    if notice.Some? && !s.noticeShown
    then s.(noticeShown := true, printed := s.printed + [notice.value]) else s
  }

  // (frontend/__init__.py:370-388)
  function Resolve(cfg: Config, s: State, disk: Disk): (State, Result<Chosen, Error>) {
    var built := Built(cfg, disk);
    var choice := ExplicitChoice(cfg, s, disk);
    if choice.Err? then (s, Err(choice.error)) else
    var (s', r) := Rule(s, disk, built, choice.value);
    RuleBuilt(s, disk, built, choice.value);
    if r.Err? then (s', Err(r.error))
    else (Announce(s', r.value.notice), Ok(Chosen(r.value.backend, built[r.value.backend])))
  }

  lemma RuleBuilt(s: State, disk: Disk, built: map<string, string>, choice: Option<string>)
    ensures var r := Rule(s, disk, built, choice).1; r.Ok? ==> r.value.backend in built
  {
    hide ProbeAll;
    var gpus := Gpus(built);
    ProbeAllLength(s, disk, built, gpus);
  }

  // (frontend/__init__.py:433-458)
  function SetBackend(cfg: Config, s: State, disk: Disk, name: Option<string>): (State, Result<(), Error>) {
    var r := if name.Some? then Rule(s, disk, Built(cfg, disk), name).1 else Ok(Resolution("", None));
    if r.Err? then (s, Err(r.error)) else (s.(choice := name), Ok(()))
  }

  // (frontend/__init__.py:483-503)
  function RunDirectory(cfg: Config, s: State, disk: Disk): (State, Result<Chosen, Error>) {
    var (s1, r) := Resolve(cfg, s, disk);
    if r.Err? then (s1, r) else
    var (s2, answer) := ProbeDirectory(s1, disk, r.value.directory);
    if answer.Err? then (s2, Err(answer.error))
    else if answer.value.stamp != cfg.stamp then (s2, Err(StampMismatch(r.value.backend, r.value.directory)))
    else (s2, r)
  }

  // (frontend/__init__.py:506-564)
  function RequireUsable(cfg: Config, s: State, disk: Disk): (State, Result<Chosen, Error>) {
    var (s1, r) := Resolve(cfg, s, disk);
    if r.Err? then (s1, r) else
    var (s2, answer) := ProbeDirectory(s1, disk, r.value.directory);
    if answer.Err? then (s2, Err(answer.error))
    else if answer.value.usable then (s2, r)
    else (s2, Err(CannotRun(r.value.backend)))
  }

  // (frontend/__init__.py:409-430)
  function ProbeBackend(cfg: Config, s: State, disk: Disk, name: string): (State, Result<Probe, Error>) {
    var built := Built(cfg, disk);
    if name !in built then (s, Err(NotBuilt(name))) else ProbeDirectory(s, disk, built[name])
  }
}
