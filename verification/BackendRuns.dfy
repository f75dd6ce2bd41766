// What holds over every run of backend calls in one process
// (frontend/__init__.py:278-564).
module BackendRuns {
  import opened Wrappers
  import opened Strings
  import opened Backends

  // ---- What the process remembers -----------------------------------------------------

  ghost predicate Inv(s: State) {
    && |s.printed| == (if s.noticeShown then 1 else 0)
    && (forall i, j :: 0 <= i < j < |s.answered| ==> s.answered[i] != s.answered[j])
    && forall key :: key in s.probes <==> key in s.answered
  }

  predicate Remembers(s: State, disk: Disk, directory: string, answer: Probe) {
    directory in disk.solvers && disk.solvers[directory] in s.probes && s.probes[disk.solvers[directory]] == answer
  }

  // Probing only ever adds an answer.
  ghost predicate Extends(s: State, s': State) {
    && s'.choice == s.choice && s'.noticeShown == s.noticeShown && s'.printed == s.printed
    && forall key :: key in s.probes ==> key in s'.probes && s'.probes[key] == s.probes[key]
  }

  lemma ProbeKeeps(s: State, disk: Disk, directory: string)
    requires Inv(s)
    ensures var (s', r) := ProbeDirectory(s, disk, directory);
      && Inv(s') && Extends(s, s') && (r.Err? ==> s' == s) && (r.Ok? ==> Remembers(s', disk, directory, r.value))
  {
    hide Fields, ReadAnswer, ReadMarker;
  }

  lemma RememberedAnswer(s: State, disk: Disk, directory: string, answer: Probe)
    requires Remembers(s, disk, directory, answer)
    ensures ProbeDirectory(s, disk, directory) == (s, Ok(answer))
  {
  }

  ghost predicate AllRemembered(s: State, disk: Disk, built: map<string, string>, names: seq<string>,
                                answers: seq<Probe>)
    requires forall i :: 0 <= i < |names| ==> names[i] in built
  {
    && |answers| == |names|
    && forall i :: 0 <= i < |names| ==> Remembers(s, disk, built[names[i]], answers[i])
  }

  lemma {:induction false} ProbeAllKeeps(s: State, disk: Disk, built: map<string, string>, names: seq<string>)
    requires Inv(s) && forall i :: 0 <= i < |names| ==> names[i] in built
    ensures var (s', r) := ProbeAll(s, disk, built, names);
      && Inv(s') && Extends(s, s') && (r.Ok? ==> AllRemembered(s', disk, built, names, r.value))
    decreases |names|
  {
    hide ProbeDirectory, Inv;
    if names != [] {
      var (s1, first) := ProbeDirectory(s, disk, built[names[0]]);
      ProbeKeeps(s, disk, built[names[0]]);
      if first.Ok? {
        ProbeAllKeeps(s1, disk, built, names[1..]);
        var (s', r) := ProbeAll(s, disk, built, names);
        if r.Ok? {
          forall i | 0 <= i < |names| ensures Remembers(s', disk, built[names[i]], r.value[i]) {
            if i > 0 {
              assert names[i] == names[1..][i - 1];
            }
          }
        }
      }
    }
  }

  // ---- One resolution tells the truth ------------------------------------------------

  predicate GpuBuilt(built: map<string, string>, name: string) {
    name in GPU_BACKENDS && name in built
  }

  ghost predicate Unusable(s: State, disk: Disk, built: map<string, string>, name: string)
    requires name in built
  {
    exists answer :: Remembers(s, disk, built[name], answer) && !answer.usable
  }

  ghost predicate AllUnusable(s: State, disk: Disk, built: map<string, string>) {
    forall name :: GpuBuilt(built, name) ==> Unusable(s, disk, built, name)
  }

  // An explicit choice is answered as named or refused.
  ghost predicate ChoiceKept(cfg: Config, s: State, disk: Disk, r: Result<Chosen, Error>) {
    r.Ok? ==>
      && (s.choice.Some? ==> r.value.backend == s.choice.value)
      && (s.choice.None? && disk.override != "" ==> InNamed(cfg, disk, r.value))
  }

  // The directory the variable names, and the backend its marker names.
  ghost predicate InNamed(cfg: Config, disk: Disk, chosen: Chosen) {
    exists named :: BuildTarget(named, disk.override, cfg.root) && Under(chosen.directory, named, cfg.profile)
      && Marked(disk.markers, chosen.directory, chosen.backend)
  }

  // Unasked, the CPU backend is answered beside GPU builds only where each of them has
  // reported that it cannot run here, and by then the notice has been printed.
  ghost predicate FallbackSaid(cfg: Config, s: State, disk: Disk, s': State, r: Result<Chosen, Error>) {
    var built := Built(cfg, disk);
    s.choice.None? && disk.override == "" && r.Ok? && r.value.backend == "cpu" ==>
      && AllUnusable(s', disk, built)
      && ((exists name :: GpuBuilt(built, name)) ==> |s'.printed| == 1)
  }

  // Unasked, a GPU backend is answered only where its solver reported a usable device and
  // those preferred to it reported none, or where it is the only build there is.
  ghost predicate GpuEarned(cfg: Config, s: State, disk: Disk, s': State, r: Result<Chosen, Error>) {
    var built := Built(cfg, disk);
    s.choice.None? && disk.override == "" && r.Ok? && r.value.backend != "cpu" ==>
      OnlyBuild(built, r.value.backend) || exists k :: FirstAble(s', disk, built, r.value.backend, k)
  }

  ghost predicate OnlyBuild(built: map<string, string>, name: string) {
    "cpu" !in built && forall other :: GpuBuilt(built, other) ==> other == name
  }

  ghost predicate FirstAble(s: State, disk: Disk, built: map<string, string>, name: string, k: int) {
    && 0 <= k < |GPU_BACKENDS| && GPU_BACKENDS[k] == name && name in built
    && (exists answer :: Remembers(s, disk, built[name], answer) && answer.usable)
    && forall j :: 0 <= j < k && GPU_BACKENDS[j] in built ==> Unusable(s, disk, built, GPU_BACKENDS[j])
  }

  ghost predicate Honest(cfg: Config, s: State, disk: Disk, s': State, r: Result<Chosen, Error>) {
    && ChoiceKept(cfg, s, disk, r) && FallbackSaid(cfg, s, disk, s', r) && GpuEarned(cfg, s, disk, s', r)
    && (r.Ok? ==> r.value.backend in Built(cfg, disk) && r.value.directory == Built(cfg, disk)[r.value.backend])
  }

  // ---- The order GPU builds are asked in --------------------------------------------------

  lemma SelectHead(order: seq<string>, built: map<string, string>)
    ensures order == [] ==> Select(order, built) == []
    ensures order != [] ==>
      Select(order, built) == (if order[0] in built then [order[0]] else []) + Select(order[1..], built)
  {
  }

  lemma {:induction false} SelectOrdered(order: seq<string>, built: map<string, string>, i: nat) returns (k: nat)
    requires i < |Select(order, built)|
    ensures k < |order| && order[k] == Select(order, built)[i]
    ensures forall j :: 0 <= j < k && order[j] in built ==> order[j] in Select(order, built)[..i]
  {
    SelectHead(order, built);
    hide Select;
    var names, rest := Select(order, built), Select(order[1..], built);
    var head := if order[0] in built then [order[0]] else [];
    if i < |head| {
      k := 0;
    } else {
      var k' := SelectOrdered(order[1..], built, i - |head|);
      k := k' + 1;
      assert names[..i] == head + rest[..i - |head|];
      forall j | 0 <= j < k && order[j] in built ensures order[j] in names[..i] {
        if j > 0 {
          assert order[j] == order[1..][j - 1];
        }
      }
    }
  }

  lemma GpusAre(built: map<string, string>)
    ensures forall name :: name in Gpus(built) <==> GpuBuilt(built, name)
  {
    var gpus := Gpus(built);
    hide Select;
    forall name | name in gpus ensures GpuBuilt(built, name) {
      var i :| 0 <= i < |gpus| && gpus[i] == name;
    }
  }

  lemma PickHonest(s: State, disk: Disk, built: map<string, string>, gpus: seq<string>, answers: seq<Probe>)
    requires gpus == Gpus(built) && AllRemembered(s, disk, built, gpus, answers)
    ensures var r := Pick(built, gpus, answers);
      && (r.Ok? && r.value.backend == "cpu" ==> (r.value.notice.Some? && AllUnusable(s, disk, built)))
      && (r.Ok? && r.value.backend != "cpu" ==> exists k :: FirstAble(s, disk, built, r.value.backend, k))
  {
    hide Remembers, Select;
    GpusAre(built);
    var n := FirstUsable(answers);
    forall i | 0 <= i < n ensures Unusable(s, disk, built, gpus[i]) {
    }
    if n < |gpus| {
      var k := SelectOrdered(GPU_BACKENDS, built, n);
      forall j | 0 <= j < k && GPU_BACKENDS[j] in built ensures Unusable(s, disk, built, GPU_BACKENDS[j]) {
        var i :| 0 <= i < n && gpus[i] == GPU_BACKENDS[j];
      }
      assert FirstAble(s, disk, built, gpus[n], k);
    }
  }

  // The rule's own part of the promise, with no choice made.
  lemma RuleHonest(s: State, disk: Disk, built: map<string, string>)
    requires Inv(s)
    ensures var (s', r) := Rule(s, disk, built, None);
      && Inv(s') && Extends(s, s')
      && (r.Ok? ==> r.value.backend in built)
      && (r.Ok? && r.value.backend == "cpu" ==> AllUnusable(s', disk, built))
      && (r.Ok? && r.value.backend == "cpu" && (exists name :: GpuBuilt(built, name)) ==> r.value.notice.Some?)
      && (r.Ok? && r.value.backend != "cpu" ==>
        OnlyBuild(built, r.value.backend) || exists k :: FirstAble(s', disk, built, r.value.backend, k))
  {
    var gpus := Gpus(built);
    GpusAre(built);
    hide Select, Unusable, FirstAble, Remembers, Inv, ProbeAll, Pick;
    RuleBuilt(s, disk, built, None);
    if gpus != [] && !(|gpus| == 1 && "cpu" !in built) {
      ProbeAllKeeps(s, disk, built, gpus);
      var (s', answers) := ProbeAll(s, disk, built, gpus);
      if answers.Ok? {
        PickHonest(s', disk, built, gpus, answers.value);
      }
    } else if gpus == [] {
      assert forall name :: GpuBuilt(built, name) ==> name in gpus;
    } else {
      assert forall name :: GpuBuilt(built, name) ==> name in gpus;
    }
  }

  lemma RuleChosen(s: State, disk: Disk, built: map<string, string>, name: string)
    ensures var (s', r) := Rule(s, disk, built, Some(name));
      && s' == s
      && (r.Ok? <==> name in BACKENDS && name in built)
      && (r.Ok? ==> r.value == Resolution(name, None))
  {
  }

  // ---- A named target directory is the one used -------------------------------------------

  // With CARGO_TARGET_DIR set and nothing chosen in the process, a resolution is of the
  // directory the variable names and of the backend its marker names, or it is refused.
  lemma NamedDirectoryUsed(cfg: Config, s: State, disk: Disk, named: string, build: string)
    requires s.choice.None? && disk.override != ""
    requires BuildTarget(named, disk.override, cfg.root) && Under(build, named, cfg.profile)
    ensures Resolve(cfg, s, disk).1 ==
      if build !in disk.markers || disk.markers[build] == "" then Err(NamedEmpty(named))
      else if disk.markers[build] !in ["cuda", "rocm", "metal", "cpu"] then Err(UnknownBackend(disk.markers[build]))
      else Ok(Chosen(disk.markers[build], build))
  {
    TargetIs(cfg, disk, named);
    UnderIs(build, named, cfg.profile);
    var dirs := Deduped(Wanted(cfg, disk));
    assert dirs[0] == named;
    var found := ReadMarker(disk.markers, build);
    hide TargetDir, Join, Deduped, Wanted, BuildTarget, Under;
    if found.Some? {
      FirstDirectoryHeld(dirs, cfg.profile, disk.markers);
      RuleChosen(s, disk, Built(cfg, disk), found.value);
      hide Rule;
    }
  }

  lemma TargetIs(cfg: Config, disk: Disk, named: string)
    ensures BuildTarget(named, disk.override, cfg.root) <==> named == TargetDir(cfg, disk)
  {
  }

  lemma FirstDirectoryHeld(dirs: seq<string>, profile: string, markers: Markers)
    requires dirs != [] && ReadMarker(markers, Join(dirs[0], profile)).Some?
    ensures var name := ReadMarker(markers, Join(dirs[0], profile)).value;
      name in Builds(dirs, profile, markers) && Builds(dirs, profile, markers)[name] == Join(dirs[0], profile)
  {
    var name := ReadMarker(markers, Join(dirs[0], profile)).value;
    var found := Builds(dirs, profile, markers);
    hide Builds, ReadMarker, Join;
    var i :| FirstHolding(dirs, profile, markers, name, i) && found[name] == Join(dirs[i], profile);
    assert i == 0;
  }

  lemma ChoiceFollowed(cfg: Config, s: State, disk: Disk)
    requires ExplicitChoice(cfg, s, disk).Ok? && ExplicitChoice(cfg, s, disk).value.Some?
    ensures ChoiceKept(cfg, s, disk, Resolve(cfg, s, disk).1)
  {
    if s.choice.Some? {
      hide Built, TargetDir, Join, ReadMarker, InNamed;
      RuleChosen(s, disk, Built(cfg, disk), s.choice.value);
      hide Rule;
    } else {
      var named := TargetDir(cfg, disk);
      var build := Join(named, cfg.profile);
      TargetIs(cfg, disk, named);
      UnderIs(build, named, cfg.profile);
      hide Resolve, ExplicitChoice, BuildTarget, Under, TargetDir, Join;
      NamedDirectoryUsed(cfg, s, disk, named, build);
    }
  }

  // Whatever the state, an explicit choice is kept and the first build found is used.
  lemma ResolveKept(cfg: Config, s: State, disk: Disk)
    ensures var r := Resolve(cfg, s, disk).1;
      ChoiceKept(cfg, s, disk, r) && (r.Ok? ==> BuildIn(cfg, disk, r.value.backend, r.value.directory))
  {
    hide Built, Rule, InNamed, BuildIn, ReadMarker, TargetDir, Join;
    var r := Resolve(cfg, s, disk).1;
    if ExplicitChoice(cfg, s, disk).Ok? && ExplicitChoice(cfg, s, disk).value.Some? {
      ChoiceFollowed(cfg, s, disk);
    }
    if r.Ok? {
      RuleBuilt(s, disk, Built(cfg, disk), ExplicitChoice(cfg, s, disk).value);
      BuiltInOrder(cfg, disk, r.value.backend, r.value.directory);
    }
  }

  // Every resolution keeps the promise, from any state a run can reach.
  lemma ResolveHonest(cfg: Config, s: State, disk: Disk)
    requires Inv(s)
    ensures var (s', r) := Resolve(cfg, s, disk);
      && Inv(s') && s'.choice == s.choice && Honest(cfg, s, disk, s', r)
      && (forall key :: key in s.probes ==> key in s'.probes && s'.probes[key] == s.probes[key])
  {
    hide Built, Rule, Unusable, FirstAble, OnlyBuild, GpuBuilt;
    var built, choice := Built(cfg, disk), ExplicitChoice(cfg, s, disk);
    if choice.Ok? && choice.value.Some? {
      RuleChosen(s, disk, built, choice.value.value);
      RuleBuilt(s, disk, built, choice.value);
      ChoiceFollowed(cfg, s, disk);
    } else if choice.Ok? {
      RuleHonest(s, disk, built);
      var (s1, r) := Rule(s, disk, built, None);
      if r.Ok? {
        AnnounceKeeps(s1, disk, built, r.value);
        assert Resolve(cfg, s, disk).0 == Announce(s1, r.value.notice);
        if r.value.backend != "cpu" && !OnlyBuild(built, r.value.backend) {
          var k :| FirstAble(s1, disk, built, r.value.backend, k);
          assert FirstAble(Announce(s1, r.value.notice), disk, built, r.value.backend, k);
        }
      }
    }
  }

  lemma AnnounceKeeps(s: State, disk: Disk, built: map<string, string>, r: Resolution)
    requires Inv(s)
    ensures var s' := Announce(s, r.notice);
      && Inv(s') && s'.choice == s.choice && s'.probes == s.probes
      && (r.notice.Some? ==> |s'.printed| == 1)
    ensures AllUnusable(s, disk, built) ==> AllUnusable(Announce(s, r.notice), disk, built)
    ensures forall k :: FirstAble(s, disk, built, r.backend, k) ==>
      FirstAble(Announce(s, r.notice), disk, built, r.backend, k)
  {
    var s' := Announce(s, r.notice);
    assert s'.probes == s.probes;
    forall name | name in built ensures Unusable(s, disk, built, name) ==> Unusable(s', disk, built, name) {
      if Unusable(s, disk, built, name) {
        var answer :| Remembers(s, disk, built[name], answer) && !answer.usable;
        assert Remembers(s', disk, built[name], answer);
      }
    }
    forall k | FirstAble(s, disk, built, r.backend, k) ensures FirstAble(s', disk, built, r.backend, k) {
      var name := r.backend;
      var answer :| Remembers(s, disk, built[name], answer) && answer.usable;
      assert Remembers(s', disk, built[name], answer);
    }
  }

  // ---- Every probe is read: where the code and its description part ---------------------

  // Asking this solver now gives no answer.
  predicate Raises(s: State, disk: Disk, directory: string) {
    ProbeDirectory(s, disk, directory).1.Err?
  }

  // The rule as described at frontend/__init__.py:418-420: ask each GPU build in turn, until
  // one reports a usable device.
  function AskUntil(s: State, disk: Disk, built: map<string, string>, names: seq<string>): (State, Result<nat, Error>)
    requires forall i :: 0 <= i < |names| ==> names[i] in built
    decreases |names|
  {
    if names == [] then (s, Ok(0)) else
    var (s1, first) := ProbeDirectory(s, disk, built[names[0]]);
    if first.Err? then (s1, Err(first.error))
    else if first.value.usable then (s1, Ok(0))
    else
      var (s2, rest) := AskUntil(s1, disk, built, names[1..]);
      (s2, if rest.Err? then rest else Ok(rest.value + 1))
  }

  // Directories that hold a build.
  ghost predicate AllBuilt(disk: Disk, built: map<string, string>, names: seq<string>) {
    && (forall i :: 0 <= i < |names| ==> names[i] in built)
    && forall i :: 0 <= i < |names| ==> ReadMarker(disk.markers, built[names[i]]).Some?
  }

  // Whether a build answers does not depend on which others were asked before it.
  lemma RaisesStable(s: State, disk: Disk, d1: string, d: string)
    requires ReadMarker(disk.markers, d1).Some? && ReadMarker(disk.markers, d).Some?
    ensures Raises(ProbeDirectory(s, disk, d1).0, disk, d) <==> Raises(s, disk, d)
  {
    hide Fields, ReadMarker;
    var s1 := ProbeDirectory(s, disk, d1).0;
    if d in disk.solvers && d1 in disk.solvers && disk.solvers[d] == disk.solvers[d1] {
      SameAnswers(disk, d1, d);
    }
  }

  lemma SameAnswers(disk: Disk, d1: string, d: string)
    requires ReadMarker(disk.markers, d1).Some? && ReadMarker(disk.markers, d).Some?
    ensures forall fields, code :: ReadAnswer(fields, code, ReadMarker(disk.markers, d1)).None? <==>
      ReadAnswer(fields, code, ReadMarker(disk.markers, d)).None?
  {
    hide ReadMarker;
  }

  // The code's eager reading refuses exactly where some build does not answer.
  lemma {:induction false} EagerRefuses(s: State, disk: Disk, built: map<string, string>, names: seq<string>)
    requires AllBuilt(disk, built, names)
    ensures ProbeAll(s, disk, built, names).1.Err? <==>
      exists i :: 0 <= i < |names| && Raises(s, disk, built[names[i]])
    decreases |names|
  {
    hide ReadMarker;
    if names != [] {
      var s1 := ProbeDirectory(s, disk, built[names[0]]).0;
      var rest := names[1..];
      forall i | 0 <= i < |rest| ensures Raises(s1, disk, built[rest[i]]) <==> Raises(s, disk, built[names[i + 1]]) {
        assert rest[i] == names[i + 1];
        RaisesStable(s, disk, built[names[0]], built[names[i + 1]]);
      }
      assert AllBuilt(disk, built, rest);
      EagerRefuses(s1, disk, built, rest);
      if i :| 0 <= i < |names| && Raises(s, disk, built[names[i]]) {
        if i > 0 {
          assert Raises(s1, disk, built[rest[i - 1]]);
        }
      }
    }
  }

  // Both readings, against each other: they agree unless some build after the first usable
  // one does not answer, and there the code refuses what the description would accept.
  lemma {:induction false} EagerAgainstDescribed(s: State, disk: Disk, built: map<string, string>, names: seq<string>)
    requires AllBuilt(disk, built, names)
    ensures var eager, described := ProbeAll(s, disk, built, names).1, AskUntil(s, disk, built, names).1;
      && (described.Err? ==> eager.Err? && eager.error == described.error)
      && (described.Ok? ==> described.value <= |names|)
      && (described.Ok? && eager.Ok? ==> FirstUsable(eager.value) == described.value)
      && (described.Ok? ==> (eager.Ok? <==> NoneRaiseAfter(s, disk, built, names, described.value)))
    decreases |names|
  {
    hide ReadMarker;
    if names != [] {
      var (s1, first) := ProbeDirectory(s, disk, built[names[0]]);
      var rest := names[1..];
      assert AllBuilt(disk, built, rest);
      if first.Ok? && first.value.usable {
        EagerRefuses(s, disk, built, names);
      } else if first.Ok? {
        EagerAgainstDescribed(s1, disk, built, rest);
        var described := AskUntil(s1, disk, built, rest).1;
        if described.Ok? {
          NoneRaiseShift(s, disk, built, names, described.value);
        }
      }
    }
  }

  ghost predicate NoneRaiseAfter(s: State, disk: Disk, built: map<string, string>, names: seq<string>, k: nat)
    requires AllBuilt(disk, built, names)
  {
    forall i :: k < i < |names| ==> !Raises(s, disk, built[names[i]])
  }

  lemma NoneRaiseShift(s: State, disk: Disk, built: map<string, string>, names: seq<string>, k: nat)
    requires names != [] && AllBuilt(disk, built, names) && AllBuilt(disk, built, names[1..])
    ensures NoneRaiseAfter(ProbeDirectory(s, disk, built[names[0]]).0, disk, built, names[1..], k) <==>
      NoneRaiseAfter(s, disk, built, names, k + 1)
  {
    var s1, rest := ProbeDirectory(s, disk, built[names[0]]).0, names[1..];
    forall i | 0 <= i < |rest| ensures Raises(s1, disk, built[rest[i]]) <==> Raises(s, disk, built[names[i + 1]]) {
      assert rest[i] == names[i + 1];
      RaisesStable(s, disk, built[names[0]], built[names[i + 1]]);
    }
    hide Raises;
    if NoneRaiseAfter(s1, disk, built, rest, k) {
      forall i | k + 1 < i < |names| ensures !Raises(s, disk, built[names[i]]) {
        assert names[i] == rest[i - 1];
      }
    }
    if NoneRaiseAfter(s, disk, built, names, k + 1) {
      forall i | k < i < |rest| ensures !Raises(s1, disk, built[rest[i]]) {
      }
    }
  }

  lemma CudaAndRocm(built: map<string, string>, d0: string, d1: string)
    requires built == map["cuda" := d0, "rocm" := d1]
    ensures Gpus(built) == ["cuda", "rocm"]
  {
    assert GPU_BACKENDS == ["cuda"] + (["rocm"] + (["metal"] + []));
    SelectStep("metal", [], built);
    SelectStep("rocm", ["metal"] + [], built);
    SelectStep("cuda", ["rocm"] + (["metal"] + []), built);
  }

  lemma SelectStep(name: string, rest: seq<string>, built: map<string, string>)
    ensures Select([name] + rest, built) == (if name in built then [name] else []) + Select(rest, built)
  {
    assert ([name] + rest)[1..] == rest;
  }

  lemma MissingRocm(disk: Disk, built: map<string, string>, d0: string, d1: string)
    requires built == map["cuda" := d0, "rocm" := d1] && AllBuilt(disk, built, ["cuda", "rocm"])
    requires ProbeDirectory(START, disk, d0).1.Ok? && ProbeDirectory(START, disk, d0).1.value.usable
      && d1 !in disk.solvers
    ensures Rule(START, disk, built, None).1.Err? && AskUntil(START, disk, built, ["cuda", "rocm"]).1 == Ok(0)
  {
    CudaAndRocm(built, d0, d1);
    var names := ["cuda", "rocm"];
    assert Raises(START, disk, built[names[1]]);
    hide ProbeDirectory, Raises, AllBuilt, Gpus;
    EagerRefuses(START, disk, built, names);
    hide ProbeAll;
    RuleBuilt(START, disk, built, None);
  }

  // The directory of a named build under the root.
  function BuildAt(cfg: Config, name: string): string {
    Join(Join(Join(cfg.root, "target"), name), cfg.profile)
  }

  lemma BuildsApart(cfg: Config)
    ensures BuildAt(cfg, "cuda") != BuildAt(cfg, "rocm")
  {
    var x := Join(cfg.root, "target") + "/";
    assert BuildAt(cfg, "cuda")[|x|] == 'c' && BuildAt(cfg, "rocm")[|x|] == 'r';
  }

  // A usable CUDA build, and a ROCm build whose solver is gone.
  function MissingSolverDisk(cfg: Config): Disk {
    Disk("", map[BuildAt(cfg, "cuda") := "cuda", BuildAt(cfg, "rocm") := "rocm"],
      map[BuildAt(cfg, "cuda") := Key("k", 1, 1)],
      (key: Key) => Ran(["backend: cuda", "stamp: s", "device: d"], 0))
  }

  lemma BuildWanted(cfg: Config, disk: Disk, i: nat)
    requires i < |NAMED|
    ensures Join(Join(cfg.root, "target"), NAMED[i]) in Deduped(Wanted(cfg, disk))
  {
    hide Join, TargetDir;
    assert Wanted(cfg, disk)[i + 2] == Join(Join(cfg.root, "target"), NAMED[i]);
  }

  // Where the two markers are all there is, the builds found are those two.
  lemma BuiltIs(cfg: Config, disk: Disk)
    requires disk.markers == map[BuildAt(cfg, "cuda") := "cuda", BuildAt(cfg, "rocm") := "rocm"]
    ensures Built(cfg, disk) == map["cuda" := BuildAt(cfg, "cuda"), "rocm" := BuildAt(cfg, "rocm")]
  {
    hide Deduped, Wanted, Builds, FirstWins, Join;
    BuildsApart(cfg);
    BuildWanted(cfg, disk, 1);
    BuildWanted(cfg, disk, 3);
    var dirs, found := Deduped(Wanted(cfg, disk)), Built(cfg, disk);
    MarkedFound(dirs, cfg.profile, disk.markers, found, Join(Join(cfg.root, "target"), "cuda"));
    MarkedFound(dirs, cfg.profile, disk.markers, found, Join(Join(cfg.root, "target"), "rocm"));
    forall name | name in found ensures found[name] in disk.markers && disk.markers[found[name]] == name {
      FoundMarked(dirs, cfg.profile, disk.markers, found, name);
    }
  }

  lemma MarkedFound(dirs: seq<string>, profile: string, markers: Markers, found: map<string, string>, dir: string)
    requires FirstWins(dirs, profile, markers, found) && dir in dirs
    ensures ReadMarker(markers, Join(dir, profile)).Some? ==> ReadMarker(markers, Join(dir, profile)).value in found
  {
    hide ReadMarker, Join;
    var i :| 0 <= i < |dirs| && dirs[i] == dir;
  }

  lemma FoundMarked(dirs: seq<string>, profile: string, markers: Markers, found: map<string, string>, name: string)
    requires FirstWins(dirs, profile, markers, found) && name in found
    ensures found[name] in markers && markers[found[name]] == name
  {
    hide Join;
    var i :| FirstHolding(dirs, profile, markers, name, i) && found[name] == Join(dirs[i], profile);
  }

  lemma CudaProbed(cfg: Config)
    ensures var r := ProbeDirectory(START, MissingSolverDisk(cfg), BuildAt(cfg, "cuda")).1; r.Ok? && r.value.usable
  {
    CudaAnswer();
    BuildsApart(cfg);
    hide Fields, BuildAt;
  }

  // Whatever the root and profile, resolving such a disk is refused, and the description
  // would answer CUDA there.
  lemma UsableYetRefused(cfg: Config)
    ensures var disk := MissingSolverDisk(cfg);
      && Resolve(cfg, START, disk).1.Err? && Gpus(Built(cfg, disk)) == ["cuda", "rocm"]
      && AskUntil(START, disk, Built(cfg, disk), ["cuda", "rocm"]).1 == Ok(0)
  {
    hide Rule, AskUntil, ProbeDirectory, BuildAt, Built, MissingSolverDisk, Gpus, AllBuilt, ExplicitChoice;
    var disk := MissingSolverDisk(cfg);
    var d0, d1 := BuildAt(cfg, "cuda"), BuildAt(cfg, "rocm");
    DiskIs(cfg, disk, d0, d1);
    CudaProbed(cfg);
    CudaAndRocm(Built(cfg, disk), d0, d1);
    MissingRocm(disk, Built(cfg, disk), d0, d1);
  }

  lemma DiskIs(cfg: Config, disk: Disk, d0: string, d1: string)
    requires disk == MissingSolverDisk(cfg) && d0 == BuildAt(cfg, "cuda") && d1 == BuildAt(cfg, "rocm")
    ensures Built(cfg, disk) == map["cuda" := d0, "rocm" := d1] && AllBuilt(disk, Built(cfg, disk), ["cuda", "rocm"])
    ensures ExplicitChoice(cfg, START, disk) == Ok(None) && d1 !in disk.solvers
  {
    hide Built, BuildAt;
    BuiltIs(cfg, disk);
    BuildsApart(cfg);
  }

  lemma Separated(key: string, value: string)
    requires ':' !in key
    ensures KeyOf(key + ": " + value) == Some(key) && ValueOf(key + ": " + value) == Strip(value)
  {
    hide Strip;
    var line := key + ": " + value;
    var r := Find(line, ": ", 0);
    assert At(line, ": ", |key|);
    forall k | 0 <= k < |key| ensures !At(line, ": ", k) {
      assert line[k] == key[k];
      assert line[k..k + 2][0] == line[k];
    }
    assert r == |key|;
    assert line[..|key|] == key && line[|key| + 2..] == value;
  }

  lemma CudaAnswer()
    ensures var fields := Fields(["backend: cuda", "stamp: s", "device: d"]);
      ReadAnswer(fields, 0, Some("cuda")).Some? && ReadAnswer(fields, 0, Some("cuda")).value.usable
  {
    var lines := ["backend: cuda", "stamp: s", "device: d"];
    hide Fields, KeyOf, ValueOf, Strip;
    Separated("backend", "cuda");
    Separated("stamp", "s");
    Separated("device", "d");
    assert lines[0] == "backend" + ": " + "cuda";
    assert lines[1] == "stamp" + ": " + "s";
    assert lines[2] == "device" + ": " + "d";
    var fields := Fields(lines);
    assert FieldsOf(lines, fields);
    assert KeyOf(lines[0]).value in fields && KeyOf(lines[1]).value in fields && KeyOf(lines[2]).value in fields;
  }

  // ---- Only an unprobed resolution is refused for its device -------------------------------

  lemma ProbedAnswersUsable(cfg: Config, s: State, disk: Disk)
    requires Inv(s) && s.choice.None? && disk.override == ""
    requires var r := Resolve(cfg, s, disk).1;
      r.Ok? && r.value.backend != "cpu" && !OnlyBuild(Built(cfg, disk), r.value.backend)
    ensures var (s1, r) := Resolve(cfg, s, disk);
      var answer := ProbeDirectory(s1, disk, r.value.directory).1; answer.Ok? && answer.value.usable
  {
    ResolveHonest(cfg, s, disk);
    hide Resolve, ProbeDirectory, Built, OnlyBuild, Inv;
    var (s1, r) := Resolve(cfg, s, disk);
    var k :| FirstAble(s1, disk, Built(cfg, disk), r.value.backend, k);
    var known :| Remembers(s1, disk, Built(cfg, disk)[r.value.backend], known) && known.usable;
    RememberedAnswer(s1, disk, r.value.directory, known);
  }

  lemma RefusedOnlyUnprobed(cfg: Config, s: State, disk: Disk, name: string)
    requires Inv(s) && RequireUsable(cfg, s, disk).1 == Err(CannotRun(name))
    ensures s.choice.Some? || disk.override != "" || name == "cpu" || OnlyBuild(Built(cfg, disk), name)
  {
    hide Resolve, ProbeDirectory, Built, OnlyBuild, Inv;
    RefusedIs(cfg, s, disk, name);
    hide RequireUsable;
    if s.choice.None? && disk.override == "" && name != "cpu" && !OnlyBuild(Built(cfg, disk), name) {
      ProbedAnswersUsable(cfg, s, disk);
    }
  }

  lemma RefusedIs(cfg: Config, s: State, disk: Disk, name: string)
    requires RequireUsable(cfg, s, disk).1 == Err(CannotRun(name))
    ensures var (s1, r) := Resolve(cfg, s, disk);
      && r.Ok? && r.value.backend == name
      && var answer := ProbeDirectory(s1, disk, r.value.directory).1; answer.Ok? && !answer.value.usable
  {
    ResolveErrors(cfg, s, disk, name);
    hide Resolve;
    var (s1, r) := Resolve(cfg, s, disk);
    if r.Ok? {
      ProbeErrors(s1, disk, r.value.directory, name);
    }
  }

  lemma ProbeErrors(s: State, disk: Disk, directory: string, name: string)
    ensures ProbeDirectory(s, disk, directory).1 != Err(CannotRun(name))
  {
  }

  lemma {:induction false} ProbeAllErrors(s: State, disk: Disk, built: map<string, string>, names: seq<string>,
                                          name: string)
    requires forall i :: 0 <= i < |names| ==> names[i] in built
    ensures ProbeAll(s, disk, built, names).1 != Err(CannotRun(name))
    decreases |names|
  {
    hide ProbeDirectory;
    if names != [] {
      ProbeErrors(s, disk, built[names[0]], name);
      ProbeAllErrors(ProbeDirectory(s, disk, built[names[0]]).0, disk, built, names[1..], name);
    }
  }

  lemma RuleErrors(s: State, disk: Disk, built: map<string, string>, choice: Option<string>, name: string)
    ensures Rule(s, disk, built, choice).1 != Err(CannotRun(name))
  {
    ProbeAllErrors(s, disk, built, Gpus(built), name);
    ProbeAllLength(s, disk, built, Gpus(built));
    hide ProbeAll, Gpus;
  }

  lemma ResolveErrors(cfg: Config, s: State, disk: Disk, name: string)
    ensures Resolve(cfg, s, disk).1 != Err(CannotRun(name))
  {
    var choice := ExplicitChoice(cfg, s, disk);
    if choice.Ok? {
      RuleErrors(s, disk, Built(cfg, disk), choice.value, name);
    }
    hide Rule, Built;
  }

  // ---- Every run ----------------------------------------------------------------------------

  datatype Call = Choose(choice: Option<string>) | Get | Launch | Require | Ask(name: string)

  // A call, and the environment it finds.
  datatype Step = Step(call: Call, disk: Disk)

  datatype Outcome =
    | Resolved(chosen: Result<Chosen, Error>)
    | Set(done: Result<(), Error>)
    | Told(probe: Result<Probe, Error>)

  function Do(cfg: Config, s: State, step: Step): (State, Outcome) {
    match step.call
    case Choose(name) => var (s', r) := SetBackend(cfg, s, step.disk, name); (s', Set(r))
    case Get => var (s', r) := Resolve(cfg, s, step.disk); (s', Resolved(r))
    case Launch => var (s', r) := RunDirectory(cfg, s, step.disk); (s', Resolved(r))
    case Require => var (s', r) := RequireUsable(cfg, s, step.disk); (s', Resolved(r))
    case Ask(name) => var (s', r) := ProbeBackend(cfg, s, step.disk, name); (s', Told(r))
  }

  ghost predicate Trace(cfg: Config, states: seq<State>, steps: seq<Step>) {
    && |states| == |steps| + 1 && states[0] == START
    && forall i :: 0 <= i < |steps| ==> states[i + 1] == Do(cfg, states[i], steps[i]).0
  }

  // What one call may do to the choice, and what its answer may be.
  ghost predicate Kept(cfg: Config, s: State, step: Step, s': State, outcome: Outcome) {
    && (s'.choice == if step.call.Choose? && outcome == Set(Ok(())) then step.call.choice else s.choice)
    && (outcome.Set? && outcome.done.Err? ==> s' == s)
    && (outcome.Resolved? ==> Honest(cfg, s, step.disk, s', outcome.chosen))
    && (outcome.Resolved? && outcome.chosen.Ok? && !step.call.Get? ==>
      exists answer :: Remembers(s', step.disk, outcome.chosen.value.directory, answer) && Fits(cfg, step.call, answer))
  }

  // A run starts on a solver of this process's sources, or on one that reports a usable device.
  predicate Fits(cfg: Config, call: Call, answer: Probe) {
    (call.Launch? ==> answer.stamp == cfg.stamp) && (call.Require? ==> answer.usable)
  }

  lemma ExtendsUnusable(s: State, s': State, disk: Disk, built: map<string, string>, name: string)
    requires Extends(s, s') && name in built && Unusable(s, disk, built, name)
    ensures Unusable(s', disk, built, name)
  {
    var answer :| Remembers(s, disk, built[name], answer) && !answer.usable;
    assert Remembers(s', disk, built[name], answer);
  }

  lemma ExtendsFirstAble(s: State, s': State, disk: Disk, built: map<string, string>, name: string, k: int)
    requires Extends(s, s') && FirstAble(s, disk, built, name, k)
    ensures FirstAble(s', disk, built, name, k)
  {
    var answer :| Remembers(s, disk, built[name], answer) && answer.usable;
    assert Remembers(s', disk, built[name], answer);
    forall j | 0 <= j < k && GPU_BACKENDS[j] in built ensures Unusable(s', disk, built, GPU_BACKENDS[j]) {
      ExtendsUnusable(s, s', disk, built, GPU_BACKENDS[j]);
    }
  }

  lemma ExtendsHonest(cfg: Config, s: State, disk: Disk, s1: State, s': State, r: Result<Chosen, Error>)
    requires Honest(cfg, s, disk, s1, r) && Extends(s1, s')
    ensures Honest(cfg, s, disk, s', r)
  {
    hide Unusable, FirstAble, OnlyBuild, Built, ChoiceKept;
    var built := Built(cfg, disk);
    forall name | GpuBuilt(built, name) && Unusable(s1, disk, built, name) ensures Unusable(s', disk, built, name) {
      ExtendsUnusable(s1, s', disk, built, name);
    }
    if r.Ok? {
      forall k | FirstAble(s1, disk, built, r.value.backend, k) ensures FirstAble(s', disk, built, r.value.backend, k) {
        ExtendsFirstAble(s1, s', disk, built, r.value.backend, k);
      }
    }
  }

  // The probe a launch or a device check adds to its resolution.
  lemma ThenProbed(cfg: Config, s: State, disk: Disk)
    requires Inv(s) && Resolve(cfg, s, disk).1.Ok?
    ensures var (s1, r) := Resolve(cfg, s, disk);
      var (s2, answer) := ProbeDirectory(s1, disk, r.value.directory);
      && Inv(s2) && s2.choice == s.choice && Honest(cfg, s, disk, s2, r)
      && (answer.Ok? ==> Remembers(s2, disk, r.value.directory, answer.value))
  {
    ResolveHonest(cfg, s, disk);
    hide Resolve, Honest, ProbeDirectory, Inv;
    var (s1, r) := Resolve(cfg, s, disk);
    ProbeKeeps(s1, disk, r.value.directory);
    ExtendsHonest(cfg, s, disk, s1, ProbeDirectory(s1, disk, r.value.directory).0, r);
  }

  lemma RefusalHonest(cfg: Config, s: State, disk: Disk, s': State, e: Error)
    ensures Honest(cfg, s, disk, s', Err(e))
  {
  }

  lemma StepKept(cfg: Config, s: State, step: Step)
    requires Inv(s)
    ensures var (s', outcome) := Do(cfg, s, step); Inv(s') && Kept(cfg, s, step, s', outcome)
  {
    hide Honest, Resolve, ProbeDirectory, Remembers, Inv, Rule, Built;
    var disk := step.disk;
    ResolveHonest(cfg, s, disk);
    var (s1, r) := Resolve(cfg, s, disk);
    if r.Ok? {
      ThenProbed(cfg, s, disk);
      var (s2, answer) := ProbeDirectory(s1, disk, r.value.directory);
      forall e ensures Honest(cfg, s, disk, s2, Err(e)) {
        RefusalHonest(cfg, s, disk, s2, e);
      }
    }
    if step.call.Ask? && step.call.name in Built(cfg, disk) {
      ProbeKeeps(s, disk, Built(cfg, disk)[step.call.name]);
    }
    if step.call.Choose? {
      SetKeepsInv(s, step.call.choice);
    }
  }

  lemma SetKeepsInv(s: State, name: Option<string>)
    requires Inv(s)
    ensures Inv(s.(choice := name))
  {
  }

  lemma {:induction false} TraceInv(cfg: Config, states: seq<State>, steps: seq<Step>, i: nat)
    requires Trace(cfg, states, steps) && i < |states|
    ensures Inv(states[i])
  {
    hide Do, Inv;
    if i == 0 {
      StartInv();
    } else {
      TraceInv(cfg, states, steps, i - 1);
      StepKept(cfg, states[i - 1], steps[i - 1]);
      assert states[i - 1 + 1] == Do(cfg, states[i - 1], steps[i - 1]).0;
    }
  }

  lemma StartInv()
    ensures Inv(START)
  {
  }

  // No silent substitution: over any run of calls, in any environments, every answer is
  // honest and of the first directory searched that holds its backend, a refused choice
  // changes nothing, and the notice is printed at most once.
  lemma NoSilentSubstitution(cfg: Config, states: seq<State>, steps: seq<Step>, i: nat)
    requires Trace(cfg, states, steps) && i < |steps|
    ensures Kept(cfg, states[i], steps[i], states[i + 1], Do(cfg, states[i], steps[i]).1)
    ensures |states[i + 1].printed| <= 1
    ensures var outcome := Do(cfg, states[i], steps[i]).1;
      outcome.Resolved? && outcome.chosen.Ok? ==>
        BuildIn(cfg, steps[i].disk, outcome.chosen.value.backend, outcome.chosen.value.directory)
  {
    TraceInv(cfg, states, steps, i);
    TraceInv(cfg, states, steps, i + 1);
    StepKept(cfg, states[i], steps[i]);
    var outcome := Do(cfg, states[i], steps[i]).1;
    hide Do, Inv;
    if outcome.Resolved? && outcome.chosen.Ok? {
      HonestBuild(cfg, states[i], steps[i].disk, states[i + 1], outcome.chosen);
    }
  }

  lemma HonestBuild(cfg: Config, s: State, disk: Disk, s': State, r: Result<Chosen, Error>)
    requires Honest(cfg, s, disk, s', r) && r.Ok?
    ensures BuildIn(cfg, disk, r.value.backend, r.value.directory)
  {
    hide Built, BuildIn, ChoiceKept, FallbackSaid, GpuEarned;
    BuiltInOrder(cfg, disk, r.value.backend, r.value.directory);
  }

  // No solver binary that has answered is asked again: the binaries that answered are distinct.
  lemma AnsweredOnce(cfg: Config, states: seq<State>, steps: seq<Step>, i: nat, j: nat, k: nat)
    requires Trace(cfg, states, steps) && i < |states| && j < k < |states[i].answered|
    ensures states[i].answered[j] != states[i].answered[k]
  {
    TraceInv(cfg, states, steps, i);
  }

  // A choice is refused exactly when no build of that name is here.
  lemma ChoiceRefused(cfg: Config, s: State, disk: Disk, name: string)
    ensures SetBackend(cfg, s, disk, Some(name)).1.Err? <==> !(name in BACKENDS && name in Built(cfg, disk))
  {
    RuleChosen(s, disk, Built(cfg, disk), name);
    hide Rule, Built;
  }

  // ---- The module's own state, call by call ---------------------------------------------

  function After(answers: seq<Probe>, rest: Result<seq<Probe>, Error>): Result<seq<Probe>, Error> {
    if rest.Err? then rest else Ok(answers + rest.value)
  }

  lemma AfterNone(rest: Result<seq<Probe>, Error>)
    ensures After([], rest) == rest
  {
    assert rest.Ok? ==> [] + rest.value == rest.value;
  }

  lemma AfterAll(answers: seq<Probe>)
    ensures After(answers, Ok([])) == Ok(answers)
  {
    assert answers + [] == answers;
  }

  lemma AfterMore(answers: seq<Probe>, one: Result<Probe, Error>, rest: Result<seq<Probe>, Error>)
    ensures one.Err? ==> After(answers, Err(one.error)) == Err(one.error)
    ensures one.Ok? && rest.Err? ==> After(answers, rest) == rest && After(answers + [one.value], rest) == rest
    ensures one.Ok? && rest.Ok? ==>
      After(answers, Ok([one.value] + rest.value)) == After(answers + [one.value], rest)
  {
    if one.Ok? && rest.Ok? {
      assert answers + ([one.value] + rest.value) == (answers + [one.value]) + rest.value;
    }
  }

  class Process {
    const cfg: Config
    var choice: Option<string>
    var probes: map<Key, Probe>
    var noticeShown: bool
    var printed: seq<Notice>
    var answered: seq<Key>

    ghost function Now(): State
      reads this
    {
      State(choice, probes, noticeShown, printed, answered)
    }

    constructor (cfg: Config)
      ensures Now() == START && this.cfg == cfg
    {
      this.cfg := cfg;
      choice, probes, noticeShown, printed, answered := None, map[], false, [], [];
    }

    method AskDirectory(disk: Disk, directory: string) returns (r: Result<Probe, Error>)
      modifies this
      ensures (Now(), r) == ProbeDirectory(old(Now()), disk, directory)
      // An answer remembered for the binary is given again, and a fresh one remembered.
      ensures r == Err(NoSolver(directory)) <==> directory !in disk.solvers
      ensures directory in disk.solvers && disk.solvers[directory] in old(probes) ==>
        r == Ok(old(probes)[disk.solvers[directory]])
      ensures directory in disk.solvers && disk.solvers[directory] !in old(probes) && r.Ok? ==>
        && probes == old(probes)[disk.solvers[directory] := r.value]
        && disk.launch(disk.solvers[directory]).Ran?
        && var run := disk.launch(disk.solvers[directory]);
           ReadAnswer(Fields(run.lines), run.code, ReadMarker(disk.markers, directory)) == Some(r.value)
      ensures r.Err? || disk.solvers[directory] in old(probes) ==> Now() == old(Now())
      ensures r.Err? && directory in disk.solvers ==>
        && r == Err(NotAnswered(directory)) && disk.solvers[directory] !in old(probes)
        && var run := disk.launch(disk.solvers[directory]);
           run.Ran? ==> ReadAnswer(Fields(run.lines), run.code, ReadMarker(disk.markers, directory)).None?
    {
      hide Fields, ReadAnswer, ReadMarker;
      if directory !in disk.solvers {
        return Err(NoSolver(directory));
      }
      var key := disk.solvers[directory];
      if key in probes {
        return Ok(probes[key]);
      }
      match disk.launch(key)
      case TimedOut => return Err(NotAnswered(directory));
      case NotStarted => return Err(NotAnswered(directory));
      case Ran(lines, code) =>
        var answer := ParseProbe(lines, code, ReadMarker(disk.markers, directory));
        if answer.None? {
          return Err(NotAnswered(directory));
        }
        probes := probes[key := answer.value];
        answered := answered + [key];
        return Ok(answer.value);
    }

    // {name: probe(name) for name in gpus}
    method AskAll(disk: Disk, built: map<string, string>, names: seq<string>) returns (r: Result<seq<Probe>, Error>)
      requires forall i :: 0 <= i < |names| ==> names[i] in built
      modifies this
      ensures (Now(), r) == ProbeAll(old(Now()), disk, built, names)
    {
      hide ProbeDirectory;
      var answers := [];
      assert names[0..] == names;
      AfterNone(ProbeAll(Now(), disk, built, names).1);
      hide After;
      for i := 0 to |names|
        invariant ProbeAll(old(Now()), disk, built, names).0 == ProbeAll(Now(), disk, built, names[i..]).0
        invariant ProbeAll(old(Now()), disk, built, names).1
          == After(answers, ProbeAll(Now(), disk, built, names[i..]).1)
      {
        ghost var rest := ProbeAll(ProbeDirectory(Now(), disk, built[names[i]]).0, disk, built, names[i + 1..]).1;
        AfterMore(answers, ProbeDirectory(Now(), disk, built[names[i]]).1, rest);
        var one := AskDirectory(disk, built[names[i]]);
        assert names[i..][1..] == names[i + 1..];
        if one.Err? {
          return Err(one.error);
        }
        answers := answers + [one.value];
      }
      assert names[|names|..] == [];
      AfterAll(answers);
      return Ok(answers);
    }

    method AnswerRule(disk: Disk, built: map<string, string>, wanted: Option<string>)
      returns (r: Result<Resolution, Error>)
      modifies this
      ensures (Now(), r) == Rule(old(Now()), disk, built, wanted)
    {
      hide ProbeAll, Select;
      if wanted.Some? {
        if wanted.value !in BACKENDS {
          return Err(UnknownBackend(wanted.value));
        }
        if wanted.value !in built {
          return Err(NotBuilt(wanted.value));
        }
        return Ok(Resolution(wanted.value, None));
      }
      var gpus := Gpus(built);
      if gpus == [] {
        if "cpu" in built {
          return Ok(Resolution("cpu", None));
        }
        return Err(NothingBuilt);
      }
      if |gpus| == 1 && "cpu" !in built {
        return Ok(Resolution(gpus[0], None));
      }
      ProbeAllLength(Now(), disk, built, gpus);
      var answers := AskAll(disk, built, gpus);
      if answers.Err? {
        return Err(answers.error);
      }
      var k := FirstUsable(answers.value);
      if k < |gpus| {
        return Ok(Resolution(gpus[k], None));
      }
      if "cpu" in built {
        return Ok(Resolution("cpu", Some(Notice(Reasons(gpus, answers.value)))));
      }
      return Err(NoUsableGpu);
    }

    method ListBackends(disk: Disk) returns (built: map<string, string>)
      ensures built == Built(cfg, disk)
    {
      var dirs := CandidateTargetDirs(cfg, disk);
      built := FindBuilds(dirs, cfg.profile, disk.markers);
    }

    method ResolveRun(disk: Disk) returns (r: Result<Chosen, Error>)
      modifies this
      ensures (Now(), r) == Resolve(cfg, old(Now()), disk)
      ensures ChoiceKept(cfg, old(Now()), disk, r)
      ensures r.Ok? ==> BuildIn(cfg, disk, r.value.backend, r.value.directory)
    {
      ResolveKept(cfg, Now(), disk);
      hide Built, Rule, ChoiceKept, BuildIn;
      var built := ListBackends(disk);
      var wanted := ExplicitChoice(cfg, State(choice, probes, noticeShown, printed, answered), disk);
      if wanted.Err? {
        return Err(wanted.error);
      }
      RuleBuilt(Now(), disk, built, wanted.value);
      var answer := AnswerRule(disk, built, wanted.value);
      if answer.Err? {
        return Err(answer.error);
      }
      if answer.value.notice.Some? && !noticeShown {
        noticeShown := true;
        printed := printed + [answer.value.notice.value];
      }
      return Ok(Chosen(answer.value.backend, built[answer.value.backend]));
    }

    method ChooseBackend(disk: Disk, name: Option<string>) returns (r: Result<(), Error>)
      modifies this
      ensures (Now(), r) == SetBackend(cfg, old(Now()), disk, name)
    {
      hide Built;
      if name.Some? {
        var built := ListBackends(disk);
        RuleChosen(Now(), disk, built, name.value);
        hide Rule;
        var answer := AnswerRule(disk, built, name);
        if answer.Err? {
          return Err(answer.error);
        }
      }
      choice := name;
      return Ok(());
    }

    method LaunchDirectory(disk: Disk) returns (r: Result<Chosen, Error>)
      modifies this
      ensures (Now(), r) == RunDirectory(cfg, old(Now()), disk)
    {
      hide Resolve, ProbeDirectory;
      r := ResolveRun(disk);
      if r.Err? {
        return;
      }
      var answer := AskDirectory(disk, r.value.directory);
      if answer.Err? {
        return Err(answer.error);
      }
      if answer.value.stamp != cfg.stamp {
        return Err(StampMismatch(r.value.backend, r.value.directory));
      }
    }

    method RequireUsableBackend(disk: Disk) returns (r: Result<Chosen, Error>)
      modifies this
      ensures (Now(), r) == RequireUsable(cfg, old(Now()), disk)
    {
      hide Resolve, ProbeDirectory;
      r := ResolveRun(disk);
      if r.Err? {
        return;
      }
      var answer := AskDirectory(disk, r.value.directory);
      if answer.Err? {
        return Err(answer.error);
      }
      if !answer.value.usable {
        return Err(CannotRun(r.value.backend));
      }
    }
  }
}
