// What each kind of resolution answers, case by case (frontend/_backends_.py:169-230 and
// frontend/__init__.py:346-564).
module Resolutions {
  import opened Wrappers
  import opened Backends
  import opened BackendRuns

  // ---- What the solvers said ------------------------------------------------------------

  // The solver of this build is remembered to have reported a usable device.
  ghost predicate Able(s: State, disk: Disk, built: map<string, string>, name: string) {
    name in built && exists answer :: Remembers(s, disk, built[name], answer) && answer.usable
  }

  // The build's name and what its solver reported.
  function Reason(s: State, disk: Disk, built: map<string, string>, name: string): seq<(string, string)> {
    if name in built && built[name] in disk.solvers && disk.solvers[built[name]] in s.probes
    then [(name, s.probes[disk.solvers[built[name]]].detail)] else []
  }

  // What the automatic rule prints: each GPU build beside the CPU one, with its reason.
  function NoticeOf(s: State, disk: Disk, built: map<string, string>): Notice {
    Notice(Reason(s, disk, built, "cuda") + Reason(s, disk, built, "rocm") + Reason(s, disk, built, "metal"))
  }

  function ReasonsOf(s: State, disk: Disk, built: map<string, string>, order: seq<string>): seq<(string, string)> {
    if order == [] then [] else Reason(s, disk, built, order[0]) + ReasonsOf(s, disk, built, order[1..])
  }

  lemma RememberedTail(s: State, disk: Disk, built: map<string, string>, names: seq<string>, rest: seq<string>,
                       answers: seq<Probe>)
    requires names != [] && rest == names[1..]
    requires (forall i :: 0 <= i < |names| ==> names[i] in built) && forall i :: 0 <= i < |rest| ==> rest[i] in built
    requires AllRemembered(s, disk, built, names, answers)
    ensures AllRemembered(s, disk, built, rest, answers[1..])
    ensures Reasons(names, answers) == Reason(s, disk, built, names[0]) + Reasons(rest, answers[1..])
  {
    assert Remembers(s, disk, built[names[0]], answers[0]);
    assert Reason(s, disk, built, names[0]) == [(names[0], answers[0].detail)];
    hide Remembers, Reason;
    forall i | 0 <= i < |rest| ensures Remembers(s, disk, built[rest[i]], answers[1..][i]) {
      assert names[i + 1] == rest[i];
    }
  }

  lemma {:induction false} ReasonsInOrder(s: State, disk: Disk, built: map<string, string>, order: seq<string>,
                                          answers: seq<Probe>)
    requires AllRemembered(s, disk, built, Select(order, built), answers)
    ensures Reasons(Select(order, built), answers) == ReasonsOf(s, disk, built, order)
  {
    SelectHead(order, built);
    if order != [] {
      hide Select, AllRemembered, Reasons, Reason;
      var rest := Select(order[1..], built);
      if order[0] in built {
        var names := [order[0]] + rest;
        assert names[1..] == rest;
        RememberedTail(s, disk, built, names, rest, answers);
        ReasonsInOrder(s, disk, built, order[1..], answers[1..]);
      } else {
        NoReason(s, disk, built, order[0]);
        assert [] + rest == rest;
        ReasonsInOrder(s, disk, built, order[1..], answers);
      }
    }
  }

  lemma NoReason(s: State, disk: Disk, built: map<string, string>, name: string)
    requires name !in built
    ensures Reason(s, disk, built, name) == []
  {
  }

  lemma ReasonsListed(s: State, disk: Disk, built: map<string, string>)
    ensures ReasonsOf(s, disk, built, GPU_BACKENDS)
      == Reason(s, disk, built, "cuda") + Reason(s, disk, built, "rocm") + Reason(s, disk, built, "metal")
    ensures Notice(ReasonsOf(s, disk, built, GPU_BACKENDS)) == NoticeOf(s, disk, built)
  {
    hide Reason;
    var a, b, c := Reason(s, disk, built, "cuda"), Reason(s, disk, built, "rocm"), Reason(s, disk, built, "metal");
    assert GPU_BACKENDS[1..] == ["rocm", "metal"] && GPU_BACKENDS[1..][1..] == ["metal"];
    assert GPU_BACKENDS[1..][1..][1..] == [];
    assert ReasonsOf(s, disk, built, ["metal"]) == c + [];
    assert ReasonsOf(s, disk, built, ["rocm", "metal"]) == b + (c + []);
    assert a + (b + (c + [])) == a + b + c;
  }

  // ---- The automatic answer -------------------------------------------------------------

  lemma NotAble(s: State, disk: Disk, built: map<string, string>, name: string)
    requires name in built && Unusable(s, disk, built, name)
    ensures !Able(s, disk, built, name)
  {
  }

  // CUDA first, then ROCm, then Metal; the CPU backend where none is usable.
  ghost predicate BestOf(s: State, disk: Disk, built: map<string, string>, r: Result<string, Error>) {
    r == if Able(s, disk, built, "cuda") then Ok("cuda")
         else if Able(s, disk, built, "rocm") then Ok("rocm")
         else if Able(s, disk, built, "metal") then Ok("metal")
         else if "cpu" in built then Ok("cpu")
         else Err(NoUsableGpu)
  }

  function NameOf(r: Result<Resolution, Error>): Result<string, Error> {
    if r.Ok? then Ok(r.value.backend) else Err(r.error)
  }

  lemma BestPicked(s: State, disk: Disk, built: map<string, string>, gpus: seq<string>, answers: seq<Probe>)
    requires gpus == Gpus(built) && AllRemembered(s, disk, built, gpus, answers)
    ensures BestOf(s, disk, built, NameOf(Pick(built, gpus, answers)))
  {
    hide Able, Unusable, Select;
    PickHonest(s, disk, built, gpus, answers);
    GpusAre(built);
    var r := Pick(built, gpus, answers);
    if r.Ok? && r.value.backend != "cpu" {
      var k :| FirstAble(s, disk, built, r.value.backend, k);
      FirstIsAble(s, disk, built, r.value.backend, k);
      EarlierNot(s, disk, built, r.value.backend, k);
    } else {
      NoneUsable(s, disk, built, gpus, answers);
      NoneAble(s, disk, built);
    }
  }

  lemma FirstIsAble(s: State, disk: Disk, built: map<string, string>, name: string, k: int)
    requires FirstAble(s, disk, built, name, k)
    ensures Able(s, disk, built, name)
  {
  }

  lemma EarlierNot(s: State, disk: Disk, built: map<string, string>, name: string, k: int)
    requires FirstAble(s, disk, built, name, k)
    ensures 0 <= k < 3 && ["cuda", "rocm", "metal"][k] == name
    ensures k > 0 ==> !Able(s, disk, built, "cuda")
    ensures k > 1 ==> !Able(s, disk, built, "rocm")
  {
    hide Unusable, Remembers;
    assert GPU_BACKENDS[0] == "cuda" && GPU_BACKENDS[1] == "rocm" && GPU_BACKENDS[2] == "metal";
    if k > 0 && "cuda" in built {
      NotAble(s, disk, built, "cuda");
    }
    if k > 1 && "rocm" in built {
      NotAble(s, disk, built, "rocm");
    }
  }

  lemma NoneUsable(s: State, disk: Disk, built: map<string, string>, gpus: seq<string>, answers: seq<Probe>)
    requires gpus == Gpus(built) && AllRemembered(s, disk, built, gpus, answers)
    requires var r := Pick(built, gpus, answers); r.Err? || r.value.backend == "cpu"
    ensures AllUnusable(s, disk, built)
  {
    hide Remembers, Select;
    GpusAre(built);
    assert FirstUsable(answers) == |gpus|;
    forall name | GpuBuilt(built, name) ensures Unusable(s, disk, built, name) {
      var i :| 0 <= i < |gpus| && gpus[i] == name;
      assert !answers[i].usable;
    }
  }

  lemma NoneAble(s: State, disk: Disk, built: map<string, string>)
    requires AllUnusable(s, disk, built)
    ensures !Able(s, disk, built, "cuda") && !Able(s, disk, built, "rocm") && !Able(s, disk, built, "metal")
  {
    hide Unusable;
    forall name | name in ["cuda", "rocm", "metal"] ensures !Able(s, disk, built, name) {
      if name in built {
        assert GpuBuilt(built, name);
        NotAble(s, disk, built, name);
      }
    }
  }

  // Some GPU build's solver gives no answer when asked.
  ghost predicate Silent(s: State, disk: Disk, built: map<string, string>) {
    exists name :: name in ["cuda", "rocm", "metal"] && name in built && Raises(s, disk, built[name])
  }

  predicate NoAnswer(e: Error) {
    e.NoSolver? || e.NotAnswered?
  }

  // The builds that settle the answer unasked: no GPU build, or one with no CPU build beside it.
  predicate Unasked(built: map<string, string>, name: string) {
    || (name == "cpu" && "cpu" in built && "cuda" !in built && "rocm" !in built && "metal" !in built)
    || (name == "cuda" && "cuda" in built && "rocm" !in built && "metal" !in built && "cpu" !in built)
    || (name == "rocm" && "rocm" in built && "cuda" !in built && "metal" !in built && "cpu" !in built)
    || (name == "metal" && "metal" in built && "cuda" !in built && "rocm" !in built && "cpu" !in built)
  }

  predicate NoBuild(built: map<string, string>) {
    "cpu" !in built && "cuda" !in built && "rocm" !in built && "metal" !in built
  }

  lemma GpusListed(built: map<string, string>)
    ensures Gpus(built) == (if "cuda" in built then ["cuda"] else []) + (if "rocm" in built then ["rocm"] else [])
      + (if "metal" in built then ["metal"] else [])
  {
    assert GPU_BACKENDS == ["cuda"] + (["rocm"] + (["metal"] + []));
    SelectStep("metal", [], built);
    SelectStep("rocm", ["metal"] + [], built);
    SelectStep("cuda", ["rocm"] + (["metal"] + []), built);
  }

  // What the rule answers with no choice made.
  ghost predicate Ruled(s: State, disk: Disk, built: map<string, string>, s': State, r: Result<Resolution, Error>) {
    && (NoBuild(built) ==> s' == s && r == Err(NothingBuilt))
    && (forall name :: Unasked(built, name) ==> s' == s && r == Ok(Resolution(name, None)))
    && (!NoBuild(built) && (forall name :: !Unasked(built, name)) ==>
      if Silent(s, disk, built) then r.Err? && NoAnswer(r.error)
      else
        && BestOf(s', disk, built, NameOf(r))
        && (r.Ok? ==> r.value.notice == if r.value.backend != "cpu" then None else Some(NoticeOf(s', disk, built))))
  }

  lemma {:induction false} ProbeAllNoAnswer(s: State, disk: Disk, built: map<string, string>, names: seq<string>)
    requires forall i :: 0 <= i < |names| ==> names[i] in built
    ensures var r := ProbeAll(s, disk, built, names).1; r.Err? ==> NoAnswer(r.error)
    decreases |names|
  {
    hide Reason;
    if names != [] {
      OneNoAnswer(s, disk, built[names[0]]);
      hide ProbeDirectory;
      ProbeAllNoAnswer(ProbeDirectory(s, disk, built[names[0]]).0, disk, built, names[1..]);
    }
  }

  lemma OneNoAnswer(s: State, disk: Disk, directory: string)
    ensures var r := ProbeDirectory(s, disk, directory).1; r.Err? ==> NoAnswer(r.error)
  {
  }

  ghost predicate BuildsMarked(disk: Disk, built: map<string, string>) {
    forall name :: name in built ==> ReadMarker(disk.markers, built[name]).Some?
  }

  lemma SilentIs(s: State, disk: Disk, built: map<string, string>)
    requires BuildsMarked(disk, built)
    ensures ProbeAll(s, disk, built, Gpus(built)).1.Err? <==> Silent(s, disk, built)
  {
    hide Raises, ProbeAll, Select, ReadMarker;
    var gpus := Gpus(built);
    GpusAre(built);
    EagerRefuses(s, disk, built, gpus);
    if i :| 0 <= i < |gpus| && Raises(s, disk, built[gpus[i]]) {
      assert gpus[i] in ["cuda", "rocm", "metal"];
    }
    if name :| name in ["cuda", "rocm", "metal"] && name in built && Raises(s, disk, built[name]) {
      assert GpuBuilt(built, name);
      var i :| 0 <= i < |gpus| && gpus[i] == name;
    }
  }

  lemma Asked(s: State, disk: Disk, built: map<string, string>)
    requires Inv(s) && BuildsMarked(disk, built) && !NoBuild(built) && forall name :: !Unasked(built, name)
    ensures var (s', r) := Rule(s, disk, built, None); Ruled(s, disk, built, s', r)
  {
    hide ProbeAll, Rule, Silent, BestOf, NoticeOf, Inv, Extends, Gpus, AllRemembered, ReasonsOf, Reasons, Pick, NoBuild,
      Unasked, NoAnswer, NameOf, BuildsMarked, Select;
    var gpus := Gpus(built);
    GpusSelected(built);
    AskedRule(s, disk, built);
    SilentIs(s, disk, built);
    ProbeAllNoAnswer(s, disk, built, gpus);
    ProbeAllKeeps(s, disk, built, gpus);
    var (s', answers) := ProbeAll(s, disk, built, gpus);
    if answers.Ok? {
      BestPicked(s', disk, built, gpus, answers.value);
      ReasonsInOrder(s', disk, built, GPU_BACKENDS, answers.value);
      ReasonsListed(s', disk, built);
      PickNotice(built, gpus, answers.value);
    }
  }

  lemma GpusSelected(built: map<string, string>)
    ensures Gpus(built) == Select(GPU_BACKENDS, built)
  {
  }

  lemma PickNotice(built: map<string, string>, gpus: seq<string>, answers: seq<Probe>)
    requires |gpus| == |answers| && "cpu" !in gpus
    ensures var r := Pick(built, gpus, answers);
      r.Ok? ==> r.value.notice == if r.value.backend != "cpu" then None else Some(Notice(Reasons(gpus, answers)))
  {
  }

  lemma AskedRule(s: State, disk: Disk, built: map<string, string>)
    requires !NoBuild(built) && forall name :: !Unasked(built, name)
    ensures "cpu" !in Gpus(built)
    ensures var (s', answers) := ProbeAll(s, disk, built, Gpus(built));
      var (s1, r) := Rule(s, disk, built, None);
      && s1 == s' && (answers.Err? ==> r == Err(answers.error))
      && (answers.Ok? ==> |answers.value| == |Gpus(built)| && r == Pick(built, Gpus(built), answers.value))
  {
    GpusListed(built);
    ProbeAllLength(s, disk, built, Gpus(built));
    assert !Unasked(built, "cpu") && !Unasked(built, "cuda") && !Unasked(built, "rocm") && !Unasked(built, "metal");
    hide Gpus, ProbeAll, Pick;
  }

  lemma Settled(s: State, disk: Disk, built: map<string, string>, name: string)
    requires Unasked(built, name)
    ensures Rule(s, disk, built, None) == (s, Ok(Resolution(name, None)))
  {
    GpusListed(built);
    hide Gpus, ProbeAll, Pick;
  }

  lemma RuleExact(s: State, disk: Disk, built: map<string, string>)
    requires Inv(s) && BuildsMarked(disk, built)
    ensures var (s', r) := Rule(s, disk, built, None); Ruled(s, disk, built, s', r)
  {
    hide Rule, BestOf, Silent, Reason, Inv, BuildsMarked;
    if NoBuild(built) {
      NothingRuled(s, disk, built);
    } else if name :| Unasked(built, name) {
      forall other | Unasked(built, other) ensures Rule(s, disk, built, None) == (s, Ok(Resolution(other, None))) {
        Settled(s, disk, built, other);
      }
    } else {
      Asked(s, disk, built);
    }
  }

  lemma NothingRuled(s: State, disk: Disk, built: map<string, string>)
    requires NoBuild(built)
    ensures Rule(s, disk, built, None) == (s, Err(NothingBuilt))
  {
    GpusListed(built);
    hide Gpus, ProbeAll, Pick;
  }

  // What an automatic resolution answers, and the one line it may print.
  ghost predicate Automatic(s: State, disk: Disk, built: map<string, string>, s': State, r: Result<Chosen, Error>) {
    && (NoBuild(built) ==> s' == s && r == Err(NothingBuilt))
    && (forall name :: Unasked(built, name) ==> s' == s && r == Ok(Chosen(name, built[name])))
    && (!NoBuild(built) && (forall name :: !Unasked(built, name)) ==>
      if Silent(s, disk, built) then r.Err? && NoAnswer(r.error) && s'.printed == s.printed
      else
        && BestOf(s', disk, built, if r.Ok? then Ok(r.value.backend) else Err(r.error))
        && (r.Ok? ==> r.value.backend in built && r.value.directory == built[r.value.backend])
        && s'.printed == s.printed + (if r.Ok? && r.value.backend == "cpu" && !s.noticeShown
                                      then [NoticeOf(s', disk, built)] else []))
  }

  lemma MarkedBuilds(cfg: Config, disk: Disk)
    ensures BuildsMarked(disk, Built(cfg, disk))
  {
    var dirs, found := Deduped(Wanted(cfg, disk)), Built(cfg, disk);
    hide Deduped, Wanted, Builds, Join;
    forall name | name in found ensures ReadMarker(disk.markers, found[name]).Some? {
      var i :| FirstHolding(dirs, cfg.profile, disk.markers, name, i) && found[name] == Join(dirs[i], cfg.profile);
    }
  }

  lemma SaidThen(s: State, disk: Disk, built: map<string, string>, notice: Option<Notice>, name: string)
    ensures Able(Announce(s, notice), disk, built, name) <==> Able(s, disk, built, name)
    ensures Reason(Announce(s, notice), disk, built, name) == Reason(s, disk, built, name)
  {
    var s' := Announce(s, notice);
    forall d, answer ensures Remembers(s', disk, d, answer) <==> Remembers(s, disk, d, answer) {
    }
  }

  lemma NoticeThen(s: State, disk: Disk, built: map<string, string>, notice: Option<Notice>)
    ensures NoticeOf(Announce(s, notice), disk, built) == NoticeOf(s, disk, built)
    ensures forall r :: BestOf(Announce(s, notice), disk, built, r) <==> BestOf(s, disk, built, r)
  {
    hide Able, Announce, Reason;
    SaidThen(s, disk, built, notice, "cuda");
    SaidThen(s, disk, built, notice, "rocm");
    SaidThen(s, disk, built, notice, "metal");
  }

  function ResolvedAs(built: map<string, string>, ruled: Result<Resolution, Error>): (r: Result<Chosen, Error>)
    requires ruled.Ok? ==> ruled.value.backend in built
  {
    if ruled.Err? then Err(ruled.error) else Ok(Chosen(ruled.value.backend, built[ruled.value.backend]))
  }

  function StateAfter(s1: State, ruled: Result<Resolution, Error>): State {
    if ruled.Err? then s1 else Announce(s1, ruled.value.notice)
  }

  lemma ThenAutomatic(s: State, disk: Disk, built: map<string, string>, s1: State, ruled: Result<Resolution, Error>)
    requires Ruled(s, disk, built, s1, ruled) && s1.printed == s.printed && s1.noticeShown == s.noticeShown
    requires ruled.Ok? ==> ruled.value.backend in built
    ensures Automatic(s, disk, built, StateAfter(s1, ruled), ResolvedAs(built, ruled))
  {
    hide Silent, BestOf, NoticeOf;
    if ruled.Ok? {
      NoticeThen(s1, disk, built, ruled.value.notice);
    }
  }

  lemma ResolvesAs(cfg: Config, s: State, disk: Disk)
    requires s.choice.None? && disk.override == ""
    ensures var built := Built(cfg, disk);
      var (s1, ruled) := Rule(s, disk, built, None);
      && (ruled.Ok? ==> ruled.value.backend in built)
      && Resolve(cfg, s, disk) == (StateAfter(s1, ruled), ResolvedAs(built, ruled))
  {
    hide Rule, Built;
    RuleBuilt(s, disk, Built(cfg, disk), None);
  }

  // With nothing chosen and no directory named, a resolution is settled case by case.
  lemma AutomaticAnswer(cfg: Config, s: State, disk: Disk)
    requires Inv(s) && s.choice.None? && disk.override == ""
    ensures var (s', r) := Resolve(cfg, s, disk); Automatic(s, disk, Built(cfg, disk), s', r)
  {
    var built := Built(cfg, disk);
    MarkedBuilds(cfg, disk);
    RuleExact(s, disk, built);
    RuleHonest(s, disk, built);
    ResolvesAs(cfg, s, disk);
    hide Rule, Built, Resolve, Ruled, Automatic, Inv, BuildsMarked;
    ThenAutomatic(s, disk, built, Rule(s, disk, built, None).0, Rule(s, disk, built, None).1);
  }

  // ---- The explicit answer --------------------------------------------------------------

  // The process's own choice is answered as named, or refused as unknown or not built.
  lemma ChosenAnswer(cfg: Config, s: State, disk: Disk, name: string)
    requires s.choice == Some(name)
    ensures var built := Built(cfg, disk);
      Resolve(cfg, s, disk) == (s,
        if name !in ["cuda", "rocm", "metal", "cpu"] then Err(UnknownBackend(name))
        else if name !in built then Err(NotBuilt(name))
        else Ok(Chosen(name, built[name])))
  {
    RuleChosen(s, disk, Built(cfg, disk), name);
    hide Built;
  }

  // Choosing by name is refused as unknown or not built, and changes nothing then; returning
  // to the automatic choice always succeeds.
  lemma ChoiceAnswer(cfg: Config, s: State, disk: Disk, name: string)
    ensures var (s', r) := SetBackend(cfg, s, disk, Some(name));
      if name !in ["cuda", "rocm", "metal", "cpu"] then s' == s && r == Err(UnknownBackend(name))
      else if name !in Built(cfg, disk) then s' == s && r == Err(NotBuilt(name))
      else s' == s.(choice := Some(name)) && r == Ok(())
    ensures SetBackend(cfg, s, disk, None) == (s.(choice := None), Ok(()))
  {
    hide Built;
  }

  // ---- The checks before a run ------------------------------------------------------------

  // The solver's answer is the one now remembered, or there is none to remember.
  ghost predicate Answered(s: State, disk: Disk, directory: string, answer: Result<Probe, Error>) {
    && (answer.Ok? <==> exists a :: Remembers(s, disk, directory, a))
    && (forall a :: Remembers(s, disk, directory, a) ==> answer == Ok(a))
    && (answer.Err? ==> answer.error == NoSolver(directory) || answer.error == NotAnswered(directory))
  }

  lemma ProbedThen(s: State, disk: Disk, directory: string)
    requires Inv(s)
    ensures var (s', answer) := ProbeDirectory(s, disk, directory); Answered(s', disk, directory, answer)
  {
    ProbeKeeps(s, disk, directory);
    hide Inv, Extends, Fields, ReadAnswer, ReadMarker;
    var (s', r) := ProbeDirectory(s, disk, directory);
    if r.Ok? {
      assert Remembers(s', disk, directory, r.value);
    }
  }

  lemma StampChecked(s: State, disk: Disk, chosen: Chosen, stamp: string, answer: Result<Probe, Error>,
                     r: Result<Chosen, Error>)
    requires Answered(s, disk, chosen.directory, answer)
    requires r == if answer.Err? then Err(answer.error)
                  else if answer.value.stamp != stamp then Err(StampMismatch(chosen.backend, chosen.directory))
                  else Ok(chosen)
    ensures r == Ok(chosen) <==> exists a :: Remembers(s, disk, chosen.directory, a) && a.stamp == stamp
    ensures r == Err(StampMismatch(chosen.backend, chosen.directory)) <==>
      exists a :: Remembers(s, disk, chosen.directory, a) && a.stamp != stamp
    ensures r.Ok? ==> r.value == chosen
  {
    hide Remembers;
  }

  lemma DeviceChecked(s: State, disk: Disk, chosen: Chosen, answer: Result<Probe, Error>, r: Result<Chosen, Error>)
    requires Answered(s, disk, chosen.directory, answer)
    requires r == if answer.Err? then Err(answer.error)
                  else if answer.value.usable then Ok(chosen) else Err(CannotRun(chosen.backend))
    ensures r == Ok(chosen) <==> exists a :: Remembers(s, disk, chosen.directory, a) && a.usable
    ensures r == Err(CannotRun(chosen.backend)) <==>
      exists a :: Remembers(s, disk, chosen.directory, a) && !a.usable
    ensures r.Ok? ==> r.value == chosen
  {
    hide Remembers;
  }

  // A launch is refused exactly where the resolved solver's stamp is not this process's own,
  // or where it gives no answer.
  lemma LaunchAnswer(cfg: Config, s: State, disk: Disk, chosen: Chosen)
    requires Inv(s) && Resolve(cfg, s, disk).1 == Ok(chosen)
    ensures var (s', r) := RunDirectory(cfg, s, disk);
      && (r == Ok(chosen) <==> exists a :: Remembers(s', disk, chosen.directory, a) && a.stamp == cfg.stamp)
      && (r == Err(StampMismatch(chosen.backend, chosen.directory)) <==>
            exists a :: Remembers(s', disk, chosen.directory, a) && a.stamp != cfg.stamp)
      && (r.Ok? ==> r.value == chosen)
  {
    hide Resolve, Honest, Inv, Remembers, ProbeDirectory, Answered;
    ResolveHonest(cfg, s, disk);
    ProbedThen(Resolve(cfg, s, disk).0, disk, chosen.directory);
    var (s', answer) := ProbeDirectory(Resolve(cfg, s, disk).0, disk, chosen.directory);
    var (s2, r) := RunDirectory(cfg, s, disk);
    assert s2 == s';
    StampChecked(s', disk, chosen, cfg.stamp, answer, r);
  }

  // A run is refused for its device exactly where the resolved solver reports it unusable.
  lemma RequireAnswer(cfg: Config, s: State, disk: Disk, chosen: Chosen)
    requires Inv(s) && Resolve(cfg, s, disk).1 == Ok(chosen)
    ensures var (s', r) := RequireUsable(cfg, s, disk);
      && (r == Ok(chosen) <==> exists a :: Remembers(s', disk, chosen.directory, a) && a.usable)
      && (r == Err(CannotRun(chosen.backend)) <==> exists a :: Remembers(s', disk, chosen.directory, a) && !a.usable)
      && (r.Ok? ==> r.value == chosen)
  {
    hide Resolve, Honest, Inv, Remembers, ProbeDirectory, Answered;
    ResolveHonest(cfg, s, disk);
    ProbedThen(Resolve(cfg, s, disk).0, disk, chosen.directory);
    var (s', answer) := ProbeDirectory(Resolve(cfg, s, disk).0, disk, chosen.directory);
    var (s2, r) := RequireUsable(cfg, s, disk);
    assert s2 == s';
    DeviceChecked(s', disk, chosen, answer, r);
  }
}
