// The add-on's handler lists, deferred timers, registered modules and ready flag over
// register and unregister (blender_addon/__init__.py:259-644), with every list write its
// modules make (blender_addon/ui/dynamics/group_ops.py:559-579, statistics.py:428-442 and
// overlay.py:858-877 there, blender_addon/core/uuid_registry.py:503-519, pc2.py:1242-1263).
module Handlers {

  // A handler is a function object: its name, and which loading of the module made it.
  datatype Handler = Handler(name: string, object_: int)

  datatype Slot =
    | FramePre | FramePost | Depsgraph | SavePre | SavePost | LoadPre | LoadPost | RenderInit | RenderPre
    | UndoPost | RedoPost

  // ---- Removing by name -------------------------------------------------------------------

  function Without(hs: seq<Handler>, names: set<string>): seq<Handler> {
    if hs == [] then [] else
    Without(hs[..|hs| - 1], names) + (if hs[|hs| - 1].name in names then [] else [hs[|hs| - 1]])
  }

  lemma {:induction false} WithoutAppend(xs: seq<Handler>, ys: seq<Handler>, names: set<string>)
    ensures Without(xs + ys, names) == Without(xs, names) + Without(ys, names)
    decreases |ys|
  {
    if ys == [] {
      assert xs + ys == xs;
    } else {
      WithoutAppend(xs, ys[..|ys| - 1], names);
      assert (xs + ys)[..|xs + ys| - 1] == xs + ys[..|ys| - 1];
    }
  }

  // Exactly the unlisted handlers stay, each as often as it was there.
  lemma {:induction false} WithoutHolds(hs: seq<Handler>, names: set<string>, h: Handler)
    ensures multiset(Without(hs, names))[h] == if h.name in names then 0 else multiset(hs)[h]
  {
    if hs != [] {
      WithoutHolds(hs[..|hs| - 1], names, h);
      assert hs == hs[..|hs| - 1] + [hs[|hs| - 1]];
    }
  }

  // list.remove: the first equal element goes.
  function RemoveFirst(hs: seq<Handler>, h: Handler): seq<Handler>
    requires h in hs
  {
    if hs[0] == h then hs[1..] else [hs[0]] + RemoveFirst(hs[1..], h)
  }

  lemma {:induction false} RemoveAfter(xs: seq<Handler>, h: Handler, ys: seq<Handler>)
    requires h !in xs
    ensures h in xs + ([h] + ys) && RemoveFirst(xs + ([h] + ys), h) == xs + ys
  {
    hide RemoveFirst;
    var s := [h] + ys;
    if xs == [] {
      assert xs + s == s && xs + ys == ys;
      RemoveHead(h, ys);
    } else {
      RemoveAfter(xs[1..], h, ys);
      RemoveStep(xs[0], xs[1..] + s, h);
      assert [xs[0]] + (xs[1..] + s) == xs + s;
      assert [xs[0]] + (xs[1..] + ys) == xs + ys;
    }
  }

  lemma RemoveHead(h: Handler, rest: seq<Handler>)
    ensures RemoveFirst([h] + rest, h) == rest
  {
  }

  lemma RemoveStep(x: Handler, rest: seq<Handler>, h: Handler)
    requires x != h && h in rest
    ensures h in [x] + rest && RemoveFirst([x] + rest, h) == [x] + RemoveFirst(rest, h)
  {
    assert ([x] + rest)[1..] == rest;
  }

  lemma {:induction false} WithoutNames(hs: seq<Handler>, names: set<string>, h: Handler)
    requires h in Without(hs, names)
    ensures h.name !in names && h in hs
  {
    WithoutHolds(hs, names, h);
    assert h in multiset(Without(hs, names));
    assert h in multiset(hs);
  }

  // The walk's next handler is the first of its equals in the live list.
  lemma RemoveNext(live: seq<Handler>, names: set<string>, i: nat)
    requires i < |live|
    ensures var hs, h := Without(live[..i], names) + live[i..], live[i];
      && h in hs && Without(live[..i + 1], names) + live[i + 1..] ==
        if h.name in names then RemoveFirst(hs, h) else hs
  {
    var h, kept, rest := live[i], Without(live[..i], names), live[i + 1..];
    assert live[i..] == [h] + rest && live[..i + 1][..i] == live[..i];
    assert Without(live[..i + 1], names) == if h.name in names then kept else kept + [h];
    hide Without, RemoveFirst;
    if h.name in names {
      if h in kept {
        WithoutNames(live[..i], names, h);
      }
      RemoveAfter(kept, h, rest);
    } else {
      assert kept + [h] + rest == kept + ([h] + rest);
      assert ([h] + rest)[0] == h && (kept + ([h] + rest))[|kept|] == h;
    }
  }

  // Removing from the live list while walking a copy of it: stale duplicates included, what
  // is left is the unlisted handlers in their order.
  method RemoveNamed(live: seq<Handler>, names: set<string>) returns (hs: seq<Handler>)
    ensures hs == Without(live, names)
  {
    hs := live;
    assert live[..0] + live[0..] == live && Without(live[..0], names) == [];
    hide Without, RemoveFirst;
    for i := 0 to |live|
      invariant hs == Without(live[..i], names) + live[i..]
    {
      var h := live[i];
      RemoveNext(live, names, i);
      if h.name in names {
        hs := RemoveFirst(hs, h);
      }
    }
    assert live[..|live|] == live && live[|live|..] == [];
  }

  // Removing twice is removing either name.
  lemma {:induction false} WithoutTwice(hs: seq<Handler>, a: set<string>, b: set<string>)
    ensures Without(Without(hs, a), b) == Without(hs, a + b)
  {
    if hs != [] {
      var front, last := hs[..|hs| - 1], hs[|hs| - 1];
      WithoutTwice(front, a, b);
      var kept := if last.name in a then [] else [last];
      WithoutAppend(Without(front, a), kept, b);
      WithoutOne(last, b);
    }
  }

  lemma WithoutOne(h: Handler, names: set<string>)
    ensures Without([h], names) == if h.name in names then [] else [h]
    ensures Without([], names) == []
  {
    assert [h][..0] == [];
  }

  // ---- Adding once ---------------------------------------------------------------------------

  predicate Named(hs: seq<Handler>, name: string) {
    exists i :: 0 <= i < |hs| && hs[i].name == name
  }

  function Ensured(hs: seq<Handler>, name: string, object_: int): seq<Handler> {
    if Named(hs, name) then hs else hs + [Handler(name, object_)]
  }

  method EnsureHandler(hs: seq<Handler>, name: string, object_: int) returns (hs': seq<Handler>)
    ensures hs' == Ensured(hs, name, object_)
  {
    hs' := hs;
    if !exists i :: 0 <= i < |hs| && hs[i].name == name {
      hs' := hs' + [Handler(name, object_)];
    }
  }

  // Where no name is listed nothing goes.
  lemma {:induction false} WithoutUnnamed(hs: seq<Handler>, names: set<string>)
    requires forall name :: name in names ==> !Named(hs, name)
    ensures Without(hs, names) == hs
  {
    if hs != [] {
      var front := hs[..|hs| - 1];
      forall name | name in names ensures !Named(front, name) {
        assert forall i :: 0 <= i < |front| ==> hs[i] == front[i];
      }
      WithoutUnnamed(front, names);
      assert Named(hs, hs[|hs| - 1].name);
      assert hs == front + [hs[|hs| - 1]];
    }
  }

  lemma {:induction false} NothingListed(hs: seq<Handler>, names: set<string>, name: string)
    requires name in names
    ensures !Named(Without(hs, names), name)
  {
    var kept := Without(hs, names);
    if i :| 0 <= i < |kept| && kept[i].name == name {
      WithoutNames(hs, names, kept[i]);
    }
  }

  // ---- The steps of registration ---------------------------------------------------------

  // The modules that register classes, consecutive ones that write no list as one: the
  // eighteen of the dynamics package between its group and statistics modules, and the
  // seven of the mesh package.
  datatype Module = State | MainPanel | Solver | GroupOps | DynamicsOps | Statistics | MeshOps | Operators

  // Appended always, after dropping stale copies, or only where the name is not there.
  datatype How = Always | Fresh | Once

  // Begin registers the first class of a module and Complete the others: a module some of
  // whose classes are registered is begun and not complete.
  datatype Step =
    | Begin(m: Module) | Complete(m: Module) | Put(how: How, slot: Slot, name: string) | Defer(late: bool) | Other

  // What registration does, in order; Other writes no list and registers no class. The
  // operators register one class that can raise.
  const PROGRAM: seq<Step> := [
    Begin(State), Complete(State), Begin(MainPanel), Complete(MainPanel), Begin(Solver), Complete(Solver),
    Begin(GroupOps), Complete(GroupOps),
    Put(Always, Depsgraph, "_cleanup_deleted_objects"), Put(Fresh, LoadPost, "_reset_cleanup_flag_on_load"),
    Begin(DynamicsOps), Complete(DynamicsOps), Begin(Statistics), Complete(Statistics),
    Put(Fresh, FramePost, "statistics_frame_change_handler"),
    Other, Put(Fresh, UndoPost, "_on_undo_redo"), Put(Fresh, RedoPost, "_on_undo_redo"),
    Begin(MeshOps), Complete(MeshOps), Other, Complete(Operators), Other, Defer(false),
    Put(Fresh, Depsgraph, "_on_depsgraph_update"),
    Put(Once, SavePost, "migrate_pc2_on_save"), Put(Once, RenderInit, "reset_render_counter"),
    Put(Once, RenderPre, "warn_missing_frames_on_render"), Put(Once, SavePre, "_persist_session_id"),
    Put(Once, SavePost, "_save_manifest_post"), Put(Once, LoadPost, "_reconcile_manifest_on_load"),
    Put(Once, LoadPost, "_reconcile_pin_captured_anim_on_load"), Put(Once, LoadPost, "_request_cache_heal_on_load"),
    Put(Once, LoadPost, "_release_force_field_cache_on_load"), Put(Once, LoadPre, "_disconnect_on_load"),
    Put(Once, FramePost, "curve_frame_change_handler"), Defer(true), Other]

  // The steps after which something of this registration stands in a list, and from which
  // on the mesh modules are registered.
  const FIRST_WRITE := 8
  const MESH := 19

  type Lists = map<Slot, seq<Handler>>

  ghost predicate Total(lists: Lists) {
    forall slot: Slot :: slot in lists
  }

  // Modules are begun from their first class on and registered from their last. Timers are
  // those the application holds, deferred those the add-on remembers scheduling.
  datatype World =
    World(lists: Lists, begun: set<Module>, registered: set<Module>, timers: set<int>, deferred: seq<int>)

  function Written(hs: seq<Handler>, how: How, name: string, object_: int): seq<Handler> {
    match how
    case Always => hs + [Handler(name, object_)]
    case Fresh => Without(hs, {name}) + [Handler(name, object_)]
    case Once => Ensured(hs, name, object_)
  }

  // One loading of the add-on: which function objects and which two timers it brings.
  datatype Loading = Loading(object_: int, first: int, second: int)

  function DoStep(w: World, s: Step, own: Loading): (w': World)
    requires Total(w.lists)
    ensures Total(w'.lists)
  {
    match s
    case Begin(m) => w.(begun := w.begun + {m})
    case Complete(m) => w.(registered := w.registered + {m})
    case Put(how, slot, name) => w.(lists := w.lists[slot := Written(w.lists[slot], how, name, own.object_)])
    case Defer(late) =>
      var timer := if late then own.second else own.first;
      w.(timers := w.timers + {timer}, deferred := w.deferred + [timer])
    case Other => w
  }

  function Ran(w: World, steps: seq<Step>, own: Loading): (w': World)
    requires Total(w.lists)
    ensures Total(w'.lists)
  {
    if steps == [] then w else DoStep(Ran(w, steps[..|steps| - 1], own), steps[|steps| - 1], own)
  }

  // A class that is still registered cannot be registered again.
  predicate Refused(w: World, s: Step) {
    (s.Begin? && s.m in w.begun) || (s.Complete? && s.m in w.registered)
  }

  // No step before k fails or is refused.
  ghost predicate Reached(w: World, own: Loading, fails: nat, k: nat)
    requires Total(w.lists) && k <= |PROGRAM|
  {
    forall i :: 0 <= i < k ==> i != fails && !Refused(Ran(w, PROGRAM[..i], own), PROGRAM[i])
  }

  // Registration stops before step k: at its end, at the step that fails, or at a refused one.
  ghost predicate StopsAt(w: World, own: Loading, fails: nat, k: nat)
    requires Total(w.lists)
  {
    && k <= |PROGRAM|
    && (k < |PROGRAM| ==> k == fails || Refused(Ran(w, PROGRAM[..k], own), PROGRAM[k]))
    && Reached(w, own, fails, k)
  }

  // ---- The sweeps of unregistration ------------------------------------------------------

  // The names taken out of the frame lists and of the depsgraph list, retired ones included.
  const FRAME_NAMES: set<string> := {"curve_frame_change_handler", "pin_frame_change_handler",
    "invalidate_full_pin_cache"}

  // The guarded sweeps at the top, then those of the playback modules, then the group module's.
  datatype Stage = Guarded | Playback | Groups

  // The names a stage takes out of each list.
  function Swept(stage: Stage, slot: Slot): set<string> {
    match (stage, slot)
    case (Guarded, FramePre) => FRAME_NAMES
    case (Guarded, FramePost) => FRAME_NAMES
    case (Guarded, Depsgraph) => FRAME_NAMES + {"_on_depsgraph_update"}
    case (Guarded, SavePre) => {"_persist_session_id"}
    case (Guarded, SavePost) => {"migrate_pc2_on_save", "_save_manifest_post"}
    case (Guarded, LoadPre) => {"_disconnect_on_load"}
    case (Guarded, LoadPost) => {"_reconcile_manifest_on_load", "_reconcile_pin_captured_anim_on_load",
      "_request_cache_heal_on_load", "_release_force_field_cache_on_load"}
    case (Guarded, RenderInit) => {"reset_render_counter"}
    case (Guarded, RenderPre) => {"warn_missing_frames_on_render"}
    case (Playback, UndoPost) => {"_on_undo_redo"}
    case (Playback, RedoPost) => {"_on_undo_redo"}
    case (Playback, FramePost) => {"statistics_frame_change_handler"}
    case (Groups, Depsgraph) => {"_cleanup_deleted_objects"}
    case (Groups, LoadPost) => {"_reset_cleanup_flag_on_load"}
    case _ => {}
  }

  function Owned(slot: Slot): set<string> {
    Swept(Guarded, slot) + Swept(Playback, slot) + Swept(Groups, slot)
  }

  function Sweep(lists: Lists, stage: Stage): (after: Lists)
    requires Total(lists)
    ensures Total(after)
  {
    map slot: Slot | slot in lists :: Without(lists[slot], Swept(stage, slot))
  }

  // The lists with every name the add-on owns taken out.
  function Clean(lists: Lists): (after: Lists)
    requires Total(lists)
    ensures Total(after)
  {
    map slot: Slot | slot in lists :: Without(lists[slot], Owned(slot))
  }

  // Modules unregistered in turn, last class first, stopping at one whose last class is not
  // there.
  function Dropped(registered: set<Module>, ms: seq<Module>): (set<Module>, bool) {
    if ms == [] then (registered, true)
    else if ms[0] !in registered then (registered, false)
    else Dropped(registered - {ms[0]}, ms[1..])
  }

  // The modules left registered; those unregistered are not begun either.
  function Left(w: World, left: set<Module>): World {
    w.(registered := left, begun := w.begun - (w.registered - left) - {Operators})
  }

  // unregister: the timers, the guarded sweeps, and the modules in turn. The operators'
  // own failures are swallowed; the first other module whose classes are not there ends it.
  function Unregistered(w: World): (World, bool)
    requires Total(w.lists)
  {
    var start := w.(timers := w.timers - (set t | t in w.deferred), deferred := [], lists := Sweep(w.lists, Guarded));
    var first := w.registered - {Operators};
    if MeshOps !in first then (Left(start, first), false) else
    var played := start.(lists := Sweep(start.lists, Playback));
    var (left, ok) := Dropped(first - {MeshOps}, [Statistics, DynamicsOps]);
    if !ok then (Left(played, left), false) else
    var (end, done) := Dropped(left, [GroupOps, Solver, MainPanel, State]);
    (Left(played.(lists := Sweep(played.lists, Groups)), end), done)
  }

  // ---- What steps and sweeps do to one list ------------------------------------------------

  lemma WrittenSwept(hs: seq<Handler>, how: How, name: string, object_: int, names: set<string>)
    requires name in names
    ensures Without(Written(hs, how, name, object_), names) == Without(hs, names)
  {
    hide Without;
    WithoutAppend(hs, [Handler(name, object_)], names);
    WithoutAppend(Without(hs, {name}), [Handler(name, object_)], names);
    WithoutOne(Handler(name, object_), names);
    WithoutTwice(hs, {name}, names);
    assert {name} + names == names;
  }

  ghost predicate WritesWithin(steps: seq<Step>, slot: Slot, names: set<string>) {
    forall i :: 0 <= i < |steps| && steps[i].Put? && steps[i].slot == slot ==> steps[i].name in names
  }

  // A sweep of all the names written leaves what sweeping before the steps leaves.
  lemma {:induction false} SweepUndoes(w: World, steps: seq<Step>, own: Loading, slot: Slot, names: set<string>)
    requires Total(w.lists) && WritesWithin(steps, slot, names)
    ensures Without(Ran(w, steps, own).lists[slot], names) == Without(w.lists[slot], names)
  {
    hide Without, Written;
    if steps != [] {
      var front, s := steps[..|steps| - 1], steps[|steps| - 1];
      assert forall i :: 0 <= i < |front| ==> steps[i] == front[i];
      SweepUndoes(w, front, own, slot, names);
      if s.Put? && s.slot == slot {
        WrittenSwept(Ran(w, front, own).lists[slot], s.how, s.name, own.object_, names);
      }
    }
  }

  lemma {:induction false} RanRegistered(w: World, steps: seq<Step>, own: Loading, m: Module)
    requires Total(w.lists)
    ensures m in Ran(w, steps, own).registered <==>
      m in w.registered || exists i :: 0 <= i < |steps| && steps[i] == Complete(m)
  {
    hide Written;
    if steps != [] {
      var front, s := steps[..|steps| - 1], steps[|steps| - 1];
      RanRegistered(w, front, own, m);
      assert forall i :: 0 <= i < |front| ==> steps[i] == front[i];
      assert steps[|steps| - 1] == s;
    }
  }

  // Every step writes a name that unregistration takes out again.
  lemma ProgramOwned(i: nat)
    requires i < |PROGRAM| && PROGRAM[i].Put?
    ensures PROGRAM[i].name in Owned(PROGRAM[i].slot)
  {
  }

  // Where in the program a name is written, and nowhere else.
  function WriteOf(slot: Slot, name: string): nat {
    match slot
    case FramePre => 0
    case FramePost => if name == "statistics_frame_change_handler" then 14 else 35
    case Depsgraph => if name == "_cleanup_deleted_objects" then FIRST_WRITE else 24
    case SavePre => 28
    case SavePost => if name == "migrate_pc2_on_save" then 25 else 29
    case LoadPre => 34
    case LoadPost =>
      if name == "_reset_cleanup_flag_on_load" then 9
      else if name == "_reconcile_manifest_on_load" then 30
      else if name == "_reconcile_pin_captured_anim_on_load" then 31
      else if name == "_request_cache_heal_on_load" then 32 else 33
    case RenderInit => 26
    case RenderPre => 27
    case UndoPost => 16
    case RedoPost => 17
  }

  lemma WriteOnce(i: nat)
    requires i < |PROGRAM| && PROGRAM[i].Put?
    ensures i == WriteOf(PROGRAM[i].slot, PROGRAM[i].name)
  {
  }

  lemma ProgramDistinct(i: nat, j: nat)
    requires i < j < |PROGRAM| && PROGRAM[i].Put? && PROGRAM[j].Put? && PROGRAM[i].slot == PROGRAM[j].slot
    ensures PROGRAM[i].name != PROGRAM[j].name
  {
    hide PROGRAM, WriteOf;
    WriteOnce(i);
    WriteOnce(j);
  }

  // Where in the program the last class of a module is registered, and nowhere else.
  function StepOf(m: Module): nat {
    match m
    case State => 1
    case MainPanel => 3
    case Solver => 5
    case GroupOps => 7
    case DynamicsOps => 11
    case Statistics => 13
    case MeshOps => MESH
    case Operators => 21
  }

  lemma ModuleAt(m: Module)
    ensures StepOf(m) < |PROGRAM| && PROGRAM[StepOf(m)] == Complete(m)
  {
  }

  lemma ModuleOnce(i: nat)
    requires i < |PROGRAM| && PROGRAM[i].Complete?
    ensures i == StepOf(PROGRAM[i].m)
  {
  }

  // ---- Undoing all, and stopping early ------------------------------------------------------

  const MODULES: set<Module> := {State, MainPanel, Solver, GroupOps, DynamicsOps, Statistics, MeshOps}

  lemma SweptThrice(lists: Lists, slot: Slot)
    requires Total(lists)
    ensures Sweep(Sweep(Sweep(lists, Guarded), Playback), Groups)[slot] == Clean(lists)[slot]
  {
    hide Without, Swept;
    WithoutTwice(lists[slot], Swept(Guarded, slot), Swept(Playback, slot));
    WithoutTwice(lists[slot], Swept(Guarded, slot) + Swept(Playback, slot), Swept(Groups, slot));
  }

  lemma DroppedAll(registered: set<Module>)
    requires MODULES - {MeshOps} <= registered
    ensures var (left, ok) := Dropped(registered, [Statistics, DynamicsOps]);
      && ok && left == registered - {Statistics, DynamicsOps}
      && Dropped(left, [GroupOps, Solver, MainPanel, State]) == (registered - (MODULES - {MeshOps}), true)
  {
    DroppedOne(registered, Statistics, [DynamicsOps]);
    var a := registered - {Statistics};
    DroppedOne(a, DynamicsOps, []);
    var b := a - {DynamicsOps};
    assert b == registered - {Statistics, DynamicsOps};
    DroppedOne(b, GroupOps, [Solver, MainPanel, State]);
    DroppedOne(b - {GroupOps}, Solver, [MainPanel, State]);
    DroppedOne(b - {GroupOps} - {Solver}, MainPanel, [State]);
    DroppedOne(b - {GroupOps} - {Solver} - {MainPanel}, State, []);
    assert b - {GroupOps} - {Solver} - {MainPanel} - {State} == registered - (MODULES - {MeshOps});
  }

  lemma DroppedOne(registered: set<Module>, m: Module, ms: seq<Module>)
    requires m in registered
    ensures Dropped(registered, [m] + ms) == Dropped(registered - {m}, ms)
    ensures Dropped(registered, []) == (registered, true)
  {
    assert ([m] + ms)[1..] == ms;
  }

  // Unregistration forgets every timer and leaves none it remembered, wherever it stops.
  lemma TimersCleared(w: World)
    requires Total(w.lists)
    ensures var u := Unregistered(w).0;
      u.deferred == [] && u.timers == w.timers - (set t | t in w.deferred)
  {
    hide Sweep, Dropped;
  }

  // With every module registered, unregistration ends and takes out every owned name.
  lemma UnregisterEnds(w: World)
    requires Total(w.lists) && MODULES <= w.registered
    ensures var (u, done) := Unregistered(w);
      && done && u.lists == Clean(w.lists) && u.registered == w.registered - MODULES - {Operators}
      && u.begun == w.begun - MODULES - {Operators}
  {
    hide Without, Swept, Dropped, Clean, Sweep;
    DroppedAll(w.registered - {Operators} - {MeshOps});
    var swept := Sweep(Sweep(Sweep(w.lists, Guarded), Playback), Groups);
    forall slot: Slot ensures swept[slot] == Clean(w.lists)[slot] {
      SweptThrice(w.lists, slot);
    }
    assert swept == Clean(w.lists);
    forall m: Module ensures m in MODULES || m == Operators {
    }
  }

  // m is reached: it and every module before it are registered.
  ghost predicate TakenOut(registered: set<Module>, ms: seq<Module>, m: Module) {
    exists i :: 0 <= i < |ms| && ms[i] == m && forall j :: 0 <= j <= i ==> ms[j] in registered
  }

  predicate NoneTwice(ms: seq<Module>) {
    forall i, j :: 0 <= i < j < |ms| ==> ms[i] != ms[j]
  }

  lemma {:induction false} DroppedExactly(registered: set<Module>, ms: seq<Module>)
    requires NoneTwice(ms)
    ensures var (left, ok) := Dropped(registered, ms);
      && (ok <==> forall m :: m in ms ==> m in registered)
      && forall m :: m in left <==> m in registered && !TakenOut(registered, ms, m)
    decreases |ms|
  {
    hide TakenOut;
    if ms == [] || ms[0] !in registered {
      forall m ensures !TakenOut(registered, ms, m) {
        TakenOutNone(registered, ms, m);
      }
      assert ms != [] ==> ms[0] in ms;
    } else {
      var rest := registered - {ms[0]};
      DroppedExactly(rest, ms[1..]);
      AllBut(registered, ms);
      var (left, ok) := Dropped(rest, ms[1..]);
      assert (left, ok) == Dropped(registered, ms);
      forall m ensures m in left <==> m in registered && !TakenOut(registered, ms, m) {
        TakenOutNext(registered, ms, m);
      }
    }
  }

  lemma TakenOutNone(registered: set<Module>, ms: seq<Module>, m: Module)
    requires ms == [] || ms[0] !in registered
    ensures !TakenOut(registered, ms, m)
  {
  }

  lemma AllBut(registered: set<Module>, ms: seq<Module>)
    requires NoneTwice(ms) && ms != [] && ms[0] in registered
    ensures (forall m :: m in ms ==> m in registered) <==> forall m :: m in ms[1..] ==> m in registered - {ms[0]}
  {
    assert ms == [ms[0]] + ms[1..];
    assert ms[0] !in ms[1..];
  }

  lemma TakenOutNext(registered: set<Module>, ms: seq<Module>, m: Module)
    requires NoneTwice(ms) && ms != [] && ms[0] in registered
    ensures TakenOut(registered, ms, m) <==> m == ms[0] || TakenOut(registered - {ms[0]}, ms[1..], m)
  {
    var rest := registered - {ms[0]};
    forall i | 0 <= i < |ms| - 1 ensures ms[1..][i] in rest <==> ms[i + 1] in registered {
    }
    if i :| 0 <= i < |ms| && ms[i] == m && forall j :: 0 <= j <= i ==> ms[j] in registered {
      if i > 0 {
        assert ms[1..][i - 1] == m;
      }
    }
    if i :| 0 <= i < |ms[1..]| && ms[1..][i] == m && forall j :: 0 <= j <= i ==> ms[1..][j] in rest {
      forall j | 0 <= j <= i + 1 ensures ms[j] in registered {
        if j > 0 {
          assert ms[1..][j - 1] in rest;
        }
      }
      assert ms[i + 1] == m;
    }
  }

  lemma {:induction false} DroppedThen(registered: set<Module>, ms: seq<Module>, more: seq<Module>)
    ensures var (left, ok) := Dropped(registered, ms);
      Dropped(registered, ms + more) == if ok then Dropped(left, more) else (left, false)
    decreases |ms|
  {
    if ms == [] {
      assert ms + more == more;
    } else {
      assert (ms + more)[1..] == ms[1..] + more;
      if ms[0] in registered {
        DroppedThen(registered - {ms[0]}, ms[1..], more);
      }
    }
  }

  lemma UnregisteredModules(w: World, order: seq<Module>)
    requires Total(w.lists)
    requires order == [MeshOps, Statistics, DynamicsOps, GroupOps, Solver, MainPanel, State]
    ensures var (u, done) := Unregistered(w); (u.registered, done) == Dropped(w.registered - {Operators}, order)
  {
    var first := w.registered - {Operators};
    hide Sweep, Dropped;
    DroppedThen(first, [MeshOps], [Statistics, DynamicsOps, GroupOps, Solver, MainPanel, State]);
    DroppedThen(first - {MeshOps}, [Statistics, DynamicsOps], [GroupOps, Solver, MainPanel, State]);
    DroppedFirst(first, MeshOps);
    assert [Statistics, DynamicsOps] + [GroupOps, Solver, MainPanel, State]
      == [Statistics, DynamicsOps, GroupOps, Solver, MainPanel, State];
    assert [MeshOps] + [Statistics, DynamicsOps, GroupOps, Solver, MainPanel, State] == order;
  }

  lemma DroppedFirst(registered: set<Module>, m: Module)
    ensures Dropped(registered, [m]) == if m in registered then (registered - {m}, true) else (registered, false)
  {
    assert [m][1..] == [];
  }

  // Wherever it stops: it ends exactly with all seven modules registered, and takes out those
  // of them reached in this order before one that is not there.
  lemma UnregisterStops(w: World)
    requires Total(w.lists)
    ensures var order := [MeshOps, Statistics, DynamicsOps, GroupOps, Solver, MainPanel, State];
      var (u, done) := Unregistered(w);
      && (done <==> forall m :: m in order ==> m in w.registered)
      && (forall m :: m in u.registered <==> m in w.registered && m != Operators && !TakenOut(w.registered, order, m))
  {
    hide Unregistered, Dropped, TakenOut;
    var order := [MeshOps, Statistics, DynamicsOps, GroupOps, Solver, MainPanel, State];
    UnregisteredModules(w, order);
    DroppedExactly(w.registered - {Operators}, order);
    forall m ensures TakenOut(w.registered - {Operators}, order, m) <==> TakenOut(w.registered, order, m) {
      TakenOutElse(w.registered, order, m);
    }
  }

  lemma TakenOutElse(registered: set<Module>, order: seq<Module>, m: Module)
    requires Operators !in order
    ensures TakenOut(registered - {Operators}, order, m) <==> TakenOut(registered, order, m)
  {
    assert forall j :: 0 <= j < |order| ==> (order[j] in registered - {Operators} <==> order[j] in registered);
  }

  lemma RegisteredAfter(w: World, own: Loading, k: nat, m: Module)
    requires Total(w.lists) && w.registered == {} && k <= |PROGRAM|
    ensures m in Ran(w, PROGRAM[..k], own).registered <==> StepOf(m) < k
  {
    hide Ran, PROGRAM, StepOf;
    var steps := PROGRAM[..k];
    RanRegistered(w, steps, own, m);
    ModuleAt(m);
    if StepOf(m) < k {
      assert steps[StepOf(m)] == Complete(m);
    }
    forall i | 0 <= i < |steps| && steps[i] == Complete(m) ensures i == StepOf(m) {
      ModuleOnce(i);
    }
  }

  lemma AllRegisteredAfter(w: World, own: Loading, k: nat)
    requires Total(w.lists) && w.registered == {} && MESH < k <= |PROGRAM|
    ensures MODULES <= Ran(w, PROGRAM[..k], own).registered
  {
    hide Ran, PROGRAM;
    forall m | m in MODULES ensures m in Ran(w, PROGRAM[..k], own).registered {
      RegisteredAfter(w, own, k, m);
    }
  }

  lemma CleanUndoes(w: World, own: Loading, k: nat)
    requires Total(w.lists) && k <= |PROGRAM|
    ensures Clean(Ran(w, PROGRAM[..k], own).lists) == Clean(w.lists)
  {
    hide Without, Owned, Ran, PROGRAM;
    forall slot: Slot
      ensures Without(Ran(w, PROGRAM[..k], own).lists[slot], Owned(slot)) == Without(w.lists[slot], Owned(slot))
    {
      forall i | 0 <= i < k && PROGRAM[..k][i].Put? && PROGRAM[..k][i].slot == slot
        ensures PROGRAM[..k][i].name in Owned(slot)
      {
        ProgramOwned(i);
      }
      SweepUndoes(w, PROGRAM[..k], own, slot, Owned(slot));
    }
  }

  // A registration that fails before step k is rolled back: past the mesh modules every
  // owned name is gone from every list; up to them the rollback itself stops at the mesh
  // modules, and only the guarded sweeps have been made.
  lemma Rollback(w: World, own: Loading, k: nat)
    requires Total(w.lists) && w.registered == {} && k <= |PROGRAM|
    ensures var v := Ran(w, PROGRAM[..k], own);
      var (u, done) := Unregistered(v);
      && u.deferred == [] && u.timers == v.timers - (set t | t in v.deferred)
      && if k > MESH then done && u.lists == Clean(w.lists) && u.registered == {} && u.begun == {}
      else
        && !done && u.lists == Sweep(v.lists, Guarded)
        && u.registered == v.registered - {Operators} && u.begun == v.begun - {Operators}
  {
    hide Without, Swept, Dropped, Clean, Sweep, Ran;
    var v := Ran(w, PROGRAM[..k], own);
    TimersCleared(v);
    RegisteredAfter(w, own, k, MeshOps);
    RegisteredAfter(w, own, k, Operators);
    if k > MESH {
      AllRegisteredAfter(w, own, k);
      UnregisterEnds(v);
      CleanUndoes(w, own, k);
      forall m: Module ensures m in MODULES || m == Operators {
      }
    }
  }

  // ---- When a rollback leaves nothing behind ------------------------------------------------

  ghost predicate Remains(lists: Lists, object_: int)
    requires Total(lists)
  {
    exists slot: Slot, h :: h in lists[slot] && h.object_ == object_
  }

  lemma RanLast(w: World, own: Loading, k: nat)
    requires Total(w.lists) && 0 < k <= |PROGRAM|
    ensures Ran(w, PROGRAM[..k], own) == DoStep(Ran(w, PROGRAM[..k - 1], own), PROGRAM[k - 1], own)
  {
    hide PROGRAM, DoStep;
    assert PROGRAM[..k][..k - 1] == PROGRAM[..k - 1];
  }

  lemma {:induction false} NoWritesYet(w: World, own: Loading, k: nat)
    requires Total(w.lists) && k <= FIRST_WRITE
    ensures Ran(w, PROGRAM[..k], own).lists == w.lists
  {
    ModuleAt(MeshOps);
    hide PROGRAM, DoStep;
    if k == 0 {
      assert PROGRAM[..0] == [];
    } else {
      NoWritesYet(w, own, k - 1);
      RanLast(w, own, k);
      FirstKeeps(Ran(w, PROGRAM[..k - 1], own), own, k - 1);
    }
  }

  // The first modules write no list.
  lemma FirstKeeps(w: World, own: Loading, i: nat)
    requires Total(w.lists) && i < FIRST_WRITE
    ensures DoStep(w, PROGRAM[i], own).lists == w.lists
  {
  }

  lemma {:induction false} CleanupThere(w: World, own: Loading, k: nat)
    requires Total(w.lists) && FIRST_WRITE < k <= MESH
    ensures Handler("_cleanup_deleted_objects", own.object_) in Ran(w, PROGRAM[..k], own).lists[Depsgraph]
  {
    hide PROGRAM, DoStep;
    ModuleAt(MeshOps);
    var h, before := Handler("_cleanup_deleted_objects", own.object_), Ran(w, PROGRAM[..k - 1], own);
    RanLast(w, own, k);
    if k == FIRST_WRITE + 1 {
      FirstWrite(before, own);
    } else {
      CleanupThere(w, own, k - 1);
      LaterKeeps(before, own, k - 1);
    }
  }

  lemma FirstWrite(w: World, own: Loading)
    requires Total(w.lists)
    ensures Handler("_cleanup_deleted_objects", own.object_) in DoStep(w, PROGRAM[FIRST_WRITE], own).lists[Depsgraph]
  {
    var hs, h := w.lists[Depsgraph], Handler("_cleanup_deleted_objects", own.object_);
    assert (hs + [h])[|hs|] == h;
  }

  // No step between the group module's append and the mesh modules writes the depsgraph list.
  lemma LaterKeeps(w: World, own: Loading, i: nat)
    requires Total(w.lists) && FIRST_WRITE < i < MESH
    ensures DoStep(w, PROGRAM[i], own).lists[Depsgraph] == w.lists[Depsgraph]
  {
    hide Written;
  }

  lemma KeptUnlisted(hs: seq<Handler>, names: set<string>, h: Handler)
    requires h in hs && h.name !in names
    ensures h in Without(hs, names)
  {
    WithoutHolds(hs, names, h);
    assert h in multiset(hs);
    assert h in multiset(Without(hs, names));
  }

  // The input that defeats a rollback: a failure in the dynamics or mesh package once the
  // group module has registered leaves its handler in the depsgraph list.
  lemma CleanupLeftBehind(w: World, own: Loading, k: nat)
    requires Total(w.lists) && w.registered == {} && FIRST_WRITE < k <= MESH
    ensures var u := Unregistered(Ran(w, PROGRAM[..k], own)).0;
      Handler("_cleanup_deleted_objects", own.object_) in u.lists[Depsgraph]
  {
    hide Without, Ran, Dropped;
    var h := Handler("_cleanup_deleted_objects", own.object_);
    Rollback(w, own, k);
    CleanupThere(w, own, k);
    assert h.name !in Swept(Guarded, Depsgraph);
    hide Swept, Unregistered;
    KeptUnlisted(Ran(w, PROGRAM[..k], own).lists[Depsgraph], Swept(Guarded, Depsgraph), h);
  }

  lemma SweptKeepsOut(lists: Lists, stage: Stage, object_: int)
    requires Total(lists) && !Remains(lists, object_)
    ensures !Remains(Sweep(lists, stage), object_) && !Remains(Clean(lists), object_)
  {
    hide Without, Swept, Owned;
    forall slot: Slot, h | h in Sweep(lists, stage)[slot] ensures h.object_ != object_ {
      WithoutNames(lists[slot], Swept(stage, slot), h);
    }
    forall slot: Slot, h | h in Clean(lists)[slot] ensures h.object_ != object_ {
      WithoutNames(lists[slot], Owned(slot), h);
    }
  }

  // A rollback leaves a function of the failed registration in some list exactly when the
  // failure comes after the group module's append and no later than the mesh modules.
  lemma RollbackLeaves(w: World, own: Loading, k: nat)
    requires Total(w.lists) && w.registered == {} && k <= |PROGRAM| && !Remains(w.lists, own.object_)
    ensures Remains(Unregistered(Ran(w, PROGRAM[..k], own)).0.lists, own.object_) <==> FIRST_WRITE < k <= MESH
  {
    hide Without, Ran, Sweep, Clean, Unregistered;
    Rollback(w, own, k);
    if k <= FIRST_WRITE {
      NoWritesYet(w, own, k);
      SweptKeepsOut(w.lists, Guarded, own.object_);
    } else if k <= MESH {
      CleanupLeftBehind(w, own, k);
    } else {
      SweptKeepsOut(w.lists, Guarded, own.object_);
    }
  }

  // ---- Registering again --------------------------------------------------------------------

  lemma RefusedAtOnce(w: World, own: Loading, fails: nat, k: nat)
    requires Total(w.lists) && State in w.begun && StopsAt(w, own, fails, k)
    ensures k == 0
  {
    assert PROGRAM[..0] == [] && Refused(Ran(w, PROGRAM[..0], own), PROGRAM[0]);
    hide Ran;
  }

  // Registering an add-on that is registered stops at the first class, and the rollback
  // then takes the whole add-on out.
  lemma SecondRegisterDisables(w: World, own: Loading, fails: nat, k: nat)
    requires Total(w.lists) && MODULES <= w.registered <= w.begun + {Operators} && StopsAt(w, own, fails, k)
    ensures k == 0
    ensures var (u, done) := Unregistered(w); done && u.lists == Clean(w.lists) && State !in u.registered
  {
    hide Unregistered, StopsAt;
    RefusedAtOnce(w, own, fails, k);
    UnregisterEnds(w);
  }

  lemma {:induction false} StateBegun(w: World, own: Loading, k: nat)
    requires Total(w.lists) && 0 < k <= |PROGRAM|
    ensures State in Ran(w, PROGRAM[..k], own).begun
  {
    hide PROGRAM, DoStep;
    var before := Ran(w, PROGRAM[..k - 1], own);
    RanLast(w, own, k);
    if k == 1 {
      StateFirst(before, own);
    } else {
      StateBegun(w, own, k - 1);
      StepBegins(before, PROGRAM[k - 1], own);
    }
  }

  lemma StateFirst(w: World, own: Loading)
    requires Total(w.lists)
    ensures State in DoStep(w, PROGRAM[0], own).begun
  {
    hide Written;
  }

  lemma StepBegins(w: World, s: Step, own: Loading)
    requires Total(w.lists)
    ensures w.begun <= DoStep(w, s, own).begun
  {
    hide Written;
  }

  // After a rollback that stopped early the classes registered so far stay, be it the first
  // one only, so every later registration stops at its first class and its rollback stops again.
  lemma StuckAfterward(w: World, own: Loading, k: nat, again: Loading, fails: nat, k': nat)
    requires Total(w.lists) && w.registered == {} && 0 < k <= MESH
    requires StopsAt(Unregistered(Ran(w, PROGRAM[..k], own)).0, again, fails, k')
    ensures var u := Unregistered(Ran(w, PROGRAM[..k], own)).0;
      k' == 0 && !Unregistered(u).1 && Unregistered(u).0.begun == u.begun && State in u.begun
  {
    var u := Unregistered(Ran(w, PROGRAM[..k], own)).0;
    hide Ran, Sweep, StopsAt, PROGRAM;
    StateBegun(w, own, k);
    RegisteredAfter(w, own, k, MeshOps);
    Rollback(w, own, k);
    RefusedAtOnce(u, again, fails, k');
  }

  ghost predicate AllNamed(lists: Lists, steps: seq<Step>)
    requires Total(lists)
  {
    forall i :: 0 <= i < |steps| && steps[i].Put? ==> Named(lists[steps[i].slot], steps[i].name)
  }

  predicate OnlyOnce(steps: seq<Step>) {
    forall i :: 0 <= i < |steps| ==> steps[i].Put? && steps[i].how == Once
  }

  lemma {:induction false} OnceNamed(w: World, steps: seq<Step>, own: Loading)
    requires Total(w.lists) && OnlyOnce(steps)
    ensures AllNamed(Ran(w, steps, own).lists, steps)
  {
    if steps != [] {
      var front, e := steps[..|steps| - 1], steps[|steps| - 1];
      var before := Ran(w, front, own).lists;
      assert forall i :: 0 <= i < |front| ==> steps[i] == front[i];
      OnceNamed(w, front, own);
      var after := Ran(w, steps, own).lists;
      var grown := Ensured(before[e.slot], e.name, own.object_);
      if !Named(before[e.slot], e.name) {
        assert grown[|grown| - 1].name == e.name;
      }
      forall i | 0 <= i < |front| ensures Named(after[front[i].slot], front[i].name) {
        var k :| 0 <= k < |before[front[i].slot]| && before[front[i].slot][k].name == front[i].name;
        assert after[front[i].slot][k] == before[front[i].slot][k];
      }
    }
  }

  lemma {:induction false} NamedUnchanged(w: World, steps: seq<Step>, own: Loading)
    requires Total(w.lists) && OnlyOnce(steps) && AllNamed(w.lists, steps)
    ensures Ran(w, steps, own) == w
  {
    if steps != [] {
      var front := steps[..|steps| - 1];
      assert forall i :: 0 <= i < |front| ==> steps[i] == front[i];
      NamedUnchanged(w, front, own);
      assert Named(w.lists[steps[|steps| - 1].slot], steps[|steps| - 1].name);
    }
  }

  // The appends written with a check for the name, PROGRAM[25..36].
  const CHECKED := PROGRAM[25..36]

  // Made twice, even by a reloaded module, the checked appends append nothing the second time.
  lemma CheckedTwice(w: World, first: Loading, second: Loading)
    requires Total(w.lists)
    ensures var once := Ran(w, CHECKED, first); Ran(once, CHECKED, second) == once
  {
    assert OnlyOnce(CHECKED);
    hide Ran;
    OnceNamed(w, CHECKED, first);
    NamedUnchanged(Ran(w, CHECKED, first), CHECKED, second);
  }

  // ---- What a cycle leaves ------------------------------------------------------------------

  function CountNamed(hs: seq<Handler>, name: string): nat {
    if hs == [] then 0 else CountNamed(hs[..|hs| - 1], name) + if hs[|hs| - 1].name == name then 1 else 0
  }

  // The handlers the steps add to one slot, in their order.
  function Additions(steps: seq<Step>, slot: Slot, object_: int): seq<Handler> {
    if steps == [] then [] else
    var s := steps[|steps| - 1];
    Additions(steps[..|steps| - 1], slot, object_) +
      if s.Put? && s.slot == slot then [Handler(s.name, object_)] else []
  }

  predicate WritesTo(s: Step, slot: Slot) {
    s.Put? && s.slot == slot
  }

  ghost predicate Distinct(steps: seq<Step>, slot: Slot) {
    forall i, j :: 0 <= i < j < |steps| && WritesTo(steps[i], slot) && WritesTo(steps[j], slot)
      ==> steps[i].name != steps[j].name
  }

  lemma {:induction false} AdditionsNamed(steps: seq<Step>, slot: Slot, object_: int, h: Handler)
    requires h in Additions(steps, slot, object_)
    ensures h.object_ == object_ && exists i :: 0 <= i < |steps| && WritesTo(steps[i], slot) && steps[i].name == h.name
  {
    var front := steps[..|steps| - 1];
    if h in Additions(front, slot, object_) {
      AdditionsNamed(front, slot, object_, h);
      var i :| 0 <= i < |front| && WritesTo(front[i], slot) && front[i].name == h.name;
      assert steps[i] == front[i];
    }
  }

  ghost predicate Unlisted(hs: seq<Handler>, steps: seq<Step>, slot: Slot) {
    forall i :: 0 <= i < |steps| && WritesTo(steps[i], slot) ==> !Named(hs, steps[i].name)
  }

  lemma WrittenUnnamed(hs: seq<Handler>, how: How, name: string, object_: int)
    requires !Named(hs, name)
    ensures Written(hs, how, name, object_) == hs + [Handler(name, object_)]
  {
    WithoutUnnamed(hs, {name});
    hide Without, Named;
  }

  lemma NamedApart(hs: seq<Handler>, added: seq<Handler>, name: string)
    requires !Named(hs, name) && forall h :: h in added ==> h.name != name
    ensures !Named(hs + added, name)
  {
    forall i | 0 <= i < |hs + added| ensures (hs + added)[i].name != name {
      if i >= |hs| {
        assert (hs + added)[i] == added[i - |hs|];
      }
    }
  }

  lemma AppendedNext(hs: seq<Handler>, front: seq<Step>, s: Step, object_: int)
    requires s.Put? && !Named(hs, s.name) && Distinct(front + [s], s.slot)
    ensures var grown := hs + Additions(front, s.slot, object_);
      Written(grown, s.how, s.name, object_) == grown + [Handler(s.name, object_)]
  {
    hide Written, Named;
    var added, all := Additions(front, s.slot, object_), front + [s];
    forall h | h in added ensures h.name != s.name {
      AdditionsNamed(front, s.slot, object_, h);
      var i :| 0 <= i < |front| && WritesTo(front[i], s.slot) && front[i].name == h.name;
      assert all[i] == front[i] && all[|front|] == s;
    }
    NamedApart(hs, added, s.name);
    WrittenUnnamed(hs + added, s.how, s.name, object_);
  }

  lemma AdditionsNext(front: seq<Step>, s: Step, slot: Slot, object_: int)
    ensures Additions(front + [s], slot, object_) ==
      Additions(front, slot, object_) + if WritesTo(s, slot) then [Handler(s.name, object_)] else []
  {
    assert (front + [s])[..|front + [s]| - 1] == front;
  }

  lemma StepAppends(v: World, hs: seq<Handler>, front: seq<Step>, s: Step, own: Loading, slot: Slot)
    requires Total(v.lists) && Distinct(front + [s], slot) && (WritesTo(s, slot) ==> !Named(hs, s.name))
    requires v.lists[slot] == hs + Additions(front, slot, own.object_)
    ensures DoStep(v, s, own).lists[slot] == hs + Additions(front + [s], slot, own.object_)
  {
    hide Written, Named, Additions, Distinct;
    AdditionsNext(front, s, slot, own.object_);
    if WritesTo(s, slot) {
      AppendedNext(hs, front, s, own.object_);
    }
  }

  // Onto a list without any of the names, registration appends each of them once, in order.
  lemma {:induction false} RanAppends(w: World, steps: seq<Step>, own: Loading, slot: Slot)
    requires Total(w.lists) && Distinct(steps, slot) && Unlisted(w.lists[slot], steps, slot)
    ensures Ran(w, steps, own).lists[slot] == w.lists[slot] + Additions(steps, slot, own.object_)
  {
    hide Named, DoStep;
    if steps == [] {
      assert w.lists[slot] + [] == w.lists[slot];
    } else {
      var front, s := steps[..|steps| - 1], steps[|steps| - 1];
      assert front + [s] == steps && forall i :: 0 <= i < |front| ==> steps[i] == front[i];
      RanAppends(w, front, own, slot);
      StepAppends(Ran(w, front, own), w.lists[slot], front, s, own, slot);
    }
  }

  lemma CleanUnlisted(lists: Lists, slot: Slot)
    requires Total(lists)
    ensures Unlisted(Clean(lists)[slot], PROGRAM, slot) && Distinct(PROGRAM, slot)
  {
    hide Without, Owned, PROGRAM;
    forall i | 0 <= i < |PROGRAM| && WritesTo(PROGRAM[i], slot) ensures !Named(Clean(lists)[slot], PROGRAM[i].name) {
      ProgramOwned(i);
      NothingListed(lists[slot], Owned(slot), PROGRAM[i].name);
    }
    forall i, j | 0 <= i < j < |PROGRAM| && WritesTo(PROGRAM[i], slot) && WritesTo(PROGRAM[j], slot)
      ensures PROGRAM[i].name != PROGRAM[j].name
    {
      ProgramDistinct(i, j);
    }
  }

  // From any lists, stale duplicates included, one unregister and register keeps every
  // handler of a name the add-on does not own in its place, and puts each owned one there
  // once, as this loading's own function.
  lemma CycleLeaves(w: World, own: Loading, slot: Slot)
    requires Total(w.lists) && MODULES <= w.registered
    ensures Ran(Unregistered(w).0, PROGRAM, own).lists[slot] ==
      Without(w.lists[slot], Owned(slot)) + Additions(PROGRAM, slot, own.object_)
  {
    hide Without, Owned, Additions, Ran, Unregistered;
    UnregisterEnds(w);
    CleanUnlisted(w.lists, slot);
    RanAppends(Unregistered(w).0, PROGRAM, own, slot);
  }

  lemma {:induction false} CountAppend(xs: seq<Handler>, ys: seq<Handler>, name: string)
    ensures CountNamed(xs + ys, name) == CountNamed(xs, name) + CountNamed(ys, name)
    decreases |ys|
  {
    if ys == [] {
      assert xs + ys == xs;
    } else {
      assert (xs + ys)[..|xs + ys| - 1] == xs + ys[..|ys| - 1];
      CountAppend(xs, ys[..|ys| - 1], name);
    }
  }

  lemma {:induction false} CountNone(hs: seq<Handler>, name: string)
    requires !Named(hs, name)
    ensures CountNamed(hs, name) == 0
  {
    if hs != [] {
      assert hs[|hs| - 1].name != name;
      CountNone(hs[..|hs| - 1], name);
    }
  }

  lemma {:induction false} AdditionsCount(steps: seq<Step>, slot: Slot, object_: int, i: nat)
    requires Distinct(steps, slot) && i < |steps| && WritesTo(steps[i], slot)
    ensures CountNamed(Additions(steps, slot, object_), steps[i].name) == 1
  {
    var front, s := steps[..|steps| - 1], steps[|steps| - 1];
    var older := Additions(front, slot, object_);
    assert forall j :: 0 <= j < |front| ==> steps[j] == front[j];
    if i == |front| {
      if k :| 0 <= k < |older| && older[k].name == s.name {
        AdditionsNamed(front, slot, object_, older[k]);
      }
      CountNone(older, s.name);
      CountAppend(older, [Handler(s.name, object_)], s.name);
      assert [Handler(s.name, object_)][..0] == [];
    } else {
      AdditionsCount(front, slot, object_, i);
      var last := if WritesTo(s, slot) then [Handler(s.name, object_)] else [];
      assert Additions(steps, slot, object_) == older + last;
      assert !Named(last, steps[i].name);
      CountNone(last, steps[i].name);
      CountAppend(older, last, steps[i].name);
    }
  }

  // ---- Whole sessions -----------------------------------------------------------------------

  // Out: no class registered, no timer remembered and no owned name listed. In: every module
  // registered and each written name listed once.
  ghost predicate Out(w: World) {
    Total(w.lists) && w.begun == {} && w.registered == {} && w.deferred == [] && Clean(w.lists) == w.lists
  }

  ghost predicate In(w: World) {
    && Total(w.lists) && MODULES <= w.begun && MODULES + {Operators} <= w.registered
    && forall i :: 0 <= i < |PROGRAM| && PROGRAM[i].Put? ==>
      CountNamed(w.lists[PROGRAM[i].slot], PROGRAM[i].name) == 1
  }

  // The add-on disabled or enabled, or a timer of the application firing for the last time.
  datatype Call = Disable | Enable(own: Loading, fails: nat) | Fire(timer: int)

  function Enabled(w: World, own: Loading, k: nat): World
    requires Total(w.lists) && k <= |PROGRAM|
  {
    var v := Ran(w, PROGRAM[..k], own);
    if k == |PROGRAM| then v else Unregistered(v).0
  }

  // One call: an enabling that stops before step k is rolled back unless k is the end.
  ghost predicate Calls(w: World, c: Call, k: nat, w': World) {
    Total(w.lists) &&
    match c
    case Disable => w' == Unregistered(w).0
    case Fire(timer) => w' == w.(timers := w.timers - {timer})
    case Enable(own, fails) => StopsAt(w, own, fails, k) && w' == Enabled(w, own, k)
  }

  lemma CleanSwept(lists: Lists, stage: Stage)
    requires Total(lists) && Clean(lists) == lists
    ensures Sweep(lists, stage) == lists
  {
    hide Without, Swept;
    forall slot: Slot ensures Without(lists[slot], Swept(stage, slot)) == lists[slot] {
      assert Clean(lists)[slot] == lists[slot];
      WithoutTwice(lists[slot], Owned(slot), Swept(stage, slot));
      assert Owned(slot) + Swept(stage, slot) == Owned(slot);
    }
  }

  lemma EnabledFully(w: World, own: Loading)
    requires Out(w)
    ensures In(Ran(w, PROGRAM, own))
  {
    hide Ran, Without, Owned, CountNamed, Additions, Named, PROGRAM;
    var v := Ran(w, PROGRAM, own);
    assert PROGRAM[..|PROGRAM|] == PROGRAM;
    forall m: Module ensures m in v.registered && (m in MODULES ==> m in v.begun) {
      RegisteredAfter(w, own, |PROGRAM|, m);
      ModuleAt(m);
      if m in MODULES {
        BegunBefore(w, own, |PROGRAM|, m);
      }
    }
    forall i | 0 <= i < |PROGRAM| && PROGRAM[i].Put?
      ensures CountNamed(v.lists[PROGRAM[i].slot], PROGRAM[i].name) == 1
    {
      WrittenOnce(w, own, i);
    }
  }

  lemma {:induction false} BegunBefore(w: World, own: Loading, k: nat, m: Module)
    requires Total(w.lists) && m in MODULES && StepOf(m) < k <= |PROGRAM|
    ensures m in Ran(w, PROGRAM[..k], own).begun
  {
    hide PROGRAM, DoStep, StepOf;
    BegunStep(m);
    var before := Ran(w, PROGRAM[..k - 1], own);
    RanLast(w, own, k);
    StepBegins(before, PROGRAM[k - 1], own);
    if k > StepOf(m) + 1 {
      BegunBefore(w, own, k - 1, m);
    } else {
      var older := Ran(w, PROGRAM[..k - 2], own);
      RanLast(w, own, k - 1);
      BeginBegins(older, m, own);
    }
  }

  lemma BegunStep(m: Module)
    requires m in MODULES
    ensures 0 < StepOf(m) < |PROGRAM| && PROGRAM[StepOf(m) - 1] == Begin(m)
  {
  }

  lemma BeginBegins(w: World, m: Module, own: Loading)
    requires Total(w.lists)
    ensures m in DoStep(w, Begin(m), own).begun
  {
  }

  lemma WrittenOnce(w: World, own: Loading, i: nat)
    requires Total(w.lists) && Clean(w.lists) == w.lists && i < |PROGRAM| && PROGRAM[i].Put?
    ensures CountNamed(Ran(w, PROGRAM, own).lists[PROGRAM[i].slot], PROGRAM[i].name) == 1
  {
    hide Ran, Without, Owned, CountNamed, Additions, Named, PROGRAM, Unlisted, Distinct;
    var slot, name := PROGRAM[i].slot, PROGRAM[i].name;
    assert Clean(w.lists)[slot] == w.lists[slot];
    CleanUnlisted(w.lists, slot);
    RanAppends(w, PROGRAM, own, slot);
    ProgramOwned(i);
    NothingListed(w.lists[slot], Owned(slot), name);
    CountNone(w.lists[slot], name);
    CountAppend(w.lists[slot], Additions(PROGRAM, slot, own.object_), name);
    AdditionsCount(PROGRAM, slot, own.object_, i);
  }

  lemma OutDisabled(w: World)
    requires Out(w)
    ensures Out(Unregistered(w).0)
  {
    hide Sweep, Clean, Dropped;
    TimersCleared(w);
    CleanSwept(w.lists, Guarded);
  }

  lemma InDisabled(w: World)
    requires In(w)
    ensures Out(Unregistered(w).0)
  {
    hide Unregistered, Clean;
    TimersCleared(w);
    UnregisterEnds(w);
    CleanTwice(w.lists);
    forall m: Module ensures m in MODULES || m == Operators {
    }
  }

  lemma CleanTwice(lists: Lists)
    requires Total(lists)
    ensures Clean(Clean(lists)) == Clean(lists)
  {
    hide Without, Owned;
    forall slot: Slot ensures Clean(Clean(lists))[slot] == Clean(lists)[slot] {
      WithoutTwice(lists[slot], Owned(slot), Owned(slot));
      assert Owned(slot) + Owned(slot) == Owned(slot);
    }
  }

  // Registration has come to step k without stopping, and this is the world there.
  ghost predicate At(w: World, own: Loading, fails: nat, k: nat, now: World) {
    Total(w.lists) && k <= |PROGRAM| && Reached(w, own, fails, k) && now == Ran(w, PROGRAM[..k], own)
  }

  lemma AtStart(w: World, own: Loading, fails: nat)
    requires Total(w.lists)
    ensures At(w, own, fails, 0, w)
  {
  }

  lemma AtNext(w: World, own: Loading, fails: nat, k: nat, now: World)
    requires At(w, own, fails, k, now) && k < |PROGRAM| && k != fails && !Refused(now, PROGRAM[k])
    ensures Total(now.lists) && At(w, own, fails, k + 1, DoStep(now, PROGRAM[k], own))
  {
    hide PROGRAM, Ran, Refused, DoStep, Reached;
    RanLast(w, own, k + 1);
    ReachedNext(w, own, fails, k);
  }

  lemma ReachedNext(w: World, own: Loading, fails: nat, k: nat)
    requires Total(w.lists) && k < |PROGRAM| && Reached(w, own, fails, k)
    requires k != fails && !Refused(Ran(w, PROGRAM[..k], own), PROGRAM[k])
    ensures Reached(w, own, fails, k + 1)
  {
    hide PROGRAM, Ran, Refused;
    forall i: int | 0 <= i < k + 1 ensures i != fails && !Refused(Ran(w, PROGRAM[..i], own), PROGRAM[i]) {
      if i < k {
        ReachedAt(w, own, fails, k, i);
      }
    }
  }

  lemma ReachedAt(w: World, own: Loading, fails: nat, k: nat, i: nat)
    requires Total(w.lists) && k <= |PROGRAM| && Reached(w, own, fails, k) && i < k
    ensures i != fails && !Refused(Ran(w, PROGRAM[..i], own), PROGRAM[i])
  {
    hide PROGRAM, Ran, Refused;
    var s := PROGRAM[i];
  }

  lemma AtStops(w: World, own: Loading, fails: nat, k: nat, now: World)
    requires At(w, own, fails, k, now) && (k < |PROGRAM| ==> k == fails || Refused(now, PROGRAM[k]))
    ensures StopsAt(w, own, fails, k) && now == Ran(w, PROGRAM[..k], own)
  {
    hide PROGRAM, Ran, Refused, Reached;
  }

  lemma RanNothing(w: World, own: Loading)
    requires Total(w.lists)
    ensures Ran(w, [], own) == w
  {
  }

  // After a cycle each name the add-on registers is in its list exactly once, whatever
  // stale copies were there.
  lemma EachOnce(w: World, own: Loading, i: nat)
    requires Total(w.lists) && MODULES <= w.registered && i < |PROGRAM| && PROGRAM[i].Put?
    ensures CountNamed(Ran(Unregistered(w).0, PROGRAM, own).lists[PROGRAM[i].slot], PROGRAM[i].name) == 1
  {
    hide Clean, Ran, CountNamed, Unregistered, PROGRAM;
    UnregisterEnds(w);
    CleanTwice(w.lists);
    WrittenOnce(Unregistered(w).0, own, i);
  }

  // An add-on that is out and is enabled ends in or out again, if and only if the
  // registration stops at the very first class or after the mesh modules are registered.
  lemma EnableSettles(w: World, own: Loading, fails: nat, k: nat, w': World)
    requires Out(w) && Calls(w, Enable(own, fails), k, w')
    ensures (In(w') || Out(w')) <==> k == 0 || k > MESH
    ensures In(w') <==> k == |PROGRAM|
    ensures k == |PROGRAM| ==>
      w'.timers == w.timers + {own.first, own.second} && w'.deferred == [own.first, own.second]
    ensures k < |PROGRAM| ==> w'.timers <= w.timers && w'.deferred == []
  {
    hide Ran, Unregistered, Sweep, Clean, PROGRAM;
    TimersHeld(w, own, k);
    ProgramLength();
    assert PROGRAM[..|PROGRAM|] == PROGRAM;
    ModuleAt(MeshOps);
    Rollback(w, own, k);
    RegisteredAfter(w, own, k, MeshOps);
    if k == |PROGRAM| {
      EnabledFully(w, own);
    } else if k == 0 {
      assert PROGRAM[..0] == [];
      RanNothing(w, own);
      CleanSwept(w.lists, Guarded);
    } else if k > MESH {
      assert w'.lists == w.lists;
    } else {
      StateBegun(w, own, k);
      assert State in w'.begun && MeshOps !in w'.registered && MeshOps in MODULES + {Operators};
    }
  }

  // The timers held and remembered before step k.
  lemma {:induction false} TimersHeld(w: World, own: Loading, k: nat)
    requires Total(w.lists) && k <= |PROGRAM|
    ensures var v := Ran(w, PROGRAM[..k], own);
      var own_ := if k > 36 then [own.first, own.second] else if k > 23 then [own.first] else [];
      && v.deferred == w.deferred + own_ && v.timers == w.timers + set t | t in own_
  {
    hide PROGRAM, DoStep;
    if k == 0 {
      assert PROGRAM[..0] == [];
      RanNothing(w, own);
    } else {
      var before := Ran(w, PROGRAM[..k - 1], own);
      TimersHeld(w, own, k - 1);
      RanLast(w, own, k);
      TimerStep(before, own, k - 1);
    }
  }

  lemma ProgramLength()
    ensures |PROGRAM| == 38
  {
  }

  // Two steps schedule a timer, the first and then the second.
  lemma TimerStep(w: World, own: Loading, i: nat)
    requires Total(w.lists) && i < |PROGRAM|
    ensures var v := DoStep(w, PROGRAM[i], own);
      if i == 23 then v.timers == w.timers + {own.first} && v.deferred == w.deferred + [own.first]
      else if i == 36 then v.timers == w.timers + {own.second} && v.deferred == w.deferred + [own.second]
      else v.timers == w.timers && v.deferred == w.deferred
  {
    hide Written;
    assert PROGRAM[i].Defer? <==> i == 23 || i == 36;
  }

  // Such a stop: a failure at any later class of the first module.
  lemma HalfSetUp(w: World, own: Loading, w': World)
    requires Out(w) && Calls(w, Enable(own, 1), 1, w')
    ensures !In(w') && !Out(w') && State in w'.begun && State !in w'.registered
  {
    hide Ran, Unregistered, Sweep, Clean, PROGRAM;
    ModuleAt(MeshOps);
    Rollback(w, own, 1);
    RegisteredAfter(w, own, 1, State);
    StateBegun(w, own, 1);
    EnableSettles(w, own, 1, 1, w');
  }

  // An add-on that is in and is enabled or disabled ends out.
  lemma InLeaves(w: World, c: Call, k: nat, w': World)
    requires In(w) && Calls(w, c, k, w') && !c.Fire?
    ensures Out(w')
  {
    hide Unregistered, Out, StopsAt;
    InDisabled(w);
    if c.Enable? {
      RefusedAtOnce(w, c.own, c.fails, k);
    }
  }

  // Along a run, registrations that do not stop between the first class and the mesh
  // modules keep the add-on in or out.
  ghost predicate Run(ws: seq<World>, cs: seq<Call>, ks: seq<nat>) {
    && |ws| == |cs| + 1 && |ks| == |cs|
    && forall i :: 0 <= i < |cs| ==> Calls(ws[i], cs[i], ks[i], ws[i + 1])
  }

  lemma FiredSettled(w: World, timer: int)
    requires In(w) || Out(w)
    ensures var w' := w.(timers := w.timers - {timer}); In(w') || Out(w')
  {
    hide CountNamed, Clean, PROGRAM;
  }

  // Over any run, every timer held was held before the run or is remembered: once the add-on
  // is out, none of its own is left.
  lemma {:induction false} RunsLeaveNoTimer(ws: seq<World>, cs: seq<Call>, ks: seq<nat>, i: nat)
    requires Run(ws, cs, ks) && i < |ws|
    ensures forall t :: t in ws[i].timers ==> t in ws[0].timers || t in ws[i].deferred
    ensures ws[i].deferred == [] ==> ws[i].timers <= ws[0].timers
  {
    hide Calls;
    if i > 0 {
      RunsLeaveNoTimer(ws, cs, ks, i - 1);
      assert Calls(ws[i - 1], cs[i - 1], ks[i - 1], ws[i - 1 + 1]);
      CallTimers(ws[i - 1], cs[i - 1], ks[i - 1], ws[i]);
    }
  }

  lemma CallTimers(w: World, c: Call, k: nat, w': World)
    requires Calls(w, c, k, w')
    ensures forall t :: t in w'.timers ==> t in w'.deferred || (t in w.timers && (t in w.deferred ==> t in w'.deferred))
  {
    hide Unregistered, Reached, Refused, Ran, PROGRAM;
    match c
    case Disable =>
      TimersCleared(w);
    case Fire(timer) =>
    case Enable(own, fails) =>
      TimersHeld(w, own, k);
      TimersCleared(Ran(w, PROGRAM[..k], own));
  }

  lemma SettledStep(w: World, c: Call, k: nat, w': World)
    requires (In(w) || Out(w)) && Calls(w, c, k, w') && (c.Enable? ==> k == 0 || k > MESH)
    ensures In(w') || Out(w')
  {
    hide Unregistered, Enabled, StopsAt, Out, In;
    if c.Fire? {
      FiredSettled(w, c.timer);
    } else if In(w) {
      InLeaves(w, c, k, w');
    } else if c == Disable {
      OutDisabled(w);
    } else {
      EnableSettles(w, c.own, c.fails, k, w');
    }
  }

  lemma {:induction false} RunsStaySettled(ws: seq<World>, cs: seq<Call>, ks: seq<nat>, i: nat)
    requires Run(ws, cs, ks) && (In(ws[0]) || Out(ws[0])) && i < |ws|
    requires forall j :: 0 <= j < |ks| && cs[j].Enable? ==> ks[j] == 0 || ks[j] > MESH
    ensures In(ws[i]) || Out(ws[i])
  {
    hide In, Out, Calls;
    if i > 0 {
      RunsStaySettled(ws, cs, ks, i - 1);
      SettledStep(ws[i - 1], cs[i - 1], ks[i - 1], ws[i]);
    }
  }

  // ---- The lists, name by name ----------------------------------------------------------------

  lemma {:induction false} AdditionsSkip(slot: Slot, object_: int, i: nat, j: nat)
    requires i <= j <= |PROGRAM| && forall n :: i <= n < j ==> !WritesTo(PROGRAM[n], slot)
    ensures Additions(PROGRAM[..j], slot, object_) == Additions(PROGRAM[..i], slot, object_)
    decreases j - i
  {
    hide PROGRAM, Additions;
    if i < j {
      AdditionsSkip(slot, object_, i, j - 1);
      AdditionsAt(slot, object_, j - 1);
    }
  }

  lemma AdditionsAt(slot: Slot, object_: int, i: nat)
    requires i < |PROGRAM|
    ensures Additions(PROGRAM[..i + 1], slot, object_) == Additions(PROGRAM[..i], slot, object_) +
      if WritesTo(PROGRAM[i], slot) then [Handler(PROGRAM[i].name, object_)] else []
  {
    hide PROGRAM, Additions;
    assert PROGRAM[..i + 1] == PROGRAM[..i] + [PROGRAM[i]];
    AdditionsNext(PROGRAM[..i], PROGRAM[i], slot, object_);
  }

  lemma NoAdditions(slot: Slot, object_: int)
    ensures Additions(PROGRAM[..0], slot, object_) == []
  {
  }

  // The next name written to a list, no step from i to j writing it.
  lemma NextAddition(slot: Slot, object_: int, i: nat, j: nat, name: string)
    requires i <= j < |PROGRAM| && Puts(PROGRAM[j], slot, name)
    requires forall n :: i <= n < j ==> !WritesTo(PROGRAM[n], slot)
    ensures Additions(PROGRAM[..j + 1], slot, object_) ==
      Additions(PROGRAM[..i], slot, object_) + [Handler(name, object_)]
  {
    hide PROGRAM, Additions;
    AdditionsSkip(slot, object_, i, j);
    AdditionsAt(slot, object_, j);
  }

  // Where each list is written.
  predicate WritesAt(slot: Slot, i: nat) {
    match slot
    case FramePre => false
    case FramePost => i == 14 || i == 35
    case Depsgraph => i == 8 || i == 24
    case SavePre => i == 28
    case SavePost => i == 25 || i == 29
    case LoadPre => i == 34
    case LoadPost => i == 9 || 30 <= i <= 33
    case RenderInit => i == 26
    case RenderPre => i == 27
    case UndoPost => i == 16
    case RedoPost => i == 17
  }

  lemma WritesThere(i: nat, slot: Slot)
    requires i < |PROGRAM| && WritesTo(PROGRAM[i], slot)
    ensures WritesAt(slot, i)
  {
    WriteOnce(i);
    FirstBegins();
    hide PROGRAM;
  }

  lemma FirstBegins()
    ensures PROGRAM[0] == Begin(State)
  {
  }

  predicate Puts(s: Step, slot: Slot, name: string) {
    s.Put? && s.slot == slot && s.name == name
  }

  lemma FirstNames()
    ensures |PROGRAM| == 38
    ensures Puts(PROGRAM[8], Depsgraph, "_cleanup_deleted_objects")
    ensures Puts(PROGRAM[9], LoadPost, "_reset_cleanup_flag_on_load")
  {
  }

  lemma EarlyNames()
    ensures |PROGRAM| == 38
    ensures Puts(PROGRAM[14], FramePost, "statistics_frame_change_handler")
    ensures Puts(PROGRAM[16], UndoPost, "_on_undo_redo") && Puts(PROGRAM[17], RedoPost, "_on_undo_redo")
  {
  }

  lemma MiddleNames()
    ensures |PROGRAM| == 38
    ensures Puts(PROGRAM[24], Depsgraph, "_on_depsgraph_update") && Puts(PROGRAM[25], SavePost, "migrate_pc2_on_save")
    ensures Puts(PROGRAM[26], RenderInit, "reset_render_counter")
  {
  }

  lemma SaveNames()
    ensures |PROGRAM| == 38
    ensures Puts(PROGRAM[27], RenderPre, "warn_missing_frames_on_render")
    ensures Puts(PROGRAM[28], SavePre, "_persist_session_id") && Puts(PROGRAM[29], SavePost, "_save_manifest_post")
  {
  }

  lemma LateNames()
    ensures |PROGRAM| == 38
    ensures Puts(PROGRAM[30], LoadPost, "_reconcile_manifest_on_load")
    ensures Puts(PROGRAM[31], LoadPost, "_reconcile_pin_captured_anim_on_load")
    ensures Puts(PROGRAM[32], LoadPost, "_request_cache_heal_on_load")
    ensures Puts(PROGRAM[33], LoadPost, "_release_force_field_cache_on_load")
    ensures Puts(PROGRAM[34], LoadPre, "_disconnect_on_load")
      && Puts(PROGRAM[35], FramePost, "curve_frame_change_handler")
  {
  }

  lemma NoOtherWrites(slot: Slot)
    ensures forall n :: 0 <= n < |PROGRAM| && !WritesAt(slot, n) ==> !WritesTo(PROGRAM[n], slot)
  {
    hide PROGRAM, WritesTo, WritesAt;
    forall n | 0 <= n < |PROGRAM| && !WritesAt(slot, n) ensures !WritesTo(PROGRAM[n], slot) {
      if WritesTo(PROGRAM[n], slot) {
        WritesThere(n, slot);
      }
    }
  }

  lemma AllAdditions(slot: Slot, object_: int)
    ensures Additions(PROGRAM, slot, object_) == Additions(PROGRAM[..38], slot, object_)
  {
    ProgramLength();
    assert PROGRAM[..38] == PROGRAM;
  }

  lemma OneAddition(slot: Slot, object_: int, i: nat, name: string)
    requires i < 38 && |PROGRAM| == 38 && Puts(PROGRAM[i], slot, name)
    requires forall n :: 0 <= n < 38 && n != i ==> !WritesTo(PROGRAM[n], slot)
    ensures Additions(PROGRAM, slot, object_) == [Handler(name, object_)]
  {
    hide PROGRAM, Additions;
    AllAdditions(slot, object_);
    NoAdditions(slot, object_);
    NextAddition(slot, object_, 0, i, name);
    AdditionsSkip(slot, object_, i + 1, 38);
  }

  lemma TwoAdditions(slot: Slot, object_: int, i: nat, j: nat, name: string, name': string)
    requires i < j < 38 && |PROGRAM| == 38 && Puts(PROGRAM[i], slot, name) && Puts(PROGRAM[j], slot, name')
    requires forall n :: 0 <= n < 38 && n != i && n != j ==> !WritesTo(PROGRAM[n], slot)
    ensures Additions(PROGRAM, slot, object_) == [Handler(name, object_), Handler(name', object_)]
  {
    hide PROGRAM, Additions;
    AllAdditions(slot, object_);
    NoAdditions(slot, object_);
    NextAddition(slot, object_, 0, i, name);
    NextAddition(slot, object_, i + 1, j, name');
    AdditionsSkip(slot, object_, j + 1, 38);
  }

  lemma LoadAdditions(object_: int)
    ensures Additions(PROGRAM, LoadPost, object_) == [Handler("_reset_cleanup_flag_on_load", object_),
      Handler("_reconcile_manifest_on_load", object_), Handler("_reconcile_pin_captured_anim_on_load", object_),
      Handler("_request_cache_heal_on_load", object_), Handler("_release_force_field_cache_on_load", object_)]
  {
    hide PROGRAM, Additions, WritesTo, Puts;
    FirstNames();
    LateNames();
    NoOtherWrites(LoadPost);
    AllAdditions(LoadPost, object_);
    NoAdditions(LoadPost, object_);
    NextAddition(LoadPost, object_, 0, 9, "_reset_cleanup_flag_on_load");
    NextAddition(LoadPost, object_, 10, 30, "_reconcile_manifest_on_load");
    NextAddition(LoadPost, object_, 31, 31, "_reconcile_pin_captured_anim_on_load");
    NextAddition(LoadPost, object_, 32, 32, "_request_cache_heal_on_load");
    NextAddition(LoadPost, object_, 33, 33, "_release_force_field_cache_on_load");
    AdditionsSkip(LoadPost, object_, 34, 38);
  }

  lemma FrameAdditions(o: int)
    ensures Additions(PROGRAM, FramePre, o) == []
    ensures Additions(PROGRAM, FramePost, o) ==
      [Handler("statistics_frame_change_handler", o), Handler("curve_frame_change_handler", o)]
    ensures Additions(PROGRAM, Depsgraph, o) ==
      [Handler("_cleanup_deleted_objects", o), Handler("_on_depsgraph_update", o)]
    ensures Additions(PROGRAM, UndoPost, o) == [Handler("_on_undo_redo", o)]
    ensures Additions(PROGRAM, RedoPost, o) == [Handler("_on_undo_redo", o)]
  {
    hide PROGRAM, Additions, WritesTo, Puts;
    FirstNames();
    EarlyNames();
    MiddleNames();
    LateNames();
    AllAdditions(FramePre, o);
    NoAdditions(FramePre, o);
    NoOtherWrites(FramePre);
    AdditionsSkip(FramePre, o, 0, 38);
    NoOtherWrites(FramePost);
    TwoAdditions(FramePost, o, 14, 35, "statistics_frame_change_handler", "curve_frame_change_handler");
    NoOtherWrites(Depsgraph);
    TwoAdditions(Depsgraph, o, 8, 24, "_cleanup_deleted_objects", "_on_depsgraph_update");
    NoOtherWrites(UndoPost);
    OneAddition(UndoPost, o, 16, "_on_undo_redo");
    NoOtherWrites(RedoPost);
    OneAddition(RedoPost, o, 17, "_on_undo_redo");
  }

  lemma SaveAdditions(o: int)
    ensures Additions(PROGRAM, SavePre, o) == [Handler("_persist_session_id", o)]
    ensures Additions(PROGRAM, SavePost, o) == [Handler("migrate_pc2_on_save", o), Handler("_save_manifest_post", o)]
    ensures Additions(PROGRAM, LoadPre, o) == [Handler("_disconnect_on_load", o)]
    ensures Additions(PROGRAM, RenderInit, o) == [Handler("reset_render_counter", o)]
    ensures Additions(PROGRAM, RenderPre, o) == [Handler("warn_missing_frames_on_render", o)]
  {
    hide PROGRAM, Additions, WritesTo, Puts;
    MiddleNames();
    SaveNames();
    LateNames();
    NoOtherWrites(SavePre);
    OneAddition(SavePre, o, 28, "_persist_session_id");
    NoOtherWrites(SavePost);
    TwoAdditions(SavePost, o, 25, 29, "migrate_pc2_on_save", "_save_manifest_post");
    NoOtherWrites(LoadPre);
    OneAddition(LoadPre, o, 34, "_disconnect_on_load");
    NoOtherWrites(RenderInit);
    OneAddition(RenderInit, o, 26, "reset_render_counter");
    NoOtherWrites(RenderPre);
    OneAddition(RenderPre, o, 27, "warn_missing_frames_on_render");
  }

  // What unregistration takes out of each list: the names it writes, and the three frame
  // handlers, two of them retired, from all three frame lists.
  lemma OwnedNames()
    ensures var frame := {"curve_frame_change_handler", "pin_frame_change_handler", "invalidate_full_pin_cache"};
      && Owned(FramePre) == frame && Owned(FramePost) == frame + {"statistics_frame_change_handler"}
      && Owned(Depsgraph) == frame + {"_on_depsgraph_update", "_cleanup_deleted_objects"}
    ensures Owned(SavePre) == {"_persist_session_id"}
      && Owned(SavePost) == {"migrate_pc2_on_save", "_save_manifest_post"}
    ensures Owned(LoadPre) == {"_disconnect_on_load"}
    ensures Owned(LoadPost) == {"_reset_cleanup_flag_on_load", "_reconcile_manifest_on_load",
      "_reconcile_pin_captured_anim_on_load", "_request_cache_heal_on_load", "_release_force_field_cache_on_load"}
    ensures Owned(RenderInit) == {"reset_render_counter"} && Owned(RenderPre) == {"warn_missing_frames_on_render"}
    ensures Owned(UndoPost) == {"_on_undo_redo"} && Owned(RedoPost) == {"_on_undo_redo"}
  {
  }

  // Where it stops at the mesh modules, the names only its first walks take out.
  lemma GuardedNames()
    ensures var frame := {"curve_frame_change_handler", "pin_frame_change_handler", "invalidate_full_pin_cache"};
      && Swept(Guarded, FramePre) == frame && Swept(Guarded, FramePost) == frame
      && Swept(Guarded, Depsgraph) == frame + {"_on_depsgraph_update"}
    ensures Swept(Guarded, SavePre) == Owned(SavePre) && Swept(Guarded, SavePost) == Owned(SavePost)
    ensures Swept(Guarded, LoadPre) == Owned(LoadPre)
    ensures Swept(Guarded, LoadPost) == Owned(LoadPost) - {"_reset_cleanup_flag_on_load"}
    ensures Swept(Guarded, RenderInit) == Owned(RenderInit) && Swept(Guarded, RenderPre) == Owned(RenderPre)
    ensures Swept(Guarded, UndoPost) == {} && Swept(Guarded, RedoPost) == {}
  {
  }

  // What one write does to a list: other names keep their handlers and order; an append that
  // is always made adds one, one after dropping stale copies leaves this loading's alone, and
  // one made only where the name is missing leaves the older one.
  lemma WrittenMeans(hs: seq<Handler>, how: How, name: string, object_: int)
    ensures var after := Written(hs, how, name, object_);
      && Without(after, {name}) == Without(hs, {name})
      && (how == Always ==> CountNamed(after, name) == CountNamed(hs, name) + 1)
      && (how == Fresh ==> CountNamed(after, name) == 1 && after != [] && after[|after| - 1] == Handler(name, object_))
      && (how == Once ==> if Named(hs, name) then after == hs else after == hs + [Handler(name, object_)])
  {
    hide Without, CountNamed, Named;
    var h := Handler(name, object_);
    WrittenSwept(hs, how, name, object_, {name});
    CountOne(h);
    CountAppend(hs, [h], name);
    CountAppend(Without(hs, {name}), [h], name);
    NothingListed(hs, {name}, name);
    CountNone(Without(hs, {name}), name);
  }

  lemma CountOne(h: Handler)
    ensures CountNamed([h], h.name) == 1
  {
    assert [h][..0] == [];
  }

  lemma Appended(w: World, own: Loading, fails: nat, w': World, slot: Slot)
    requires Out(w) && Calls(w, Enable(own, fails), |PROGRAM|, w')
    ensures slot in w.lists && slot in w'.lists
    ensures w'.lists[slot] == w.lists[slot] + Additions(PROGRAM, slot, own.object_)
  {
    hide Ran, Unregistered, Clean, PROGRAM, Additions, StopsAt, Unlisted, Distinct;
    assert PROGRAM[..|PROGRAM|] == PROGRAM;
    CleanUnlisted(w.lists, slot);
    assert Clean(w.lists)[slot] == w.lists[slot];
    RanAppends(w, PROGRAM, own, slot);
  }

  // Enabled in full from out, each of the eleven lists is what it was and then these handlers.
  lemma EnabledLists(w: World, own: Loading, fails: nat, w': World)
    requires Out(w) && Calls(w, Enable(own, fails), |PROGRAM|, w')
    ensures Total(w.lists) && Total(w'.lists)
    ensures var (before, after, o) := (w.lists, w'.lists, own.object_);
      && after[FramePre] == before[FramePre]
      && after[FramePost] == before[FramePost] +
        [Handler("statistics_frame_change_handler", o), Handler("curve_frame_change_handler", o)]
      && after[Depsgraph] == before[Depsgraph] +
        [Handler("_cleanup_deleted_objects", o), Handler("_on_depsgraph_update", o)]
      && after[UndoPost] == before[UndoPost] + [Handler("_on_undo_redo", o)]
      && after[RedoPost] == before[RedoPost] + [Handler("_on_undo_redo", o)]
      && after[SavePre] == before[SavePre] + [Handler("_persist_session_id", o)]
      && after[SavePost] == before[SavePost] +
        [Handler("migrate_pc2_on_save", o), Handler("_save_manifest_post", o)]
      && after[LoadPre] == before[LoadPre] + [Handler("_disconnect_on_load", o)]
      && after[RenderInit] == before[RenderInit] + [Handler("reset_render_counter", o)]
      && after[RenderPre] == before[RenderPre] + [Handler("warn_missing_frames_on_render", o)]
      && after[LoadPost] == before[LoadPost] + [Handler("_reset_cleanup_flag_on_load", o),
        Handler("_reconcile_manifest_on_load", o), Handler("_reconcile_pin_captured_anim_on_load", o),
        Handler("_request_cache_heal_on_load", o), Handler("_release_force_field_cache_on_load", o)]
  {
    hide PROGRAM, Additions, Calls, Clean;
    forall slot: Slot
      ensures slot in w.lists && slot in w'.lists
      ensures w'.lists[slot] == w.lists[slot] + Additions(PROGRAM, slot, own.object_)
    {
      Appended(w, own, fails, w', slot);
    }
    FrameAdditions(own.object_);
    SaveAdditions(own.object_);
    LoadAdditions(own.object_);
  }

  // ---- The sweeps pass by pass --------------------------------------------------------------

  // One walk over one list.
  datatype Pass = Pass(slot: Slot, names: set<string>)

  // The walks of a stage in their order; some lists are walked more than once.
  function Passes(stage: Stage): seq<Pass> {
    match stage
    case Guarded => [
      Pass(FramePost, {"curve_frame_change_handler"}),
      Pass(FramePre, FRAME_NAMES), Pass(FramePost, FRAME_NAMES), Pass(Depsgraph, FRAME_NAMES),
      Pass(SavePost, {"migrate_pc2_on_save"}), Pass(SavePre, {"_persist_session_id"}),
      Pass(SavePost, {"_save_manifest_post"}),
      Pass(LoadPost, {"_reconcile_manifest_on_load", "_reconcile_pin_captured_anim_on_load",
        "_request_cache_heal_on_load", "_release_force_field_cache_on_load"}),
      Pass(LoadPre, {"_disconnect_on_load"}), Pass(RenderInit, {"reset_render_counter"}),
      Pass(RenderPre, {"warn_missing_frames_on_render"}), Pass(Depsgraph, {"_on_depsgraph_update"})]
    case Playback => [
      Pass(RedoPost, {"_on_undo_redo"}), Pass(UndoPost, {"_on_undo_redo"}),
      Pass(FramePost, {"statistics_frame_change_handler"})]
    case Groups => [
      Pass(Depsgraph, {"_cleanup_deleted_objects"}), Pass(LoadPost, {"_reset_cleanup_flag_on_load"})]
  }

  function SweptBy(lists: Lists, ps: seq<Pass>): (after: Lists)
    requires Total(lists)
    ensures Total(after)
  {
    if ps == [] then lists else
    var before, p := SweptBy(lists, ps[..|ps| - 1]), ps[|ps| - 1];
    before[p.slot := Without(before[p.slot], p.names)]
  }

  // All the names the walks take out of one list.
  function Gathered(ps: seq<Pass>, slot: Slot): set<string> {
    if ps == [] then {} else
    var older, p := Gathered(ps[..|ps| - 1], slot), ps[|ps| - 1];
    if p.slot == slot then older + p.names else older
  }

  lemma {:induction false} SweptGathered(lists: Lists, ps: seq<Pass>, slot: Slot)
    requires Total(lists)
    ensures SweptBy(lists, ps)[slot] == Without(lists[slot], Gathered(ps, slot))
  {
    hide Without;
    if ps == [] {
      WithoutNone(lists[slot]);
    } else {
      var front, p := ps[..|ps| - 1], ps[|ps| - 1];
      SweptGathered(lists, front, slot);
      WithoutTwice(lists[slot], Gathered(front, slot), p.names);
    }
  }

  lemma {:induction false} WithoutNone(hs: seq<Handler>)
    ensures Without(hs, {}) == hs
  {
    if hs != [] {
      WithoutNone(hs[..|hs| - 1]);
      assert hs == hs[..|hs| - 1] + [hs[|hs| - 1]];
    }
  }

  lemma GatheredNext(ps: seq<Pass>, slot: Slot, i: nat)
    requires i < |ps|
    ensures Gathered(ps[..i + 1], slot) ==
      if ps[i].slot == slot then Gathered(ps[..i], slot) + ps[i].names else Gathered(ps[..i], slot)
  {
    assert ps[..i + 1][..i] == ps[..i];
  }

  lemma GatheredNothing(ps: seq<Pass>, slot: Slot)
    ensures Gathered(ps[..0], slot) == {}
  {
  }

  // The seven walks up to the manifest's, and the five after them.
  lemma GuardedFirst(slot: Slot)
    ensures Gathered(Passes(Guarded)[..7], slot) ==
      match slot
      case FramePost => FRAME_NAMES
      case FramePre => FRAME_NAMES
      case Depsgraph => FRAME_NAMES
      case SavePre => {"_persist_session_id"}
      case SavePost => {"migrate_pc2_on_save", "_save_manifest_post"}
      case _ => {}
  {
    hide Gathered;
    var ps := Passes(Guarded);
    GatheredNothing(ps, slot);
    GatheredNext(ps, slot, 0);
    GatheredNext(ps, slot, 1);
    GatheredNext(ps, slot, 2);
    GatheredNext(ps, slot, 3);
    GatheredNext(ps, slot, 4);
    GatheredNext(ps, slot, 5);
    GatheredNext(ps, slot, 6);
  }

  lemma GuardedGathered(slot: Slot)
    ensures Gathered(Passes(Guarded), slot) == Swept(Guarded, slot)
  {
    hide Gathered;
    var ps := Passes(Guarded);
    assert ps[..12] == ps;
    GuardedFirst(slot);
    GatheredNext(ps, slot, 7);
    GatheredNext(ps, slot, 8);
    GatheredNext(ps, slot, 9);
    GatheredNext(ps, slot, 10);
    GatheredNext(ps, slot, 11);
  }

  // The walks of a stage, some lists being walked twice, take out just its names.
  lemma StageGathered(stage: Stage, slot: Slot)
    ensures Gathered(Passes(stage), slot) == Swept(stage, slot)
  {
    hide Gathered;
    var ps := Passes(stage);
    GatheredNothing(ps, slot);
    match stage
    case Guarded =>
      GuardedGathered(slot);
    case Playback =>
      assert ps[..3] == ps;
      GatheredNext(ps, slot, 0);
      GatheredNext(ps, slot, 1);
      GatheredNext(ps, slot, 2);
    case Groups =>
      assert ps[..2] == ps;
      GatheredNext(ps, slot, 0);
      GatheredNext(ps, slot, 1);
  }

  lemma StageSwept(lists: Lists, stage: Stage)
    requires Total(lists)
    ensures SweptBy(lists, Passes(stage)) == Sweep(lists, stage)
  {
    hide Without, Swept, Passes, Gathered;
    var after := SweptBy(lists, Passes(stage));
    forall slot: Slot ensures after[slot] == Sweep(lists, stage)[slot] {
      SweptGathered(lists, Passes(stage), slot);
      StageGathered(stage, slot);
    }
    assert after.Keys == Sweep(lists, stage).Keys;
  }

  // ---- The add-on's state, act by act -------------------------------------------------------

  datatype Act = Raised | Lowered | Stepped(s: Step) | Removed(p: Pass) | Untimed(timer: int) | Gone(m: Module)

  // Acts that continue the given ones without raising the flag or registering anything.
  ghost predicate Quiet(base: seq<Act>, acts: seq<Act>) {
    base <= acts && forall i :: |base| <= i < |acts| ==> acts[i] != Raised && !acts[i].Stepped?
  }

  ghost predicate Steps(base: seq<Act>, acts: seq<Act>) {
    base <= acts && forall i :: |base| <= i < |acts| ==> acts[i].Stepped?
  }

  lemma QuietLowered(acts: seq<Act>)
    ensures Quiet(acts, acts) && Quiet(acts, acts + [Lowered])
  {
  }

  lemma QuietThen(a: seq<Act>, b: seq<Act>, c: seq<Act>)
    requires Quiet(a, b) && Quiet(b, c)
    ensures Quiet(a, c) && |b| <= |c| && forall i :: 0 <= i < |b| ==> b[i] == c[i]
  {
  }

  lemma FellFirst(b: set<Module>, r: set<Module>)
    ensures b - {Operators} == b - (r - (r - {Operators})) - {Operators}
  {
  }

  lemma FellMore(b: set<Module>, r: set<Module>, r1: set<Module>, r2: set<Module>)
    requires r2 <= r1 <= r
    ensures b - (r - r1) - {Operators} - (r1 - r2) == b - (r - r2) - {Operators}
    ensures r2 == r1 - {MeshOps} && MeshOps in r1 ==> r1 - r2 == {MeshOps}
  {
  }

  class Session {
    var lists: Lists
    // Modules with a class registered, and with all of them.
    var begun: set<Module>
    var registered: set<Module>
    // Timers the application holds, and those the add-on remembers scheduling.
    var timers: set<int>
    var deferred: seq<int>
    var ready: bool
    // What was done, in order.
    var acts: seq<Act>

    ghost predicate Valid()
      reads this
    {
      Total(lists)
    }

    ghost function Now(): World
      reads this
    {
      World(lists, begun, registered, timers, deferred)
    }

    method DeferTimer(timer: int)
      modifies this`timers, this`deferred
      ensures timers == old(timers) + {timer} && deferred == old(deferred) + [timer]
    {
      timers := timers + {timer};
      deferred := deferred + [timer];
    }

    // Every remembered timer is gone, fired or not, and no other is touched.
    method ClearDeferredTimers()
      modifies this`timers, this`deferred, this`acts
      ensures timers == old(timers) - (set t | t in old(deferred)) && deferred == []
      ensures Quiet(old(acts), acts)
    {
      for i := 0 to |deferred|
        invariant deferred == old(deferred)
        invariant timers == old(timers) - (set t | t in deferred[..i])
        invariant Quiet(old(acts), acts)
      {
        assert deferred[..i + 1] == deferred[..i] + [deferred[i]];
        if deferred[i] in timers {
          timers := timers - {deferred[i]};
          acts := acts + [Untimed(deferred[i])];
        }
      }
      assert deferred[..|deferred|] == deferred;
      deferred := [];
    }

    method Write(how: How, slot: Slot, name: string, object_: int)
      requires Valid()
      modifies this`lists
      ensures Valid() && lists == old(lists)[slot := Written(old(lists)[slot], how, name, object_)]
    {
      hide Without, Ensured;
      var hs := lists[slot];
      match how {
        case Always =>
          hs := hs + [Handler(name, object_)];
        case Fresh =>
          hs := RemoveNamed(hs, {name});
          hs := hs + [Handler(name, object_)];
        case Once =>
          hs := EnsureHandler(hs, name, object_);
      }
      lists := lists[slot := hs];
    }

    method TakeStep(s: Step, own: Loading)
      requires Valid()
      modifies this`lists, this`begun, this`registered, this`timers, this`deferred, this`acts
      ensures Valid() && Now() == DoStep(old(Now()), s, own) && acts == old(acts) + [Stepped(s)]
    {
      hide Written;
      match s {
        case Begin(m) => begun := begun + {m};
        case Complete(m) => registered := registered + {m};
        case Put(how, slot, name) => Write(how, slot, name, own.object_);
        case Defer(late) => DeferTimer(if late then own.second else own.first);
        case Other =>
      }
      acts := acts + [Stepped(s)];
    }

    // The steps up to the one that raises. The source writes them out one by one; PROGRAM
    // lists them in its order.
    method RunProgram(own: Loading, fails: nat) returns (i: nat)
      requires Valid()
      modifies this`lists, this`begun, this`registered, this`timers, this`deferred, this`acts
      ensures Valid() && StopsAt(old(Now()), own, fails, i) && i <= |PROGRAM|
      ensures Now() == Ran(old(Now()), PROGRAM[..i], own) && Steps(old(acts), acts)
    {
      hide PROGRAM, At, DoStep, StopsAt, Ran, Total;
      ghost var w := Now();
      AtStart(w, own, fails);
      i := 0;
      while i < |PROGRAM| && i != fails && !(PROGRAM[i].Begin? && PROGRAM[i].m in begun) &&
        !(PROGRAM[i].Complete? && PROGRAM[i].m in registered)
        invariant i <= |PROGRAM| && Valid() && At(w, own, fails, i, Now()) && Steps(old(acts), acts)
      {
        AtNext(w, own, fails, i, Now());
        TakeStep(PROGRAM[i], own);
        i := i + 1;
      }
      AtStops(w, own, fails, i, Now());
    }

    // Registration, with the flag as the last act of a complete one. marks says whether
    // the flag can be set.
    method RegisterBody(own: Loading, fails: nat, marks: bool) returns (ok: bool, ghost k: nat)
      requires Valid()
      modifies this
      ensures Valid() && StopsAt(old(Now()), own, fails, k) && k <= |PROGRAM| && (ok <==> k == |PROGRAM|)
      ensures Now() == Ran(old(Now()), PROGRAM[..k], own)
      ensures ready == (old(ready) || (ok && marks))
      ensures if ok && marks then |acts| > 0 && acts[|acts| - 1] == Raised && Steps(old(acts), acts[..|acts| - 1])
        else Steps(old(acts), acts)
    {
      hide PROGRAM, Ran, StopsAt, Steps;
      var i := RunProgram(own, fails);
      k, ok := i, i == |PROGRAM|;
      if ok && marks {
        ready := true;
        ghost var before := acts;
        acts := acts + [Raised];
        assert acts[..|acts| - 1] == before;
      }
    }

    method SweepStage(stage: Stage)
      requires Valid()
      modifies this`lists, this`acts
      ensures Valid() && lists == Sweep(old(lists), stage) && Quiet(old(acts), acts)
    {
      hide Without, Passes, Sweep;
      var ps := Passes(stage);
      for i := 0 to |ps|
        invariant Valid() && lists == SweptBy(old(lists), ps[..i]) && Quiet(old(acts), acts)
      {
        assert ps[..i + 1][..i] == ps[..i];
        var hs := RemoveNamed(lists[ps[i].slot], ps[i].names);
        lists := lists[ps[i].slot := hs];
        acts := acts + [Removed(ps[i])];
      }
      assert ps[..|ps|] == ps;
      StageSwept(old(lists), stage);
    }

    method DropModules(ms: seq<Module>) returns (ok: bool)
      modifies this`begun, this`registered, this`acts
      ensures (registered, ok) == Dropped(old(registered), ms) && Quiet(old(acts), acts)
      ensures registered <= old(registered) && begun == old(begun) - (old(registered) - registered)
    {
      for i := 0 to |ms|
        invariant Dropped(old(registered), ms) == Dropped(registered, ms[i..]) && Quiet(old(acts), acts)
        invariant registered <= old(registered) && begun == old(begun) - (old(registered) - registered)
      {
        assert ms[i..][1..] == ms[i + 1..];
        if ms[i] !in registered {
          return false;
        }
        begun, registered := begun - {ms[i]}, registered - {ms[i]};
        acts := acts + [Gone(ms[i])];
      }
      ok := true;
    }

    // What is left once the mesh modules are out, b and r being what was begun and registered.
    method UnregisterRest(ghost b: set<Module>, ghost r: set<Module>) returns (done: bool)
      requires Valid() && registered <= r && begun == b - (r - registered) - {Operators}
      modifies this`lists, this`begun, this`registered, this`acts
      ensures Valid() && begun == b - (r - registered) - {Operators} && Quiet(old(acts), acts)
      ensures var (left, ok) := Dropped(old(registered), [Statistics, DynamicsOps]);
        var played := Sweep(old(lists), Playback);
        if !ok then !done && lists == played && registered == left
        else
          && lists == Sweep(played, Groups)
          && (registered, done) == Dropped(left, [GroupOps, Solver, MainPanel, State])
    {
      hide Sweep, Dropped, Quiet;
      ghost var c, r1 := acts, registered;
      SweepStage(Playback);
      ghost var d := acts;
      done := DropModules([Statistics, DynamicsOps]);
      QuietThen(c, d, acts);
      FellMore(b, r, r1, registered);
      if done {
        ghost var d1, r2 := acts, registered;
        SweepStage(Groups);
        QuietThen(c, d1, acts);
        d := acts;
        done := DropModules([GroupOps, Solver, MainPanel, State]);
        QuietThen(c, d, acts);
        FellMore(b, r, r2, registered);
      }
    }

    // The flag goes down before anything is taken out, if it can be set at all.
    method Unregister(marks: bool) returns (done: bool)
      requires Valid()
      modifies this
      ensures Valid() && (Now(), done) == Unregistered(old(Now()))
      ensures deferred == [] && timers == old(timers) - (set t | t in old(deferred))
      ensures ready == (old(ready) && !marks) && Quiet(old(acts), acts)
      ensures marks ==> |acts| > |old(acts)| && acts[|old(acts)|] == Lowered
    {
      hide Sweep, Dropped, Quiet;
      QuietLowered(acts);
      ghost var b, r := begun, registered;
      if marks {
        ready := false;
        acts := acts + [Lowered];
      }
      ghost var a := acts;
      ClearDeferredTimers();
      ghost var c := acts;
      SweepStage(Guarded);
      QuietThen(a, c, acts);
      QuietThen(old(acts), a, acts);
      begun, registered := begun - {Operators}, registered - {Operators};
      FellFirst(b, r);
      if MeshOps !in registered {
        return false;
      }
      FellMore(b, r, registered, registered - {MeshOps});
      begun, registered := begun - {MeshOps}, registered - {MeshOps};
      ghost var d := acts;
      done := UnregisterRest(b, r);
      QuietThen(a, d, acts);
      QuietThen(old(acts), a, acts);
    }

    // A registration that fails is rolled back, the rollback's own failure being swallowed.
    // Where no module was registered before, it leaves every list without the owned names
    // if it fails past the mesh modules, and a function of its own behind exactly if it
    // fails between the group module's append and them.
    method Register(own: Loading, fails: nat, marks: bool) returns (ok: bool, ghost k: nat)
      requires Valid()
      modifies this
      ensures Valid() && Calls(old(Now()), Enable(own, fails), k, Now()) && (ok <==> k == |PROGRAM|)
      ensures ready == if ok then old(ready) || marks else old(ready) && !marks
      ensures !ok ==> deferred == []
      ensures old(registered) == {} && MESH < k < |PROGRAM| ==> lists == Clean(old(lists)) && begun == registered == {}
      ensures old(registered) == {} && !ok && !Remains(old(lists), own.object_) ==>
        (Remains(lists, own.object_) <==> FIRST_WRITE < k <= MESH)
    {
      hide StopsAt, Ran, Unregistered, Clean, Remains;
      ok, k := RegisterBody(own, fails, marks);
      if !ok {
        var done := Unregister(marks);
        if old(registered) == {} {
          Rollback(old(Now()), own, k);
          if !Remains(old(lists), own.object_) {
            RollbackLeaves(old(Now()), own, k);
          }
        }
      }
    }
  }
}
