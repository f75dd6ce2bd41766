// Collecting chunk ids and renaming chunk files, one static directory after another
// (build-win-native/shorten_webpack_chunks.py:83-97, 133-149).
module ChunkFiles {

  // A file named id.hash plus its extension.
  datatype Name = Name(id: string, hash: string, ext: string)

  // A static directory: the chunk maps of its remote entries, and its files.
  datatype Dir = Dir(entries: seq<map<string, string>>, files: set<Name>)

  // ---- Phase 1: which ids are renamed, and with which hash ---------------------------

  // The entries of one chunk map that are long enough and have a file.
  function Found(chunks: map<string, string>, files: set<Name>): map<string, string> {
    map id | id in chunks && |id| > 10 && Name(id, chunks[id], ".js") in files :: chunks[id]
  }

  function Collected(entries: seq<map<string, string>>, files: set<Name>): map<string, string> {
    if entries == [] then map[] else
    Collected(entries[..|entries| - 1], files) + Found(entries[|entries| - 1], files)
  }

  // The last directory to mention an id decides its hash.
  function Hashes(dirs: seq<Dir>): map<string, string> {
    if dirs == [] then map[] else
    Hashes(dirs[..|dirs| - 1]) + Collected(dirs[|dirs| - 1].entries, dirs[|dirs| - 1].files)
  }

  function Outside(found: map<string, string>, todo: set<string>): map<string, string> {
    map id | id in found && id !in todo :: found[id]
  }

  lemma OutsideMore(found: map<string, string>, todo: set<string>, id: string)
    requires id in todo
    ensures Outside(found, todo - {id}) ==
      if id in found then Outside(found, todo)[id := found[id]] else Outside(found, todo)
  {
  }

  lemma MergeAdd(a: map<string, string>, b: map<string, string>, id: string, h: string)
    ensures (a + b)[id := h] == a + b[id := h]
  {
  }

  lemma MergeMerge(a: map<string, string>, b: map<string, string>, c: map<string, string>)
    ensures (a + b) + c == a + (b + c)
  {
  }

  method CollectEntry(chunks: map<string, string>, files: set<Name>, before: map<string, string>)
    returns (hashes: map<string, string>)
    ensures hashes == before + Found(chunks, files)
  {
    ghost var found := Found(chunks, files);
    hashes := before;
    var todo := chunks.Keys;
    assert Outside(found, todo) == map[];
    while todo != {}
      invariant todo <= chunks.Keys
      invariant hashes == before + Outside(found, todo)
      decreases |todo|
    {
      hide Outside;
      var id :| id in todo;
      OutsideMore(found, todo, id);
      MergeAdd(before, Outside(found, todo), id, chunks[id]);
      todo := todo - {id};
      if |id| > 10 {
        if Name(id, chunks[id], ".js") in files {
          hashes := hashes[id := chunks[id]];
        }
      }
    }
    assert Outside(found, {}) == found;
  }

  method CollectDir(dir: Dir, before: map<string, string>) returns (hashes: map<string, string>)
    ensures hashes == before + Collected(dir.entries, dir.files)
  {
    hide Found;
    hashes := before;
    var entries := dir.entries;
    for j := 0 to |entries|
      invariant hashes == before + Collected(entries[..j], dir.files)
    {
      assert entries[..j + 1][..j] == entries[..j];
      MergeMerge(before, Collected(entries[..j], dir.files), Found(entries[j], dir.files));
      hashes := CollectEntry(entries[j], dir.files, hashes);
    }
    assert entries[..|entries|] == entries;
  }

  // Entry j of directory i gives this id: it is longer than 10 and its file is there.
  predicate Given(dirs: seq<Dir>, i: int, j: int, id: string) {
    && 0 <= i < |dirs| && 0 <= j < |dirs[i].entries| && id in dirs[i].entries[j] && |id| > 10
    && Name(id, dirs[i].entries[j][id], ".js") in dirs[i].files
  }

  ghost predicate LastGiven(dirs: seq<Dir>, i: int, j: int, id: string, hash: string) {
    && Given(dirs, i, j, id) && dirs[i].entries[j][id] == hash
    && forall i', j' :: i' > i || (i' == i && j' > j) ==> !Given(dirs, i', j', id)
  }

  // The ids given are recorded, each with the hash given last.
  ghost predicate Recording(dirs: seq<Dir>, hashes: map<string, string>) {
    && (forall i, j, id :: Given(dirs, i, j, id) ==> id in hashes)
    && (forall id :: id in hashes ==> exists i, j :: LastGiven(dirs, i, j, id, hashes[id]))
  }

  method CollectHashes(dirs: seq<Dir>) returns (hashes: map<string, string>)
    ensures hashes == Hashes(dirs) && Recording(dirs, hashes)
  {
    HashesRecord(dirs);
    hide Recording;
    hide Collected;
    hashes := map[];
    for i := 0 to |dirs|
      invariant hashes == Hashes(dirs[..i])
    {
      assert dirs[..i + 1][..i] == dirs[..i];
      hashes := CollectDir(dirs[i], hashes);
    }
    assert dirs[..|dirs|] == dirs;
  }

  // An entry with a file is recorded, with some hash.
  lemma {:induction false} Recorded(dirs: seq<Dir>, i: nat, j: nat, id: string)
    requires i < |dirs| && j < |dirs[i].entries| && id in Found(dirs[i].entries[j], dirs[i].files)
    ensures id in Hashes(dirs)
  {
    hide Found;
    if i == |dirs| - 1 {
      CollectedHolds(dirs[i].entries, dirs[i].files, j, id);
    } else {
      Recorded(dirs[..|dirs| - 1], i, j, id);
    }
  }

  lemma {:induction false} CollectedHolds(entries: seq<map<string, string>>, files: set<Name>, j: nat, id: string)
    requires j < |entries| && id in Found(entries[j], files)
    ensures id in Collected(entries, files)
  {
    hide Found;
    if j < |entries| - 1 {
      CollectedHolds(entries[..|entries| - 1], files, j, id);
    }
  }

  // A chunk this directory's entries refer to, with its file in place.
  ghost predicate Refers(dirs: seq<Dir>, i: int, id: string, hash: string) {
    0 <= i < |dirs| && exists j :: 0 <= j < |dirs[i].entries| && Gives(dirs[i], j, id, hash)
  }

  predicate Gives(dir: Dir, j: int, id: string, hash: string)
    requires 0 <= j < |dir.entries|
  {
    id in Found(dir.entries[j], dir.files) && dir.entries[j][id] == hash
  }

  lemma {:induction false} CollectedLast(entries: seq<map<string, string>>, files: set<Name>, id: string)
    returns (j: nat)
    requires id in Collected(entries, files)
    ensures j < |entries| && Gives(Dir(entries, files), j, id, Collected(entries, files)[id])
    ensures forall k :: j < k < |entries| ==> id !in Found(entries[k], files)
  {
    var front := entries[..|entries| - 1];
    if id in Found(entries[|entries| - 1], files) {
      j := |entries| - 1;
    } else {
      j := CollectedLast(front, files, id);
      forall k | j < k < |entries| ensures id !in Found(entries[k], files) {
        if k < |front| {
          assert front[k] == entries[k];
        }
      }
    }
  }

  lemma GivenIs(dirs: seq<Dir>, i: int, j: int, id: string)
    ensures Given(dirs, i, j, id) <==>
      0 <= i < |dirs| && 0 <= j < |dirs[i].entries| && id in Found(dirs[i].entries[j], dirs[i].files)
  {
  }

  // A recorded hash is the one the last entry with a file gives.
  lemma {:induction false} HashLast(dirs: seq<Dir>, id: string) returns (i: nat, j: nat)
    requires id in Hashes(dirs)
    ensures LastGiven(dirs, i, j, id, Hashes(dirs)[id])
  {
    hide Found, Given;
    var front, last := dirs[..|dirs| - 1], dirs[|dirs| - 1];
    if id in Collected(last.entries, last.files) {
      i := |dirs| - 1;
      j := CollectedLast(last.entries, last.files, id);
      GivenIs(dirs, i, j, id);
      forall i', j' | i' > i || (i' == i && j' > j) ensures !Given(dirs, i', j', id) {
        GivenIs(dirs, i', j', id);
      }
    } else {
      i, j := HashLast(front, id);
      GivenIs(front, i, j, id);
      GivenIs(dirs, i, j, id);
      forall i', j' | i' > i || (i' == i && j' > j) ensures !Given(dirs, i', j', id) {
        GivenIs(dirs, i', j', id);
        GivenIs(front, i', j', id);
        if i' == |dirs| - 1 && 0 <= j' < |last.entries| && id in Found(last.entries[j'], last.files) {
          CollectedHolds(last.entries, last.files, j', id);
        }
      }
    }
  }

  lemma HashesRecord(dirs: seq<Dir>)
    ensures Recording(dirs, Hashes(dirs))
  {
    hide Hashes, Given, LastGiven;
    forall i, j, id | Given(dirs, i, j, id) ensures id in Hashes(dirs) {
      GivenIs(dirs, i, j, id);
      Recorded(dirs, i, j, id);
    }
    forall id | id in Hashes(dirs) ensures exists i, j :: LastGiven(dirs, i, j, id, Hashes(dirs)[id]) {
      var i, j := HashLast(dirs, id);
    }
  }

  lemma HashFrom(dirs: seq<Dir>, id: string)
    requires id in Hashes(dirs)
    ensures exists i :: Refers(dirs, i, id, Hashes(dirs)[id])
  {
    hide Hashes;
    var i, j := HashLast(dirs, id);
    assert Gives(dirs[i], j, id, Hashes(dirs)[id]);
    assert Refers(dirs, i, id, Hashes(dirs)[id]);
  }

  // ---- Phase 3: renaming the files of one directory ------------------------------------

  predicate Renamable(hashes: map<string, string>, f: Name) {
    f.id in hashes && f.hash == hashes[f.id] && (f.ext == ".js" || f.ext == ".js.map")
  }

  function NewName(hashes: map<string, string>, short: string -> string, f: Name): Name {
    if Renamable(hashes, f) then f.(id := short(f.id)) else f
  }

  // The file's name once the ids are shortened: only a script or its source map with the
  // recorded hash is renamed, and only its id.
  predicate Becomes(g: Name, hashes: map<string, string>, short: string -> string, f: Name) {
    f == if g.id in hashes && g.hash == hashes[g.id] && (g.ext == ".js" || g.ext == ".js.map")
         then Name(short(g.id), g.hash, g.ext) else g
  }

  // Every file under its new name.
  function Renamed(files: set<Name>, hashes: map<string, string>, short: string -> string): set<Name> {
    set f | f in files :: NewName(hashes, short, f)
  }

  method RenameOne(files: set<Name>, old_: Name, new_: Name) returns (files': set<Name>)
    ensures files' == if old_ in files then files - {old_} + {new_} else files
  {
    files' := files;
    if old_ in files {
      files' := files - {old_} + {new_};
    }
  }

  // The files once the ids outside todo have been handled.
  function PartRenamed(files: set<Name>, hashes: map<string, string>, short: string -> string, todo: set<string>)
    : set<Name>
  {
    set f | f in files :: if f.id in todo then f else NewName(hashes, short, f)
  }

  method RenameFiles(files: set<Name>, hashes: map<string, string>, short: string -> string) returns (files': set<Name>)
    requires forall id :: id in hashes ==> short(id) !in hashes
    ensures files' == Renamed(files, hashes, short)
    ensures forall f: Name :: f in files' <==> exists g :: g in files && Becomes(g, hashes, short, f)
  {
    files' := files;
    var todo := hashes.Keys;
    assert files' == PartRenamed(files, hashes, short, todo);
    while todo != {}
      invariant todo <= hashes.Keys
      invariant files' == PartRenamed(files, hashes, short, todo)
      decreases |todo|
    {
      var id :| id in todo;
      ghost var before := files';
      files' := RenameOne(files', Name(id, hashes[id], ".js"), Name(short(id), hashes[id], ".js"));
      files' := RenameOne(files', Name(id, hashes[id], ".js.map"), Name(short(id), hashes[id], ".js.map"));
      IdRenamed(files, hashes, short, todo, id, before, files');
      todo := todo - {id};
    }
  }

  lemma IdRenamed(files: set<Name>, hashes: map<string, string>, short: string -> string, todo: set<string>,
      id: string, before: set<Name>, after: set<Name>)
    requires id in todo && id in hashes && forall a :: a in hashes ==> short(a) !in hashes
    requires before == PartRenamed(files, hashes, short, todo)
    requires var js, jsm := Name(id, hashes[id], ".js"), Name(id, hashes[id], ".js.map");
      var mid := if js in before then before - {js} + {js.(id := short(id))} else before;
      after == if jsm in mid then mid - {jsm} + {jsm.(id := short(id))} else mid
    ensures after == PartRenamed(files, hashes, short, todo - {id})
  {
    var js, jsm := Name(id, hashes[id], ".js"), Name(id, hashes[id], ".js.map");
    forall f: Name | f.id == id ensures f in before <==> f in files {
      if f in before {
        var g :| g in files && f == if g.id in todo then g else NewName(hashes, short, g);
      }
    }
    var goal := PartRenamed(files, hashes, short, todo - {id});
    forall f: Name ensures f in after <==> f in goal {
      if f in goal {
        var g :| g in files && f == if g.id in todo - {id} then g else NewName(hashes, short, g);
        if g.id != id {
          assert f in before;
        }
      }
      if f in after && f in before {
        var g :| g in files && f == if g.id in todo then g else NewName(hashes, short, g);
      }
    }
  }

  // ---- References and files --------------------------------------------------------------

  // A rewritten reference names a renamed file exactly where the recorded hash is this
  // directory's own.
  lemma ReferenceNamesFile(dirs: seq<Dir>, i: nat, id: string, hash: string, short: string -> string)
    requires Refers(dirs, i, id, hash)
    requires forall a, b :: a in Hashes(dirs) && b in Hashes(dirs) && short(a) == short(b) ==> a == b
    requires forall f :: f in dirs[i].files ==> f.id != short(id)
    ensures id in Hashes(dirs)
    ensures Name(short(id), hash, ".js") in Renamed(dirs[i].files, Hashes(dirs), short) <==> Hashes(dirs)[id] == hash
  {
    var j :| 0 <= j < |dirs[i].entries| && Gives(dirs[i], j, id, hash);
    Recorded(dirs, i, j, id);
    hide Hashes;
    var hashes, old_, new_ := Hashes(dirs), Name(id, hash, ".js"), Name(short(id), hash, ".js");
    if hashes[id] == hash {
      assert NewName(hashes, short, old_) == new_;
    } else if new_ in Renamed(dirs[i].files, hashes, short) {
      var f :| f in dirs[i].files && NewName(hashes, short, f) == new_;
    }
  }

  // Where an id determines its hash, every rewritten reference names a renamed file.
  lemma AllReferencesNameFiles(dirs: seq<Dir>, i: nat, id: string, hash: string, short: string -> string)
    requires Refers(dirs, i, id, hash)
    requires forall k, h :: Refers(dirs, k, id, h) ==> h == hash
    ensures Name(short(id), hash, ".js") in Renamed(dirs[i].files, Hashes(dirs), short)
  {
    var j :| 0 <= j < |dirs[i].entries| && Gives(dirs[i], j, id, hash);
    Recorded(dirs, i, j, id);
    HashFrom(dirs, id);
    hide Hashes;
    var k :| Refers(dirs, k, id, Hashes(dirs)[id]);
    assert NewName(Hashes(dirs), short, Name(id, hash, ".js")) == Name(short(id), hash, ".js");
  }

  // Two directories that give one id different hashes: the first is left behind.
  lemma EarlierHashLost(id: string, h0: string, h1: string, short: string -> string)
    requires |id| > 10 && h0 != h1 && short(id) != id
    ensures var d0 := Dir([map[id := h0]], {Name(id, h0, ".js")});
      var d1 := Dir([map[id := h1]], {Name(id, h1, ".js")});
      && Refers([d0, d1], 0, id, h0)
      && Name(short(id), h0, ".js") !in Renamed(d0.files, Hashes([d0, d1]), short)
  {
    var d0 := Dir([map[id := h0]], {Name(id, h0, ".js")});
    var d1 := Dir([map[id := h1]], {Name(id, h1, ".js")});
    var dirs := [d0, d1];
    assert Gives(dirs[0], 0, id, h0);
    assert dirs[..1] == [d0] && d1.entries[..0] == [];
    assert Collected(d1.entries, d1.files) == map[] + Found(d1.entries[0], d1.files);
    assert id in Found(d1.entries[0], d1.files);
    assert Hashes(dirs)[id] == h1;
  }
}
