// Renaming many chunk ids one after another against renaming them all at once
// (build-win-native/shorten_webpack_chunks.py:39-71).
module Renames {
  import opened Strings
  import opened ChunkText

  datatype Pair = Pair(id: string, new_: string)

  // ---- What the code does -----------------------------------------------------------

  function RewriteOne(s: string, p: Pair): string {
    var s1 := Replace(s, Quoted('"', p.id), Quoted('"', p.new_));
    var s2 := Replace(s1, Quoted('\'', p.id), Quoted('\'', p.new_));
    Replace(s2, p.id + ".", p.new_ + ".")
  }

  // One id after another.
  function Rewritten(s: string, pairs: seq<Pair>): string {
    if pairs == [] then s else RewriteOne(Rewritten(s, pairs[..|pairs| - 1]), pairs[|pairs| - 1])
  }

  predicate Mentions(s: string, id: string) {
    Contains(s, Quoted('"', id)) || Contains(s, Quoted('\'', id)) || Contains(s, id + ".")
  }

  // Each new id is shorter than its old one.
  predicate Shrinking(pairs: seq<Pair>) {
    forall i :: 0 <= i < |pairs| ==> |pairs[i].new_| < |pairs[i].id|
  }

  method ReplaceOnce(content: string, old_: string, new_: string, before: bool)
    returns (content': string, modified: bool)
    requires old_ != "" && |new_| < |old_|
    ensures content' == Replace(content, old_, new_)
    ensures |content'| <= |content| && (|content'| == |content| ==> content' == content)
    ensures modified <==> before || |content'| < |content|
  {
    content', modified := content, before;
    ReplaceNotLonger(content, old_, new_);
    if Contains(content, old_) {
      content' := Replace(content, old_, new_);
      modified := true;
    } else {
      ReplaceNothing(content, old_, new_);
    }
  }

  // The loop over the sorted renames; modified tells exactly whether the text changed.
  method ReplaceInFile(text: string, pairs: seq<Pair>) returns (content: string, modified: bool)
    requires Shrinking(pairs)
    ensures content == Rewritten(text, pairs)
    ensures modified <==> content != text
  {
    hide Replace, Contains;
    content, modified := text, false;
    for i := 0 to |pairs|
      invariant content == Rewritten(text, pairs[..i])
      invariant |content| <= |text| && (modified <==> |content| < |text|) && (|content| == |text| ==> content == text)
    {
      assert pairs[..i + 1][..i] == pairs[..i];
      var p := pairs[i];
      content, modified := ReplaceOnce(content, Quoted('"', p.id), Quoted('"', p.new_), modified);
      content, modified := ReplaceOnce(content, Quoted('\'', p.id), Quoted('\'', p.new_), modified);
      content, modified := ReplaceOnce(content, p.id + ".", p.new_ + ".", modified);
    }
    assert pairs[..|pairs|] == pairs;
  }

  // ---- The same on runs -----------------------------------------------------------------

  function PassRuns(c: Text, p: Pair): Text {
    DotSub(QuoteSub(QuoteSub(c, '"', p.id, p.new_, false), '\'', p.id, p.new_, false), p.id, p.new_)
  }

  function PassAll(c: Text, pairs: seq<Pair>): Text {
    if pairs == [] then c else PassRuns(PassAll(c, pairs[..|pairs| - 1]), pairs[|pairs| - 1])
  }

  predicate CleanPairs(pairs: seq<Pair>) {
    forall i :: 0 <= i < |pairs| ==> Clean(pairs[i].id) && Clean(pairs[i].new_)
  }

  lemma {:induction false} QuoteSubValid(c: Text, q: char, a: string, b: string, open: bool)
    requires Valid(c) && Clean(b)
    ensures Valid(QuoteSub(c, q, a, b, open))
  {
    if c.More? {
      QuoteSubValid(c.rest, q, a, b, if open && c.run == a && c.delim == q then false else c.delim == q);
    }
  }

  lemma {:induction false} DotSubValid(c: Text, a: string, b: string)
    requires Valid(c) && Clean(b)
    ensures Valid(DotSub(c, a, b))
  {
    if c.More? {
      DotSubValid(c.rest, a, b);
    }
  }

  lemma PassIs(c: Text, p: Pair)
    requires Valid(c) && Clean(p.id) && Clean(p.new_)
    ensures Valid(PassRuns(c, p)) && RewriteOne(Flat(c), p) == Flat(PassRuns(c, p))
  {
    hide Clean, Valid, Flat, Replace, QuoteSub, DotSub, Quoted;
    var c1 := QuoteSub(c, '"', p.id, p.new_, false);
    var c2 := QuoteSub(c1, '\'', p.id, p.new_, false);
    QuoteSubIs(c, '"', p.id, p.new_, false);
    QuoteSubValid(c, '"', p.id, p.new_, false);
    QuoteSubIs(c1, '\'', p.id, p.new_, false);
    QuoteSubValid(c1, '\'', p.id, p.new_, false);
    DotSubIs(c2, p.id, p.new_);
    DotSubValid(c2, p.id, p.new_);
  }

  lemma {:induction false} PassAllIs(c: Text, pairs: seq<Pair>)
    requires Valid(c) && CleanPairs(pairs)
    ensures Valid(PassAll(c, pairs)) && Rewritten(Flat(c), pairs) == Flat(PassAll(c, pairs))
  {
    hide Valid, Flat, RewriteOne, PassRuns;
    if pairs != [] {
      var front := pairs[..|pairs| - 1];
      PassAllIs(c, front);
      PassIs(PassAll(c, front), pairs[|pairs| - 1]);
    }
  }

  // ---- What one run becomes -----------------------------------------------------------

  // A run with the delimiters before and after it.
  predicate Between(p: char, d: char) {
    Quote(d) && p == d
  }

  function RunStep(p: char, run: string, d: char, x: Pair): string {
    if Between(p, d) && run == x.id then x.new_
    else if d == '.' && EndsWith(run, x.id) then Swap(run, x.id, x.new_)
    else run
  }

  function RunFold(p: char, run: string, d: char, pairs: seq<Pair>): string {
    if pairs == [] then run
    else RunStep(p, RunFold(p, run, d, pairs[..|pairs| - 1]), d, pairs[|pairs| - 1])
  }

  function MapRuns(c: Text, p: char, pairs: seq<Pair>): Text {
    if c.End? then c else More(RunFold(p, c.run, c.delim, pairs), c.delim, MapRuns(c.rest, c.delim, pairs))
  }

  // Replacing quoted runs with no regard to shared quotes.
  function MapQuote(c: Text, p: char, q: char, a: string, b: string): Text {
    if c.End? then c
    else More(if p == q && c.delim == q && c.run == a then b else c.run, c.delim, MapQuote(c.rest, c.delim, q, a, b))
  }

  // Two neighbouring quoted runs, sharing a quote, that are both the id.
  predicate Twin(c: Text, p: char, q: char, a: string) {
    c.More? && p == q && c.run == a && c.delim == q && c.rest.More? && c.rest.run == a && c.rest.delim == q
  }

  predicate HasTwin(c: Text, p: char, q: char, a: string) {
    c.More? && (Twin(c, p, q, a) || HasTwin(c.rest, c.delim, q, a))
  }

  // Without twins, the left-to-right replacement takes every quoted run.
  lemma {:induction false} QuoteSubMaps(c: Text, p: char, q: char, a: string, b: string, open: bool)
    requires !HasTwin(c, p, q, a) && (open ==> p == q)
    requires !open && p == q ==> !(c.More? && c.run == a && c.delim == q)
    ensures QuoteSub(c, q, a, b, open) == MapQuote(c, p, q, a, b)
  {
    if c.More? {
      if open && c.run == a && c.delim == q {
        QuoteSubMaps(c.rest, c.delim, q, a, b, false);
      } else {
        QuoteSubMaps(c.rest, c.delim, q, a, b, c.delim == q);
      }
    }
  }

  lemma {:induction false} MapQuoteTwins(c: Text, p: char, a: string, b: string)
    requires !HasTwin(c, p, '\'', a) && a != b
    ensures !HasTwin(MapQuote(c, p, '"', a, b), p, '\'', a)
  {
    if c.More? {
      MapQuoteTwins(c.rest, c.delim, a, b);
      var c' := MapQuote(c, p, '"', a, b);
      assert Twin(c', p, '\'', a) ==> Twin(c, p, '\'', a);
    }
  }

  lemma {:induction false} ThreeMaps(c: Text, p: char, x: Pair)
    ensures DotSub(MapQuote(MapQuote(c, p, '"', x.id, x.new_), p, '\'', x.id, x.new_), x.id, x.new_)
      == MapRuns(c, p, [x])
  {
    if c.More? {
      ThreeMaps(c.rest, c.delim, x);
      OneFold(p, c.run, c.delim, x);
    }
  }

  lemma OneFold(p: char, run: string, d: char, x: Pair)
    ensures RunFold(p, run, d, [x]) == RunStep(p, run, d, x)
  {
    assert [x][..0] == [];
  }

  const START := ' '

  lemma PassMaps(c: Text, x: Pair)
    requires x.id != x.new_ && !HasTwin(c, START, '"', x.id) && !HasTwin(c, START, '\'', x.id)
    ensures PassRuns(c, x) == MapRuns(c, START, [x])
  {
    hide HasTwin, QuoteSub, MapQuote, DotSub, MapRuns;
    QuoteSubMaps(c, START, '"', x.id, x.new_, false);
    MapQuoteTwins(c, START, x.id, x.new_);
    QuoteSubMaps(MapQuote(c, START, '"', x.id, x.new_), START, '\'', x.id, x.new_, false);
    ThreeMaps(c, START, x);
  }

  // ---- One id after another is one fold over each run ---------------------------------

  lemma {:induction false} MapRunsMore(c: Text, p: char, xs: seq<Pair>, y: Pair)
    ensures MapRuns(MapRuns(c, p, xs), p, [y]) == MapRuns(c, p, xs + [y])
  {
    if c.More? {
      MapRunsMore(c.rest, c.delim, xs, y);
      OneFold(p, RunFold(p, c.run, c.delim, xs), c.delim, y);
      assert (xs + [y])[..|xs|] == xs;
    }
  }

  lemma {:induction false} MapRunsNone(c: Text, p: char)
    ensures MapRuns(c, p, []) == c
  {
    if c.More? {
      MapRunsNone(c.rest, c.delim);
    }
  }

  predicate NoNew(pairs: seq<Pair>, a: string) {
    forall i :: 0 <= i < |pairs| ==> pairs[i].new_ != a
  }

  lemma {:induction false} FoldOrigin(p: char, run: string, d: char, pairs: seq<Pair>, a: string)
    requires Between(p, d) && NoNew(pairs, a) && RunFold(p, run, d, pairs) == a
    ensures run == a
  {
    if pairs != [] {
      var front, x := pairs[..|pairs| - 1], pairs[|pairs| - 1];
      assert RunStep(p, RunFold(p, run, d, front), d, x) == a;
      assert RunFold(p, run, d, front) == a;
      FoldOrigin(p, run, d, front, a);
    }
  }

  lemma {:induction false} MapRunsTwins(c: Text, p: char, pairs: seq<Pair>, q: char, a: string)
    requires Quote(q) && NoNew(pairs, a) && !HasTwin(c, p, q, a)
    ensures !HasTwin(MapRuns(c, p, pairs), p, q, a)
  {
    if c.More? {
      MapRunsTwins(c.rest, c.delim, pairs, q, a);
      if Twin(MapRuns(c, p, pairs), p, q, a) {
        FoldOrigin(p, c.run, c.delim, pairs, a);
        FoldOrigin(c.delim, c.rest.run, c.rest.delim, pairs, a);
      }
    }
  }

  ghost predicate NoTwins(c: Text, pairs: seq<Pair>) {
    forall i, q | 0 <= i < |pairs| && Quote(q) :: !HasTwin(c, START, q, pairs[i].id)
  }

  // Every old id is longer than every new one, and ends with none.
  ghost predicate Separated(pairs: seq<Pair>) {
    forall i, j | 0 <= i < |pairs| && 0 <= j < |pairs| :: Apart(pairs[i].id, pairs[j].new_)
  }

  predicate Apart(id: string, new_: string) {
    |new_| < |id| && !EndsWith(id, new_)
  }

  lemma NoTwinsAt(c: Text, pairs: seq<Pair>)
    requires pairs != [] && NoTwins(c, pairs)
    ensures NoTwins(c, pairs[..|pairs| - 1])
    ensures var a := pairs[|pairs| - 1].id; !HasTwin(c, START, '"', a) && !HasTwin(c, START, '\'', a)
  {
    hide HasTwin;
    assert Quote('"') && Quote('\'');
  }

  lemma SeparatedAt(pairs: seq<Pair>)
    requires pairs != [] && Separated(pairs)
    ensures var front, x := pairs[..|pairs| - 1], pairs[|pairs| - 1];
      Separated(front) && NoNew(front, x.id) && x.id != x.new_ &&
      forall i :: 0 <= i < |front| ==> Apart(x.id, front[i].new_)
  {
    var front, x := pairs[..|pairs| - 1], pairs[|pairs| - 1];
    forall i | 0 <= i < |pairs| ensures Apart(x.id, pairs[i].new_) {
      assert Apart(pairs[|pairs| - 1].id, pairs[i].new_);
    }
    hide EndsWith;
    assert forall i :: 0 <= i < |front| ==> front[i] == pairs[i];
  }

  lemma {:induction false} PassAllMaps(c: Text, pairs: seq<Pair>)
    requires Separated(pairs) && NoTwins(c, pairs)
    ensures PassAll(c, pairs) == MapRuns(c, START, pairs)
  {
    hide PassRuns, MapRuns, HasTwin, NoTwins, Separated, NoNew;
    if pairs == [] {
      MapRunsNone(c, START);
    } else {
      var front, x := pairs[..|pairs| - 1], pairs[|pairs| - 1];
      NoTwinsAt(c, pairs);
      SeparatedAt(pairs);
      PassAllMaps(c, front);
      MapRunsTwins(c, START, front, '"', x.id);
      MapRunsTwins(c, START, front, '\'', x.id);
      PassMaps(MapRuns(c, START, front), x);
      MapRunsMore(c, START, front, x);
      assert front + [x] == pairs;
    }
  }

  // ---- All at once -----------------------------------------------------------------------

  // The start of the longest suffix that is an id, or |run| + 1.
  function SuffixStart(run: string, renames: map<string, string>, from: nat): (k: nat)
    requires from <= |run| + 1
    ensures from <= k <= |run| + 1 && (k <= |run| ==> run[k..] in renames)
    ensures forall j :: from <= j < k && j <= |run| ==> run[j..] !in renames
    decreases |run| + 1 - from
  {
    if from == |run| + 1 || run[from..] in renames then from else SuffixStart(run, renames, from + 1)
  }

  function SimRun(p: char, run: string, d: char, renames: map<string, string>): string {
    if Between(p, d) then (if run in renames then renames[run] else run)
    else if d == '.' then
      var k := SuffixStart(run, renames, 0);
      if k <= |run| then run[..k] + renames[run[k..]] else run
    else run
  }

  // Every run renamed at once: a quoted run that is an id, and before a dot the longest
  // suffix that is one.
  function Simultaneous(c: Text, p: char, renames: map<string, string>): Text {
    if c.End? then c else More(SimRun(p, c.run, c.delim, renames), c.delim, Simultaneous(c.rest, c.delim, renames))
  }

  // The renames in the order the code takes them: longest id first.
  ghost predicate Sorted(pairs: seq<Pair>, renames: map<string, string>) {
    && (forall i :: 0 <= i < |pairs| ==> pairs[i].id in renames && renames[pairs[i].id] == pairs[i].new_)
    && (forall a :: a in renames ==> exists i :: 0 <= i < |pairs| && pairs[i].id == a)
    && Descending(pairs)
  }

  predicate Descending(pairs: seq<Pair>) {
    forall i, j :: 0 <= i < j < |pairs| ==> |pairs[i].id| >= |pairs[j].id| && pairs[i].id != pairs[j].id
  }

  predicate Absent(pairs: seq<Pair>, run: string) {
    forall i :: 0 <= i < |pairs| ==> pairs[i].id != run
  }

  lemma QuotedStep(p: char, run: string, d: char, x: Pair)
    requires Between(p, d)
    ensures RunStep(p, run, d, x) == if run == x.id then x.new_ else run
  {
  }

  lemma {:induction false} FoldQuoted(p: char, run: string, d: char, pairs: seq<Pair>)
    requires Between(p, d) && Descending(pairs) && Separated(pairs)
    ensures forall i :: 0 <= i < |pairs| && pairs[i].id == run ==> RunFold(p, run, d, pairs) == pairs[i].new_
    ensures Absent(pairs, run) ==> RunFold(p, run, d, pairs) == run
  {
    hide RunStep, Between, Separated, Apart;
    if pairs != [] {
      var front, x := pairs[..|pairs| - 1], pairs[|pairs| - 1];
      SeparatedAt(pairs);
      FoldQuoted(p, run, d, front);
      QuotedStep(p, RunFold(p, run, d, front), d, x);
      assert pairs == front + [x];
      if i :| 0 <= i < |front| && front[i].id == run {
        assert pairs[i].id == run;
      } else {
        assert Absent(front, run);
      }
    }
  }

  ghost predicate FirstEnding(run: string, pairs: seq<Pair>, i: int) {
    0 <= i < |pairs| && EndsWith(run, pairs[i].id) && forall j :: 0 <= j < i ==> !EndsWith(run, pairs[j].id)
  }

  // What a renamed run ends with is no id.
  lemma SwappedApart(run: string, a: string, b: string, id: string)
    requires EndsWith(run, a) && Apart(id, b)
    ensures !EndsWith(Swap(run, a, b), id)
  {
    var r := Swap(run, a, b);
    assert EndsWith(r, b);
    if EndsWith(r, id) {
      SuffixOfSuffix(r, id, b);
    }
  }

  lemma SuffixOfSuffix(r: string, id: string, b: string)
    requires EndsWith(r, id) && EndsWith(r, b) && |b| <= |id|
    ensures EndsWith(id, b)
  {
    assert r[|r| - |id|..][|id| - |b|..] == r[|r| - |b|..];
  }

  lemma {:induction false} FoldDotted(p: char, run: string, pairs: seq<Pair>)
    requires Separated(pairs)
    ensures forall i :: FirstEnding(run, pairs, i) ==>
      RunFold(p, run, '.', pairs) == Swap(run, pairs[i].id, pairs[i].new_)
    ensures (forall i :: 0 <= i < |pairs| ==> !EndsWith(run, pairs[i].id)) ==> RunFold(p, run, '.', pairs) == run
  {
    hide EndsWith, Swap, Apart;
    if pairs != [] {
      var front, x := pairs[..|pairs| - 1], pairs[|pairs| - 1];
      FoldDotted(p, run, front);
      var r := RunFold(p, run, '.', front);
      forall i | FirstEnding(run, pairs, i)
        ensures RunFold(p, run, '.', pairs) == Swap(run, pairs[i].id, pairs[i].new_)
      {
        if i < |front| {
          assert FirstEnding(run, front, i);
          assert Apart(pairs[|pairs| - 1].id, pairs[i].new_);
          SwappedApart(run, pairs[i].id, pairs[i].new_, x.id);
        } else {
          assert forall j :: 0 <= j < |front| ==> front[j] == pairs[j];
        }
      }
      if forall i :: 0 <= i < |pairs| ==> !EndsWith(run, pairs[i].id) {
        assert !EndsWith(run, pairs[|pairs| - 1].id);
        assert forall j :: 0 <= j < |front| ==> front[j] == pairs[j];
      }
    }
  }

  lemma {:induction false} FoldPlain(p: char, run: string, d: char, pairs: seq<Pair>)
    requires !Between(p, d) && d != '.'
    ensures RunFold(p, run, d, pairs) == run
  {
    if pairs != [] {
      FoldPlain(p, run, d, pairs[..|pairs| - 1]);
    }
  }

  lemma {:induction false} EarliestEnding(run: string, pairs: seq<Pair>, n: nat) returns (i: int)
    requires n < |pairs| && EndsWith(run, pairs[n].id)
    ensures 0 <= i <= n && FirstEnding(run, pairs, i)
  {
    if j: nat :| j < n && EndsWith(run, pairs[j].id) {
      i := EarliestEnding(run, pairs, j);
    } else {
      i := n;
    }
  }

  lemma SuffixBefore(run: string, id: string, renames: map<string, string>)
    requires EndsWith(run, id) && id in renames
    ensures SuffixStart(run, renames, 0) <= |run| - |id|
  {
    assert run[|run| - |id|..] in renames;
  }

  // Longest first, then, is the longest suffix.
  lemma LongestFirst(run: string, pairs: seq<Pair>, renames: map<string, string>)
    requires Sorted(pairs, renames) && SuffixStart(run, renames, 0) <= |run|
    ensures exists i :: FirstEnding(run, pairs, i) && pairs[i].id == run[SuffixStart(run, renames, 0)..]
  {
    hide SuffixStart;
    var k := SuffixStart(run, renames, 0);
    var n :| 0 <= n < |pairs| && pairs[n].id == run[k..];
    var i := EarliestEnding(run, pairs, n);
    SuffixBefore(run, pairs[i].id, renames);
    assert |pairs[i].id| >= |pairs[n].id|;
  }

  lemma NoneEnding(run: string, pairs: seq<Pair>, renames: map<string, string>)
    requires Sorted(pairs, renames) && SuffixStart(run, renames, 0) == |run| + 1
    ensures forall i :: 0 <= i < |pairs| ==> !EndsWith(run, pairs[i].id)
  {
    hide SuffixStart;
    forall i | 0 <= i < |pairs| ensures !EndsWith(run, pairs[i].id) {
      if EndsWith(run, pairs[i].id) {
        SuffixBefore(run, pairs[i].id, renames);
      }
    }
  }

  lemma FoldIsSim(p: char, run: string, d: char, pairs: seq<Pair>, renames: map<string, string>)
    requires Sorted(pairs, renames) && Separated(pairs)
    ensures RunFold(p, run, d, pairs) == SimRun(p, run, d, renames)
  {
    hide RunFold, SuffixStart, Apart;
    if Between(p, d) {
      FoldQuoted(p, run, d, pairs);
      if run in renames {
        var i :| 0 <= i < |pairs| && pairs[i].id == run;
      }
    } else if d == '.' {
      FoldDotted(p, run, pairs);
      var k := SuffixStart(run, renames, 0);
      if k > |run| {
        NoneEnding(run, pairs, renames);
      } else {
        LongestFirst(run, pairs, renames);
        var i :| FirstEnding(run, pairs, i) && pairs[i].id == run[k..];
        assert |run| - |pairs[i].id| == k;
      }
    } else {
      FoldPlain(p, run, d, pairs);
    }
  }

  lemma {:induction false} MapIsSimultaneous(c: Text, p: char, pairs: seq<Pair>, renames: map<string, string>)
    requires Sorted(pairs, renames) && Separated(pairs)
    ensures MapRuns(c, p, pairs) == Simultaneous(c, p, renames)
  {
    hide RunFold, SimRun, Sorted, Separated;
    if c.More? {
      MapIsSimultaneous(c.rest, c.delim, pairs, renames);
      FoldIsSim(p, c.run, c.delim, pairs, renames);
    }
  }

  // ---- A twin is what the code misses ---------------------------------------------------

  predicate HasQuoted(c: Text, p: char, q: char, a: string) {
    c.More? && ((p == q && c.run == a && c.delim == q) || HasQuoted(c.rest, c.delim, q, a))
  }

  lemma {:induction false} QuoteSubOther(c: Text, p: char, q2: char, a2: string, b2: string, open: bool, q: char,
                                         a: string)
    requires q2 != q || a2 != a
    ensures HasQuoted(c, p, q, a) ==> HasQuoted(QuoteSub(c, q2, a2, b2, open), p, q, a)
    ensures HasTwin(c, p, q, a) ==> HasTwin(QuoteSub(c, q2, a2, b2, open), p, q, a)
  {
    if c.More? {
      QuoteSubOther(c.rest, c.delim, q2, a2, b2,
                    if open && c.run == a2 && c.delim == q2 then false else c.delim == q2, q, a);
    }
  }

  lemma {:induction false} DotSubOther(c: Text, p: char, a2: string, b2: string, q: char, a: string)
    requires Quote(q)
    ensures HasQuoted(c, p, q, a) ==> HasQuoted(DotSub(c, a2, b2), p, q, a)
    ensures HasTwin(c, p, q, a) ==> HasTwin(DotSub(c, a2, b2), p, q, a)
  {
    if c.More? {
      DotSubOther(c.rest, c.delim, a2, b2, q, a);
    }
  }

  // One of two neighbours stays.
  lemma {:induction false} TwinLeaves(c: Text, p: char, q: char, a: string, b: string, open: bool)
    requires HasTwin(c, p, q, a)
    ensures HasQuoted(QuoteSub(c, q, a, b, open), p, q, a)
  {
    if !Twin(c, p, q, a) {
      TwinLeaves(c.rest, c.delim, q, a, b, if open && c.run == a && c.delim == q then false else c.delim == q);
    } else if open {
      assert HasQuoted(QuoteSub(c.rest, q, a, b, false), q, q, a);
    }
  }

  lemma PassTwin(c: Text, x: Pair, q: char, a: string)
    requires Quote(q) && HasTwin(c, START, q, a)
    ensures if x.id == a then HasQuoted(PassRuns(c, x), START, q, a) else HasTwin(PassRuns(c, x), START, q, a)
  {
    hide HasTwin, HasQuoted, QuoteSub, DotSub;
    var c1 := QuoteSub(c, '"', x.id, x.new_, false);
    var c2 := QuoteSub(c1, '\'', x.id, x.new_, false);
    DotSubOther(c2, START, x.id, x.new_, q, a);
    if x.id == a && q == '"' {
      TwinLeaves(c, START, q, a, x.new_, false);
      QuoteSubOther(c1, START, '\'', x.id, x.new_, false, q, a);
    } else if x.id == a {
      QuoteSubOther(c, START, '"', x.id, x.new_, false, q, a);
      TwinLeaves(c1, START, q, a, x.new_, false);
    } else {
      QuoteSubOther(c, START, '"', x.id, x.new_, false, q, a);
      QuoteSubOther(c1, START, '\'', x.id, x.new_, false, q, a);
    }
  }

  lemma PassQuoted(c: Text, x: Pair, q: char, a: string)
    requires Quote(q) && HasQuoted(c, START, q, a) && x.id != a
    ensures HasQuoted(PassRuns(c, x), START, q, a)
  {
    hide HasTwin, HasQuoted, QuoteSub, DotSub;
    var c1 := QuoteSub(c, '"', x.id, x.new_, false);
    QuoteSubOther(c, START, '"', x.id, x.new_, false, q, a);
    QuoteSubOther(c1, START, '\'', x.id, x.new_, false, q, a);
    DotSubOther(QuoteSub(c1, '\'', x.id, x.new_, false), START, x.id, x.new_, q, a);
  }

  // A twin of an id leaves that id quoted in the final text.
  lemma {:induction false} TwinSurvives(c: Text, pairs: seq<Pair>, i: nat, q: char)
    requires i < |pairs| && Descending(pairs) && Quote(q) && HasTwin(c, START, q, pairs[i].id)
    ensures HasQuoted(PassAll(c, pairs), START, q, pairs[i].id)
  {
    hide HasTwin, HasQuoted, PassRuns;
    var front, x := pairs[..|pairs| - 1], pairs[|pairs| - 1];
    if i == |front| {
      TwinStays(c, front, x.id, q);
      PassTwin(PassAll(c, front), x, q, x.id);
    } else {
      TwinSurvives(c, front, i, q);
      PassQuoted(PassAll(c, front), x, q, pairs[i].id);
    }
  }

  lemma {:induction false} TwinStays(c: Text, pairs: seq<Pair>, a: string, q: char)
    requires Absent(pairs, a) && Quote(q) && HasTwin(c, START, q, a)
    ensures HasTwin(PassAll(c, pairs), START, q, a)
  {
    hide HasTwin, PassRuns;
    if pairs != [] {
      TwinStays(c, pairs[..|pairs| - 1], a, q);
      PassTwin(PassAll(c, pairs[..|pairs| - 1]), pairs[|pairs| - 1], q, a);
    }
  }

  // Ids and new ids stay apart in the map's own terms.
  ghost predicate MapApart(renames: map<string, string>) {
    forall a, b | a in renames && b in renames :: Apart(a, renames[b])
  }

  lemma MapApartFrom(pairs: seq<Pair>, renames: map<string, string>)
    requires Sorted(pairs, renames) && Separated(pairs)
    ensures MapApart(renames)
  {
    hide Apart, Descending;
    forall a, b | a in renames && b in renames ensures Apart(a, renames[b]) {
      var i :| 0 <= i < |pairs| && pairs[i].id == a;
      var j :| 0 <= j < |pairs| && pairs[j].id == b;
      assert Apart(pairs[i].id, pairs[j].new_);
    }
  }

  lemma {:induction false} SimNoQuoted(c: Text, p: char, renames: map<string, string>, q: char, a: string)
    requires MapApart(renames) && a in renames && Quote(q)
    ensures !HasQuoted(Simultaneous(c, p, renames), p, q, a)
  {
    if c.More? {
      SimNoQuoted(c.rest, c.delim, renames, q, a);
      if Between(p, c.delim) && c.run in renames {
        assert Apart(a, renames[c.run]);
      }
    }
  }

  lemma {:induction false} SimValid(c: Text, p: char, renames: map<string, string>)
    requires Valid(c) && forall a :: a in renames ==> Clean(renames[a])
    ensures Valid(Simultaneous(c, p, renames))
  {
    if c.More? {
      SimValid(c.rest, c.delim, renames);
    }
  }

  // ---- The main results -------------------------------------------------------------------

  // What the code is given: clean ids, longest first, each apart from every new id.
  ghost predicate Usable(pairs: seq<Pair>, renames: map<string, string>) {
    CleanPairs(pairs) && Sorted(pairs, renames) && Separated(pairs)
  }

  function AllAtOnce(text: string, renames: map<string, string>): string {
    Flat(Simultaneous(Parse(text), START, renames))
  }

  lemma CleanMap(pairs: seq<Pair>, renames: map<string, string>)
    requires Usable(pairs, renames)
    ensures forall a :: a in renames ==> Clean(renames[a])
  {
    hide Clean, Separated, Descending;
  }

  lemma SequentialRuns(text: string, pairs: seq<Pair>, renames: map<string, string>)
    requires Usable(pairs, renames)
    ensures var c := PassAll(Parse(text), pairs); Valid(c) && Rewritten(text, pairs) == Flat(c) && Parse(Flat(c)) == c
  {
    hide Valid, Flat, Parse, PassAll, Rewritten;
    ParseFlat(text);
    PassAllIs(Parse(text), pairs);
    FlatParse(PassAll(Parse(text), pairs));
  }

  // One id after another is all ids at once exactly when no two neighbouring quoted runs
  // sharing a quote are the same id.
  lemma SequentialIsSimultaneous(text: string, pairs: seq<Pair>, renames: map<string, string>)
    requires Usable(pairs, renames)
    ensures Rewritten(text, pairs) == AllAtOnce(text, renames) <==> NoTwins(Parse(text), pairs)
  {
    hide Valid, Flat, Parse, PassAll, Rewritten, Simultaneous, MapRuns, HasTwin, HasQuoted, Separated, Descending,
      CleanPairs, Clean;
    var c := Parse(text);
    var seq_, sim := PassAll(c, pairs), Simultaneous(c, START, renames);
    SequentialRuns(text, pairs, renames);
    if NoTwins(c, pairs) {
      PassAllMaps(c, pairs);
      MapIsSimultaneous(c, START, pairs, renames);
    } else {
      var i, q :| 0 <= i < |pairs| && Quote(q) && HasTwin(c, START, q, pairs[i].id);
      TwinSurvives(c, pairs, i, q);
      MapApartFrom(pairs, renames);
      SimNoQuoted(c, START, renames, q, pairs[i].id);
      ParseFlat(text);
      CleanMap(pairs, renames);
      SimValid(c, START, renames);
      FlatParse(sim);
    }
  }

  lemma ValidMore(run: string, d: char, rest: Text)
    requires Clean(run) && Delim(d) && Valid(rest)
    ensures Valid(More(run, d, rest))
  {
  }

  lemma Regroup(q: string, a: string)
    ensures q + a + q + a + q == "" + (q + (a + (q + (a + (q + "")))))
  {
    assert q + "" == q;
    Associative(q + a + q, a, q);
    Associative(q + a, q, a + q);
    Associative(q, a, q + (a + q));
  }

  lemma Associative(a: string, b: string, c: string)
    ensures (a + b) + c == a + (b + c)
  {
  }

  // The smallest text the code gets wrong.
  lemma TwinMissed(a: string, b: string)
    requires Clean(a) && Clean(b) && Apart(a, b)
    ensures var text := "\"" + a + "\"" + a + "\"";
      Rewritten(text, [Pair(a, b)]) != AllAtOnce(text, map[a := b])
  {
    var text, pairs, renames := "\"" + a + "\"" + a + "\"", [Pair(a, b)], map[a := b];
    var c2 := More(a, '"', End(""));
    var c1 := More(a, '"', c2);
    var c := More("", '"', c1);
    ValidMore(a, '"', End(""));
    ValidMore(a, '"', c2);
    ValidMore("", '"', c1);
    assert "\"" == ['"'];
    assert Flat(c2) == a + ("\"" + "");
    assert Flat(c1) == a + ("\"" + Flat(c2));
    assert Flat(c) == "" + ("\"" + Flat(c1));
    Regroup("\"", a);
    FlatParse(c);
    assert HasTwin(c, START, '"', pairs[0].id);
    hide HasTwin, Parse, Flat, Clean, Rewritten;
    OneSorted(a, b);
    SequentialIsSimultaneous(text, pairs, renames);
  }

  // ---- Whole ids only ---------------------------------------------------------------------

  // What the description of the code asks for: a run is renamed where it is an id, and no
  // part of a longer run is.
  function WholeRun(p: char, run: string, d: char, renames: map<string, string>): string {
    if (Between(p, d) || d == '.') && run in renames then renames[run] else run
  }

  function WholeRuns(c: Text, p: char, renames: map<string, string>): Text {
    if c.End? then c else More(WholeRun(p, c.run, c.delim, renames), c.delim, WholeRuns(c.rest, c.delim, renames))
  }

  function WholeIds(text: string, renames: map<string, string>): string {
    Flat(WholeRuns(Parse(text), START, renames))
  }

  // A run before a dot that is no id and ends with one.
  predicate Stray(run: string, d: char, renames: map<string, string>) {
    d == '.' && run !in renames && SuffixStart(run, renames, 0) <= |run|
  }

  predicate HasStray(c: Text, renames: map<string, string>) {
    c.More? && (Stray(c.run, c.delim, renames) || HasStray(c.rest, renames))
  }

  lemma RunIsWhole(p: char, run: string, d: char, renames: map<string, string>)
    requires MapApart(renames)
    ensures SimRun(p, run, d, renames) == WholeRun(p, run, d, renames) <==> !Stray(run, d, renames)
  {
    hide SuffixStart, EndsWith;
    var k := SuffixStart(run, renames, 0);
    if run in renames {
      assert run[0..] == run && k == 0;
    } else if d == '.' && k <= |run| {
      assert Apart(run[k..], renames[run[k..]]);
    }
  }

  lemma {:induction false} RunsAreWhole(c: Text, p: char, renames: map<string, string>)
    requires MapApart(renames)
    ensures Simultaneous(c, p, renames) == WholeRuns(c, p, renames) <==> !HasStray(c, renames)
  {
    hide SimRun, WholeRun, Stray;
    if c.More? {
      RunIsWhole(p, c.run, c.delim, renames);
      RunsAreWhole(c.rest, c.delim, renames);
    }
  }

  lemma {:induction false} WholeNoQuoted(c: Text, p: char, renames: map<string, string>, q: char, a: string)
    requires MapApart(renames) && a in renames && Quote(q)
    ensures !HasQuoted(WholeRuns(c, p, renames), p, q, a)
  {
    if c.More? {
      WholeNoQuoted(c.rest, c.delim, renames, q, a);
      if Between(p, c.delim) && c.run in renames {
        assert Apart(a, renames[c.run]);
      }
    }
  }

  lemma {:induction false} WholeValid(c: Text, p: char, renames: map<string, string>)
    requires Valid(c) && forall a :: a in renames ==> Clean(renames[a])
    ensures Valid(WholeRuns(c, p, renames))
  {
    if c.More? {
      WholeValid(c.rest, c.delim, renames);
    }
  }

  // The code renames whole ids, and nothing else, exactly when the text has neither a twin
  // nor a stray.
  lemma RenamesWholeIds(text: string, pairs: seq<Pair>, renames: map<string, string>)
    requires Usable(pairs, renames)
    ensures Rewritten(text, pairs) == WholeIds(text, renames) <==>
      NoTwins(Parse(text), pairs) && !HasStray(Parse(text), renames)
  {
    hide Valid, Flat, Parse, PassAll, Rewritten, Simultaneous, WholeRuns, MapRuns, HasTwin, HasQuoted, HasStray,
      Separated, Descending, CleanPairs, Clean;
    var c := Parse(text);
    var done, sim, whole := PassAll(c, pairs), Simultaneous(c, START, renames), WholeRuns(c, START, renames);
    SequentialRuns(text, pairs, renames);
    ParseFlat(text);
    CleanMap(pairs, renames);
    MapApartFrom(pairs, renames);
    WholeValid(c, START, renames);
    FlatParse(whole);
    if NoTwins(c, pairs) {
      PassAllMaps(c, pairs);
      MapIsSimultaneous(c, START, pairs, renames);
      RunsAreWhole(c, START, renames);
    } else {
      var i, q :| 0 <= i < |pairs| && Quote(q) && HasTwin(c, START, q, pairs[i].id);
      TwinSurvives(c, pairs, i, q);
      WholeNoQuoted(c, START, renames, q, pairs[i].id);
    }
  }

  lemma OneSorted(a: string, b: string)
    requires Clean(a) && Clean(b) && Apart(a, b)
    ensures Usable([Pair(a, b)], map[a := b])
  {
    hide Clean, Apart;
    var pairs := [Pair(a, b)];
    assert pairs[0].id == a;
  }

  // A longer name that ends with an id is rewritten in part, whatever comes before the id.
  lemma LongerNameRewritten(x: string, a: string, b: string)
    requires Clean(x) && x != "" && Clean(a) && Clean(b) && Apart(a, b)
    ensures Rewritten(x + a + ".", [Pair(a, b)]) != WholeIds(x + a + ".", map[a := b])
  {
    var run, renames := x + a, map[a := b];
    var c := More(run, '.', End(""));
    assert ['.'] + "" == "." && Valid(c);
    assert Flat(c) == run + (['.'] + Flat(End("")));
    FlatParse(c);
    assert EndsWith(run, a);
    SuffixBefore(run, a, renames);
    assert HasStray(c, renames) by {
      hide SuffixStart;
      assert |run| != |a|;
    }
    OneSorted(a, b);
    hide Rewritten, WholeIds, Parse, Flat, HasStray;
    RenamesWholeIds(run + ".", [Pair(a, b)], renames);
  }

  // The code's own example of a name that must not be touched.
  lemma LibIndexRewritten()
    ensures var (text, id, short) := ("packages_base_" + "lib_index_js" + ".", "lib_index_js", "c77d1f24");
      Rewritten(text, [Pair(id, short)]) != WholeIds(text, map[id := short])
  {
    hide Rewritten, WholeIds;
    LongerNameRewritten("packages_base_", "lib_index_js", "c77d1f24");
  }

  // ---- Nothing old is left, and a second run changes nothing ----------------------------

  predicate HasDotted(c: Text, a: string) {
    c.More? && ((c.delim == '.' && EndsWith(c.run, a)) || HasDotted(c.rest, a))
  }

  lemma {:induction false} OccursQuoted(c: Text, p: char, q: char, a: string, k: nat)
    requires Valid(c) && Quote(q) && Clean(a) && At(Flat(c), Quoted(q, a), k)
    ensures HasQuoted(c, p, q, a)
  {
    if c.End? {
      Mismatch(c.run, Quoted(q, a), k, 0);
    } else {
      var s := [c.delim] + Flat(c.rest);
      NoQuoteInRun(c.run, s, q, a);
      AtShift(c.run, s, Quoted(q, a), k);
      if k > |c.run| {
        AtShift([c.delim], Flat(c.rest), Quoted(q, a), k - |c.run|);
        OccursQuoted(c.rest, c.delim, q, a, k - |c.run| - 1);
      } else {
        if c.delim != q {
          Mismatch(s, Quoted(q, a), 0, 0);
        }
        if c.rest.End? {
          OpenEnd(c.rest.run, q, a);
        } else {
          OpenMatch(c.rest.run, c.rest.delim, Flat(c.rest.rest), q, a);
        }
      }
    }
  }

  lemma AtShift(x: string, s: string, pat: string, k: int)
    requires k >= |x|
    ensures At(x + s, pat, k) <==> At(s, pat, k - |x|)
  {
    if k + |pat| <= |x + s| {
      assert (x + s)[k..k + |pat|] == s[k - |x|..k - |x| + |pat|];
    }
  }

  lemma {:induction false} OccursDotted(c: Text, a: string, k: nat)
    requires Valid(c) && Clean(a) && a != "" && At(Flat(c), a + ".", k)
    ensures HasDotted(c, a)
  {
    if c.End? {
      Mismatch(c.run, a + ".", k, |a|);
    } else {
      var s := [c.delim] + Flat(c.rest);
      if k <= |c.run| {
        CleanPrefix(c.run, c.delim, Flat(c.rest), a, '.', k);
      } else {
        AtShift(c.run, s, a + ".", k);
        AtShift([c.delim], Flat(c.rest), a + ".", k - |c.run|);
        OccursDotted(c.rest, a, k - |c.run| - 1);
      }
    }
  }

  lemma {:induction false} SimNoDotted(c: Text, p: char, renames: map<string, string>, a: string)
    requires MapApart(renames) && a in renames
    ensures !HasDotted(Simultaneous(c, p, renames), a)
  {
    if c.More? {
      SimNoDotted(c.rest, c.delim, renames, a);
      if c.delim == '.' {
        SimRunApart(p, c.run, renames, a);
      }
    }
  }

  lemma SimRunApart(p: char, run: string, renames: map<string, string>, a: string)
    requires MapApart(renames) && a in renames
    ensures !EndsWith(SimRun(p, run, '.', renames), a)
  {
    hide SuffixStart, EndsWith, Apart;
    var k := SuffixStart(run, renames, 0);
    if k <= |run| {
      assert Apart(a, renames[run[k..]]);
      SuffixRenamed(run, k, renames[run[k..]], a);
    } else if EndsWith(run, a) {
      SuffixBefore(run, a, renames);
    }
  }

  lemma SuffixRenamed(run: string, k: nat, b: string, a: string)
    requires k <= |run| && Apart(a, b)
    ensures !EndsWith(run[..k] + b, a)
  {
    var id := run[k..];
    assert EndsWith(run, id) && Swap(run, id, b) == run[..k] + b;
    hide EndsWith, Apart, Swap;
    SwappedApart(run, id, b, a);
  }

  // Without twins no old id is left, quoted or before a dot.
  lemma NothingLeft(text: string, pairs: seq<Pair>, renames: map<string, string>, a: string)
    requires Usable(pairs, renames) && NoTwins(Parse(text), pairs) && a in renames
    ensures !Mentions(Rewritten(text, pairs), a)
  {
    hide Valid, Flat, Parse, Simultaneous, HasTwin, HasQuoted, HasDotted, Separated, Descending, Clean, Rewritten, At;
    var c := Simultaneous(Parse(text), START, renames);
    SequentialIsSimultaneous(text, pairs, renames);
    ParseFlat(text);
    CleanMap(pairs, renames);
    SimValid(Parse(text), START, renames);
    MapApartFrom(pairs, renames);
    IdClean(pairs, renames, a);
    SimNoQuoted(Parse(text), START, renames, '"', a);
    SimNoQuoted(Parse(text), START, renames, '\'', a);
    SimNoDotted(Parse(text), START, renames, a);
    NotThere(c, a);
  }

  lemma IdClean(pairs: seq<Pair>, renames: map<string, string>, a: string)
    requires Usable(pairs, renames) && a in renames
    ensures Clean(a) && a != ""
  {
    hide Clean, EndsWith, Descending;
    var i :| 0 <= i < |pairs| && pairs[i].id == a;
    assert Apart(pairs[i].id, pairs[i].new_);
  }

  lemma NotThere(c: Text, a: string)
    requires Valid(c) && Clean(a) && a != ""
    requires !HasQuoted(c, START, '"', a) && !HasQuoted(c, START, '\'', a) && !HasDotted(c, a)
    ensures !Mentions(Flat(c), a)
  {
    hide Valid, Flat, HasQuoted, HasDotted, Clean, Quoted;
    var s := Flat(c);
    if Contains(s, Quoted('"', a)) {
      OccursQuoted(c, START, '"', a, Find(s, Quoted('"', a), 0));
    }
    if Contains(s, Quoted('\'', a)) {
      OccursQuoted(c, START, '\'', a, Find(s, Quoted('\'', a), 0));
    }
    if Contains(s, a + ".") {
      OccursDotted(c, a, Find(s, a + ".", 0));
    }
  }

  lemma {:induction false} Untouched(s: string, pairs: seq<Pair>)
    requires forall i :: 0 <= i < |pairs| ==> !Mentions(s, pairs[i].id)
    ensures Rewritten(s, pairs) == s
  {
    hide Contains, Replace;
    if pairs != [] {
      var front, x := pairs[..|pairs| - 1], pairs[|pairs| - 1];
      Untouched(s, front);
      ReplaceNothing(s, Quoted('"', x.id), Quoted('"', x.new_));
      ReplaceNothing(s, Quoted('\'', x.id), Quoted('\'', x.new_));
      ReplaceNothing(s, x.id + ".", x.new_ + ".");
    }
  }

  // Running the rewrite again changes nothing.
  lemma Idempotent(text: string, pairs: seq<Pair>, renames: map<string, string>)
    requires Usable(pairs, renames) && NoTwins(Parse(text), pairs)
    ensures Rewritten(Rewritten(text, pairs), pairs) == Rewritten(text, pairs)
  {
    hide Mentions, NoTwins, Separated, Descending, CleanPairs, Rewritten;
    forall i | 0 <= i < |pairs| ensures !Mentions(Rewritten(text, pairs), pairs[i].id) {
      NothingLeft(text, pairs, renames, pairs[i].id);
    }
    Untouched(Rewritten(text, pairs), pairs);
  }
}
