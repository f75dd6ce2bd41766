// The text rewriting of the webpack chunk shortener, seen as runs between delimiters
// (build-win-native/shorten_webpack_chunks.py:39-71).
module ChunkText {
  import opened Strings

  predicate Quote(c: char) {
    c == '"' || c == '\''
  }

  predicate Delim(c: char) {
    Quote(c) || c == '.'
  }

  predicate Clean(s: string) {
    forall i :: 0 <= i < |s| ==> !Delim(s[i])
  }

  // Runs free of delimiters, separated by single delimiters.
  datatype Text = End(run: string) | More(run: string, delim: char, rest: Text)

  predicate Valid(c: Text) {
    Clean(c.run) && (c.More? ==> Delim(c.delim) && Valid(c.rest))
  }

  function Flat(c: Text): string {
    if c.End? then c.run else c.run + ([c.delim] + Flat(c.rest))
  }

  function Parse(s: string): Text {
    if s == "" then End("") else
    var c := Parse(s[1..]);
    if Delim(s[0]) then More("", s[0], c)
    else if c.End? then End([s[0]] + c.run) else More([s[0]] + c.run, c.delim, c.rest)
  }

  lemma {:induction false} ParseFlat(s: string)
    ensures Valid(Parse(s)) && Flat(Parse(s)) == s
  {
    if s != "" {
      ParseFlat(s[1..]);
      assert s == [s[0]] + s[1..];
    }
  }

  lemma {:induction false} EndParse(x: string)
    requires Clean(x)
    ensures Parse(x) == End(x)
  {
    if x != "" {
      EndParse(x[1..]);
    }
  }

  lemma {:induction false} RunParse(x: string, d: char, rest: Text)
    requires Clean(x) && Delim(d) && Parse(Flat(rest)) == rest
    ensures Parse(x + ([d] + Flat(rest))) == More(x, d, rest)
  {
    var s := x + ([d] + Flat(rest));
    if x == "" {
      assert s == [d] + Flat(rest);
      assert s[1..] == Flat(rest);
    } else {
      RunParse(x[1..], d, rest);
      assert s[1..] == x[1..] + ([d] + Flat(rest));
      assert [x[0]] + x[1..] == x;
    }
  }

  lemma {:induction false} FlatParse(c: Text)
    requires Valid(c)
    ensures Parse(Flat(c)) == c
  {
    if c.End? {
      EndParse(c.run);
    } else {
      FlatParse(c.rest);
      RunParse(c.run, c.delim, c.rest);
    }
  }

  // ---- One replacement, run by run ---------------------------------------------------

  // A clean pattern ending in a delimiter can only end at the first delimiter.
  lemma CleanPrefix(run: string, d: char, t: string, a: string, e: char, k: nat)
    requires Clean(run) && Clean(a) && Delim(d) && Delim(e) && k <= |run| && At(run + ([d] + t), a + [e], k)
    ensures k + |a| == |run| && run[k..] == a && d == e
  {
    var s, pat := run + ([d] + t), a + [e];
    if |run| < k + |a| {
      Mismatch(s, pat, k, |run| - k);
    } else if k + |a| < |run| {
      Mismatch(s, pat, k, |a|);
    } else {
      AtChars(s, pat, k);
      assert s[k + |a|] == pat[|a|];
      forall j | 0 <= j < |a| ensures run[k..][j] == a[j] {
        assert s[k + j] == pat[j];
      }
    }
  }

  lemma Mismatch(s: string, pat: string, k: int, j: int)
    requires 0 <= j < |pat| && 0 <= k && (k + j < |s| ==> s[k + j] != pat[j])
    ensures !At(s, pat, k)
  {
    if k + |pat| <= |s| {
      assert s[k..k + |pat|][j] == s[k + j];
    }
  }

  lemma AtChars(s: string, pat: string, k: int)
    requires At(s, pat, k)
    ensures forall j :: 0 <= j < |pat| ==> s[k + j] == pat[j]
  {
    forall j | 0 <= j < |pat| ensures s[k + j] == pat[j] {
      assert s[k..k + |pat|][j] == s[k + j];
    }
  }

  function Quoted(q: char, a: string): string {
    [q] + a + [q]
  }

  // Replacing a quoted id: open where the delimiter before is q and not already used up.
  function QuoteSub(c: Text, q: char, a: string, b: string, open: bool): Text {
    if c.End? then c
    else if open && c.run == a && c.delim == q then More(b, q, QuoteSub(c.rest, q, a, b, false))
    else More(c.run, c.delim, QuoteSub(c.rest, q, a, b, c.delim == q))
  }

  lemma NoQuoteInRun(run: string, s: string, q: char, a: string)
    requires Clean(run) && Quote(q)
    ensures forall k :: 0 <= k < |run| ==> !At(run + s, Quoted(q, a), k)
  {
    forall k | 0 <= k < |run| ensures !At(run + s, Quoted(q, a), k) {
      Mismatch(run + s, Quoted(q, a), k, 0);
    }
  }

  // After an opening quote, a match is a whole run.
  lemma OpenMatch(run: string, d: char, t: string, q: char, a: string)
    requires Clean(run) && Clean(a) && Delim(d) && Quote(q)
    requires At([q] + (run + ([d] + t)), Quoted(q, a), 0)
    ensures run == a && d == q
  {
    var s := run + ([d] + t);
    AtTail([q] + s, Quoted(q, a), 0 + 1);
    assert Quoted(q, a) == [q] + (a + [q]);
    assert ([q] + s)[1..] == s;
    assert s[0..0 + |a + [q]|] == ([q] + s)[0..|Quoted(q, a)|][1..];
    CleanPrefix(run, d, t, a, q, 0);
    assert run[0..] == run;
  }

  lemma OpenEnd(run: string, q: char, a: string)
    requires Clean(run) && Quote(q)
    ensures !At([q] + run, Quoted(q, a), 0)
  {
    Mismatch([q] + run, Quoted(q, a), 0, |a| + 1);
  }

  lemma {:induction false} QuoteSubIs(c: Text, q: char, a: string, b: string, open: bool)
    requires Valid(c) && Quote(q) && Clean(a)
    ensures open ==>
      Replace([q] + Flat(c), Quoted(q, a), Quoted(q, b)) == [q] + Flat(QuoteSub(c, q, a, b, true))
    ensures !open ==> Replace(Flat(c), Quoted(q, a), Quoted(q, b)) == Flat(QuoteSub(c, q, a, b, false))
  {
    if c.End? {
      QuoteAtEnd(c.run, q, a, b);
    } else if open && c.run == a && c.delim == q {
      QuoteSubIs(c.rest, q, a, b, false);
      QuoteTaken(c.rest, q, a, b);
    } else {
      QuoteSubIs(c.rest, q, a, b, c.delim == q);
      DelimStep(c, q, a, b);
      QuoteSkipped(c.run, c.delim, Flat(c.rest), q, a, b);
      if open {
        QuoteNotTaken(c.run, c.delim, Flat(c.rest), q, a, b);
      }
    }
  }

  lemma QuoteAtEnd(run: string, q: char, a: string, b: string)
    requires Clean(run) && Quote(q)
    ensures Replace(run, Quoted(q, a), Quoted(q, b)) == run
    ensures Replace([q] + run, Quoted(q, a), Quoted(q, b)) == [q] + run
  {
    NoQuoteInRun(run, "", q, a);
    assert run + "" == run;
    ReplaceSkip(run, "", Quoted(q, a), Quoted(q, b));
    OpenEnd(run, q, a);
    assert ([q] + run)[1..] == run;
  }

  lemma QuoteTaken(rest: Text, q: char, a: string, b: string)
    requires Replace(Flat(rest), Quoted(q, a), Quoted(q, b)) == Flat(QuoteSub(rest, q, a, b, false))
    ensures Replace([q] + (a + ([q] + Flat(rest))), Quoted(q, a), Quoted(q, b)) ==
      [q] + (b + ([q] + Flat(QuoteSub(rest, q, a, b, false))))
  {
    hide Replace, Flat, QuoteSub;
    var s, s' := Flat(rest), Flat(QuoteSub(rest, q, a, b, false));
    assert [q] + (a + ([q] + s)) == Quoted(q, a) + s;
    ReplaceHit(s, Quoted(q, a), Quoted(q, b));
    assert [q] + (b + ([q] + s')) == Quoted(q, b) + s';
  }

  lemma QuoteSkipped(run: string, d: char, t: string, q: char, a: string, b: string)
    requires Clean(run) && Quote(q)
    ensures Replace(run + ([d] + t), Quoted(q, a), Quoted(q, b)) == run + Replace([d] + t, Quoted(q, a), Quoted(q, b))
  {
    NoQuoteInRun(run, [d] + t, q, a);
    ReplaceSkip(run, [d] + t, Quoted(q, a), Quoted(q, b));
  }

  lemma QuoteNotTaken(run: string, d: char, t: string, q: char, a: string, b: string)
    requires Clean(run) && Clean(a) && Delim(d) && Quote(q) && !(run == a && d == q)
    ensures Replace([q] + (run + ([d] + t)), Quoted(q, a), Quoted(q, b)) ==
      [q] + Replace(run + ([d] + t), Quoted(q, a), Quoted(q, b))
  {
    var s := run + ([d] + t);
    if At([q] + s, Quoted(q, a), 0) {
      OpenMatch(run, d, t, q, a);
    }
    assert ([q] + s)[1..] == s;
  }

  lemma DelimStep(c: Text, q: char, a: string, b: string)
    requires c.More? && Valid(c) && Quote(q)
    requires var rest, old_, new_ := Flat(c.rest), Quoted(q, a), Quoted(q, b);
      if c.delim == q then Replace([q] + rest, old_, new_) == [q] + Flat(QuoteSub(c.rest, q, a, b, true))
      else Replace(rest, old_, new_) == Flat(QuoteSub(c.rest, q, a, b, false))
    ensures Replace([c.delim] + Flat(c.rest), Quoted(q, a), Quoted(q, b)) ==
      [c.delim] + Flat(QuoteSub(c.rest, q, a, b, c.delim == q))
  {
    var s := [c.delim] + Flat(c.rest);
    if c.delim != q {
      Mismatch(s, Quoted(q, a), 0, 0);
      assert s[1..] == Flat(c.rest);
    }
  }

  predicate EndsWith(s: string, a: string) {
    |a| <= |s| && s[|s| - |a|..] == a
  }

  function Swap(s: string, a: string, b: string): string
    requires EndsWith(s, a)
  {
    s[..|s| - |a|] + b
  }

  // Replacing the bare "id." form: any run before a dot that ends with the id.
  function DotSub(c: Text, a: string, b: string): Text {
    if c.End? then c
    else More(if c.delim == '.' && EndsWith(c.run, a) then Swap(c.run, a, b) else c.run, c.delim, DotSub(c.rest, a, b))
  }

  lemma {:induction false} DotSubIs(c: Text, a: string, b: string)
    requires Valid(c) && Clean(a)
    ensures Replace(Flat(c), a + ".", b + ".") == Flat(DotSub(c, a, b))
  {
    var old_, new_ := a + ".", b + ".";
    if c.End? {
      forall k | 0 <= k < |c.run| ensures !At(c.run + "", old_, k) {
        Mismatch(c.run + "", old_, k, |a|);
      }
      assert c.run + "" == c.run;
      ReplaceSkip(c.run, "", old_, new_);
    } else {
      DotSubIs(c.rest, a, b);
      DotStep(c.run, c.delim, Flat(c.rest), a, b);
    }
  }

  lemma DotStep(run: string, d: char, t: string, a: string, b: string)
    requires Clean(run) && Clean(a) && Delim(d)
    ensures var run' := if d == '.' && EndsWith(run, a) then Swap(run, a, b) else run;
      Replace(run + ([d] + t), a + ".", b + ".") == run' + ([d] + Replace(t, a + ".", b + "."))
  {
    forall k: nat | k <= |run| && At(run + ([d] + t), a + ".", k)
      ensures k + |a| == |run| && run[k..] == a && d == '.'
    {
      CleanPrefix(run, d, t, a, '.', k);
    }
    if d == '.' && EndsWith(run, a) {
      DotTaken(run[..|run| - |a|], run, t, a, b);
    } else {
      DotNotTaken(run, d, t, a, b);
    }
  }

  lemma DotTaken(x: string, run: string, t: string, a: string, b: string)
    requires EndsWith(run, a) && x == run[..|run| - |a|]
    requires forall k: nat | k < |x| :: !At(run + (['.'] + t), a + ".", k)
    ensures Replace(run + (['.'] + t), a + ".", b + ".") == Swap(run, a, b) + (['.'] + Replace(t, a + ".", b + "."))
  {
    hide Replace, At;
    var old_, new_ := a + ".", b + ".";
    assert run == x + a;
    assert run + (['.'] + t) == x + (old_ + t);
    ReplaceSkip(x, old_ + t, old_, new_);
    ReplaceHit(t, old_, new_);
    var t' := Replace(t, old_, new_);
    assert x + (new_ + t') == (x + b) + (['.'] + t');
  }

  lemma DotNotTaken(run: string, d: char, t: string, a: string, b: string)
    requires forall k: nat | k <= |run| :: !At(run + ([d] + t), a + ".", k)
    ensures Replace(run + ([d] + t), a + ".", b + ".") == run + ([d] + Replace(t, a + ".", b + "."))
  {
    hide Replace, At;
    assert run + ([d] + t) == (run + [d]) + t;
    ReplaceSkip(run + [d], t, a + ".", b + ".");
    var t' := Replace(t, a + ".", b + ".");
    assert (run + [d]) + t' == run + ([d] + t');
  }
}
