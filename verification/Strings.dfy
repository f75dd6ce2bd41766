// Searching and replacing in text, with the meaning Python gives str.find,
// str.partition, str.strip and str.replace.
module Strings {

  predicate At(s: string, pat: string, i: int) {
    0 <= i && i + |pat| <= |s| && s[i..i + |pat|] == pat
  }

  // The leftmost occurrence from i on, or -1.
  function Find(s: string, pat: string, i: nat): (r: int)
    requires i <= |s|
    ensures r == -1 ==> forall k :: i <= k ==> !At(s, pat, k)
    ensures r != -1 ==> i <= r && At(s, pat, r) && forall k :: i <= k < r ==> !At(s, pat, k)
    decreases |s| - i
  {
    if At(s, pat, i) then i else if i == |s| then -1 else Find(s, pat, i + 1)
  }

  predicate Contains(s: string, pat: string) {
    Find(s, pat, 0) != -1
  }

  // Every occurrence, left to right and without overlap.
  function Replace(s: string, old_: string, new_: string): string
    requires old_ != ""
    decreases |s|
  {
    if s == "" then ""
    else if At(s, old_, 0) then new_ + Replace(s[|old_|..], old_, new_)
    else [s[0]] + Replace(s[1..], old_, new_)
  }

  // Text before the first possible occurrence is kept.
  lemma {:induction false} ReplaceSkip(x: string, s: string, old_: string, new_: string)
    requires old_ != "" && forall k :: 0 <= k < |x| ==> !At(x + s, old_, k)
    ensures Replace(x + s, old_, new_) == x + Replace(s, old_, new_)
  {
    if x == "" {
      assert x + s == s;
    } else {
      var y := x[1..];
      assert (x + s)[1..] == y + s;
      forall k | 0 <= k < |y| ensures !At(y + s, old_, k) {
        AtTail(x + s, old_, k + 1);
      }
      ReplaceSkip(y, s, old_, new_);
      assert [x[0]] + (y + Replace(s, old_, new_)) == x + Replace(s, old_, new_);
    }
  }

  lemma AtTail(s: string, pat: string, k: int)
    requires s != "" && k >= 1
    ensures At(s, pat, k) <==> At(s[1..], pat, k - 1)
  {
    if k + |pat| <= |s| {
      var u, v := s[k..k + |pat|], s[1..][k - 1..k - 1 + |pat|];
      assert forall j :: 0 <= j < |pat| ==> u[j] == v[j];
      assert u == v;
    }
  }

  lemma ReplaceHit(s: string, old_: string, new_: string)
    requires old_ != ""
    ensures Replace(old_ + s, old_, new_) == new_ + Replace(s, old_, new_)
  {
    assert At(old_ + s, old_, 0);
    assert (old_ + s)[|old_|..] == s;
  }

  // Where nothing occurs, nothing changes; where something does and the new text is
  // shorter, the result is shorter.
  lemma ReplaceNothing(s: string, old_: string, new_: string)
    requires old_ != "" && !Contains(s, old_)
    ensures Replace(s, old_, new_) == s
  {
    assert s + "" == s;
    ReplaceSkip(s, "", old_, new_);
  }

  lemma {:induction false} ReplaceNotLonger(s: string, old_: string, new_: string)
    requires old_ != "" && |new_| < |old_|
    ensures |Replace(s, old_, new_)| <= |s|
    ensures Contains(s, old_) ==> |Replace(s, old_, new_)| < |s|
    decreases |s|
  {
    if s != "" {
      if At(s, old_, 0) {
        ReplaceNotLonger(s[|old_|..], old_, new_);
      } else {
        ReplaceNotLonger(s[1..], old_, new_);
        var r := Find(s, old_, 0);
        if r != -1 {
          AtTail(s, old_, r);
        }
      }
    }
  }

  predicate IsSpace(c: char) {
    c in " \t\n\r\U{000B}\U{000C}\U{001C}\U{001D}\U{001E}\U{001F}\U{0085}\U{00A0}"
  }

  function StripLeft(s: string): (r: string)
    ensures r == "" || !IsSpace(r[0])
  {
    if s != "" && IsSpace(s[0]) then StripLeft(s[1..]) else s
  }

  function StripRight(s: string): (r: string)
    ensures r == "" || !IsSpace(r[|r| - 1])
    ensures r <= s
  {
    if s != "" && IsSpace(s[|s| - 1]) then StripRight(s[..|s| - 1]) else s
  }

  function Strip(s: string): string {
    StripRight(StripLeft(s))
  }

  // r is s without white space at its ends, of ASCII and Latin-1.
  ghost predicate Stripped(s: string, r: string) {
    exists a, b :: s == a + r + b && Blank(a) && Blank(b) && Unblank(r)
  }

  predicate Blank(s: string) {
    forall c :: c in s ==> c in " \t\n\r\U{000B}\U{000C}\U{001C}\U{001D}\U{001E}\U{001F}\U{0085}\U{00A0}"
  }

  predicate Unblank(s: string) {
    s == "" || (!Blank([s[0]]) && !Blank([s[|s| - 1]]))
  }

  lemma BlankIs(c: char)
    ensures Blank([c]) <==> IsSpace(c)
  {
  }

  lemma {:induction false} StripLeftSkips(a: string, t: string)
    requires Blank(a) && (t == "" || !Blank([t[0]]))
    ensures StripLeft(a + t) == t
  {
    if a == "" {
      assert a + t == t;
      if t != "" {
        BlankIs(t[0]);
      }
    } else {
      BlankIs(a[0]);
      assert (a + t)[1..] == a[1..] + t;
      assert Blank([a[0]]) && Blank(a[1..]);
      StripLeftSkips(a[1..], t);
    }
  }

  lemma StripRightOne(s: string, c: char)
    ensures StripRight(s + [c]) == if Blank([c]) then StripRight(s) else s + [c]
  {
    assert (s + [c])[..|s|] == s;
    BlankIs(c);
  }

  lemma {:induction false} StripRightSkips(r: string, b: string)
    requires Blank(b) && (r == "" || !Blank([r[|r| - 1]]))
    ensures StripRight(r + b) == r
    decreases |b|
  {
    hide StripRight;
    if b == "" {
      assert r + b == r;
      RightKept(r);
    } else {
      var n := |b| - 1;
      assert r + b == (r + b[..n]) + [b[n]];
      StripRightOne(r + b[..n], b[n]);
      assert Blank([b[n]]) && Blank(b[..n]);
      StripRightSkips(r, b[..n]);
    }
  }

  lemma RightKept(r: string)
    requires r == "" || !Blank([r[|r| - 1]])
    ensures StripRight(r) == r
  {
    if r != "" {
      BlankIs(r[|r| - 1]);
    }
  }

  lemma StripParts(a: string, r: string, b: string)
    requires Blank(a) && Blank(b) && Unblank(r)
    ensures Strip(a + r + b) == r
  {
    if r == "" {
      assert a + r + b == (a + b) + "";
      assert Blank(a + b);
      StripLeftSkips(a + b, "");
    } else {
      assert a + r + b == a + (r + b);
      StripLeftSkips(a, r + b);
      StripRightSkips(r, b);
    }
  }

  lemma {:induction false} LeftPart(s: string) returns (a: string)
    ensures s == a + StripLeft(s) && Blank(a)
    ensures StripLeft(s) == "" || !Blank([StripLeft(s)[0]])
  {
    a := "";
    if s != "" {
      BlankIs(s[0]);
      if IsSpace(s[0]) {
        var rest := LeftPart(s[1..]);
        a := [s[0]] + rest;
        assert s == [s[0]] + s[1..];
      }
    }
  }

  lemma {:induction false} RightPart(s: string) returns (b: string)
    ensures s == StripRight(s) + b && Blank(b)
    ensures StripRight(s) == "" || !Blank([StripRight(s)[|StripRight(s)| - 1]])
    decreases |s|
  {
    hide StripRight;
    b := "";
    if s == "" || !Blank([s[|s| - 1]]) {
      RightKept(s);
      assert s + "" == s;
    } else {
      var n := |s| - 1;
      var rest := RightPart(s[..n]);
      assert s == s[..n] + [s[n]];
      StripRightOne(s[..n], s[n]);
      b := rest + [s[n]];
    }
  }

  // Strip cuts the white space off both ends and nothing else.
  lemma StripIs(s: string, r: string)
    ensures Stripped(s, r) <==> r == Strip(s)
  {
    forall a, b | s == a + r + b && Blank(a) && Blank(b) && Unblank(r) ensures r == Strip(s) {
      StripParts(a, r, b);
    }
    var a := LeftPart(s);
    var b := RightPart(StripLeft(s));
    hide StripLeft, StripRight;
    var t := Strip(s);
    assert s == a + t + b;
    if t != "" {
      assert t[0] == StripLeft(s)[0];
    }
    assert Stripped(s, t);
  }
}
