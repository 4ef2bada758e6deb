/**
 * The byte-slice helpers of Go's `bytes` package that the tokenizer uses:
 * TrimSpace, TrimPrefix, TrimSuffix, HasPrefix, and SplitN(s, sep, 2) for a
 * one-byte separator. A byte is modelled as a `char`; white space is the
 * ASCII set that `bytes.TrimSpace` trims.
 */
module Text {
  import opened Wrappers

  /** ASCII white space: space, or one of \t, \n, \v, \f, \r (codes 9 to 13). */
  predicate IsSpace(c: char) {
    c == ' ' || '\t' <= c <= '\r'
  }

  predicate AllSpace(s: string) {
    forall i :: 0 <= i < |s| ==> IsSpace(s[i])
  }

  /** Neither end of `s` is white space. */
  predicate Bare(s: string) {
    s == [] || (!IsSpace(s[0]) && !IsSpace(s[|s| - 1]))
  }

  predicate HasPrefix(s: string, p: string) {
    |p| <= |s| && s[..|p|] == p
  }

  predicate HasSuffix(s: string, p: string) {
    |p| <= |s| && s[|s| - |p|..] == p
  }

  /** Drops the leading white space of `s`. */
  function TrimLeft(s: string): string
    decreases |s|
  {
    if |s| > 0 && IsSpace(s[0]) then TrimLeft(s[1..]) else s
  }

  /** Drops the trailing white space of `s`. */
  function TrimRight(s: string): string
    decreases |s|
  {
    if |s| > 0 && IsSpace(s[|s| - 1]) then TrimRight(s[..|s| - 1]) else s
  }

  /** `bytes.TrimSpace` (TrimSpaceBare, TrimSpaceCuts and TrimSpaceOf say
      what it returns). */
  function TrimSpace(s: string): string {
    TrimRight(TrimLeft(s))
  }

  /** `bytes.TrimPrefix`: removes `p` once if `s` starts with it. */
  function TrimPrefix(s: string, p: string): string {
    if HasPrefix(s, p) then s[|p|..] else s
  }

  /** `bytes.TrimSuffix`: removes `p` once if `s` ends with it. */
  function TrimSuffix(s: string, p: string): string {
    if HasSuffix(s, p) then s[..|s| - |p|] else s
  }

  /** Position of the first `c` in `s`, if any (IndexOfFirst). */
  function IndexOf(s: string, c: char): (r: Option<nat>)
    ensures r.Some? ==> r.value < |s|
    decreases |s|
  {
    if s == [] then None
    else if s[0] == c then Some(0)
    else
      var t := IndexOf(s[1..], c);
      if t.None? then None else Some(t.value + 1)
  }

  /** `bytes.SplitN(s, [c], 2)`: the text before the first `c`, and the text
      after it when there is one (SplitFirstParts). */
  function SplitFirst(s: string, c: char): (string, Option<string>) {
    match IndexOf(s, c)
    case None => (s, None)
    case Some(i) => (s[..i], Some(s[i + 1..]))
  }

  // ---- Lemmas pinning the helpers down ----

  /** TrimLeft cuts a prefix of white space and stops at the first other
      byte. */
  lemma {:induction false} TrimLeftCut(s: string)
    ensures var r := TrimLeft(s);
      && |r| <= |s| && r == s[|s| - |r|..]
      && (forall j :: 0 <= j < |s| - |r| ==> IsSpace(s[j]))
      && (r == [] || !IsSpace(r[0]))
    decreases |s|
  {
    if |s| > 0 && IsSpace(s[0]) {
      var t := s[1..];
      TrimLeftCut(t);
      var r := TrimLeft(t);
      assert t[|t| - |r|..] == s[|s| - |r|..];
      assert forall j :: 1 <= j < |s| ==> s[j] == t[j - 1];
    }
  }

  /** TrimRight cuts a suffix of white space and stops at the last other
      byte. */
  lemma {:induction false} TrimRightCut(s: string)
    ensures var r := TrimRight(s);
      && |r| <= |s| && r == s[..|r|]
      && (forall j :: |r| <= j < |s| ==> IsSpace(s[j]))
      && (r == [] || !IsSpace(r[|r| - 1]))
    decreases |s|
  {
    if |s| > 0 && IsSpace(s[|s| - 1]) {
      var t := s[..|s| - 1];
      TrimRightCut(t);
      var r := TrimRight(t);
      assert t[..|r|] == s[..|r|];
      assert forall j :: 0 <= j < |t| ==> s[j] == t[j];
    }
  }

  /** No white space is left at either end of TrimSpace's result. */
  lemma {:induction false} TrimSpaceBare(s: string)
    ensures Bare(TrimSpace(s)) && |TrimSpace(s)| <= |s|
  {
    var l := TrimLeft(s);
    TrimLeftCut(s);
    TrimRightCut(l);
    var r := TrimRight(l);
    if r != [] {
      assert r[0] == l[0];
    }
  }

  lemma {:induction false} TrimPrefixOf(s: string, p: string)
    ensures HasPrefix(s, p) ==> p + TrimPrefix(s, p) == s
    ensures !HasPrefix(s, p) ==> TrimPrefix(s, p) == s
  {
    if HasPrefix(s, p) {
      assert s == s[..|p|] + s[|p|..];
    }
  }

  lemma {:induction false} TrimSuffixOf(s: string, p: string)
    ensures HasSuffix(s, p) ==> TrimSuffix(s, p) + p == s
    ensures !HasSuffix(s, p) ==> TrimSuffix(s, p) == s
  {
    if HasSuffix(s, p) {
      assert s == s[..|s| - |p|] + s[|s| - |p|..];
    }
  }

  /** IndexOf finds `c` exactly when it occurs, and then its first
      occurrence. */
  lemma {:induction false} IndexOfFirst(s: string, c: char)
    ensures var r := IndexOf(s, c);
      && (r.None? <==> c !in s)
      && (r.Some? ==> s[r.value] == c && c !in s[..r.value])
    decreases |s|
  {
    if s != [] {
      assert s == [s[0]] + s[1..];
      if s[0] != c {
        IndexOfFirst(s[1..], c);
        var t := IndexOf(s[1..], c);
        if t.Some? {
          assert s[..t.value + 1] == [s[0]] + s[1..][..t.value];
        }
      }
    }
  }

  /** SplitFirst cuts at the first `c`, and keeps `s` whole when there is
      none. */
  lemma {:induction false} SplitFirstParts(s: string, c: char)
    ensures var r := SplitFirst(s, c);
      && (r.1.None? <==> c !in s)
      && (r.1.None? ==> r.0 == s)
      && (r.1.Some? ==> s == r.0 + [c] + r.1.value && c !in r.0)
  {
    IndexOfFirst(s, c);
    var i := IndexOf(s, c);
    if i.Some? {
      assert s == s[..i.value] + [c] + s[i.value + 1..];
    }
  }

  lemma {:induction false} TrimLeftSpaces(a: string, b: string)
    requires AllSpace(a)
    requires b == [] || !IsSpace(b[0])
    ensures TrimLeft(a + b) == b
  {
    if a != [] {
      assert (a + b)[1..] == a[1..] + b;
      TrimLeftSpaces(a[1..], b);
    } else {
      assert a + b == b;
    }
  }

  lemma {:induction false} TrimRightSpaces(a: string, b: string)
    requires AllSpace(b)
    requires a == [] || !IsSpace(a[|a| - 1])
    ensures TrimRight(a + b) == a
  {
    if b != [] {
      assert (a + b)[..|a + b| - 1] == a + b[..|b| - 1];
      TrimRightSpaces(a, b[..|b| - 1]);
    } else {
      assert a + b == a;
    }
  }

  /** TrimSpace is determined by its contract: whatever bare text sits between
      two runs of white space is what it returns. */
  lemma {:induction false} TrimSpaceOf(a: string, r: string, b: string)
    requires AllSpace(a) && AllSpace(b) && Bare(r)
    ensures TrimSpace(a + r + b) == r
  {
    if r == [] {
      assert a + r + b == a + b;
      assert AllSpace(a + b);
      TrimLeftSpaces(a + b, []);
      assert a + b + [] == a + b;
    } else {
      assert a + r + b == a + (r + b);
      TrimLeftSpaces(a, r + b);
      TrimRightSpaces(r, b);
    }
  }

  /** What TrimSpace cuts off is white space: the first `i` bytes and
      everything after the returned factor. */
  lemma {:induction false} TrimSpaceCuts(s: string) returns (i: nat)
    ensures i + |TrimSpace(s)| <= |s|
    ensures TrimSpace(s) == s[i..i + |TrimSpace(s)|]
    ensures forall j :: 0 <= j < i ==> IsSpace(s[j])
    ensures forall j :: i + |TrimSpace(s)| <= j < |s| ==> IsSpace(s[j])
  {
    var l := TrimLeft(s);
    TrimLeftCut(s);
    TrimRightCut(l);
    i := |s| - |l|;
    var r := TrimRight(l);
    assert r == TrimSpace(s);
    assert r == s[i..i + |r|] by {
      assert l == s[i..];
      assert r == l[..|r|];
    }
    assert forall j :: i + |r| <= j < |s| ==> IsSpace(s[j]) by {
      forall j | i + |r| <= j < |s| ensures IsSpace(s[j]) {
        assert s[j] == l[j - i];
      }
    }
  }

  /** Trimming adds no character. */
  lemma {:induction false} TrimSpaceAvoids(s: string, c: char)
    requires c !in s
    ensures c !in TrimSpace(s)
  {
    var i := TrimSpaceCuts(s);
    assert TrimSpace(s) == s[i..i + |TrimSpace(s)|];
  }

  /** The first `c` of `x + [c] + y`, when `x` has none, is the one after `x`. */
  lemma {:induction false} IndexOfAfter(x: string, c: char, y: string)
    requires c !in x
    ensures IndexOf(x + [c] + y, c) == Some(|x|)
    decreases |x|
  {
    if x != [] {
      assert (x + [c] + y)[1..] == x[1..] + [c] + y;
      IndexOfAfter(x[1..], c, y);
    }
  }

  /** SplitFirst is determined by its contract: the first occurrence wins. */
  lemma {:induction false} SplitFirstAt(s: string, c: char, x: string, y: string)
    requires s == x + [c] + y && c !in x
    ensures SplitFirst(s, c) == (x, Some(y))
  {
    IndexOfAfter(x, c, y);
    assert s[..|x|] == x;
    assert s[|x| + 1..] == y;
  }
}
