/**
 * Independent characterizations of the assembler. A stream is first read
 * as a whole into its token list (Lex); the record the assembler builds is
 * then read off that list token by token (RecordFrom), and described by
 * positions in it: the attribute map is the leading key/value tokens
 * written in order, the list section is the item token and every token
 * after it up to the first divider. Also the last-write-wins law of the
 * attribute map.
 */
module RecordLaws {
  import opened Wrappers
  import opened Tokens
  import opened Assembler

  function EntryOf(t: Token): Entry {
    Entry(t.key, t.val)
  }

  /** The tokens' keys and values, in order, as the map writes see them. */
  function Entries(ts: seq<Token>): seq<Entry> {
    if ts == [] then [] else [EntryOf(ts[0])] + Entries(ts[1..])
  }

  /** The tokens' keys, in order. */
  function Fields(ts: seq<Token>): (r: seq<string>)
    ensures |r| == |ts|
  {
    if ts == [] then [] else [ts[0].key] + Fields(ts[1..])
  }

  /** The tokens' values, in order. */
  function Values(ts: seq<Token>): (r: seq<string>)
    ensures |r| == |ts|
  {
    if ts == [] then [] else [ts[0].val] + Values(ts[1..])
  }

  /** The number of leading tokens of kind `k`. */
  function Leading(ts: seq<Token>, k: Kind): (n: nat)
    ensures n <= |ts|
    decreases |ts|
  {
    if |ts| == 0 || ts[0].kind != k then 0 else 1 + Leading(ts[1..], k)
  }

  /** The leading run is every token before the first one of another kind. */
  lemma {:induction false} LeadingRun(ts: seq<Token>, k: Kind)
    ensures var n := Leading(ts, k);
      && (forall i :: 0 <= i < n ==> ts[i].kind == k)
      && (n < |ts| ==> ts[n].kind != k)
    decreases |ts|
  {
    if |ts| > 0 && ts[0].kind == k {
      LeadingRun(ts[1..], k);
      assert forall i :: 1 <= i < |ts| ==> ts[i] == ts[1..][i - 1];
    }
  }

  /** The number of leading tokens that are not dividers. */
  function UntilDivide(ts: seq<Token>): (n: nat)
    ensures n <= |ts|
    decreases |ts|
  {
    if |ts| == 0 || ts[0].kind == Divide then 0 else 1 + UntilDivide(ts[1..])
  }

  /** The run before the first divider has no divider, and ends at one or
      at the end of the tokens. */
  lemma {:induction false} UntilDivideRun(ts: seq<Token>)
    ensures var n := UntilDivide(ts);
      && (forall i :: 0 <= i < n ==> ts[i].kind != Divide)
      && (n < |ts| ==> ts[n].kind == Divide)
    decreases |ts|
  {
    if |ts| > 0 && ts[0].kind != Divide {
      UntilDivideRun(ts[1..]);
      assert forall i :: 1 <= i < |ts| ==> ts[i] == ts[1..][i - 1];
    }
  }

  // ---------------------------------------------------------------------
  // Last write wins
  // ---------------------------------------------------------------------

  /** A key no entry writes keeps its value in the map, or stays absent. */
  lemma {:induction false} InsertMissing(m: map<string, string>, es: seq<Entry>, k: string)
    requires forall i :: 0 <= i < |es| ==> es[i].key != k
    ensures k in Insert(m, es) <==> k in m
    ensures k in m ==> Insert(m, es)[k] == m[k]
    decreases |es|
  {
    if |es| > 0 {
      InsertMissing(m[es[0].key := es[0].val], es[1..], k);
    }
  }

  /** The value of a key is the one written by its last entry. */
  lemma {:induction false} InsertLast(m: map<string, string>, es: seq<Entry>, i: nat)
    requires i < |es|
    requires forall j :: i < j < |es| ==> es[j].key != es[i].key
    ensures es[i].key in Insert(m, es) && Insert(m, es)[es[i].key] == es[i].val
    decreases |es|
  {
    if i == 0 {
      InsertMissing(m[es[0].key := es[0].val], es[1..], es[0].key);
    } else {
      InsertLast(m[es[0].key := es[0].val], es[1..], i - 1);
    }
  }

  /** The keys of the result are those of `m` and those the entries write. */
  lemma {:induction false} InsertKeys(m: map<string, string>, es: seq<Entry>)
    ensures Insert(m, es).Keys == m.Keys + set e | e in es :: e.key
    decreases |es|
  {
    if |es| > 0 {
      InsertKeys(m[es[0].key := es[0].val], es[1..]);
      assert (set e | e in es :: e.key) == {es[0].key} + set e | e in es[1..] :: e.key by {
        assert es == [es[0]] + es[1..];
      }
    }
  }

  // ---------------------------------------------------------------------
  // The assembler against the token list
  // ---------------------------------------------------------------------

  lemma {:induction false} Reassociate<T>(a: seq<T>, b: seq<T>, c: seq<T>)
    ensures a + b + c == a + (b + c)
  {
  }

  lemma {:induction false} InsertCons(m: map<string, string>, e: Entry, es: seq<Entry>)
    ensures Insert(m, [e] + es) == Insert(m[e.key := e.val], es)
  {
    assert ([e] + es)[1..] == es;
  }

  /** The first `n + 1` tokens are the first token and `n` more. */
  lemma {:induction false} TakeStep(ts: seq<Token>, n: nat)
    requires n < |ts|
    ensures var p := ts[..n + 1];
      && Fields(p) == [ts[0].key] + Fields(ts[1..][..n])
      && Values(p) == [ts[0].val] + Values(ts[1..][..n])
      && Entries(p) == [EntryOf(ts[0])] + Entries(ts[1..][..n])
  {
    var p := ts[..n + 1];
    assert p[0] == ts[0] && p[1..] == ts[1..][..n];
  }

  // ---------------------------------------------------------------------
  // A record from the token list
  // ---------------------------------------------------------------------

  lemma {:induction false} LexEmpty(ending: Ending)
    ensures Lex([], ending).toks == []
  {
  }

  /** A record read off a token list, and the tokens left after it. */
  datatype Expect = Expect(rec: Record, err: Option<Error>, after: seq<Token>)

  /** The list section on a token list: every token up to the first
      divider is appended to the fields and values read so far. A list
      that runs to the end of the tokens keeps the record only when the
      stream ended cleanly. */
  function ListFrom(m: map<string, string>, fs: seq<string>, vs: seq<string>, ts: seq<Token>, end: Error): Expect
    decreases |ts|
  {
    if ts == [] then
      if end == Eof then Expect(Record(m, fs, vs), None, []) else Expect(EmptyRecord, Some(end), [])
    else if ts[0].kind == Divide then Expect(Record(m, fs, vs), None, ts[1..])
    else ListFrom(m, fs + [ts[0].key], vs + [ts[0].val], ts[1..], end)
  }

  /** The attribute section on a token list: key/value tokens are written
      into `m` in order, then an item token opens the list section. Any
      other token is an error naming it; no token at all is the stream's
      own error. */
  function AttrsFrom(m: map<string, string>, ts: seq<Token>, end: Error): Expect
    decreases |ts|
  {
    if ts == [] then Expect(EmptyRecord, Some(end), [])
    else if ts[0].kind == KeyVal then AttrsFrom(m[ts[0].key := ts[0].val], ts[1..], end)
    else if ts[0].kind != Item then Expect(EmptyRecord, Some(UnexpectedToken(ts[0].kind)), ts[1..])
    else ListFrom(m, [ts[0].key], [ts[0].val], ts[1..], end)
  }

  /** The record at the front of a token list that ends with error `end`. */
  function RecordFrom(ts: seq<Token>, end: Error): Expect {
    AttrsFrom(map[], ts, end)
  }

  /** Reading `k` tokens of the list section, none of them a divider,
      appends them. */
  lemma {:induction false} ListFromSkip(m: map<string, string>, fs: seq<string>, vs: seq<string>, ts: seq<Token>, k: nat, end: Error)
    requires k <= UntilDivide(ts)
    ensures ListFrom(m, fs, vs, ts, end) == ListFrom(m, fs + Fields(ts[..k]), vs + Values(ts[..k]), ts[k..], end)
    decreases k
  {
    if k == 0 {
      assert ts[..0] == [] && ts[0..] == ts;
      assert fs + [] == fs && vs + [] == vs;
    } else {
      var t, us := ts[0], ts[1..];
      ListFromSkip(m, fs + [t.key], vs + [t.val], us, k - 1, end);
      TakeStep(ts, k - 1);
      assert us[k - 1..] == ts[k..];
      Reassociate(fs, [t.key], Fields(us[..k - 1]));
      Reassociate(vs, [t.val], Values(us[..k - 1]));
    }
  }

  /** The list section, by positions: the tokens before the first divider,
      and the tokens after that divider are left over. */
  lemma {:induction false} ListFromRun(m: map<string, string>, fs: seq<string>, vs: seq<string>, ts: seq<Token>, end: Error)
    ensures var k := UntilDivide(ts);
      var rec := Record(m, fs + Fields(ts[..k]), vs + Values(ts[..k]));
      ListFrom(m, fs, vs, ts, end) ==
        if k < |ts| then Expect(rec, None, ts[k + 1..])
        else if end == Eof then Expect(rec, None, [])
        else Expect(EmptyRecord, Some(end), [])
  {
    var k := UntilDivide(ts);
    ListFromSkip(m, fs, vs, ts, k, end);
    UntilDivideRun(ts);
    if k < |ts| {
      assert ts[k..][0] == ts[k] && ts[k..][1..] == ts[k + 1..];
    }
  }

  /** Reading `n` key/value tokens of the attribute section writes them in
      order. */
  lemma {:induction false} AttrsFromSkip(m: map<string, string>, ts: seq<Token>, n: nat, end: Error)
    requires n <= Leading(ts, KeyVal)
    ensures AttrsFrom(m, ts, end) == AttrsFrom(Insert(m, Entries(ts[..n])), ts[n..], end)
    decreases n
  {
    if n == 0 {
      assert ts[..0] == [] && ts[0..] == ts;
    } else {
      var t, us := ts[0], ts[1..];
      AttrsFromSkip(m[t.key := t.val], us, n - 1, end);
      TakeStep(ts, n - 1);
      InsertCons(m, EntryOf(t), Entries(us[..n - 1]));
      assert us[n - 1..] == ts[n..];
    }
  }

  /** The attribute section, by positions: the leading key/value tokens are
      written in order, and the token after them decides the rest. */
  lemma {:induction false} AttrsFromRun(m: map<string, string>, ts: seq<Token>, end: Error)
    ensures var n := Leading(ts, KeyVal);
      AttrsFrom(m, ts, end) ==
        if n == |ts| then Expect(EmptyRecord, Some(end), [])
        else if ts[n].kind != Item then Expect(EmptyRecord, Some(UnexpectedToken(ts[n].kind)), ts[n + 1..])
        else ListFrom(Insert(m, Entries(ts[..n])), [ts[n].key], [ts[n].val], ts[n + 1..], end)
  {
    var n := Leading(ts, KeyVal);
    AttrsFromSkip(m, ts, n, end);
    LeadingRun(ts, KeyVal);
    if n < |ts| {
      assert ts[n..][0] == ts[n] && ts[n..][1..] == ts[n + 1..];
    }
  }

  /** The record at the front of a token list, by positions: the map of the
      leading key/value tokens, then an item token, then the item and every
      token up to the first divider as the list section. A missing item is
      an error naming the token found instead; a list section that runs to
      the end keeps the record only on a clean end. */
  lemma {:induction false} RecordFromRuns(ts: seq<Token>, end: Error)
    ensures var e := RecordFrom(ts, end); var n := Leading(ts, KeyVal);
      if n == |ts| then e == Expect(EmptyRecord, Some(end), [])
      else if ts[n].kind != Item then e == Expect(EmptyRecord, Some(UnexpectedToken(ts[n].kind)), ts[n + 1..])
      else
        var u := ts[n + 1..];
        var k := UntilDivide(u);
        var rec := Record(Insert(map[], Entries(ts[..n])), [ts[n].key] + Fields(u[..k]), [ts[n].val] + Values(u[..k]));
        if k < |u| then e == Expect(rec, None, u[k + 1..])
        else if end == Eof then e == Expect(rec, None, [])
        else e == Expect(EmptyRecord, Some(end), [])
  {
    AttrsFromRun(map[], ts, end);
    var n := Leading(ts, KeyVal);
    if n < |ts| && ts[n].kind == Item {
      ListFromRun(Insert(map[], Entries(ts[..n])), [ts[n].key], [ts[n].val], ts[n + 1..], end);
    }
  }

  /** The `consumeList` loop reads the list section ListFrom reads off the
      tokens, and leaves the input whose tokens are the ones after it. */
  lemma {:induction false} ListTailLex(rest: string, ending: Ending, m: map<string, string>, fs: seq<string>, vs: seq<string>)
    ensures var l := ListTail(rest, ending); var end := EndError(ending);
      var rec := Record(m, fs + l.fields, vs + l.values);
      ListFrom(m, fs, vs, Lex(rest, ending).toks, end) ==
        if l.err.None? then Expect(rec, None, Lex(l.rest, ending).toks)
        else if end == Eof then Expect(rec, None, [])
        else Expect(EmptyRecord, Some(end), [])
    decreases |rest|
  {
    var s := Scan(rest, ending);
    LexStep(rest, ending);
    var ts := Lex(rest, ending).toks;
    var end := EndError(ending);
    if s.err.Some? {
      assert ts == [];
      assert ListTail(rest, ending) == ListOutcome([], [], s.err, s.rest);
      assert fs + [] == fs && vs + [] == vs;
    } else if s.tok.kind == Divide {
      assert ListTail(rest, ending) == ListOutcome([], [], None, s.rest);
      assert fs + [] == fs && vs + [] == vs;
    } else {
      var l := ListTail(s.rest, ending);
      assert ListTail(rest, ending) == Join([s.tok.key], [s.tok.val], l);
      ListTailLex(s.rest, ending, m, fs + [s.tok.key], vs + [s.tok.val]);
      assert ListFrom(m, fs, vs, ts, end) == ListFrom(m, fs + [s.tok.key], vs + [s.tok.val], Lex(s.rest, ending).toks, end);
      Reassociate(fs, [s.tok.key], l.fields);
      Reassociate(vs, [s.tok.val], l.values);
    }
  }

  /** `consumeList` returns no error exactly when a divider ended its loop,
      that is when the token list has a divider. */
  lemma {:induction false} ListTailEnds(rest: string, ending: Ending)
    ensures var ts := Lex(rest, ending).toks;
      ListTail(rest, ending).err.None? <==> UntilDivide(ts) < |ts|
    decreases |rest|
  {
    var s := Scan(rest, ending);
    LexStep(rest, ending);
    if s.err.None? && s.tok.kind != Divide {
      ListTailEnds(s.rest, ending);
    }
  }

  /** However the stream ends, the `consumeList` loop collects exactly the
      tokens before the first divider, in order; a read error only decides
      whether the caller keeps them. */
  lemma {:induction false} ListTailCollects(rest: string, ending: Ending)
    ensures var l := ListTail(rest, ending); var ts := Lex(rest, ending).toks; var k := UntilDivide(ts);
      l.fields == Fields(ts[..k]) && l.values == Values(ts[..k])
    decreases |rest|
  {
    var s := Scan(rest, ending);
    LexStep(rest, ending);
    var ts := Lex(rest, ending).toks;
    if s.err.Some? || s.tok.kind == Divide {
      assert ts[..UntilDivide(ts)] == [];
    } else {
      ListTailCollects(s.rest, ending);
      var k := UntilDivide(ts);
      assert k == 1 + UntilDivide(ts[1..]);
      TakeStep(ts, k - 1);
    }
  }

  /** Phase 1 writes exactly the leading key/value tokens, in order, and
      stops at the first other token, as AttrsFrom does. */
  lemma {:induction false} AttrRunLex(rest: string, ending: Ending, m: map<string, string>)
    ensures var a := AttrRun(rest, ending, m); var end := EndError(ending);
      AttrsFrom(m, Lex(rest, ending).toks, end) ==
        if a.err.Some? then Expect(EmptyRecord, Some(end), [])
        else if a.tok.kind != Item then Expect(EmptyRecord, Some(UnexpectedToken(a.tok.kind)), Lex(a.rest, ending).toks)
        else ListFrom(a.attrs, [a.tok.key], [a.tok.val], Lex(a.rest, ending).toks, end)
    decreases |rest|
  {
    var s := Scan(rest, ending);
    LexStep(rest, ending);
    if s.err.None? && s.tok.kind == KeyVal {
      AttrRunLex(s.rest, ending, m[s.tok.key := s.tok.val]);
    }
  }

  /** `consumeRecord` builds the record the token list describes, and leaves
      the input whose tokens are the ones after it. */
  lemma {:induction false} AssembleLex(rest: string, ending: Ending)
    ensures var c := Assemble(rest, ending);
      Expect(c.rec, c.err, Lex(c.rest, ending).toks) == RecordFrom(Lex(rest, ending).toks, EndError(ending))
  {
    LexEmpty(ending);
    var a := AttrRun(rest, ending, map[]);
    AttrRunLex(rest, ending, map[]);
    if a.err.None? && a.tok.kind == Item {
      ListTailLex(a.rest, ending, a.attrs, [a.tok.key], [a.tok.val]);
    }
  }
}
