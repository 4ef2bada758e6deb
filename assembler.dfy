/**
 * The two-phase record assembler: `consumeRecord` collects a run of
 * key/value tokens into a map (last write wins), requires a list item next,
 * and hands over to `consumeList`, which collects every following
 * non-divider token into two index-aligned slices. Each Go function is a
 * method over the shared LineReader, proved equal to a function on the
 * remaining input (ListTail/CollectList, AttrRun/Assemble).
 */
module Assembler {
  import opened Wrappers
  import opened Tokens
  import opened BufReader

  /** A key and its value, as a token carries them. */
  datatype Entry = Entry(key: string, val: string)

  /** A record: the attribute map and the index-aligned list section. */
  datatype Record = Record(attributes: map<string, string>, listFields: seq<string>, listValues: seq<string>)

  /** Go's zero `record{}`: a nil map (read as empty) and nil slices. */
  const EmptyRecord := Record(map[], [], [])

  /** Writes the entries into `m` in order; a later key overwrites an earlier one. */
  function Insert(m: map<string, string>, es: seq<Entry>): (r: map<string, string>)
    ensures m.Keys <= r.Keys
    decreases |es|
  {
    if |es| == 0 then m else Insert(m[es[0].key := es[0].val], es[1..])
  }

  // ---------------------------------------------------------------------
  // advance
  // ---------------------------------------------------------------------

  /** `advance`: reads one line and classifies it; on a read error the zero
      token and the error. */
  method Advance(buf: LineReader) returns (tok: Token, err: Option<Error>)
    requires buf.Valid()
    modifies buf
    ensures buf.Valid()
    ensures Step(tok, err, buf.Rest()) == Scan(old(buf.Rest()), buf.ending)
  {
    var byts, e := buf.ReadBytes();
    if e.Some? {
      return ZeroToken, e;
    }
    return Classify(byts), None;
  }

  // ---------------------------------------------------------------------
  // consumeList
  // ---------------------------------------------------------------------

  datatype ListOutcome = ListOutcome(fields: seq<string>, values: seq<string>, err: Option<Error>, rest: string)

  /** Prefixes collected fields and values to an outcome. */
  function Join(fields: seq<string>, values: seq<string>, l: ListOutcome): ListOutcome {
    ListOutcome(fields + l.fields, values + l.values, l.err, l.rest)
  }

  lemma {:induction false} JoinJoin(f: seq<string>, v: seq<string>, g: seq<string>, w: seq<string>, l: ListOutcome)
    ensures Join(f, v, Join(g, w, l)) == Join(f + g, v + w, l)
  {
    assert f + (g + l.fields) == (f + g) + l.fields;
    assert v + (w + l.values) == (v + w) + l.values;
  }

  /** The loop of `consumeList` from `rest` on: every token up to the first
      divider or read error, in order. */
  function ListTail(rest: string, ending: Ending): (l: ListOutcome)
    ensures |l.fields| == |l.values|
    ensures l.err.Some? ==> l.err.value == EndError(ending) && l.rest == []
    ensures |l.rest| <= |rest|
    decreases |rest|
  {
    var s := Scan(rest, ending);
    if s.err.Some? || s.tok.kind == Divide then ListOutcome([], [], s.err, s.rest)
    else Join([s.tok.key], [s.tok.val], ListTail(s.rest, ending))
  }

  /** The same loop, entered with token `t` (and error `err`) already read. */
  function ListAfter(t: Token, err: Option<Error>, rest: string, ending: Ending): ListOutcome {
    if err.None? && t.kind != Divide then Join([t.key], [t.val], ListTail(rest, ending))
    else ListOutcome([], [], err, rest)
  }

  /** ListTail is ListAfter of the first step. */
  lemma {:induction false} ListTailUnfold(rest: string, ending: Ending)
    ensures var s := Scan(rest, ending); ListTail(rest, ending) == ListAfter(s.tok, s.err, s.rest, ending)
  {
  }

  /** One iteration of the `consumeList` loop keeps the outcome. */
  lemma {:induction false} ListStep(fields: seq<string>, values: seq<string>, t: Token, rest: string, ending: Ending)
    requires t.kind != Divide
    ensures var s := Scan(rest, ending);
      Join(fields, values, ListAfter(t, None, rest, ending))
        == Join(fields + [t.key], values + [t.val], ListAfter(s.tok, s.err, s.rest, ending))
  {
    JoinJoin(fields, values, [t.key], [t.val], ListTail(rest, ending));
    ListTailUnfold(rest, ending);
  }

  /** What `consumeList(buf, tok)` returns, and the input it leaves. */
  function CollectList(tok: Token, rest: string, ending: Ending): (l: ListOutcome)
    ensures |l.fields| == |l.values| >= 1
    ensures l.fields[0] == tok.key && l.values[0] == tok.val
    ensures l.err.None? || (l.err == Some(EndError(ending)) && l.rest == [])
  {
    Join([tok.key], [tok.val], ListTail(rest, ending))
  }

  method ConsumeList(buf: LineReader, tok: Token) returns (fields: seq<string>, values: seq<string>, err: Option<Error>)
    requires buf.Valid()
    modifies buf
    ensures buf.Valid()
    ensures ListOutcome(fields, values, err, buf.Rest()) == CollectList(tok, old(buf.Rest()), buf.ending)
  {
    ghost var goal := CollectList(tok, buf.Rest(), buf.ending);
    ListTailUnfold(buf.Rest(), buf.ending);
    fields, values := [tok.key], [tok.val];
    var t: Token;
    t, err := Advance(buf);
    while err.None? && t.kind != Divide
      invariant buf.Valid()
      invariant goal == Join(fields, values, ListAfter(t, err, buf.Rest(), buf.ending))
      decreases |buf.Rest()| + (if err.None? then 1 else 0)
    {
      ListStep(fields, values, t, buf.Rest(), buf.ending);
      fields, values := fields + [t.key], values + [t.val];
      t, err := Advance(buf);
    }
    assert fields + [] == fields && values + [] == values;
  }

  // ---------------------------------------------------------------------
  // consumeRecord
  // ---------------------------------------------------------------------

  datatype AttrOutcome = AttrOutcome(attrs: map<string, string>, tok: Token, err: Option<Error>, rest: string)

  /** Phase 1 from `rest` on, writing into `m`: key/value tokens until the
      first other token or read error, which is returned with the map. */
  function AttrRun(rest: string, ending: Ending, m: map<string, string>): (a: AttrOutcome)
    ensures a.err.None? ==> a.tok.kind != KeyVal && |a.rest| < |rest|
    ensures a.err.Some? ==> a.err.value == EndError(ending) && a.rest == [] && a.tok == ZeroToken
    ensures m.Keys <= a.attrs.Keys
    decreases |rest|
  {
    var s := Scan(rest, ending);
    if s.err.None? && s.tok.kind == KeyVal then AttrRun(s.rest, ending, m[s.tok.key := s.tok.val])
    else AttrOutcome(m, s.tok, s.err, s.rest)
  }

  /** Phase 1 entered with token `t` (and error `err`) already read. */
  function AttrAfter(m: map<string, string>, t: Token, err: Option<Error>, rest: string, ending: Ending): AttrOutcome {
    if err.None? && t.kind == KeyVal then AttrRun(rest, ending, m[t.key := t.val])
    else AttrOutcome(m, t, err, rest)
  }

  /** AttrRun is AttrAfter of the first step. */
  lemma {:induction false} AttrRunUnfold(rest: string, ending: Ending, m: map<string, string>)
    ensures var s := Scan(rest, ending); AttrRun(rest, ending, m) == AttrAfter(m, s.tok, s.err, s.rest, ending)
  {
  }

  datatype Assembled = Assembled(rec: Record, err: Option<Error>, rest: string)

  /** What `consumeRecord(buf)` returns, and the input it leaves. */
  function Assemble(rest: string, ending: Ending): (c: Assembled)
    ensures c.err.Some? ==> c.rec == EmptyRecord
    ensures c.err.None? ==> |c.rec.listFields| == |c.rec.listValues| >= 1
    ensures c.err.None? || c.err == Some(UnexpectedToken(Divide)) || c.err == Some(EndError(ending))
    ensures c.err == Some(EndError(ending)) ==> c.rest == []
    ensures |c.rest| <= |rest|
  {
    var a := AttrRun(rest, ending, map[]);
    if a.err.Some? || a.tok.kind != Item then
      Assembled(EmptyRecord, if a.err.None? then Some(UnexpectedToken(a.tok.kind)) else a.err, a.rest)
    else
      var l := CollectList(a.tok, a.rest, ending);
      if l.err.Some? && l.err != Some(Eof) then Assembled(EmptyRecord, l.err, l.rest)
      else Assembled(Record(a.attrs, l.fields, l.values), None, l.rest)
  }

  method ConsumeRecord(buf: LineReader) returns (rec: Record, err: Option<Error>)
    requires buf.Valid()
    modifies buf
    ensures buf.Valid()
    ensures Assembled(rec, err, buf.Rest()) == Assemble(old(buf.Rest()), buf.ending)
  {
    ghost var phase1 := AttrRun(buf.Rest(), buf.ending, map[]);
    AttrRunUnfold(buf.Rest(), buf.ending, map[]);
    var m: map<string, string> := map[];
    var tok: Token;
    tok, err := Advance(buf);
    while err.None? && tok.kind == KeyVal
      invariant buf.Valid()
      invariant phase1 == AttrAfter(m, tok, err, buf.Rest(), buf.ending)
      decreases |buf.Rest()| + (if err.None? then 1 else 0)
    {
      AttrRunUnfold(buf.Rest(), buf.ending, m[tok.key := tok.val]);
      m := m[tok.key := tok.val];
      tok, err := Advance(buf);
    }
    if err.Some? || tok.kind != Item {
      if err.None? {
        return EmptyRecord, Some(UnexpectedToken(tok.kind));
      }
      return EmptyRecord, err;
    }
    var ks, vs, e := ConsumeList(buf, tok);
    if e.Some? && e != Some(Eof) {
      return EmptyRecord, e;
    }
    return Record(m, ks, vs), None;
  }
}
