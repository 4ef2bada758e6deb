/**
 * Whole reports: a header block and data blocks, rendered in one shape of
 * report text, are read back by the decoder as the header (with the results
 * path injected) and the data records one per call of `Next`, after which
 * every call returns the end-of-stream error. On a stream cut short by a
 * read failure the last data record is lost.
 */
module Documents {
  import opened Wrappers
  import opened Tokens
  import opened Assembler
  import opened RecordLaws
  import opened Decoder
  import opened Stream
  import opened Render

  /** The keys of entries, in order: the fields of their key/value tokens. */
  function Keys(es: seq<Entry>): seq<string> {
    Fields(KeyValTokens(es))
  }

  /** The values of entries, in order. */
  function Vals(es: seq<Entry>): seq<string> {
    Values(KeyValTokens(es))
  }

  /** The keys and values of a non-empty run are its first entry's and those of the rest. */
  lemma {:induction false} KeysCons(es: seq<Entry>)
    requires es != []
    ensures Keys(es) == [es[0].key] + Keys(es[1..])
    ensures Vals(es) == [es[0].val] + Vals(es[1..])
  {
    var kt := KeyValTokens(es[1..]);
    assert KeyValTokens(es)[1..] == kt;
  }

  /** The record a block stands for. */
  function Decoded(b: Block): Record {
    Record(Insert(map[], b.attrs), [b.item.key] + Keys(b.more), [b.item.val] + Vals(b.more))
  }

  function Yields(ds: seq<Block>): (r: seq<Outcome>)
    ensures |r| == |ds|
  {
    if ds == [] then [] else [Yield(Decoded(ds[0]))] + Yields(ds[1..])
  }

  /** The tokens of a document after its leading divider. */
  function Following(ds: seq<Block>): seq<Token> {
    if ds == [] then [] else BlockTokens(ds[0]) + DocumentTokens(ds[1..])
  }

  // ---------------------------------------------------------------------
  // Rendered token lists
  // ---------------------------------------------------------------------

  /** A rendered run of entries at the front of the attribute section is
      written into the map in order. */
  lemma {:induction false} AttrsKeyVals(m: map<string, string>, es: seq<Entry>, rest: seq<Token>, end: Error)
    ensures AttrsFrom(m, KeyValTokens(es) + rest, end) == AttrsFrom(Insert(m, es), rest, end)
    decreases |es|
  {
    if es == [] {
      assert KeyValTokens(es) + rest == rest;
    } else {
      var t := Token(KeyVal, es[0].key, es[0].val);
      assert KeyValTokens(es) + rest == [t] + (KeyValTokens(es[1..]) + rest);
      AttrsKeyVals(m[t.key := t.val], es[1..], rest, end);
    }
  }

  /** A rendered run of entries inside the list section is appended to it
      in order. */
  lemma {:induction false} ListKeyVals(m: map<string, string>, fs: seq<string>, vs: seq<string>, es: seq<Entry>, rest: seq<Token>, end: Error)
    ensures ListFrom(m, fs, vs, KeyValTokens(es) + rest, end) == ListFrom(m, fs + Keys(es), vs + Vals(es), rest, end)
    decreases |es|
  {
    if es == [] {
      assert KeyValTokens(es) + rest == rest;
      assert fs + [] == fs && vs + [] == vs;
    } else {
      var t := Token(KeyVal, es[0].key, es[0].val);
      assert KeyValTokens(es) + rest == [t] + (KeyValTokens(es[1..]) + rest);
      ListKeyVals(m, fs + [t.key], vs + [t.val], es[1..], rest, end);
      KeysCons(es);
      Reassociate(fs, [t.key], Keys(es[1..]));
      Reassociate(vs, [t.val], Vals(es[1..]));
    }
  }

  /** A rendered block followed by a divider (or by nothing) reads as the
      record it stands for; at the end of a stream cut short by a read
      failure it is lost. */
  lemma {:induction false} RecordFromBlock(b: Block, more: seq<Token>, end: Error)
    requires more == [] || more[0].kind == Divide
    ensures var e := RecordFrom(BlockTokens(b) + more, end);
      && (more != [] ==> e == Expect(Decoded(b), None, more[1..]))
      && (more == [] && end == Eof ==> e == Expect(Decoded(b), None, []))
      && (more == [] && end != Eof ==> e == Expect(EmptyRecord, Some(end), []))
  {
    var i := Token(Item, b.item.key, b.item.val);
    var tail := KeyValTokens(b.more) + more;
    assert BlockTokens(b) + more == KeyValTokens(b.attrs) + ([i] + tail);
    AttrsKeyVals(map[], b.attrs, [i] + tail, end);
    assert ([i] + tail)[1..] == tail;
    ListKeyVals(Insert(map[], b.attrs), [i.key], [i.val], b.more, more, end);
  }

  lemma {:induction false} DocumentTokensFollowing(ds: seq<Block>)
    ensures DocumentTokens(ds) == if ds == [] then [] else [Token(Divide, "", "")] + Following(ds)
  {
    if ds != [] {
      assert [Token(Divide, "", "")] + BlockTokens(ds[0]) + DocumentTokens(ds[1..])
        == [Token(Divide, "", "")] + (BlockTokens(ds[0]) + DocumentTokens(ds[1..]));
    }
  }

  /** The records after the header, one block at a time. */
  lemma {:induction false} FollowingRecord(ds: seq<Block>, end: Error)
    ensures var e := RecordFrom(Following(ds), end);
      && (ds == [] ==> e == Expect(EmptyRecord, Some(end), []))
      && (|ds| > 1 ==> e == Expect(Decoded(ds[0]), None, Following(ds[1..])))
      && (|ds| == 1 && end == Eof ==> e == Expect(Decoded(ds[0]), None, []))
      && (|ds| == 1 && end != Eof ==> e == Expect(EmptyRecord, Some(end), []))
  {
    if ds != [] {
      DocumentTokensFollowing(ds[1..]);
      RecordFromBlock(ds[0], DocumentTokens(ds[1..]), end);
      if |ds| > 1 {
        assert DocumentTokens(ds[1..])[1..] == Following(ds[1..]);
      }
    }
  }

  lemma {:induction false} YieldsCons(ds: seq<Block>, later: seq<Outcome>)
    requires ds != []
    ensures Yields(ds) + later == [Yield(Decoded(ds[0]))] + (Yields(ds[1..]) + later)
  {
  }

  /** One record handed out, then whatever follows it. */
  lemma {:induction false} OutcomesStep(e: Expect, end: Error, n: nat, later: seq<Outcome>)
    requires e.err.None? && Outcomes(RecordFrom(e.after, end), end, n) == later
    ensures Outcomes(e, end, n + 1) == [Yield(e.rec)] + later
  {
  }

  /** The record `e` and the ones read after it are the data blocks `ds`,
      followed by the error `end`. */
  ghost predicate Awaits(e: Expect, ds: seq<Block>, end: Error)
    decreases |ds|
  {
    if ds == [] then e.err == Some(end)
    else e.rec == Decoded(ds[0]) && e.err == None && Awaits(RecordFrom(e.after, end), ds[1..], end)
  }

  /** Records that read as `ds` are handed out once each, then the error
      repeats. */
  lemma {:induction false} AwaitsOutcomes(e: Expect, ds: seq<Block>, end: Error, k: nat)
    requires Awaits(e, ds, end)
    ensures Outcomes(e, end, |ds| + k) == Yields(ds) + Halts(end, k)
    decreases |ds|
  {
    if ds == [] {
      OutcomesSticky(e, end, k);
    } else {
      AwaitsOutcomes(RecordFrom(e.after, end), ds[1..], end, k);
      OutcomesStep(e, end, |ds| - 1 + k, Yields(ds[1..]) + Halts(end, k));
      YieldsCons(ds, Halts(end, k));
    }
  }

  lemma {:induction false} AwaitsCons(ds: seq<Block>, e: Expect, end: Error, next: Expect)
    requires ds != [] && e.rec == Decoded(ds[0]) && e.err == None
    requires next == RecordFrom(e.after, end) && Awaits(next, ds[1..], end)
    ensures Awaits(e, ds, end)
  {
  }

  /** The data blocks of a report read to a clean end read as themselves. */
  lemma {:induction false} CleanAwaits(ds: seq<Block>)
    ensures Awaits(RecordFrom(Following(ds), Eof), ds, Eof)
    decreases |ds|
  {
    FollowingRecord(ds, Eof);
    if ds != [] {
      CleanAwaits(ds[1..]);
      AwaitsCons(ds, RecordFrom(Following(ds), Eof), Eof, RecordFrom(Following(ds[1..]), Eof));
    }
  }

  /** On a stream that fails after its last byte, they read as all of
      themselves but the last. */
  lemma {:induction false} FailingAwaits(ds: seq<Block>, last: Block)
    ensures Awaits(RecordFrom(Following(ds + [last]), ReadFailure), ds, ReadFailure)
    decreases |ds|
  {
    FollowingRecord(ds + [last], ReadFailure);
    if ds != [] {
      FailingAwaits(ds[1..], last);
      assert (ds + [last])[1..] == ds[1..] + [last];
      AwaitsCons(ds, RecordFrom(Following(ds + [last]), ReadFailure), ReadFailure,
        RecordFrom(Following(ds[1..] + [last]), ReadFailure));
    }
  }

  // ---------------------------------------------------------------------
  // The decoder on a rendered report
  // ---------------------------------------------------------------------

  /** A rendered report reads as a divider, the header's tokens and the
      data blocks' tokens. */
  lemma {:induction false} DocumentLexed(h: Block, ds: seq<Block>, ending: Ending)
    requires AllWellFormed([h] + ds)
    ensures Lex(Document([h] + ds), ending).toks == [Token(Divide, "", "")] + (BlockTokens(h) + DocumentTokens(ds))
  {
    DocumentBack([h] + ds, ending);
    DocumentTokensCons(h, ds);
  }

  lemma {:induction false} DocumentTokensCons(h: Block, ds: seq<Block>)
    ensures DocumentTokens([h] + ds) == [Token(Divide, "", "")] + (BlockTokens(h) + DocumentTokens(ds))
  {
    assert ([h] + ds)[1..] == ds;
  }

  /** The header block is followed by the data blocks. */
  lemma {:induction false} HeaderRecord(h: Block, ds: seq<Block>, end: Error)
    requires ds != [] || end == Eof
    ensures RecordFrom(BlockTokens(h) + DocumentTokens(ds), end) == Expect(Decoded(h), None, Following(ds))
  {
    DocumentTokensFollowing(ds);
    RecordFromBlock(h, DocumentTokens(ds), end);
  }

  /** Initialization of a text that reads as a divider and then `ts`, whose
      first record assembles. */
  lemma {:induction false} InitializeAfterDivider(text: string, ending: Ending, path: string, ts: seq<Token>, h: Expect)
    requires Lex(text, ending).toks == [Token(Divide, "", "")] + ts
    requires h == RecordFrom(ts, EndError(ending)) && h.err.None?
    ensures var r := Initialize(text, ending, path);
      && r.Started?
      && r.start.header == h.rec.(attributes := h.rec.attributes["results" := path])
      && Ahead(r.start.look, ending) == RecordFrom(h.after, EndError(ending))
  {
    InitializeLex(text, ending, path);
    assert Lex(text, ending).toks[1..] == ts;
  }

  /** The header of a rendered report, and what initialization leaves for
      the data records. */
  lemma {:induction false} HeaderOf(h: Block, ds: seq<Block>, ending: Ending, end: Error, path: string)
    requires AllWellFormed([h] + ds)
    requires ds != [] || ending == CleanEof
    requires end == EndError(ending)
    ensures var r := Initialize(Document([h] + ds), ending, path);
      && r.Started?
      && r.start.header == Decoded(h).(attributes := Decoded(h).attributes["results" := path])
      && Ahead(r.start.look, ending) == RecordFrom(Following(ds), end)
  {
    DocumentLexed(h, ds, ending);
    HeaderRecord(h, ds, end);
    InitializeAfterDivider(Document([h] + ds), ending, path, BlockTokens(h) + DocumentTokens(ds),
      Expect(Decoded(h), None, Following(ds)));
  }

  /** The calls of `Next` on a decoder whose lookahead, read as tokens,
      awaits the data blocks `ds`: their records, then the ending's error. */
  lemma {:induction false} AwaitsPulls(look: Lookahead, ds: seq<Block>, ending: Ending, k: nat)
    requires Awaits(Ahead(look, ending), ds, EndError(ending))
    ensures Pulls(look, ending, |ds| + k) == Yields(ds) + Halts(EndError(ending), k)
  {
    PullsLex(look, ending, |ds| + k);
    AwaitsOutcomes(Ahead(look, ending), ds, EndError(ending), k);
  }

  /** A rendered report with header `h` and data blocks `ds`, read to a
      clean end: the decoder starts, its header is `h`'s record with
      "results" set to `path`, its identifiers pair up `h`'s list values, and
      `|ds| + k` calls of `Next` hand out the data records in order and then
      return the end-of-stream error `k` times. */
  lemma {:induction false} ReadDocument(h: Block, ds: seq<Block>, path: string, k: nat)
    requires AllWellFormed([h] + ds)
    ensures var r := Initialize(Document([h] + ds), CleanEof, path);
      && r.Started?
      && r.start.header == Decoded(h).(attributes := Decoded(h).attributes["results" := path])
      && r.start.identifiers == Pairs([h.item.val] + Vals(h.more))
      && Pulls(r.start.look, CleanEof, |ds| + k) == Yields(ds) + Halts(Eof, k)
  {
    var r := Initialize(Document([h] + ds), CleanEof, path);
    HeaderOf(h, ds, CleanEof, Eof, path);
    CleanAwaits(ds);
    AwaitsPulls(r.start.look, ds, CleanEof, k);
  }

  /** A report without data blocks on a stream that fails after its last
      byte is rejected: its header never reaches a divider. */
  lemma {:induction false} ReadFailingHeader(h: Block, path: string)
    requires AllWellFormed([h])
    ensures Initialize(Document([h]), Failure, path) == Rejected(InvalidYaml(Some(ReadFailure)))
  {
    var text := Document([h] + []);
    assert [h] + [] == [h];
    DocumentLexed(h, [], Failure);
    RecordFromBlock(h, [], ReadFailure);
    assert BlockTokens(h) + DocumentTokens([]) == BlockTokens(h) + [];
    InitializeLex(text, Failure, path);
    assert Lex(text, Failure).toks[1..] == BlockTokens(h) + DocumentTokens([]);
  }

  /** A report with data blocks `ds + [last]` on a stream that fails after
      its last byte: the decoder starts with the header as on a clean end,
      `|ds| + k` calls of `Next` hand out the records of `ds` and then the
      failure `k` times: the last data record is lost. */
  lemma {:induction false} ReadFailingDocument(h: Block, ds: seq<Block>, last: Block, path: string, k: nat)
    requires AllWellFormed([h] + (ds + [last]))
    ensures var r := Initialize(Document([h] + (ds + [last])), Failure, path);
      && r.Started?
      && r.start.header == Decoded(h).(attributes := Decoded(h).attributes["results" := path])
      && Pulls(r.start.look, Failure, |ds| + k) == Yields(ds) + Halts(ReadFailure, k)
  {
    var r := Initialize(Document([h] + (ds + [last])), Failure, path);
    HeaderOf(h, ds + [last], Failure, ReadFailure, path);
    FailingAwaits(ds, last);
    AwaitsPulls(r.start.look, ds, Failure, k);
  }
}
