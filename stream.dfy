/**
 * Laws of the decoder's two operations: initialization described on the
 * token list of the input, the sticky error of `Next`, and the outcomes of
 * successive calls of `Next` described on the token list.
 */
module Stream {
  import opened Wrappers
  import opened Tokens
  import opened Assembler
  import opened RecordLaws
  import opened Decoder

  /** `n` copies of the same failed outcome. */
  function Halts(e: Error, n: nat): (r: seq<Outcome>)
    ensures |r| == n
    ensures forall i :: 0 <= i < n ==> r[i] == Halt(e)
  {
    if n == 0 then [] else [Halt(e)] + Halts(e, n - 1)
  }

  /** Once an error is stored, every later call of `Next` returns it and the
      state stays as it is. */
  lemma {:induction false} Sticky(s: Lookahead, ending: Ending, n: nat)
    requires s.err.Some?
    ensures Pulls(s, ending, n) == Halts(s.err.value, n)
    decreases n
  {
    if n > 0 {
      Sticky(s, ending, n - 1);
    }
  }

  /** A decoder's lookahead at the level of tokens: the record it holds,
      its error, and the tokens of the input it has not read. */
  function Ahead(s: Lookahead, ending: Ending): Expect {
    Expect(s.peek, s.err, Lex(s.rest, ending).toks)
  }

  /** The outcomes of `n` calls of `Next` on a decoder whose lookahead reads
      as `e`, on a stream ending with `end`. */
  function Outcomes(e: Expect, end: Error, n: nat): (r: seq<Outcome>)
    ensures |r| == n
    decreases n
  {
    if n == 0 then []
    else if e.err.Some? then [Halt(e.err.value)] + Outcomes(e, end, n - 1)
    else [Yield(e.rec)] + Outcomes(RecordFrom(e.after, end), end, n - 1)
  }

  /** Successive calls of `Next` hand out the records the token list
      describes, one per call, until the first error, which then repeats. */
  lemma {:induction false} PullsLex(s: Lookahead, ending: Ending, n: nat)
    ensures Pulls(s, ending, n) == Outcomes(Ahead(s, ending), EndError(ending), n)
    decreases n
  {
    if n > 0 {
      PullAhead(s, ending);
      PullsLex(Pull(s, ending).next, ending, n - 1);
    }
  }

  /** One call of `Next` on the token list: it hands out the record held
      (or the error), and the next lookahead is the record read off the
      tokens after it. */
  lemma {:induction false} PullAhead(s: Lookahead, ending: Ending)
    ensures var p := Pull(s, ending); var e := Ahead(s, ending);
      && p.out == (if e.err.Some? then Halt(e.err.value) else Yield(e.rec))
      && Ahead(p.next, ending) == if e.err.Some? then e else RecordFrom(e.after, EndError(ending))
  {
    if s.err.None? {
      AssembleLex(s.rest, ending);
    }
  }

  /** Token-level stickiness. */
  lemma {:induction false} OutcomesSticky(e: Expect, end: Error, n: nat)
    requires e.err.Some?
    ensures Outcomes(e, end, n) == Halts(e.err.value, n)
    decreases n
  {
    if n > 0 {
      OutcomesSticky(e, end, n - 1);
    }
  }

  /** Initialization described on the token list of the input: the first
      token must be a divider, the header is the record after it with the
      results path injected, and the lookahead is the record after that. A
      stream without a complete line is rejected with the end-of-stream
      error as cause, one that does not open with a divider with no cause. */
  lemma {:induction false} InitializeLex(rest: string, ending: Ending, path: string)
    ensures var ts := Lex(rest, ending).toks; var end := EndError(ending); var r := Initialize(rest, ending, path);
      && (|ts| == 0 ==> r == Rejected(InvalidYaml(Some(end))))
      && (|ts| > 0 && ts[0].kind != Divide ==> r == Rejected(InvalidYaml(None)))
      && (|ts| > 0 && ts[0].kind == Divide ==>
            var h := RecordFrom(ts[1..], end);
            && (h.err.Some? ==> r == Rejected(InvalidYaml(h.err)))
            && (h.err.None? ==>
                  && r.Started?
                  && r.start.header == h.rec.(attributes := h.rec.attributes["results" := path])
                  && Ahead(r.start.look, ending) == RecordFrom(h.after, end)))
  {
    var s := Scan(rest, ending);
    LexStep(rest, ending);
    if s.err.None? && s.tok.kind == Divide {
      var ts := Lex(rest, ending).toks;
      assert ts[1..] == Lex(s.rest, ending).toks;
      var h := Assemble(s.rest, ending);
      AssembleLex(s.rest, ending);
      AssembleLex(h.rest, ending);
    }
  }
}
