/**
 * The one-record-lookahead decoder `sfYAML`: `makeHead` reads the opening
 * divider and the header record, injects the results path, rebuilds the
 * identifier pairs and pre-assembles the first data record; `Next` hands
 * out the stored record and refills the lookahead; `Head` returns the
 * header. The header, hash, field-schema and file constructors are outside
 * this code and are taken as uninterpreted functions (Collaborators).
 */
module Decoder {
  import opened Wrappers
  import opened Tokens
  import opened BufReader
  import opened Assembler

  /** One `[2]string` of `Head.Identifiers`: a name and its version string. */
  type Identifier = (string, string)

  /** The report header. `base` stands for every field `newHeadMap` fills in;
      the other three are the fields `makeHead` overwrites. */
  datatype Header<B, H, D> = Header(base: B, identifiers: seq<Identifier>, hashHeader: H, fields: D)

  /** The functions the decoder calls but does not define: `newHeadMap`,
      `getHash`, `getFields` and `getFile`. */
  datatype Collaborators<B, H, D, F> = Collaborators(
    newHeadMap: map<string, string> -> (Header<B, H, D>, Option<Error>),
    getHash: map<string, string> -> H,
    getFields: (seq<string>, seq<string>) -> D,
    getFile: Record -> (F, Option<Error>))

  // ---------------------------------------------------------------------
  // Identifiers
  // ---------------------------------------------------------------------

  /** The list values of the header read two at a time; the second element
      of a trailing odd value is "". */
  function Pairs(vs: seq<string>): (ps: seq<Identifier>)
    ensures |ps| == (|vs| + 1) / 2
    decreases |vs|
  {
    if |vs| == 0 then []
    else if |vs| == 1 then [(vs[0], "")]
    else [(vs[0], vs[1])] + Pairs(vs[2..])
  }

  lemma {:induction false} PairsAt(vs: seq<string>, k: nat)
    requires k < (|vs| + 1) / 2
    ensures Pairs(vs)[k] == (vs[2 * k], if 2 * k + 1 < |vs| then vs[2 * k + 1] else "")
    decreases |vs|
  {
    if k > 0 {
      PairsAt(vs[2..], k - 1);
      assert vs[2..][2 * (k - 1)] == vs[2 * k];
    }
  }

  /** The loop of `makeHead` over `rec.listValues`: an even position starts a
      new pair, an odd one fills the second slot of the last pair in place. */
  method BuildIdentifiers(values: seq<string>) returns (ids: seq<Identifier>)
    ensures |ids| == (|values| + 1) / 2
    ensures forall k :: 0 <= k < |ids| ==>
      ids[k] == (values[2 * k], if 2 * k + 1 < |values| then values[2 * k + 1] else "")
    ensures ids == Pairs(values)
  {
    ids := [];
    for i := 0 to |values|
      invariant |ids| == (i + 1) / 2
      invariant forall k :: 0 <= k < |ids| ==>
        ids[k] == (values[2 * k], if 2 * k + 1 < i then values[2 * k + 1] else "")
    {
      if i % 2 == 0 {
        ids := ids + [(values[i], "")];
      } else {
        ids := ids[|ids| - 1 := (ids[|ids| - 1].0, values[i])];
      }
    }
    forall k | 0 <= k < |ids|
      ensures ids[k] == Pairs(values)[k]
    {
      PairsAt(values, k);
    }
  }

  // ---------------------------------------------------------------------
  // The decoder's state and its two operations, on values
  // ---------------------------------------------------------------------

  /** The lookahead `sfy.peek`/`sfy.err` together with the unread input. */
  datatype Lookahead = Lookahead(peek: Record, err: Option<Error>, rest: string)

  function LookaheadOf(c: Assembled): Lookahead {
    Lookahead(c.rec, c.err, c.rest)
  }

  /** What initialization produces: the header record after the results path
      is injected, the identifier pairs, and the first lookahead. */
  datatype Start = Start(header: Record, identifiers: seq<Identifier>, look: Lookahead)

  datatype Init = Started(start: Start) | Rejected(error: Error)

  /** The part of `makeHead` that reads the stream. */
  function Initialize(rest: string, ending: Ending, path: string): (r: Init)
    ensures r.Rejected? ==> r.error.InvalidYaml?
    ensures r.Started? ==> var h := r.start.header;
      && "results" in h.attributes && h.attributes["results"] == path
      && |h.listFields| == |h.listValues| >= 1
      && r.start.identifiers == Pairs(h.listValues)
    ensures r.Started? ==> |r.start.look.rest| <= |rest|
  {
    var s := Scan(rest, ending);
    if s.err.Some? || s.tok.kind != Divide then Rejected(InvalidYaml(s.err))
    else
      var h := Assemble(s.rest, ending);
      if h.err.Some? then Rejected(InvalidYaml(h.err))
      else
        var header := h.rec.(attributes := h.rec.attributes["results" := path]);
        Started(Start(header, Pairs(header.listValues), LookaheadOf(Assemble(h.rest, ending))))
  }

  /** What one pull hands to `getFile`, or the error it returns instead. */
  datatype Outcome = Yield(rec: Record) | Halt(error: Error)

  datatype Pulled = Pulled(out: Outcome, next: Lookahead)

  /** One call of `Next`, on values. */
  function Pull(s: Lookahead, ending: Ending): (p: Pulled)
    ensures p.out.Halt? <==> s.err.Some?
    ensures s.err.Some? ==> p.out == Halt(s.err.value) && p.next == s
    ensures s.err.None? ==> p.out == Yield(s.peek) && |p.next.rest| <= |s.rest|
  {
    if s.err.Some? then Pulled(Halt(s.err.value), s)
    else Pulled(Yield(s.peek), LookaheadOf(Assemble(s.rest, ending)))
  }

  /** The outcomes of `n` successive calls of `Next`. */
  function Pulls(s: Lookahead, ending: Ending, n: nat): (r: seq<Outcome>)
    ensures |r| == n
    decreases n
  {
    if n == 0 then []
    else
      var p := Pull(s, ending);
      [p.out] + Pulls(p.next, ending, n - 1)
  }

  // ---------------------------------------------------------------------
  // The decoder object
  // ---------------------------------------------------------------------

  class YamlReader<B, H, D, F> {
    const buf: LineReader
    const collab: Collaborators<B, H, D, F>
    var head: Header<B, H, D>
    var peek: Record
    var err: Option<Error>

    ghost predicate Valid()
      reads this, buf
    {
      buf.Valid()
    }

    /** The decoder's state as a value. */
    ghost function Look(): Lookahead
      reads this, buf
      requires Valid()
    {
      Lookahead(peek, err, buf.Rest())
    }

    /** Allocates a decoder in the state `makeHead` leaves it in. */
    constructor (buf: LineReader, collab: Collaborators<B, H, D, F>, head: Header<B, H, D>, peek: Record, err: Option<Error>)
      requires buf.Valid()
      ensures Valid() && this.buf == buf && this.collab == collab
      ensures this.head == head && this.peek == peek && this.err == err
    {
      this.buf := buf;
      this.collab := collab;
      this.head := head;
      this.peek := peek;
      this.err := err;
    }

    /** `makeHead`: on a stream that does not open with a divider, or whose
        header record does not assemble, no decoder. Otherwise a decoder
        whose header is `newHeadMap`'s with the identifiers, hash and fields
        overwritten, holding the first data record as lookahead; the error
        returned is `newHeadMap`'s, not the lookahead's. */
    static method MakeHead(buf: LineReader, path: string, collab: Collaborators<B, H, D, F>)
      returns (sfy: YamlReader?<B, H, D, F>, err: Option<Error>)
      requires buf.Valid()
      modifies buf
      ensures buf.Valid()
      ensures Initialize(old(buf.Rest()), buf.ending, path).Rejected? ==>
        sfy == null && err == Some(Initialize(old(buf.Rest()), buf.ending, path).error)
      ensures Initialize(old(buf.Rest()), buf.ending, path).Started? ==>
        var st := Initialize(old(buf.Rest()), buf.ending, path).start;
        var made := collab.newHeadMap(st.header.attributes);
        && sfy != null && fresh(sfy) && sfy.Valid()
        && sfy.buf == buf && sfy.collab == collab
        && sfy.Look() == st.look
        && sfy.head == made.0.(identifiers := st.identifiers,
                               hashHeader := collab.getHash(st.look.peek.attributes),
                               fields := collab.getFields(st.look.peek.listFields, st.look.peek.listValues))
        && err == made.1
    {
      var tok, e := Advance(buf);
      if e.Some? || tok.kind != Divide {
        return null, Some(InvalidYaml(e));
      }
      var rec, e1 := ConsumeRecord(buf);
      if e1.Some? {
        return null, Some(InvalidYaml(e1));
      }
      rec := rec.(attributes := rec.attributes["results" := path]);
      var made := collab.newHeadMap(rec.attributes);
      var head := made.0;
      var ids := BuildIdentifiers(rec.listValues);
      head := head.(identifiers := ids);
      var peek, peekErr := ConsumeRecord(buf);
      head := head.(hashHeader := collab.getHash(peek.attributes),
                    fields := collab.getFields(peek.listFields, peek.listValues));
      sfy := new YamlReader(buf, collab, head, peek, peekErr);
      err := made.1;
    }

    /** `Head`: the header built by `makeHead`. */
    function Head(): Header<B, H, D>
      reads this
    {
      head
    }

    /** `Next`: with an error stored, returns it (and the zero File, here
        None) and reads nothing; otherwise hands the stored record to
        `getFile` and refills the lookahead from the stream. */
    method Next() returns (file: Option<F>, e: Option<Error>)
      requires Valid()
      modifies this, buf
      ensures Valid() && head == old(head)
      ensures Look() == Pull(old(Look()), buf.ending).next
      ensures old(err).Some? ==> file == None && e == old(err) && buf.pos == old(buf.pos)
      ensures old(err).None? ==> file == Some(collab.getFile(old(peek)).0) && e == collab.getFile(old(peek)).1
    {
      var r, e0 := peek, err;
      if e0.Some? {
        return None, e0;
      }
      peek, err := ConsumeRecord(buf);
      var got := collab.getFile(r);
      return Some(got.0), got.1;
    }
  }

  /** `newYAML` without the reader plumbing: wraps the input in a reader and
      returns what `makeHead` returns. */
  method NewYaml<B, H, D, F>(data: string, ending: Ending, path: string, collab: Collaborators<B, H, D, F>)
    returns (sfy: YamlReader?<B, H, D, F>, err: Option<Error>)
    ensures Initialize(data, ending, path).Rejected? ==>
      sfy == null && err == Some(Initialize(data, ending, path).error)
    ensures Initialize(data, ending, path).Started? ==>
      var st := Initialize(data, ending, path).start;
      var made := collab.newHeadMap(st.header.attributes);
      && sfy != null && fresh(sfy) && fresh(sfy.buf) && sfy.Valid()
      && sfy.buf.ending == ending && sfy.collab == collab
      && sfy.Look() == st.look
      && sfy.head == made.0.(identifiers := st.identifiers,
                             hashHeader := collab.getHash(st.look.peek.attributes),
                             fields := collab.getFields(st.look.peek.listFields, st.look.peek.listValues))
      && err == made.1
  {
    var buf := new LineReader(data, ending);
    sfy, err := YamlReader.MakeHead(buf, path, collab);
  }
}
