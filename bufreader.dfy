/**
 * The buffered reader the decoder pulls lines from (Go's bufio.Reader over
 * the report file), modelled as the whole input held in memory with a read
 * position. Only ReadBytes('\n') is used by the decoder.
 */
module BufReader {
  import opened Wrappers
  import opened Tokens

  /** ReadLine on a suffix of `data`, stated with positions in `data`. */
  lemma {:induction false} ReadLineFrom(data: string, pos: nat, i: nat, ending: Ending)
    requires pos <= i < |data| && data[i] == '\n'
    requires forall j :: pos <= j < i ==> data[j] != '\n'
    ensures ReadLine(data[pos..], ending) == LineRead(data[pos..i + 1], None, data[i + 1..])
  {
    var rest := data[pos..];
    ReadLineAt(rest, ending, i - pos);
    assert rest[..i - pos + 1] == data[pos..i + 1];
    assert rest[i - pos + 1..] == data[i + 1..];
  }

  class LineReader {
    /** The bytes of the input. */
    const data: string
    /** What the source reports after the last byte. */
    const ending: Ending
    /** Number of bytes already consumed. */
    var pos: nat

    ghost predicate Valid()
      reads this
    {
      pos <= |data|
    }

    /** The input not yet consumed. */
    function Rest(): string
      reads this
      requires Valid()
    {
      data[pos..]
    }

    constructor (data: string, ending: Ending)
      ensures Valid() && this.data == data && this.ending == ending
      ensures Rest() == data
    {
      this.data := data;
      this.ending := ending;
      pos := 0;
    }

    /** `ReadBytes('\n')`: scans for the next '\n' and consumes through it;
        with none left, consumes everything and reports the ending's error. */
    method ReadBytes() returns (line: string, err: Option<Error>)
      requires Valid()
      modifies this
      ensures Valid()
      ensures LineRead(line, err, Rest()) == ReadLine(old(Rest()), ending)
    {
      var i := pos;
      while i < |data| && data[i] != '\n'
        invariant pos <= i <= |data|
        invariant forall j :: pos <= j < i ==> data[j] != '\n'
      {
        i := i + 1;
      }
      if i < |data| {
        ReadLineFrom(data, pos, i, ending);
        line, err := data[pos..i + 1], None;
        pos := i + 1;
      } else {
        assert data[pos..] == data[pos..i];
        ReadLineSplits(data[pos..], ending);
        line, err := data[pos..], Some(EndError(ending));
        pos := |data|;
      }
    }
  }
}
