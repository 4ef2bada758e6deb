/**
 * The line tokenizer of the report reader: one physical line, terminated by
 * '\n', becomes one token. Corresponds to the `token` type and `advance` in
 * cmd/internal/reader/yaml.go; the stream side of `advance` (reading a line)
 * is modelled by ReadLine here and by BufReader.LineReader.ReadBytes.
 */
module Tokens {
  import opened Wrappers
  import opened Text

  /** Token kinds, in the order of the source's iota constants
      (divide = 0, keyval = 1, item = 2). */
  datatype Kind = Divide | KeyVal | Item

  datatype Token = Token(kind: Kind, key: string, val: string)

  /** Go's zero token, `token{}`: kind divide (0), empty key and value. */
  const ZeroToken := Token(Divide, "", "")

  /** How the byte source ends after its last byte: with io.EOF, or with a
      read failure that every later read reports again. */
  datatype Ending = CleanEof | Failure

  /** The error kinds the decoder distinguishes; message texts are not modelled.
      InvalidYaml is the "invalid YAML; got %v" wrapper, carrying the error it
      formats (None when it formats a nil error). */
  datatype Error = Eof | ReadFailure | UnexpectedToken(got: Kind) | InvalidYaml(cause: Option<Error>)

  /** The error a read reports once no '\n' is left. */
  function EndError(ending: Ending): Error {
    match ending
    case CleanEof => Eof
    case Failure => ReadFailure
  }

  const Divider := "---\n"
  const ItemPrefix := "  - "

  /** The part of a non-divider line that is split on ':': the line without
      its list-item prefix, if it has one. */
  function Body(line: string): string {
    if HasPrefix(line, ItemPrefix) then line[|ItemPrefix|..] else line
  }

  lemma {:induction false} BodyOf(line: string)
    ensures HasPrefix(line, ItemPrefix) ==> ItemPrefix + Body(line) == line
    ensures !HasPrefix(line, ItemPrefix) ==> Body(line) == line
  {
    TrimPrefixOf(line, ItemPrefix);
  }

  /** Removes at most one leading and, independently, at most one trailing
      single quote. */
  function Unquote(s: string): string {
    TrimSuffix(TrimPrefix(s, "'"), "'")
  }

  lemma {:induction false} UnquoteOf(s: string)
    ensures var r := Unquote(s);
      && (HasPrefix(s, "'") && HasSuffix(s[1..], "'") ==> s == "'" + r + "'")
      && (HasPrefix(s, "'") && !HasSuffix(s[1..], "'") ==> s == "'" + r)
      && (!HasPrefix(s, "'") && HasSuffix(s, "'") ==> s == r + "'")
      && (!HasPrefix(s, "'") && !HasSuffix(s, "'") ==> r == s)
  {
    var t := TrimPrefix(s, "'");
    TrimPrefixOf(s, "'");
    TrimSuffixOf(t, "'");
    if HasPrefix(s, "'") {
      assert t == s[1..];
      assert "'" + TrimSuffix(t, "'") + "'" == "'" + (TrimSuffix(t, "'") + "'");
    }
  }

  /** The divider marker does not look like a list item. */
  lemma {:induction false} DividerIsNotItem()
    ensures !HasPrefix(Divider, ItemPrefix)
  {
    assert Divider[0] != ItemPrefix[0];
  }

  /** Splits a line body on its first colon into a trimmed key and a
      trimmed, unquoted value ("" when there is no colon). */
  function KeyValue(body: string): (string, string) {
    var split := SplitFirst(body, ':');
    (TrimSpace(split.0), if split.1.Some? then Unquote(TrimSpace(split.1.value)) else "")
  }

  /** The key is bare and holds no colon; without a colon the whole trimmed
      body is the key. */
  lemma {:induction false} KeyValueOf(body: string)
    ensures var kv := KeyValue(body);
      && ':' !in kv.0 && Bare(kv.0)
      && (':' !in body ==> kv == (TrimSpace(body), ""))
  {
    var split := SplitFirst(body, ':');
    SplitFirstParts(body, ':');
    TrimSpaceAvoids(split.0, ':');
    TrimSpaceBare(split.0);
  }

  /** Classifies one line read by ReadBytes (terminator included). */
  function Classify(line: string): Token {
    if line == Divider then Token(Divide, "", "")
    else
      var kv := KeyValue(Body(line));
      Token(if HasPrefix(line, ItemPrefix) then Item else KeyVal, kv.0, kv.1)
  }

  /** The kind of a line is decided by the divider and the item prefix; the
      key never holds a colon or outer white space. */
  lemma {:induction false} ClassifyOf(line: string)
    ensures var t := Classify(line);
      && (t.kind == Divide <==> line == Divider)
      && (t.kind == Divide ==> t.key == "" && t.val == "")
      && (t.kind == Item <==> HasPrefix(line, ItemPrefix))
      && ':' !in t.key && Bare(t.key)
      && (t.kind != Divide && ':' !in Body(line) ==> t.key == TrimSpace(Body(line)) && t.val == "")
  {
    DividerIsNotItem();
    if line != Divider {
      KeyValueOf(Body(line));
    }
  }

  /** A line split at its first colon: the key is the trimmed text before it,
      the value the trimmed, unquoted text after it. */
  lemma {:induction false} ClassifySplit(line: string, x: string, y: string)
    requires line != Divider
    requires Body(line) == x + [':'] + y && ':' !in x
    ensures Classify(line) == Token(if HasPrefix(line, ItemPrefix) then Item else KeyVal, TrimSpace(x), Unquote(TrimSpace(y)))
  {
    SplitFirstAt(Body(line), ':', x, y);
  }

  /** A line starting with the item prefix is an item line, and its body is
      what follows the prefix. */
  lemma {:induction false} ItemShape(b: string)
    ensures HasPrefix(ItemPrefix + b, ItemPrefix)
    ensures ItemPrefix + b != Divider
    ensures Body(ItemPrefix + b) == b
  {
    var line := ItemPrefix + b;
    assert line[..|ItemPrefix|] == ItemPrefix;
    assert line[0] == ' ';
    assert line[|ItemPrefix|..] == b;
  }

  lemma {:induction false} TrimmedWord(w: string)
    requires w == "name" || w == "pronom" || w == "k" || w == "'v"
    ensures TrimSpace(w) == w
  {
    assert Bare(w);
    TrimSpaceOf([], w, []);
    assert [] + w + [] == w;
  }

  lemma {:induction false} TrimmedValue(w: string, y: string)
    requires (w == "pronom" || w == "'v") && y == [' '] + w + ['\n']
    ensures TrimSpace(y) == w
  {
    assert Bare(w);
    TrimSpaceOf([' '], w, ['\n']);
  }

  lemma {:induction false} ItemExampleParts(line: string, x: string, y: string)
    requires line == "  - name: pronom\n" && x == "name" && y == [' '] + "pronom" + ['\n']
    ensures line == ItemPrefix + (x + [':'] + y)
  {
  }

  /** A list-item line: the prefix is stripped, the key and value trimmed. */
  lemma {:induction false} ClassifyItemExample(line: string)
    requires line == "  - name: pronom\n"
    ensures Classify(line) == Token(Item, "name", "pronom")
  {
    var x, y := "name", [' '] + "pronom" + ['\n'];
    ItemExampleParts(line, x, y);
    ItemShape(x + [':'] + y);
    ClassifySplit(line, x, y);
    TrimmedWord(x);
    TrimmedValue("pronom", y);
    UnquoteOf("pronom");
  }

  /** Quotes are removed one at a time: a value opened by a quote but not
      closed by one loses the opening quote all the same. */
  lemma {:induction false} ClassifyQuoteExample(line: string)
    requires line == "k: 'v\n"
    ensures Classify(line) == Token(KeyVal, "k", "v")
  {
    var x, y := "k", [' '] + "'v" + ['\n'];
    assert line == x + [':'] + y;
    assert line != Divider by {
      assert |line| != |Divider|;
    }
    assert line[0] != ItemPrefix[0];
    ClassifySplit(line, x, y);
    TrimmedWord(x);
    TrimmedValue("'v", y);
    UnquoteOf("'v");
    assert "'v" == "'" + "v";
  }

  datatype LineRead = LineRead(line: string, err: Option<Error>, rest: string)

  /** `ReadBytes('\n')` on the remaining input `rest`: the text up to and
      including the first '\n', or, when there is none, all of `rest` with
      the ending's error. */
  function ReadLine(rest: string, ending: Ending): (r: LineRead)
    ensures r.err.None? ==> |r.rest| < |rest|
    ensures r.err.Some? ==> r.err.value == EndError(ending) && r.line == rest && r.rest == []
  {
    match IndexOf(rest, '\n')
    case None => LineRead(rest, Some(EndError(ending)), [])
    case Some(i) => LineRead(rest[..i + 1], None, rest[i + 1..])
  }

  /** ReadLine succeeds exactly when a '\n' is left, and then splits the
      input after the first one. */
  lemma {:induction false} ReadLineSplits(rest: string, ending: Ending)
    ensures var r := ReadLine(rest, ending);
      && (r.err.None? <==> '\n' in rest)
      && (r.err.None? ==> rest == r.line + r.rest && |r.line| > 0 && r.line[|r.line| - 1] == '\n'
                          && '\n' !in r.line[..|r.line| - 1])
  {
    IndexOfFirst(rest, '\n');
    var i := IndexOf(rest, '\n');
    if i.Some? {
      assert rest == rest[..i.value + 1] + rest[i.value + 1..];
      assert rest[..i.value + 1][..i.value] == rest[..i.value];
    }
  }

  /** ReadLine stops at the first '\n'. */
  lemma {:induction false} ReadLineAt(rest: string, ending: Ending, k: nat)
    requires k < |rest| && rest[k] == '\n'
    requires forall j :: 0 <= j < k ==> rest[j] != '\n'
    ensures ReadLine(rest, ending) == LineRead(rest[..k + 1], None, rest[k + 1..])
  {
    ReadLineSplits(rest, ending);
    var r := ReadLine(rest, ending);
    var n := |r.line|;
    assert rest[..n] == r.line;
    assert rest[n - 1] == '\n';
    assert forall j :: 0 <= j < n - 1 ==> rest[j] != '\n' by {
      forall j | 0 <= j < n - 1 ensures rest[j] != '\n' {
        assert rest[j] == r.line[..n - 1][j];
      }
    }
  }

  /** One call of `advance`: the token, the error, and the input left. */
  datatype Step = Step(tok: Token, err: Option<Error>, rest: string)

  function Scan(rest: string, ending: Ending): (s: Step)
    ensures s.err.None? ==> |s.rest| < |rest|
    ensures s.err.Some? ==> s.err.value == EndError(ending) && s.tok == ZeroToken && s.rest == []
  {
    var r := ReadLine(rest, ending);
    if r.err.Some? then Step(ZeroToken, r.err, r.rest)
    else Step(Classify(r.line), None, r.rest)
  }

  /** `advance` fails exactly when no '\n' is left. */
  lemma {:induction false} ScanStops(rest: string, ending: Ending)
    ensures Scan(rest, ending).err.None? <==> '\n' in rest
  {
    ReadLineSplits(rest, ending);
  }

  /** A complete line is consumed exactly, and nothing after it. */
  lemma {:induction false} ScanLine(line: string, tail: string, ending: Ending)
    requires |line| > 0 && line[|line| - 1] == '\n' && '\n' !in line[..|line| - 1]
    ensures Scan(line + tail, ending) == Step(Classify(line), None, tail)
  {
    var rest := line + tail;
    assert rest[|line| - 1] == '\n';
    ReadLineSplits(rest, ending);
    var r := ReadLine(rest, ending);
    var k := |r.line|;
    assert rest[..k] == r.line;
    assert rest[..|line|] == line;
    assert r.line == line;
  }

  /** Number of '\n' in `s`. */
  function Newlines(s: string): nat {
    multiset(s)['\n']
  }

  lemma {:induction false} NewlinesNone(s: string)
    requires '\n' !in s
    ensures Newlines(s) == 0
  {
    assert '\n' !in multiset(s);
  }

  /** A line with one terminating '\n' adds one newline. */
  lemma {:induction false} NewlinesLine(line: string, tail: string)
    requires |line| > 0 && line[|line| - 1] == '\n' && '\n' !in line[..|line| - 1]
    ensures Newlines(line + tail) == 1 + Newlines(tail)
  {
    var p := line[..|line| - 1];
    assert line + tail == p + ['\n'] + tail;
    assert multiset(line + tail) == multiset(p) + multiset{'\n'} + multiset(tail);
    NewlinesNone(p);
  }

  /** The whole remaining stream as tokens: one per complete line, then the
      error that ends it. */
  datatype Lexed = Lexed(toks: seq<Token>, end: Error)

  function Lex(rest: string, ending: Ending): (l: Lexed)
    ensures l.end == EndError(ending)
    decreases |rest|
  {
    var s := Scan(rest, ending);
    if s.err.Some? then Lexed([], s.err.value)
    else
      var l := Lex(s.rest, ending);
      Lexed([s.tok] + l.toks, l.end)
  }

  /** One token per complete line. */
  lemma {:induction false} LexLines(rest: string, ending: Ending)
    ensures |Lex(rest, ending).toks| == Newlines(rest)
    decreases |rest|
  {
    var s := Scan(rest, ending);
    ReadLineSplits(rest, ending);
    if s.err.Some? {
      NewlinesNone(rest);
    } else {
      var r := ReadLine(rest, ending);
      NewlinesLine(r.line, r.rest);
      LexLines(s.rest, ending);
    }
  }

  /** The tokens of an input do not depend on how its stream ends. */
  lemma {:induction false} LexEndings(rest: string, e1: Ending, e2: Ending)
    ensures Lex(rest, e1).toks == Lex(rest, e2).toks
    decreases |rest|
  {
    var s1, s2 := Scan(rest, e1), Scan(rest, e2);
    ScanStops(rest, e1);
    ScanStops(rest, e2);
    if s1.err.None? {
      assert s1.tok == s2.tok && s1.rest == s2.rest;
      LexEndings(s1.rest, e1, e2);
    }
  }

  /** Lex reads one token per call of `advance`. */
  lemma {:induction false} LexStep(rest: string, ending: Ending)
    ensures var s := Scan(rest, ending);
      s.err.None? ==> Lex(rest, ending).toks == [s.tok] + Lex(s.rest, ending).toks
    ensures Scan(rest, ending).err.Some? ==> Lex(rest, ending).toks == []
    ensures var s := Scan(rest, ending); var ts := Lex(rest, ending).toks;
      s.err.None? ==> |ts| > 0 && ts[0] == s.tok && ts[1..] == Lex(s.rest, ending).toks
  {
    var s := Scan(rest, ending);
    if s.err.None? {
      assert ([s.tok] + Lex(s.rest, ending).toks)[1..] == Lex(s.rest, ending).toks;
    }
  }

}
