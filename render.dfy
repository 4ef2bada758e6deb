/**
 * One shape of report text the decoder reads
 * (`key: 'value'` attribute lines, `  - key: 'value'` list items and
 * `    key: 'value'` continuation lines, blocks introduced by `---`), and
 * the proof that each rendered line reads back as the token it renders.
 */
module Render {
  import opened Wrappers
  import opened Text
  import opened Tokens
  import opened Assembler

  /** Indentation of a continuation line of a list item. */
  const Continue := "    "

  /** A value as this rendering quotes it. */
  function Quoted(v: string): string {
    ['\''] + v + ['\'']
  }

  /** What follows the colon on a rendered line. */
  function ValuePart(v: string): string {
    [' '] + Quoted(v) + ['\n']
  }

  /** An entry that renders to one line and reads back unchanged. */
  predicate Renderable(e: Entry) {
    ':' !in e.key && '\n' !in e.key && Bare(e.key) && '\n' !in e.val
  }

  function AttrLine(e: Entry): string {
    e.key + [':'] + ValuePart(e.val)
  }

  function ItemLine(e: Entry): string {
    ItemPrefix + (e.key + [':'] + ValuePart(e.val))
  }

  function ContinueLine(e: Entry): string {
    (Continue + e.key) + [':'] + ValuePart(e.val)
  }

  /** A single line: ends in its only '\n'. */
  predicate IsLine(line: string) {
    |line| > 0 && line[|line| - 1] == '\n' && '\n' !in line[..|line| - 1]
  }

  // ---------------------------------------------------------------------
  // One line at a time
  // ---------------------------------------------------------------------

  lemma {:induction false} UnquoteQuoted(v: string)
    ensures Unquote(Quoted(v)) == v
  {
    var q := Quoted(v);
    assert HasPrefix(q, "'");
    assert q[1..] == v + "'";
    assert HasSuffix(q[1..], "'");
    var r := Unquote(q);
    assert q == "'" + r + "'";
    assert |r| == |v|;
    assert r == q[1..|q| - 1] == v;
  }

  /** The value part of a rendered line reads back as the value. */
  lemma {:induction false} ValueBack(v: string)
    ensures Unquote(TrimSpace(ValuePart(v))) == v
  {
    TrimSpaceOf([' '], Quoted(v), ['\n']);
    UnquoteQuoted(v);
  }

  lemma {:induction false} ValuePartIsLine(head: string, v: string)
    requires '\n' !in head && '\n' !in v
    ensures IsLine(head + [':'] + ValuePart(v))
  {
    var line := head + [':'] + ValuePart(v);
    assert line[..|line| - 1] == head + [':'] + [' '] + Quoted(v);
  }

  lemma {:induction false} KeyBack(pad: string, k: string)
    requires AllSpace(pad) && Bare(k)
    ensures TrimSpace(pad + k) == k
  {
    TrimSpaceOf(pad, k, []);
    assert pad + k + [] == pad + k;
  }

  lemma {:induction false} ClassifyAttrLine(e: Entry)
    requires Renderable(e)
    ensures Classify(AttrLine(e)) == Token(KeyVal, e.key, e.val)
    ensures IsLine(AttrLine(e))
  {
    var line := AttrLine(e);
    assert line[|e.key|] == ':';
    assert line != Divider by {
      assert ':' !in Divider;
    }
    assert !HasPrefix(line, ItemPrefix) by {
      if |e.key| > 0 {
        assert line[0] == e.key[0];
      }
    }
    ClassifySplit(line, e.key, ValuePart(e.val));
    KeyBack([], e.key);
    ValueBack(e.val);
    ValuePartIsLine(e.key, e.val);
  }

  /** A line indented by four spaces is neither a divider nor an item. */
  lemma {:induction false} ContinueShape(e: Entry)
    ensures !HasPrefix(ContinueLine(e), ItemPrefix)
    ensures ContinueLine(e) != Divider
  {
    var line := ContinueLine(e);
    assert line[0] == ' ';
    assert line[2] == ' ';
    assert ItemPrefix[2] == '-';
  }

  lemma {:induction false} ClassifyItemLine(e: Entry)
    requires Renderable(e)
    ensures Classify(ItemLine(e)) == Token(Item, e.key, e.val)
    ensures IsLine(ItemLine(e))
  {
    var b := e.key + [':'] + ValuePart(e.val);
    ItemShape(b);
    ClassifySplit(ItemPrefix + b, e.key, ValuePart(e.val));
    KeyBack([], e.key);
    ValueBack(e.val);
    ItemIsLine(e);
  }

  lemma {:induction false} ItemIsLine(e: Entry)
    requires Renderable(e)
    ensures IsLine(ItemLine(e))
  {
    assert ItemLine(e) == (ItemPrefix + e.key) + [':'] + ValuePart(e.val);
    ValuePartIsLine(ItemPrefix + e.key, e.val);
  }

  lemma {:induction false} ContinueKey(e: Entry)
    requires Renderable(e)
    ensures Classify(ContinueLine(e)) == Token(KeyVal, e.key, e.val)
  {
    ContinueShape(e);
    KeyBack(Continue, e.key);
    assert ':' !in Continue + e.key;
    ClassifySplit(ContinueLine(e), Continue + e.key, ValuePart(e.val));
    ValueBack(e.val);
  }

  lemma {:induction false} ContinueIsLine(e: Entry)
    requires Renderable(e)
    ensures IsLine(ContinueLine(e))
  {
    assert '\n' !in Continue + e.key;
    ValuePartIsLine(Continue + e.key, e.val);
  }

  lemma {:induction false} ClassifyContinueLine(e: Entry)
    requires Renderable(e)
    ensures Classify(ContinueLine(e)) == Token(KeyVal, e.key, e.val)
    ensures IsLine(ContinueLine(e))
  {
    ContinueKey(e);
    ContinueIsLine(e);
  }

  // ---------------------------------------------------------------------
  // Blocks and documents
  // ---------------------------------------------------------------------

  /** One record in this rendering: attribute lines, then a list
      section of an item line and its continuation lines. */
  datatype Block = Block(attrs: seq<Entry>, item: Entry, more: seq<Entry>)

  predicate AllRenderable(es: seq<Entry>) {
    forall i :: 0 <= i < |es| ==> Renderable(es[i])
  }

  predicate WellFormed(b: Block) {
    AllRenderable(b.attrs) && Renderable(b.item) && AllRenderable(b.more)
  }

  predicate AllWellFormed(bs: seq<Block>) {
    forall i :: 0 <= i < |bs| ==> WellFormed(bs[i])
  }

  function AttrLines(es: seq<Entry>): seq<string> {
    if es == [] then [] else [AttrLine(es[0])] + AttrLines(es[1..])
  }

  function ContinueLines(es: seq<Entry>): seq<string> {
    if es == [] then [] else [ContinueLine(es[0])] + ContinueLines(es[1..])
  }

  function BlockLines(b: Block): seq<string> {
    AttrLines(b.attrs) + [ItemLine(b.item)] + ContinueLines(b.more)
  }

  /** Every block introduced by a divider line. */
  function DocumentLines(bs: seq<Block>): seq<string> {
    if bs == [] then [] else [Divider] + BlockLines(bs[0]) + DocumentLines(bs[1..])
  }

  function Flatten(lines: seq<string>): string {
    if lines == [] then [] else lines[0] + Flatten(lines[1..])
  }

  /** The text of a report made of the given blocks, header first. */
  function Document(bs: seq<Block>): string {
    Flatten(DocumentLines(bs))
  }

  // ---------------------------------------------------------------------
  // Reading rendered text back as tokens
  // ---------------------------------------------------------------------

  predicate AllLines(lines: seq<string>) {
    forall i :: 0 <= i < |lines| ==> IsLine(lines[i])
  }

  function Classified(lines: seq<string>): seq<Token> {
    if lines == [] then [] else [Classify(lines[0])] + Classified(lines[1..])
  }

  lemma {:induction false} ClassifiedAppend(a: seq<string>, b: seq<string>)
    ensures Classified(a + b) == Classified(a) + Classified(b)
    decreases |a|
  {
    if a == [] {
      assert a + b == b;
    } else {
      assert (a + b)[1..] == a[1..] + b;
      ClassifiedAppend(a[1..], b);
    }
  }

  lemma {:induction false} LexLine(line: string, tail: string, ending: Ending)
    requires IsLine(line)
    ensures Lex(line + tail, ending).toks == [Classify(line)] + Lex(tail, ending).toks
  {
    ScanLine(line, tail, ending);
    LexStep(line + tail, ending);
    var s := Scan(line + tail, ending);
    assert s.tok == Classify(line) && s.err.None? && s.rest == tail;
  }

  lemma {:induction false} FlattenCons(lines: seq<string>, tail: string)
    requires lines != []
    ensures Flatten(lines) + tail == lines[0] + (Flatten(lines[1..]) + tail)
  {
  }

  lemma {:induction false} LexLineAt(x: string, line: string, tail: string, ending: Ending)
    requires IsLine(line) && x == line + tail
    ensures Lex(x, ending).toks == [Classify(line)] + Lex(tail, ending).toks
  {
    LexLine(line, tail, ending);
  }

  /** The first line of a flattened text is its first token. */
  lemma {:induction false} LexFirstLine(lines: seq<string>, tail: string, ending: Ending)
    requires AllLines(lines) && lines != []
    ensures Lex(Flatten(lines) + tail, ending).toks == [Classify(lines[0])] + Lex(Flatten(lines[1..]) + tail, ending).toks
  {
    FlattenCons(lines, tail);
    LexLineAt(Flatten(lines) + tail, lines[0], Flatten(lines[1..]) + tail, ending);
  }

  lemma {:induction false} ClassifiedCons(lines: seq<string>, a: seq<Token>, b: seq<Token>, c: seq<Token>)
    requires lines != []
    requires a == [Classify(lines[0])] + b
    requires b == Classified(lines[1..]) + c
    ensures a == Classified(lines) + c
  {
  }

  /** A text made of whole lines reads as one token per line. */
  lemma {:induction false} LexFlatten(lines: seq<string>, tail: string, ending: Ending)
    requires AllLines(lines)
    ensures Lex(Flatten(lines) + tail, ending).toks == Classified(lines) + Lex(tail, ending).toks
    decreases |lines|
  {
    if lines == [] {
      assert Flatten(lines) + tail == tail;
    } else {
      assert AllLines(lines[1..]) by {
        assert forall i :: 0 <= i < |lines| - 1 ==> lines[1..][i] == lines[i + 1];
      }
      LexFlatten(lines[1..], tail, ending);
      LexFirstLine(lines, tail, ending);
      ClassifiedCons(lines, Lex(Flatten(lines) + tail, ending).toks,
        Lex(Flatten(lines[1..]) + tail, ending).toks, Lex(tail, ending).toks);
    }
  }

  function KeyValTokens(es: seq<Entry>): (ts: seq<Token>)
    ensures |ts| == |es|
  {
    if es == [] then [] else [Token(KeyVal, es[0].key, es[0].val)] + KeyValTokens(es[1..])
  }

  /** The tokens a block reads as. */
  function BlockTokens(b: Block): seq<Token> {
    KeyValTokens(b.attrs) + [Token(Item, b.item.key, b.item.val)] + KeyValTokens(b.more)
  }

  function DocumentTokens(bs: seq<Block>): seq<Token> {
    if bs == [] then [] else [Token(Divide, "", "")] + BlockTokens(bs[0]) + DocumentTokens(bs[1..])
  }

  lemma {:induction false} AttrLinesBack(es: seq<Entry>)
    requires AllRenderable(es)
    ensures Classified(AttrLines(es)) == KeyValTokens(es)
    ensures AllLines(AttrLines(es))
    decreases |es|
  {
    if es != [] {
      ClassifyAttrLine(es[0]);
      assert AllRenderable(es[1..]) by {
        assert forall i :: 0 <= i < |es| - 1 ==> es[1..][i] == es[i + 1];
      }
      AttrLinesBack(es[1..]);
      LinesCons(AttrLine(es[0]), AttrLines(es[1..]));
    }
  }

  lemma {:induction false} ContinueLinesBack(es: seq<Entry>)
    requires AllRenderable(es)
    ensures Classified(ContinueLines(es)) == KeyValTokens(es)
    ensures AllLines(ContinueLines(es))
    decreases |es|
  {
    if es != [] {
      ClassifyContinueLine(es[0]);
      assert AllRenderable(es[1..]) by {
        assert forall i :: 0 <= i < |es| - 1 ==> es[1..][i] == es[i + 1];
      }
      ContinueLinesBack(es[1..]);
      LinesCons(ContinueLine(es[0]), ContinueLines(es[1..]));
    }
  }

  lemma {:induction false} LinesCons(line: string, lines: seq<string>)
    requires IsLine(line) && AllLines(lines)
    ensures AllLines([line] + lines)
  {
    assert forall i :: 0 < i < |lines| + 1 ==> ([line] + lines)[i] == lines[i - 1];
  }

  lemma {:induction false} LinesAppend(a: seq<string>, b: seq<string>)
    requires AllLines(a) && AllLines(b)
    ensures AllLines(a + b)
  {
    assert forall i :: |a| <= i < |a + b| ==> (a + b)[i] == b[i - |a|];
  }

  lemma {:induction false} ClassifiedAround(a: seq<string>, line: string, c: seq<string>)
    ensures Classified(a + [line] + c) == Classified(a) + [Classify(line)] + Classified(c)
  {
    ClassifiedAppend(a + [line], c);
    ClassifiedAppend(a, [line]);
    assert Classified([line]) == [Classify(line)];
  }

  lemma {:induction false} LinesAround(a: seq<string>, line: string, c: seq<string>)
    requires AllLines(a) && IsLine(line) && AllLines(c)
    ensures AllLines(a + [line] + c)
  {
    LinesCons(line, []);
    assert [line] + [] == [line];
    LinesAppend(a, [line]);
    LinesAppend(a + [line], c);
  }

  lemma {:induction false} BlockBack(b: Block)
    requires WellFormed(b)
    ensures Classified(BlockLines(b)) == BlockTokens(b)
    ensures AllLines(BlockLines(b))
  {
    AttrLinesBack(b.attrs);
    ContinueLinesBack(b.more);
    ClassifyItemLine(b.item);
    ClassifiedAround(AttrLines(b.attrs), ItemLine(b.item), ContinueLines(b.more));
    LinesAround(AttrLines(b.attrs), ItemLine(b.item), ContinueLines(b.more));
  }

  lemma {:induction false} DividerIsLine()
    ensures IsLine(Divider)
    ensures Classify(Divider) == Token(Divide, "", "")
  {
    assert Divider[..3] == "---";
  }

  lemma {:induction false} DocumentLinesBack(bs: seq<Block>)
    requires AllWellFormed(bs)
    ensures Classified(DocumentLines(bs)) == DocumentTokens(bs)
    ensures AllLines(DocumentLines(bs))
    decreases |bs|
  {
    if bs != [] {
      var bl := BlockLines(bs[0]);
      var rest := DocumentLines(bs[1..]);
      assert AllWellFormed(bs[1..]) by {
        assert forall i :: 0 <= i < |bs| - 1 ==> bs[1..][i] == bs[i + 1];
      }
      DocumentLinesBack(bs[1..]);
      BlockBack(bs[0]);
      DividerIsLine();
      ClassifiedAppend([Divider] + bl, rest);
      ClassifiedAppend([Divider], bl);
      LinesCons(Divider, bl);
      LinesAppend([Divider] + bl, rest);
    }
  }

  /** A rendered document reads as its blocks' tokens, each block preceded
      by a divider. */
  lemma {:induction false} DocumentBack(bs: seq<Block>, ending: Ending)
    requires AllWellFormed(bs)
    ensures Lex(Document(bs), ending).toks == DocumentTokens(bs)
  {
    DocumentLinesBack(bs);
    LexFlatten(DocumentLines(bs), [], ending);
    assert Document(bs) + [] == Document(bs);
    assert Lex([], ending).toks == [];
  }
}
