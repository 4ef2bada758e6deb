# siegfried YAML report reader, modelled in Dafny

This project models `cmd/internal/reader/yaml.go` from siegfried, the decoder that reads siegfried's YAML reports back in. The format is a small, line-oriented subset of YAML, and the decoder streams it in three layers.

- **Tokenizer (`advance`).** It reads one `'\n'`-terminated line and classifies it.
  - `---\n` is a divider.
  - A line starting with `"  - "` is a list item; that prefix is stripped.
  - Any other line is a key/value line.
  - The body is split at its first `:`. The key is the trimmed text before the colon. The value is the trimmed text after it, with one leading `'` and one trailing `'` removed, each independently.
- **Record assembler (`consumeRecord`, `consumeList`).**
  - First it collects a run of key/value tokens into a map, where the last write wins.
  - The run must end in a list item.
  - From that item up to the next divider or end of input, every token is appended to two aligned lists.
- **One-record-lookahead reader (`sfYAML`).**
  - `makeHead` requires an opening divider, assembles the header record and sets `results` to the report's path.
  - It pairs the header's list values into identifiers.
  - It pre-assembles the first data record.
  - `Next` hands out the stored record and reads the next one. Once an error is stored, `Next` returns that same error every time and reads nothing.

Modules:

- `Text` models the `bytes` helpers the tokenizer uses: `TrimSpace`, `TrimPrefix`, `TrimSuffix`, and a first-colon split.
- `Tokens`:
  - tokens and their classification (`Classify`);
  - reading one line (`ReadLine`) and one token (`Scan`);
  - the whole token stream of an input (`Lex`).
- `BufReader` is the buffered reader: a class with a cursor over the input, and its `ReadBytes` method.
- `Assembler`:
  - the `advance`, `consumeList` and `consumeRecord` methods, each proved equal to a pure function on the remaining input (`Scan`, `CollectList`, `Assemble`);
  - those functions are stated with their contracts.
- `RecordLaws`:
  - a token-level reference definition of a record (`RecordFrom`), also in positional form (`RecordFromRuns`);
  - the proofs that the assembler agrees with it (`AssembleLex`);
  - the last-write-wins laws of the attribute map.
- `Decoder`:
  - the header (`Initialize`) and lookahead (`Pull`) semantics;
  - the `YamlReader` class with `MakeHead`, `Next` and `Head`;
  - identifier pairing, given as a specification (`Pairs`) and as a method with a loop (`BuildIdentifiers`).
- `Stream` states the lookahead sequence of `Next` results at token level, including stickiness.
- `Render` renders entries, records and documents as text and proves that the tokenizer reads them back.
- `Documents` proves the main results.
  - A rendered report is decoded into its header, then its records in order, then `Eof` for every later call.
  - With a read failure after the last line, the report is decoded the same way, except that the unterminated last record is lost and every later call returns the failure.

`Head` only returns the `head` field. What that field holds is stated by the contracts of `MakeHead` and `Next`.

## Model

| member | source | states |
|---|---|---|
| BufReader.LineReader.ReadBytes | cmd/internal/reader/yaml.go:51 | reading up to a newline advances the cursor exactly as `ReadLine` prescribes: the line and the remaining input, or the end-of-input error with everything consumed |
| Tokens.ReadLine | cmd/internal/reader/yaml.go:51 | `ReadBytes('\n')`: on success the input strictly shrinks; otherwise all of it is returned with the ending's error and nothing is left. `ReadLineSplits` gives the split |
| Tokens.Classify | cmd/internal/reader/yaml.go:55-70 | the classification of one line. It has no contract of its own; `ClassifyOf` and `ClassifySplit` specify it completely |
| Tokens.Body | cmd/internal/reader/yaml.go:59-64 | the item prefix stripped when present; specified by `BodyOf` |
| Tokens.Unquote | cmd/internal/reader/yaml.go:68 | one leading and one trailing `'` dropped independently; specified by `UnquoteOf` |
| Tokens.KeyValue | cmd/internal/reader/yaml.go:65-69 | key and value of a line body; specified by `KeyValueOf` and `ClassifySplit` |
| Tokens.Lex | cmd/internal/reader/yaml.go:50-57 | the whole token list of an input, one `advance` per token; its end is the ending's error. `LexStep`, `LexLines` and `LexEndings` specify it |
| Text.TrimSpace | cmd/internal/reader/yaml.go:66-68 | `bytes.TrimSpace` over ASCII white space; specified by `TrimSpaceCuts`, `TrimSpaceBare` and `TrimSpaceOf` |
| Text.TrimPrefix | cmd/internal/reader/yaml.go:61-68 | `bytes.TrimPrefix`; specified by `TrimPrefixOf` |
| Text.TrimSuffix | cmd/internal/reader/yaml.go:68 | `bytes.TrimSuffix`; specified by `TrimSuffixOf` |
| Text.IndexOf | cmd/internal/reader/yaml.go:65 | a found index lies within the input; `IndexOfFirst` states that it is the first occurrence and is absent iff the character is |
| Text.SplitFirst | cmd/internal/reader/yaml.go:65-67 | `bytes.SplitN(s, ":", 2)` as a pair with an optional second part; specified by `SplitFirstParts` and `SplitFirstAt` |
| Tokens.ReadLineSplits | cmd/internal/reader/yaml.go:51-54 | a line is read iff a `'\n'` remains; the line ends at the first `'\n'` and line + rest is the input; otherwise the error is returned |
| Tokens.ScanStops | cmd/internal/reader/yaml.go:51-54 | `advance` succeeds iff a `'\n'` remains, so an unterminated trailing fragment is never tokenized |
| Tokens.Scan | cmd/internal/reader/yaml.go:50-57 | on success, input strictly shrinks; on error, the zero token is returned (kind divide) and all input is consumed |
| Tokens.ScanLine | cmd/internal/reader/yaml.go:51-70 | `advance` on a terminated line followed by more input yields that line's classification and leaves exactly the rest |
| Assembler.Advance | cmd/internal/reader/yaml.go:50-71 | the method's token, error and new cursor equal `Scan` of the old remaining input |
| Tokens.ClassifyOf | cmd/internal/reader/yaml.go:55-70 | divider iff the line is `---\n`; a divider has empty key and value; item iff the line starts with the item prefix; the key never holds `:` and has no surrounding space; with no colon the key is the trimmed body and the value is empty |
| Tokens.ClassifySplit | cmd/internal/reader/yaml.go:58-69 | when the body splits at its first colon into x and y, the token is (item or keyval by prefix, trimmed x, y trimmed and then unquoted) |
| Tokens.BodyOf | cmd/internal/reader/yaml.go:59-64 | an item line is its prefix followed by its body; any other line is its own body |
| Tokens.KeyValueOf | cmd/internal/reader/yaml.go:65-69 | the key holds no colon and no surrounding space; with no colon the value is empty |
| Tokens.UnquoteOf | cmd/internal/reader/yaml.go:68 | one leading quote and one trailing quote are removed independently; in all four cases the input is the result with the removed quotes put back |
| Tokens.ClassifyItemExample | cmd/internal/reader/yaml.go:58-70 | `"  - name: pronom\n"` classifies as (item, `name`, `pronom`) |
| Tokens.ClassifyQuoteExample | cmd/internal/reader/yaml.go:65-69 | `"k: 'v\n"` classifies as (keyval, `k`, `v`), so a quote opened without being closed is still stripped |
| Tokens.DividerIsNotItem | cmd/internal/reader/yaml.go:55-60 | the divider line does not carry the item prefix |
| Tokens.LexLines | cmd/internal/reader/yaml.go:50-57 | the input yields exactly one token per newline |
| Tokens.LexStep | cmd/internal/reader/yaml.go:50-57 | the token stream is the first token followed by the stream of the rest; it is empty once `advance` fails |
| Text.TrimSpaceCuts | cmd/internal/reader/yaml.go:66-68 | `TrimSpace` keeps a contiguous slice and drops only white space from both ends |
| Text.TrimSpaceBare | cmd/internal/reader/yaml.go:66-68 | the result of `TrimSpace` has no surrounding white space and is no longer than its input |
| Text.TrimSpaceOf | cmd/internal/reader/yaml.go:66-68 | trimming space-padding around a bare text gives back that text |
| Text.TrimLeftCut | cmd/internal/reader/yaml.go:66-68 | the left trim is a suffix of the input; everything cut is white space; the result does not start with white space |
| Text.TrimRightCut | cmd/internal/reader/yaml.go:66-68 | the right trim is a prefix of the input; everything cut is white space; the result does not end with white space |
| Text.TrimPrefixOf | cmd/internal/reader/yaml.go:59-68 | with the prefix present, prefix + result is the input; without it, the input is unchanged |
| Text.TrimSuffixOf | cmd/internal/reader/yaml.go:68 | with the suffix present, result + suffix is the input; without it, the input is unchanged |
| Text.IndexOfFirst | cmd/internal/reader/yaml.go:65 | the search finds nothing iff the character is absent; otherwise it finds its first occurrence |
| Text.SplitFirstParts | cmd/internal/reader/yaml.go:65-67 | the split has a second part iff the separator occurs; the parts then rebuild the input around the first separator |
| Text.SplitFirstAt | cmd/internal/reader/yaml.go:65 | a text x + `:` + y with no colon in x splits into (x, y) |
| Assembler.CollectList | cmd/internal/reader/yaml.go:73-80 | fields and values have equal length, at least one; entry 0 is the seeding token; the error is either none or the end-of-input error with everything consumed; the rest of the entries are given by `ListTail` |
| Assembler.ListTail | cmd/internal/reader/yaml.go:76-79 | the loop keeps fields and values aligned; a read error is the ending's error with all input consumed; it never reads back. `ListTailCollects` and `ListTailLex` give its contents, `ListTailEnds` its error |
| RecordLaws.ListTailCollects | cmd/internal/reader/yaml.go:73-80 | for every ending, including a read failure, the loop's fields and values are the keys and values of exactly the tokens before the first divider, in input order |
| Tokens.LexEndings | cmd/internal/reader/yaml.go:50-54 | the tokens of an input are the same however its stream ends; only the final error differs |
| Assembler.Insert | cmd/internal/reader/yaml.go:88-90 | writing entries into the map only adds keys; `InsertLast`, `InsertKeys` and `InsertMissing` pin its contents |
| Assembler.ConsumeList | cmd/internal/reader/yaml.go:73-80 | the loop's fields, values, error and new cursor equal `CollectList` of the seed and old input |
| Assembler.JoinJoin | cmd/internal/reader/yaml.go:74-77 | appending entries in two steps equals appending them at once |
| Assembler.ListStep | cmd/internal/reader/yaml.go:76-77 | one loop iteration moves a non-divider token into the lists and continues from the next token |
| RecordLaws.ListTailLex | cmd/internal/reader/yaml.go:76-101 | the list loop appends, in input order, exactly the tokens before the first divider, and resumes after that divider; at end of input it succeeds on `Eof` and yields the empty record on a read failure |
| RecordLaws.ListTailEnds | cmd/internal/reader/yaml.go:76-79 | the list loop returns no error iff a divider ended it |
| RecordLaws.ListFromRun | cmd/internal/reader/yaml.go:76-102 | positional form: the list section is the tokens before the first divider; the continuation of the stream starts after the divider |
| RecordLaws.AttrsFromRun | cmd/internal/reader/yaml.go:89-98 | positional form of the attribute phase: the leading keyval run goes into the map, and the next token decides between end of input, unexpected token and the list section |
| RecordLaws.RecordFromRuns | cmd/internal/reader/yaml.go:82-103 | a record is: the map of the leading keyval run, one list item, then every token up to the first divider; a divider after the run is an unexpected token; end of input in the run is an error; end of input in the list is success on `Eof` and an error on a failure |
| RecordLaws.AssembleLex | cmd/internal/reader/yaml.go:82-103 | `consumeRecord` on the remaining input produces exactly the token-level record `RecordFrom` of its token stream, together with the rest of the stream |
| RecordLaws.AttrRunLex | cmd/internal/reader/yaml.go:89-97 | the attribute loop agrees with the token-level attribute phase |
| RecordLaws.InsertLast | cmd/internal/reader/yaml.go:89-90 | a key maps to the value of its last occurrence in the run (last write wins) |
| RecordLaws.InsertKeys | cmd/internal/reader/yaml.go:88-90 | the map's keys are exactly the initial keys plus the keys of the run |
| RecordLaws.InsertMissing | cmd/internal/reader/yaml.go:89-90 | a key absent from the run keeps its initial presence and value |
| RecordLaws.InsertCons | cmd/internal/reader/yaml.go:89-90 | writing the first entry and then the rest equals writing all entries |
| RecordLaws.LeadingRun | cmd/internal/reader/yaml.go:89 | the run counted has only keyval tokens and is maximal |
| RecordLaws.UntilDivideRun | cmd/internal/reader/yaml.go:76 | the list section counted has no divider and stops at one |
| Assembler.Assemble | cmd/internal/reader/yaml.go:82-103 | an error comes with the zero record; on success the list fields and values are aligned and non-empty; the only errors are unexpected divider and the end-of-input error, and the latter consumes all input |
| Assembler.ConsumeRecord | cmd/internal/reader/yaml.go:82-103 | the method's record, error and new cursor equal `Assemble` of the old input |
| Assembler.AttrRun | cmd/internal/reader/yaml.go:89-91 | the loop stops on a token that is not keyval, or on the end-of-input error with the zero token; the map only gains keys |
| Decoder.Pairs | cmd/internal/reader/yaml.go:128-135 | there are ceil(n/2) identifiers for n list values |
| Decoder.PairsAt | cmd/internal/reader/yaml.go:129-134 | identifier k is (values[2k], values[2k+1]), or (values[2k], "") when the count is odd and k is the last |
| Decoder.BuildIdentifiers | cmd/internal/reader/yaml.go:128-135 | the loop that appends on even and overwrites the last pair on odd gives ceil(n/2) pairs, elementwise as above, equal to `Pairs` |
| Decoder.Initialize | cmd/internal/reader/yaml.go:117-136 | a rejection is `InvalidYaml`; a started reader has `results` set to the path, aligned non-empty header lists, identifiers paired from the list values, and has consumed no more than its input |
| Stream.InitializeLex | cmd/internal/reader/yaml.go:117-136 | on the token stream: no token, or a first token that is not a divider, is rejected; a header that fails to assemble is rejected with its error; otherwise the header is the record with `results` overridden by the path, and the lookahead is the next record |
| Decoder.YamlReader.MakeHead | cmd/internal/reader/yaml.go:117-140 | on rejection, the result is null with the error; otherwise a fresh reader holding the lookahead, with head = `newHeadMap`'s value plus identifiers, hash header and fields from the first data record, and the returned error is `newHeadMap`'s, not the lookahead's |
| Decoder.Pull | cmd/internal/reader/yaml.go:142-148 | a stored error halts with that error and changes nothing; otherwise the stored record is yielded and the cursor does not move back |
| Decoder.Pulls | cmd/internal/reader/yaml.go:142-149 | n successive calls of `Next` give n outcomes; `PullsLex`, `Sticky` and `AwaitsPulls` give them |
| Decoder.YamlReader.Next | cmd/internal/reader/yaml.go:142-149 | the new lookahead is `Pull`'s; with a stored error, it returns an empty file and that error without reading; otherwise it returns `getFile` of the stored record and refills it |
| Decoder.NewYaml | cmd/internal/reader/yaml.go:105-111 | returns what `makeHead` returns on a fresh reader over the input: on rejection null and the `InvalidYaml` error; otherwise a fresh reader holding the lookahead, the header built from `newHeadMap`'s value with identifiers, hash header and fields, and `newHeadMap`'s error |
| Stream.Sticky | cmd/internal/reader/yaml.go:144-146 | once an error is stored, every later call returns that error |
| Stream.Halts | cmd/internal/reader/yaml.go:144-146 | n halts with the same error |
| Stream.PullAhead | cmd/internal/reader/yaml.go:142-148 | one `Next` at token level: it yields the pending record or halts with the pending error; afterwards the pending record is the next record of the stream, or unchanged after an error |
| Stream.PullsLex | cmd/internal/reader/yaml.go:142-149 | n successive `Next` results equal the token-level outcome sequence of the stream |
| Stream.OutcomesSticky | cmd/internal/reader/yaml.go:144-146 | a pending error repeats for every later call, at token level |
| Documents.ReadDocument | cmd/internal/reader/yaml.go:117-149 | a rendered report with a header and records ds, read to a clean end: the header is decoded with `results` set to the path, the identifiers pair its list values, and \|ds\|+k calls of `Next` yield the records in order followed by k times `Eof` |
| Documents.ReadFailingDocument | cmd/internal/reader/yaml.go:98-149 | the same report cut by a read failure: the records before the last are yielded, then the failure repeats, so the last record is lost |
| Documents.ReadFailingHeader | cmd/internal/reader/yaml.go:99-125 | a report that holds only a header and ends in a read failure is rejected with that failure |
| Documents.HeaderOf | cmd/internal/reader/yaml.go:117-136 | a rendered report's header decodes to its header block with `results` set to the path, and the lookahead is the first record |
| Documents.AwaitsPulls | cmd/internal/reader/yaml.go:142-149 | a lookahead that awaits the blocks ds yields their records in order, then halts forever |
| Documents.RecordFromBlock | cmd/internal/reader/yaml.go:82-103 | a rendered block followed by a divider or end of input assembles into exactly that block's record |
| Documents.AttrsKeyVals | cmd/internal/reader/yaml.go:89-90 | reading a run of keyval tokens writes exactly those entries into the map |
| Documents.ListKeyVals | cmd/internal/reader/yaml.go:76-77 | keyval tokens in the list section are appended to the lists like items |
| Render.UnquoteQuoted | cmd/internal/reader/yaml.go:68 | removing the quotes from a quoted value gives back the value |
| Render.ValueBack | cmd/internal/reader/yaml.go:66-68 | a rendered value part, trimmed and unquoted, is the value |
| Render.ClassifyAttrLine | cmd/internal/reader/yaml.go:58-70 | a rendered attribute line classifies back to its key and value |
| Render.ClassifyItemLine | cmd/internal/reader/yaml.go:58-70 | a rendered item line classifies back to an item with its key and value |
| Render.ClassifyContinueLine | cmd/internal/reader/yaml.go:58-70 | an indented list continuation line classifies back to a keyval with its key and value |
| Render.DividerIsLine | cmd/internal/reader/yaml.go:55-56 | the divider is one line and classifies as the empty divider token |
| Render.LexFlatten | cmd/internal/reader/yaml.go:50-71 | the token stream of lines followed by more input is the lines' classifications, then the stream of the rest |
| Render.BlockBack | cmd/internal/reader/yaml.go:58-70 | a rendered block's lines classify to the block's tokens |
| Render.DocumentBack | cmd/internal/reader/yaml.go:50-71 | tokenizing a rendered report gives back its divider-separated block tokens |

## Left out

- The `bufio.Reader` and `io.ReadCloser` plumbing are not modelled, nor is `Close` (yaml.go:105-111, 151-153). The input is held in memory by `BufReader.LineReader`, and `NewYaml` builds a reader over it.
- Read errors other than end of input are modelled as one sticky failure after the last byte (`Ending.Failure`). A failure in the middle of the input is not modelled.
- `newHeadMap`, `getHash`, `getFields` and `getFile` are not part of this model. They are function-valued fields of `Decoder.Collaborators` over type parameters, so nothing is assumed about what they compute.
- Decoder.NewYaml: `null` stands for the nil `*sfYAML` that `newYAML` returns on rejection. Go converts it to a `Reader` interface value that is itself not nil; the model does not distinguish the two.
- The rendered reports in `Render` and `Documents` are one shape of report text. Every value is quoted, keys are not padded, and list continuation lines are indented by four spaces. Other texts the decoder accepts, such as unquoted values, are covered by the line-level lemmas but not by the whole-report theorems.
- The Go empty `File{}` that `Next` returns with a stored error is modelled as `None`.
- Error message texts are not modelled, including the integer formatted with `%s` at yaml.go:94. Only the kind of error is kept: end of input, read failure, unexpected token of a kind, and invalid YAML with the cause.
- Text.TrimSpace: trims only ASCII white space (space, tab, newline, vertical tab, form feed, carriage return), not the Unicode white space of `bytes.TrimSpace`.
- Bytes are modelled as `char`. Go's conversion from bytes to string keeps the bytes, so keys and values are the same sequences.
- Decoder.YamlReader.MakeHead: computes the header and lookahead first and then allocates the reader. The Go code fills in the fields of an already allocated reader, which nobody else can observe during the call.
- Decoder.YamlReader.Head: has no contract of its own. It returns the `head` field, whose value is stated by `MakeHead` and `Next`.
- The capacity hint `len(rec.listValues)/2` at yaml.go:128 only affects allocation and is not modelled.

## Notes

- Quote removal: `Unquote` follows the code, which strips a leading `'` and a trailing `'` independently. So `'v` reads as `v` and `v'` reads as `v`. The quotes do not have to pair.
- The zero values the Go code returns on errors are modelled explicitly:
  - the token of kind divide from `advance`;
  - the empty record from `consumeRecord`.

  `MakeHead` takes the hash header and fields from that empty record when the first data record fails.
