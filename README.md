# tf-idf-indexer, modelled in Dafny

`tf-idf-indexer` builds a term-frequency index of a directory of XML documents. It has three parts:

- **Reading.** The character data of each document is concatenated, with a space after every text segment.
- **Lexing.** A small re-slicing lexer cuts the text into tokens:
  - one maximal numeric run;
  - or one letter-led maximal alphanumeric run;
  - or one other character.
- **Indexing.** Each token's count is stored in a per-document map, and the maps are gathered under their file paths.

`src/main.rs` repeats the lexer, `index_document`, `parse_xml` and the indexing loop of `src/lib.rs` verbatim (its `main` is `create_index` with fixed paths). One model covers both copies.

The project has three modules:

- `Wrappers` (`wrappers.dfy`): `Option` and `Result`.
- `Lexer` (`lexer.dfy`):
  - `Scan` specifies one call of `next_token` and `Tokens` the iterator's whole output.
  - The class `Lexer.Lexer` keeps the unconsumed content in a `seq<char>` field, as the Rust struct keeps its slice. Its methods `Slice`, `SliceWhile`, `NextToken` and `Next` update that field and are proved against `Scan` and `RunLength`.
  - Rust's Unicode predicates `is_whitespace`, `is_numeric` and `is_alphabetic` are the three fields of `CharClasses`. `is_alphanumeric` is their disjunction, as Rust defines it.
  - The character facts the proofs assume are preconditions of the lemmas that need them:
    - `CharClasses.Valid()`: no alphanumeric character is whitespace. Needed for reconstruction and for whitespace as a token boundary.
    - `c.IsWhitespace(' ')`: the padding space is whitespace. Needed for `LeadingSpace` and `SegmentsDoNotFuse`.
    - `ExampleChars(c)`: the classes of the characters in the two worked examples. Needed only by the example lemmas.
    - All of them hold for Rust's Unicode tables.
- `Indexer` (`indexer.dfy`):
  - `ParseXml` and `CountTerms` are the two loops of `parse_xml` and `index_document`.
  - `IndexDocument` is `index_document`.
  - `CreateIndex` is `create_index` and `main`.
  - The outcomes of the file system, the XML reader and the JSON writer are inputs: an `IoError` or the reader's events.

**The counts are one too high.** The code counts with `tf.entry(term).or_insert(1)` followed by `*freq += 1`, so a term that occurs k times is stored as k + 1. The model follows the code as written:

- `Tally` and `CountTerms` store k + 1.
- `TallyThreeCats` shows a term seen three times stored as 4.
- `TallySum` shows that the counts add up to the number of tokens plus the number of distinct terms.

## Model

| member | source | states |
|---|---|---|
| `Lexer.Lexer.constructor` | src/lexer.rs:9-11 | The new lexer holds exactly the given content. |
| `Lexer.Lexer.NextToken` | src/lexer.rs:25-49 | If only whitespace is left, it returns `None` and leaves the content empty. Otherwise it returns the token `Scan` describes and leaves exactly the text after that token. |
| `Lexer.Lexer.Slice` | src/lexer.rs:52-57 | Returns the first `n` characters and leaves the content after them. |
| `Lexer.Lexer.SliceWhile` | src/lexer.rs:60-68 | The loop stops at `RunLength`. It returns the longest prefix satisfying the predicate and leaves the remainder. |
| `Lexer.Lexer.Next` | src/lexer.rs:74-76 | The iterator step does exactly what `next_token` does. |
| `Lexer.TrimStart` | src/lexer.rs:28-30 | What the trim loop leaves, as a suffix of the content. Every character before it is whitespace, and its first character, if any, is not. |
| `Lexer.RunLength` | src/lexer.rs:63-66 | Every character before `n` satisfies the predicate. The character at `n`, if any, does not. So the prefix is the longest one. |
| `Lexer.TokenLength` | src/lexer.rs:37-48 | The rules in order: digit-led gives a maximal numeric run; else letter-led gives a maximal alphanumeric run; else one character. The length is always positive. |
| `Lexer.Scan` | src/lexer.rs:27-48 | Returns end of input exactly when every character is whitespace. A token is non-empty and does not start with whitespace. Token plus rest equals the trimmed content, and the rest is strictly shorter than the input. Each classification rule holds, including maximality against the next character. |
| `Lexer.Tokens` | src/lexer.rs:71-76 | The iterator never yields an empty token. |
| `Lexer.TokenHasNoWhitespace` | src/lexer.rs:37-48 | With Unicode's `Valid` fact, no token contains a whitespace character. |
| `Lexer.RemoveWhitespaceTrimStart` | src/lexer.rs:27-30 | Trimming the leading whitespace does not change the non-whitespace characters. |
| `Lexer.RemoveWhitespaceAppend` | src/lexer.rs:27-30 | Removing whitespace distributes over concatenation. |
| `Lexer.TokensReconstruct` | src/lexer.rs:25-49 | Concatenated, the tokens are exactly the content with its whitespace removed. Nothing is dropped, duplicated or reordered. |
| `Lexer.EofIsFinal` | src/lexer.rs:32-35 | Once the content is empty, the lexer yields end of input and no further tokens. |
| `Lexer.RunLengthAppend` | src/lexer.rs:64-66 | The longest-prefix length of a concatenation is read off its parts. |
| `Lexer.TrimStartAppend` | src/lexer.rs:28-30 | Trimming a concatenation trims the first part. If the first part is all whitespace, it trims the second. |
| `Lexer.TokenLengthAppend` | src/lexer.rs:38-45 | A token cannot run into a following whitespace character. |
| `Lexer.ScanAppend` | src/lexer.rs:25-49 | Appending content that starts with whitespace leaves the first token unchanged. It only extends the rest. |
| `Lexer.TokensSplit` | src/lexer.rs:71-76 | Whitespace is a token boundary: `Tokens(s + rest)` is `Tokens(s) + Tokens(rest)` whenever `rest` starts with whitespace. |
| `Lexer.TokensOfTrimmed` | src/lexer.rs:27-30 | The token stream depends only on the content after its leading whitespace. |
| `Lexer.RunLengthAll` | src/lexer.rs:64-66 | A run of matching characters followed by a non-matching one has exactly its own length. |
| `Lexer.ScanMaximalToken` | src/lexer.rs:37-48 | The converse of `Scan`'s contract (maximal munch): whitespace, then a token the rules allow, then any rest, scans as exactly that token and that rest. |
| `Lexer.TokensMaximalToken` | src/lexer.rs:71-76 | The token stream of such content starts with that token. |
| `Lexer.DocExample` | src/lexer.rs:19-23 | The documented example: `1999 text text1999 &` gives `1999`, `text`, `text1999`, `&`. |
| `Lexer.DocExampleAmp` | src/lexer.rs:47-48 | ` &` gives the single-character token `&`. |
| `Lexer.DocExampleText1999` | src/lexer.rs:43-44 | A letter-led run takes the digits after it: `text1999` is one token. |
| `Lexer.DocExampleText` | src/lexer.rs:43-44 | `text` ends at the following space. |
| `Lexer.DocExample1999` | src/lexer.rs:38-39 | `1999` ends at the following space. |
| `Lexer.DigitsThenLetters` | src/main.rs:54-62 | A digit-led run stops at the first letter: `1999text` gives `1999` and `text`. |
| `Lexer.DigitsThenLetters1999` | src/main.rs:55-56 | The first token of `1999text` is `1999`. |
| `Indexer.Bump` | src/lib.rs:70-71 | One `or_insert(1)` / `+= 1` step. The term becomes a key; a known term goes up by one and a new term is stored as 2. No other key is added or changed. |
| `Indexer.Tally` | src/lib.rs:68-72 | The keys are exactly the distinct tokens. Every stored value is that token's number of occurrences plus one. |
| `Indexer.TallyAtLeastTwo` | src/lib.rs:70-71 | Every stored count is at least 2. None is 0 or 1. |
| `Indexer.TallySum` | src/lib.rs:68-72 | The stored counts add up to the number of tokens plus the number of distinct terms. |
| `Indexer.TallyThreeCats` | src/main.rs:104-108 | Three occurrences of `cat` are stored as 4. |
| `Indexer.TallySnoc` | src/lib.rs:69-71 | Counting one more token is one `or_insert(1)` / `+= 1` step. |
| `Indexer.SumValuesRemove` | src/lib.rs:66-72 | The sum of a map's values may be taken starting from any key. |
| `Indexer.SumValuesBump` | src/lib.rs:70-71 | One counting step adds 2 to the sum for a new term and 1 for a known one. |
| `Indexer.CountTerms` | src/lib.rs:66-72 | Running the lexer's iterator to the end leaves exactly `Tally` of the content's tokens: each distinct token as a key, with its occurrences plus one. |
| `Indexer.Piece` | src/lib.rs:101-108 | A `Characters` event contributes its text followed by one space. Any other event contributes nothing. |
| `Indexer.PaddedText` | src/lib.rs:100-110 | The string the loop builds. It is empty exactly when there is no `Characters` event, and otherwise it ends with the padding space. |
| `Indexer.PaddedTextAppend` | src/lib.rs:100-110 | The text built from concatenated event streams is the concatenation of their texts. |
| `Indexer.PaddedTextStep` | src/lib.rs:101-108 | One event contributes its text and a space, or nothing. |
| `Indexer.ParseXml` | src/lib.rs:91-113 | The result is every `Characters` text, each followed by one space, in order. Other events contribute nothing. |
| `Indexer.LeadingSpace` | src/lib.rs:104-106 | A padding space in front of content does not change its tokens. |
| `Indexer.SegmentsDoNotFuse` | src/main.rs:138-142 | Thanks to the padding, tokenizing the joined text gives each segment's tokens, concatenated. No token spans two segments. |
| `Indexer.DocumentTf` | src/main.rs:96-112 | What `index_document` computes. An open error is passed on unchanged. Otherwise the keys are the distinct tokens of the joined text, each stored as occurrences + 1. |
| `Indexer.IndexDocument` | src/lib.rs:60-76 | An open failure is returned unchanged. Otherwise the result is `Tally` of the tokens of the padded character data. |
| `Indexer.EntryTf` | src/lib.rs:32-34 | `entry?` then `index_document(&entry)?`. An unreadable entry fails with its own error before its file is looked at. A readable one gives what indexing its file gives. |
| `Indexer.IndexEntries` | src/lib.rs:31-38 | The insert loop as a left fold, stopping at the first error. No entries give the empty index. On success the last entry was readable and its path holds its own term frequencies. |
| `Indexer.IndexEntriesFailurePersists` | src/lib.rs:31-38 | Once the loop has hit an error, later entries do not change the outcome. |
| `Indexer.IndexEntriesSucceeds` | src/lib.rs:31-38 | The loop succeeds exactly when every entry can be read and indexed. |
| `Indexer.IndexEntriesFirstFailure` | src/lib.rs:32-34 | The loop fails with the error of the first entry that fails. |
| `Indexer.IndexEntriesStep` | src/main.rs:187-194 | One pass either aborts with the entry's error or inserts its term frequencies under its path. |
| `Indexer.IndexEntriesKeys` | src/lib.rs:31-38 | On success, every entry was readable and the index has exactly the entries' paths as keys. |
| `Indexer.IndexEntriesLastWrite` | src/lib.rs:36 | `insert` overwrites: each path is bound to the term frequencies of its last entry. |
| `Indexer.IndexEntriesSize` | src/main.rs:187-194 | With pairwise distinct paths, the index has one entry per directory entry. |
| `Indexer.WriteOutcome` | src/lib.rs:40 | `index_to_json(...)?` succeeds exactly when `File::create` and the serializer report no error. Otherwise that error is returned. |
| `Indexer.CreateIndex` | src/lib.rs:24-43 | Returns a directory-listing error at once, with nothing written. Returns the first entry error with nothing written. Otherwise it hands the complete index to the writer and returns the writer's outcome. |

## Left out

- **File system and directory listing.** `fs::read_dir`, `File::open` and `File::create` are not modelled. Their outcomes are inputs: a `Result` of the listing, each entry's `Result`, and the write error.
- **Order of `read_dir`.** The order is platform-dependent. The model takes the entries in the order given.
- **The XML reader `xml-rs`.** A document is the sequence of events the reader reports. Events other than `Characters` are one `OtherEvent`.
  - The `unwrap` at src/lib.rs:99 (src/main.rs:135) panics on any error event, and the panic is not modelled. Error events include malformed markup, an empty file, and a read error after a successful `File::open`. For example, a subdirectory that `read_dir` lists can be opened on Linux, but its first read fails.
  - The model's `file` input is only the outcome of `File::open`. On success it carries the events of a document the reader accepts in full.
- **JSON.** `serde_json` serialisation in `index_to_json`, and `json_to_index` / `load_index_file`, are not modelled. Only the outcome of writing is modelled, as `WriteOutcome`.
  - `writeError` is the error `index_to_json` reports, from `File::create` or from `serde_json::to_writer`.
  - `to_writer` takes the `BufWriter` by value and never flushes it. The final flush happens when the writer is dropped, and a failure there is ignored. An index smaller than the buffer is written entirely by that flush.
  - Such a failure leaves an incomplete file while `create_index` returns `Ok(())`. It never reaches the model as an input.
- **`serve`.** It is a `todo!()` stub, so it is not modelled.
- **Console output.** The `print!` and `println!` progress messages are not modelled.
- **Unicode tables.** `is_whitespace`, `is_numeric` and `is_alphabetic` are parameters. Three things are assumed, each as a precondition of the lemmas that need it: `Valid()` (alphanumeric characters are not whitespace), that `' '` is whitespace, and `ExampleChars` for the worked examples.
- **Paths.** `PathBuf` is a plain string. Two entries are the same key exactly when their path strings are equal. `PathBuf` equality compares components, so `a//b` equals `a/b`. That difference cannot arise between entries of one `read_dir`, which all join the same directory with distinct file names.
- Indexer.Tally: counts in unbounded integers. The `usize` overflow of a count is not modelled, since it cannot occur for any document that fits in memory.
- **Fixed paths in `main`.** `main` uses the hard-coded paths `gldocs/gl4` and `index.json`. These are ordinary inputs of `CreateIndex`.
