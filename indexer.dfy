/**
  The indexing pipeline of src/lib.rs (and its copy in src/main.rs):
  `parse_xml` joins the character data of a document, `index_document` counts
  the lexer's tokens into a term-frequency map, and `create_index` collects
  one map per directory entry into the corpus index, stopping at the first error.

  File and directory access, the XML reader and the JSON writer are not
  modelled: their outcomes are the inputs of these members.
*/
module Indexer {
  import opened Wrappers
  import opened Lexer

  /** `TermFreq`: term to stored count. */
  type TermFreq = map<string, nat>

  /** A directory entry's path, taken as an opaque key. */
  type Path = string

  /** `TermFreqIndex`: document path to that document's term frequencies. */
  type TermFreqIndex = map<Path, TermFreq>

  /** A `std::io::Error`, reduced to its message. */
  datatype IoError = IoError(message: string)

  // ---------------------------------------------------------------------
  // index_document: counting the tokens
  // ---------------------------------------------------------------------

  /**
    One pass of the counting loop: `tf.entry(term).or_insert(1)` followed by
    `*freq += 1`, so a term seen for the first time is stored as 2.
  */
  function Bump(tf: TermFreq, term: string): (r: TermFreq)
    // the term is now a key, and no other key is added or changed
    ensures r.Keys == tf.Keys + {term}
    ensures forall t :: t in tf && t != term ==> r[t] == tf[t]
    // a known term goes up by one, a new one starts at 2
    ensures r[term] == if term in tf then tf[term] + 1 else 2
  {
    var freq := if term in tf then tf[term] else 1;
    tf[term := freq + 1]
  }

  /** The map the counting loop leaves after folding `Bump` over `tokens` from the left. */
  function Tally(tokens: seq<string>): (tf: TermFreq)
    // the keys are exactly the distinct tokens
    ensures tf.Keys == set t | t in tokens
    // each stored value is the number of occurrences plus one
    ensures forall t :: t in tf ==> tf[t] == multiset(tokens)[t] + 1
    decreases |tokens|
  {
    if tokens == [] then
      map[]
    else
      var init, last := tokens[..|tokens| - 1], tokens[|tokens| - 1];
      assert tokens == init + [last];
      assert multiset(tokens) == multiset(init) + multiset{last};
      Bump(Tally(init), last)
  }

  /** No term is stored with a count below 2, in particular none with 0. */
  lemma TallyAtLeastTwo(tokens: seq<string>)
    ensures forall t :: t in Tally(tokens) ==> Tally(tokens)[t] >= 2
  {
    forall t | t in Tally(tokens) ensures Tally(tokens)[t] >= 2 {
      assert t in multiset(tokens);
    }
  }

  /** The sum of the values of a map. */
  ghost function SumValues<K>(m: map<K, nat>): nat
    decreases |m|
  {
    if m == map[] then 0
    else
      var k :| k in m;
      m[k] + SumValues(m - {k})
  }

  /** `SumValues` may take any key first. */
  lemma {:induction false} SumValuesRemove<K>(m: map<K, nat>, k: K)
    requires k in m
    ensures SumValues(m) == m[k] + SumValues(m - {k})
    decreases |m|
  {
    var j :| j in m && SumValues(m) == m[j] + SumValues(m - {j});
    if j != k {
      SumValuesRemove(m - {j}, k);
      SumValuesRemove(m - {k}, j);
      assert (m - {j}) - {k} == (m - {k}) - {j};
    }
  }

  lemma SumValuesBump(tf: TermFreq, term: string)
    ensures SumValues(Bump(tf, term)) == SumValues(tf) + if term in tf then 1 else 2
  {
    var b := Bump(tf, term);
    SumValuesRemove(b, term);
    if term in tf {
      SumValuesRemove(tf, term);
      assert b - {term} == tf - {term};
    } else {
      assert b - {term} == tf;
    }
  }

  /** The counts add up to the number of tokens plus the number of distinct terms. */
  lemma {:induction false} TallySum(tokens: seq<string>)
    ensures SumValues(Tally(tokens)) == |tokens| + |Tally(tokens)|
    decreases |tokens|
  {
    if tokens != [] {
      var init, last := tokens[..|tokens| - 1], tokens[|tokens| - 1];
      TallySum(init);
      SumValuesBump(Tally(init), last);
      assert Tally(tokens) == Bump(Tally(init), last);
      if last in Tally(init) {
        assert Tally(tokens).Keys == Tally(init).Keys;
      } else {
        assert Tally(tokens).Keys == Tally(init).Keys + {last};
      }
    }
  }

  /** A term that occurs three times is stored as 4: the count is one too high. */
  lemma TallyThreeCats()
    ensures Tally(["cat", "cat", "cat"]) == map["cat" := 4]
  {
    var tokens := ["cat", "cat", "cat"];
    assert multiset(tokens)["cat"] == 3;
  }

  /** Counting one more token is one `Bump`. */
  lemma TallySnoc(seen: seq<string>, term: string)
    ensures Tally(seen + [term]) == Bump(Tally(seen), term)
  {
    assert (seen + [term])[..|seen|] == seen;
  }

  /** `Tokens` unfolded once, as one call of `Next` sees it. */
  lemma TokensStep(c: CharClasses, s: seq<char>)
    ensures match Scan(c, s)
      case Eof => Tokens(c, s) == []
      case Token(t, rest) => Tokens(c, s) == [t] + Tokens(c, rest)
  {
  }

  /** Loop step of `CountTerms`: moving the next token from the unread stream to `seen` (stated on `T` to keep the solver off `seq<seq<char>>`). */
  lemma ShiftOne<T>(all: seq<T>, seen: seq<T>, x: T, before: seq<T>, after: seq<T>)
    requires all == seen + before && before == [x] + after
    ensures all == (seen + [x]) + after
  {
  }

  /** Loop exit of `CountTerms`: with nothing left to read, `seen` is the whole stream. */
  lemma AppendNil<T>(all: seq<T>, seen: seq<T>, rest: seq<T>)
    requires all == seen + rest && rest == []
    ensures all == seen
  {
  }

  /** The counting loop of `index_document`, run over the lexer's iterator on `content`. */
  method CountTerms(c: CharClasses, content: seq<char>) returns (tf: TermFreq)
    ensures tf == Tally(Tokens(c, content))
    ensures tf.Keys == set t | t in Tokens(c, content)
    ensures forall t :: t in tf ==> tf[t] == multiset(Tokens(c, content))[t] + 1
  {
    var lexer := new Lexer(c, content);
    tf := map[];
    ghost var seen: seq<string> := [];
    while true
      invariant lexer.classes == c
      invariant Tokens(c, content) == seen + Tokens(c, lexer.content)
      invariant tf == Tally(seen)
      decreases |lexer.content|
    {
      ghost var before := lexer.content;
      var token := lexer.Next();
      TokensStep(c, before);
      if token.None? {
        AppendNil(Tokens(c, content), seen, Tokens(c, before));
        break;
      }
      var term := token.value;
      var freq := if term in tf then tf[term] else 1;
      tf := tf[term := freq + 1];
      TallySnoc(seen, term);
      ShiftOne(Tokens(c, content), seen, term, Tokens(c, before), Tokens(c, lexer.content));
      seen := seen + [term];
    }
  }

  // ---------------------------------------------------------------------
  // parse_xml: joining the character data
  // ---------------------------------------------------------------------

  /** The events the XML reader reports, reduced to what `parse_xml` looks at. */
  datatype XmlEvent = Characters(text: string) | OtherEvent

  /** What `parse_xml` appends for one event: the text and one space, or nothing. */
  function Piece(e: XmlEvent): (p: string)
    ensures e.Characters? ==> |p| == |e.text| + 1 && p[..|e.text|] == e.text && p[|e.text|] == ' '
    ensures e.OtherEvent? ==> p == ""
  {
    match e
    case Characters(text) => text + " "
    case OtherEvent => ""
  }

  /** The string `parse_xml` builds from `events`. */
  function PaddedText(events: seq<XmlEvent>): (r: string)
    // empty exactly when there is no character data at all
    ensures r == "" <==> forall i :: 0 <= i < |events| ==> events[i].OtherEvent?
    // otherwise the padding of the last segment ends it
    ensures r != "" ==> r[|r| - 1] == ' '
  {
    if events == [] then ""
    else
      var rest := PaddedText(events[1..]);
      assert forall i :: 1 <= i < |events| ==> events[i] == events[1..][i - 1];
      Piece(events[0]) + rest
  }

  /** `parse_xml` distributes over concatenated event streams. */
  lemma {:induction false} PaddedTextAppend(a: seq<XmlEvent>, b: seq<XmlEvent>)
    ensures PaddedText(a + b) == PaddedText(a) + PaddedText(b)
    decreases |a|
  {
    if a != [] {
      DropAppend(a, b, 1);
      PaddedTextCons(a + b);
      PaddedTextAppend(a[1..], b);
      AppendAssoc(Piece(a[0]), PaddedText(a[1..]), PaddedText(b));
    } else {
      NilAppend(a, b);
    }
  }

  /** `PaddedText` unfolded once, naming the head of a non-empty stream. */
  lemma PaddedTextCons(events: seq<XmlEvent>)
    requires events != []
    ensures PaddedText(events) == Piece(events[0]) + PaddedText(events[1..])
  {
  }

  /** Associativity of `+`, used to regroup text in `ParseXml` and `SegmentsDoNotFuse`. */
  lemma AppendAssoc<T>(a: seq<T>, b: seq<T>, d: seq<T>)
    ensures a + (b + d) == (a + b) + d
  {
  }

  /** `PaddedText` of a suffix, unfolded once. */
  lemma PaddedTextStep(events: seq<XmlEvent>, i: nat)
    requires i < |events|
    ensures PaddedText(events[i..]) == Piece(events[i]) + PaddedText(events[i + 1..])
  {
    assert events[i..][1..] == events[i + 1..];
  }

  /** The loop of `parse_xml` over the reader's events. */
  method ParseXml(events: seq<XmlEvent>) returns (content: string)
    ensures content == PaddedText(events)
  {
    content := "";
    for i := 0 to |events|
      invariant PaddedText(events) == content + PaddedText(events[i..])
    {
      PaddedTextStep(events, i);
      AppendAssoc(content, Piece(events[i]), PaddedText(events[i + 1..]));
      match events[i]
      case Characters(text) =>
        AppendAssoc(content, text, " ");
        content := content + text;
        content := content + " ";
      case OtherEvent =>
        assert content + Piece(events[i]) == content;
    }
    assert PaddedText(events[|events|..]) == "";
    assert content + "" == content;
  }

  /** The tokens of each character segment on its own, in order. */
  function SegmentTokens(c: CharClasses, events: seq<XmlEvent>): seq<seq<char>> {
    if events == [] then []
    else
      (match events[0]
       case Characters(text) => Tokens(c, text)
       case OtherEvent => []) + SegmentTokens(c, events[1..])
  }

  lemma LeadingSpace(c: CharClasses, s: seq<char>)
    requires c.IsWhitespace(' ')
    ensures Tokens(c, " " + s) == Tokens(c, s)
  {
    assert RunLength(c.whitespace, " ") == 1;
    assert TrimStart(c, " ") == [];
    TrimStartAppend(c, " ", s);
    TokensOfTrimmed(c, " " + s);
    TokensOfTrimmed(c, s);
  }

  /**
    The padding space keeps adjacent segments apart: the text `parse_xml`
    builds tokenizes to the tokens of each segment, concatenated.
  */
  lemma {:induction false} SegmentsDoNotFuse(c: CharClasses, events: seq<XmlEvent>)
    requires c.Valid() && c.IsWhitespace(' ')
    ensures Tokens(c, PaddedText(events)) == SegmentTokens(c, events)
    decreases |events|
  {
    if events == [] {
      EofIsFinal(c);
    } else {
      var tail := PaddedText(events[1..]);
      var later := SegmentTokens(c, events[1..]);
      SegmentsDoNotFuse(c, events[1..]);
      assert Tokens(c, tail) == later;
      match events[0]
      case Characters(text) =>
        AppendAssoc(text, " ", tail);
        assert PaddedText(events) == text + (" " + tail);
        TokensSplit(c, text, " " + tail);
        LeadingSpace(c, tail);
        assert SegmentTokens(c, events) == Tokens(c, text) + later;
      case OtherEvent =>
        assert PaddedText(events) == "" + tail;
        assert "" + tail == tail;
        assert SegmentTokens(c, events) == [] + later;
        assert [] + later == later;
    }
  }

  // ---------------------------------------------------------------------
  // index_document and create_index
  // ---------------------------------------------------------------------

  /**
    What `index_document` computes for a file, given the outcome of opening it
    (an error, or the events its reader reports).
  */
  function DocumentTf(c: CharClasses, file: Result<seq<XmlEvent>, IoError>): (r: Result<TermFreq, IoError>)
    // an open error is passed on unchanged
    ensures file.Failure? ==> r == Failure(file.error)
    // otherwise the keys are the distinct tokens of the joined text, each stored as occurrences + 1
    ensures file.Success? ==> r.Success?
    ensures file.Success? ==> r.value.Keys == set t | t in Tokens(c, PaddedText(file.value))
    ensures file.Success? ==>
      forall t :: t in r.value ==> r.value[t] == multiset(Tokens(c, PaddedText(file.value)))[t] + 1
  {
    match file
    case Failure(e) => Failure(e)
    case Success(events) => Success(Tally(Tokens(c, PaddedText(events))))
  }

  /** `index_document`: read the file (`read_file` propagates the open error), then count its terms. */
  method IndexDocument(c: CharClasses, file: Result<seq<XmlEvent>, IoError>) returns (r: Result<TermFreq, IoError>)
    ensures file.Failure? ==> r == Failure(file.error)
    ensures file.Success? ==> r == Success(Tally(Tokens(c, PaddedText(file.value))))
  {
    if file.Failure? {
      return Failure(file.error);
    }
    var content := ParseXml(file.value);
    var tf := CountTerms(c, content);
    return Success(tf);
  }

  /** An item of the `read_dir` iterator: an error, or an entry with its path and the outcome of opening it. */
  datatype DirEntry =
    | BadEntry(error: IoError)
    | Entry(path: Path, file: Result<seq<XmlEvent>, IoError>)

  /** A per-file indexing step, as `index_document` is for `create_index`. */
  type DocIndexer = Result<seq<XmlEvent>, IoError> -> Result<TermFreq, IoError>

  /** `index_document` with the given character classes, as a `DocIndexer`. */
  function IndexerOf(c: CharClasses): DocIndexer {
    file => DocumentTf(c, file)
  }

  /** The result of `entry?` followed by `index_document(&entry)?`. */
  function EntryTf(index: DocIndexer, e: DirEntry): (r: Result<TermFreq, IoError>)
    // an unreadable entry fails with its own error, before the file is looked at
    ensures e.BadEntry? ==> r == Failure(e.error)
    // a readable entry gives whatever indexing its file gives
    ensures e.Entry? ==> r == index(e.file)
  {
    match e
    case BadEntry(err) => Failure(err)
    case Entry(_, file) => index(file)
  }

  /**
    The insert loop of `create_index` over `entries`: the first error, or the
    index it builds. The lemmas below hold for every per-file step `index`.
  */
  function IndexEntries(index: DocIndexer, entries: seq<DirEntry>): (r: Result<TermFreqIndex, IoError>)
    // a listing with no entries gives the empty index
    ensures entries == [] ==> r == Success(map[])
    // on success the last entry was readable and its path holds its own term frequencies
    ensures r.Success? && entries != [] ==>
      && entries[|entries| - 1].Entry?
      && EntryTf(index, entries[|entries| - 1]).Success?
      && entries[|entries| - 1].path in r.value
      && r.value[entries[|entries| - 1].path] == EntryTf(index, entries[|entries| - 1]).value
    decreases |entries|
  {
    if entries == [] then
      Success(map[])
    else
      var last := entries[|entries| - 1];
      match IndexEntries(index, entries[..|entries| - 1])
      case Failure(e) => Failure(e)
      case Success(m) =>
        match EntryTf(index, last)
        case Failure(e) => Failure(e)
        case Success(tf) => Success(m[last.path := tf])
  }

  /** Once the loop has failed, later entries do not change the outcome. */
  lemma {:induction false} IndexEntriesFailurePersists(index: DocIndexer, entries: seq<DirEntry>, n: nat)
    requires n <= |entries|
    requires IndexEntries(index, entries[..n]).Failure?
    ensures IndexEntries(index, entries) == IndexEntries(index, entries[..n])
    decreases |entries|
  {
    if n < |entries| {
      var init := entries[..|entries| - 1];
      assert init[..n] == entries[..n];
      IndexEntriesFailurePersists(index, init, n);
    } else {
      assert entries[..n] == entries;
    }
  }

  /** The loop succeeds exactly when every entry can be read and indexed. */
  lemma {:induction false} IndexEntriesSucceeds(index: DocIndexer, entries: seq<DirEntry>)
    ensures IndexEntries(index, entries).Success? <==>
      forall j :: 0 <= j < |entries| ==> EntryTf(index, entries[j]).Success?
    decreases |entries|
  {
    if entries != [] {
      var init := entries[..|entries| - 1];
      IndexEntriesSucceeds(index, init);
      assert forall j :: 0 <= j < |init| ==> init[j] == entries[j];
    }
  }

  /** The loop stops with the error of the first entry that fails. */
  lemma IndexEntriesFirstFailure(index: DocIndexer, entries: seq<DirEntry>, k: nat)
    requires k < |entries|
    requires forall j :: 0 <= j < k ==> EntryTf(index, entries[j]).Success?
    requires EntryTf(index, entries[k]).Failure?
    ensures IndexEntries(index, entries) == Failure(EntryTf(index, entries[k]).error)
  {
    var prefix := entries[..k];
    IndexEntriesSucceeds(index, prefix);
    assert entries[..k + 1][..k] == prefix;
    IndexEntriesFailurePersists(index, entries, k + 1);
  }

  /** One pass of the insert loop, from the index of the first `i` entries. */
  lemma IndexEntriesStep(index: DocIndexer, entries: seq<DirEntry>, i: nat, m: TermFreqIndex)
    requires i < |entries|
    requires IndexEntries(index, entries[..i]) == Success(m)
    ensures EntryTf(index, entries[i]).Failure? ==>
      IndexEntries(index, entries) == Failure(EntryTf(index, entries[i]).error)
    ensures EntryTf(index, entries[i]).Success? ==>
      IndexEntries(index, entries[..i + 1]) == Success(m[entries[i].path := EntryTf(index, entries[i]).value])
  {
    assert entries[..i + 1][..i] == entries[..i];
    if EntryTf(index, entries[i]).Failure? {
      IndexEntriesFailurePersists(index, entries, i + 1);
    }
  }

  /** On success every entry was readable and the index has exactly the entries' paths as keys. */
  lemma {:induction false} IndexEntriesKeys(index: DocIndexer, entries: seq<DirEntry>)
    requires IndexEntries(index, entries).Success?
    ensures forall j :: 0 <= j < |entries| ==> entries[j].Entry?
    ensures IndexEntries(index, entries).value.Keys == set j | 0 <= j < |entries| :: entries[j].path
    decreases |entries|
  {
    if entries != [] {
      var init := entries[..|entries| - 1];
      IndexEntriesKeys(index, init);
      assert forall j :: 0 <= j < |init| ==> init[j] == entries[j];
      assert (set j | 0 <= j < |entries| :: entries[j].path) ==
        (set j | 0 <= j < |init| :: init[j].path) + {entries[|entries| - 1].path};
    }
  }

  /** `HashMap::insert` overwrites: a path is bound to the term frequencies of its last entry. */
  lemma {:induction false} IndexEntriesLastWrite(index: DocIndexer, entries: seq<DirEntry>, i: nat)
    requires IndexEntries(index, entries).Success?
    requires i < |entries| && entries[i].Entry?
    requires forall j :: i < j < |entries| ==> !(entries[j].Entry? && entries[j].path == entries[i].path)
    ensures EntryTf(index, entries[i]).Success?
    ensures entries[i].path in IndexEntries(index, entries).value
    ensures IndexEntries(index, entries).value[entries[i].path] == EntryTf(index, entries[i]).value
    decreases |entries|
  {
    IndexEntriesSucceeds(index, entries);
    var init := entries[..|entries| - 1];
    if i < |entries| - 1 {
      assert forall j :: i < j < |init| ==> init[j] == entries[j];
      IndexEntriesLastWrite(index, init, i);
    }
  }

  /** With pairwise distinct paths, the index has one entry per directory entry. */
  lemma {:induction false} IndexEntriesSize(index: DocIndexer, entries: seq<DirEntry>)
    requires IndexEntries(index, entries).Success?
    requires forall i, j :: 0 <= i < j < |entries| && entries[i].Entry? && entries[j].Entry? ==>
      entries[i].path != entries[j].path
    ensures |IndexEntries(index, entries).value| == |entries|
    decreases |entries|
  {
    if entries != [] {
      var init := entries[..|entries| - 1];
      var last := entries[|entries| - 1];
      IndexEntriesSucceeds(index, entries);
      IndexEntriesSize(index, init);
      IndexEntriesKeys(index, init);
      assert last.path !in IndexEntries(index, init).value;
    }
  }

  /** What `index_to_json` returns, given whether creating or writing the file fails. */
  function WriteOutcome(writeError: Option<IoError>): (r: Result<(), IoError>)
    ensures r.Success? <==> writeError.None?
    ensures writeError.Some? ==> r == Failure(writeError.value)
  {
    match writeError
    case None => Success(())
    case Some(e) => Failure(e)
  }

  /**
    `create_index` (and the same loop in `main`): list the directory, index each
    entry in turn, insert its term frequencies under its path, and write the index.
    `written` is the index handed to `index_to_json`, if that call is reached.
  */
  method CreateIndex(c: CharClasses, listing: Result<seq<DirEntry>, IoError>, writeError: Option<IoError>)
    returns (result: Result<(), IoError>, written: Option<TermFreqIndex>)
    ensures listing.Failure? ==> result == Failure(listing.error) && written == None
    ensures listing.Success? ==>
      match IndexEntries(IndexerOf(c), listing.value)
      case Failure(e) => result == Failure(e) && written == None
      case Success(index) => written == Some(index) && result == WriteOutcome(writeError)
  {
    if listing.Failure? {
      return Failure(listing.error), None;
    }
    var entries := listing.value;
    ghost var index := IndexerOf(c);
    var tfIndex: TermFreqIndex := map[];
    for i := 0 to |entries|
      invariant IndexEntries(index, entries[..i]) == Success(tfIndex)
    {
      var entry := entries[i];
      IndexEntriesStep(index, entries, i, tfIndex);
      if entry.BadEntry? {
        return Failure(entry.error), None;
      }
      var tf := IndexDocument(c, entry.file);
      assert tf == index(entry.file);
      if tf.Failure? {
        return Failure(tf.error), None;
      }
      tfIndex := tfIndex[entry.path := tf.value];
    }
    assert entries[..|entries|] == entries;
    written := Some(tfIndex);
    result := WriteOutcome(writeError);
  }
}
