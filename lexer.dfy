/**
  The re-slicing lexer of src/lexer.rs (copied verbatim into src/main.rs).

  The lexer holds the not-yet-consumed part of a character buffer and, on every
  call, removes one token from its front:
    1. leading whitespace is skipped;
    2. a numeric character starts a maximal run of numeric characters;
    3. otherwise an alphabetic character starts a maximal run of alphanumeric characters;
    4. otherwise exactly one character is a token of its own.

  `Scan` is the specification of one call and `Tokens` of the whole stream;
  the class `Lexer` is the mutable lexer, proved against them.
*/
module Lexer {
  import opened Wrappers

  /**
    Rust's Unicode predicates `char::is_whitespace`, `char::is_numeric` and
    `char::is_alphabetic`, taken as parameters rather than as tables.
    `is_alphanumeric` is defined from the other two, as Rust defines it.
  */
  datatype CharClasses = CharClasses(
    whitespace: char -> bool,
    numeric: char -> bool,
    alphabetic: char -> bool)
  {
    predicate IsWhitespace(ch: char) { whitespace(ch) }
    predicate IsNumeric(ch: char) { numeric(ch) }
    predicate IsAlphabetic(ch: char) { alphabetic(ch) }
    predicate IsAlphanumeric(ch: char) { alphabetic(ch) || numeric(ch) }

    /** The closure `|x| x.is_alphanumeric()` handed to `slice_while`. */
    function Alphanumeric(): char -> bool { ch => IsAlphanumeric(ch) }

    /** What Unicode guarantees and the lexer relies on: no letter or digit is whitespace. */
    ghost predicate Valid() {
      forall ch :: IsAlphanumeric(ch) ==> !IsWhitespace(ch)
    }
  }

  /**
    The content left after the whitespace-trimming loop of `next_token`:
    everything after the leading run of whitespace.
  */
  function TrimStart(c: CharClasses, s: seq<char>): (u: seq<char>)
    // a suffix of the content ...
    ensures |u| <= |s| && forall i :: 0 <= i < |u| ==> u[i] == s[|s| - |u| + i]
    // ... after a prefix that is all whitespace ...
    ensures forall i :: 0 <= i < |s| - |u| ==> c.IsWhitespace(s[i])
    // ... and not followed by whitespace
    ensures u != [] ==> !c.IsWhitespace(u[0])
  {
    s[RunLength(c.whitespace, s)..]
  }

  /** The `n` that the counting loop of `slice_while` stops at: the length of the longest prefix satisfying `p`. */
  function RunLength(p: char -> bool, s: seq<char>): (n: nat)
    ensures n <= |s|
    ensures forall i :: 0 <= i < n ==> p(s[i])
    ensures n < |s| ==> !p(s[n])
    decreases |s|
  {
    if |s| > 0 && p(s[0]) then 1 + RunLength(p, s[1..]) else 0
  }

  /**
    The length of the token at the front of non-empty, trimmed content `u`:
    the numeric run, the alphanumeric run, or one character.
  */
  function TokenLength(c: CharClasses, u: seq<char>): (n: nat)
    requires u != []
    ensures 0 < n <= |u|
    ensures c.IsNumeric(u[0]) ==>
      && (forall i :: 0 <= i < n ==> c.IsNumeric(u[i]))
      && (n < |u| ==> !c.IsNumeric(u[n]))
    ensures !c.IsNumeric(u[0]) && c.IsAlphabetic(u[0]) ==>
      && (forall i :: 0 <= i < n ==> c.IsAlphanumeric(u[i]))
      && (n < |u| ==> !c.IsAlphanumeric(u[n]))
    ensures !c.IsNumeric(u[0]) && !c.IsAlphabetic(u[0]) ==> n == 1
  {
    if c.IsNumeric(u[0]) then RunLength(c.numeric, u)
    else if c.IsAlphabetic(u[0]) then RunLength(c.Alphanumeric(), u)
    else 1
  }

  /** What one call of `next_token` does to the content: end of input, or a token and the content after it. */
  datatype Scanned = Eof | Token(token: seq<char>, rest: seq<char>)

  /** One call of `next_token` on content `s`. */
  function Scan(c: CharClasses, s: seq<char>): (r: Scanned)
    // end of input exactly when nothing but whitespace is left
    ensures r.Eof? <==> forall i :: 0 <= i < |s| ==> c.IsWhitespace(s[i])
    // a non-empty token, a prefix of the trimmed content, followed by exactly the rest
    ensures r.Token? ==> |r.token| > 0 && TrimStart(c, s) == r.token + r.rest
    ensures r.Token? ==> |r.rest| < |s| && !c.IsWhitespace(r.token[0])
    // rule 2: a numeric token is a maximal numeric run
    ensures r.Token? && c.IsNumeric(r.token[0]) ==>
      && (forall i :: 0 <= i < |r.token| ==> c.IsNumeric(r.token[i]))
      && (r.rest != [] ==> !c.IsNumeric(r.rest[0]))
    // rule 3: an alphabetic-led token is a maximal alphanumeric run
    ensures r.Token? && !c.IsNumeric(r.token[0]) && c.IsAlphabetic(r.token[0]) ==>
      && (forall i :: 0 <= i < |r.token| ==> c.IsAlphanumeric(r.token[i]))
      && (r.rest != [] ==> !c.IsAlphanumeric(r.rest[0]))
    // rule 4: anything else is one character
    ensures r.Token? && !c.IsNumeric(r.token[0]) && !c.IsAlphabetic(r.token[0]) ==>
      |r.token| == 1
  {
    var u := TrimStart(c, s);
    if u == [] then
      Eof
    else
      var n := TokenLength(c, u);
      assert u[..n] + u[n..] == u;
      Token(u[..n], u[n..])
  }

  /** Every token the lexer's iterator yields on content `s`, in order. */
  function Tokens(c: CharClasses, s: seq<char>): (ts: seq<seq<char>>)
    ensures forall t :: t in ts ==> t != []
    decreases |s|
  {
    match Scan(c, s)
    case Eof => []
    case Token(t, rest) =>
      ConsNonEmpty(t, Tokens(c, rest));
      [t] + Tokens(c, rest)
  }

  /** Step for `Tokens`: a non-empty token in front of non-empty tokens (stated on `T` to keep the solver off the lexer's facts). */
  lemma ConsNonEmpty<T>(t: seq<T>, later: seq<seq<T>>)
    requires t != [] && forall u :: u in later ==> u != []
    ensures forall u :: u in [t] + later ==> u != []
  {
  }

  /** The concatenation of a sequence of tokens. */
  function Concat(ts: seq<seq<char>>): seq<char> {
    if ts == [] then [] else ts[0] + Concat(ts[1..])
  }

  /** `s` with every whitespace character removed. */
  function RemoveWhitespace(c: CharClasses, s: seq<char>): seq<char> {
    if s == [] then []
    else (if c.IsWhitespace(s[0]) then [] else [s[0]]) + RemoveWhitespace(c, s[1..])
  }

  /** The mutable lexer: `content` is the slice the Rust struct re-slices. */
  class Lexer {
    const classes: CharClasses
    var content: seq<char>

    /** `Lexer::new`. */
    constructor (classes: CharClasses, content: seq<char>)
      ensures this.classes == classes && this.content == content
    {
      this.classes := classes;
      this.content := content;
    }

    /** `next_token`: trim leading whitespace, then apply the numeric, alphabetic and single-character rules. */
    method NextToken() returns (token: Option<seq<char>>)
      modifies this
      ensures match Scan(classes, old(content))
        case Eof => token == None && content == []
        case Token(t, rest) => token == Some(t) && content == rest
    {
      while |content| > 0 && classes.IsWhitespace(content[0])
        invariant TrimStart(classes, content) == TrimStart(classes, old(content))
        decreases |content|
      {
        content := content[1..];
      }
      if |content| == 0 {
        return None;
      }
      if classes.IsNumeric(content[0]) {
        var t := SliceWhile(classes.numeric);
        return Some(t);
      }
      if classes.IsAlphabetic(content[0]) {
        var t := SliceWhile(classes.Alphanumeric());
        return Some(t);
      }
      var t := Slice(1);
      return Some(t);
    }

    /** `slice`: return the first `n` characters and remove them from the content. */
    method Slice(n: nat) returns (token: seq<char>)
      requires n <= |content|
      modifies this
      ensures token == old(content)[..n] && content == old(content)[n..]
    {
      token := content[..n];
      content := content[n..];
    }

    /** `slice_while`: remove and return the longest prefix whose characters satisfy `p`. */
    method SliceWhile(p: char -> bool) returns (token: seq<char>)
      modifies this
      ensures var n := RunLength(p, old(content));
        token == old(content)[..n] && content == old(content)[n..]
    {
      var n := 0;
      while n < |content| && p(content[n])
        invariant n <= |content|
        invariant forall i :: 0 <= i < n ==> p(content[i])
      {
        n := n + 1;
      }
      assert n == RunLength(p, content);
      token := Slice(n);
    }

    /** `Iterator::next`, which delegates to `next_token`. */
    method Next() returns (token: Option<seq<char>>)
      modifies this
      ensures match Scan(classes, old(content))
        case Eof => token == None && content == []
        case Token(t, rest) => token == Some(t) && content == rest
    {
      token := NextToken();
    }
  }

  // ---------------------------------------------------------------------
  // Properties of the token stream
  // ---------------------------------------------------------------------

  /** Every character of a token is a non-whitespace character. */
  lemma TokenHasNoWhitespace(c: CharClasses, s: seq<char>)
    requires c.Valid()
    requires Scan(c, s).Token?
    ensures forall i :: 0 <= i < |Scan(c, s).token| ==> !c.IsWhitespace(Scan(c, s).token[i])
  {
    var t := Scan(c, s).token;
    if c.IsNumeric(t[0]) {
      forall i | 0 <= i < |t| ensures !c.IsWhitespace(t[i]) {
        assert c.IsAlphanumeric(t[i]);
      }
    }
  }

  /** Removing whitespace from content gives the same as removing it from the trimmed content. */
  lemma {:induction false} RemoveWhitespaceTrimStart(c: CharClasses, s: seq<char>)
    ensures RemoveWhitespace(c, s) == RemoveWhitespace(c, TrimStart(c, s))
    decreases |s|
  {
    if |s| > 0 && c.IsWhitespace(s[0]) {
      assert TrimStart(c, s) == TrimStart(c, s[1..]);
      RemoveWhitespaceTrimStart(c, s[1..]);
    }
  }

  lemma {:induction false} RemoveWhitespaceAppend(c: CharClasses, a: seq<char>, b: seq<char>)
    ensures RemoveWhitespace(c, a + b) == RemoveWhitespace(c, a) + RemoveWhitespace(c, b)
    decreases |a|
  {
    if a == [] {
      assert a + b == b;
    } else {
      var head := if c.IsWhitespace(a[0]) then [] else [a[0]];
      assert (a + b)[0] == a[0];
      assert (a + b)[1..] == a[1..] + b;
      RemoveWhitespaceAppend(c, a[1..], b);
      calc {
        RemoveWhitespace(c, a + b);
        head + RemoveWhitespace(c, a[1..] + b);
        head + (RemoveWhitespace(c, a[1..]) + RemoveWhitespace(c, b));
        (head + RemoveWhitespace(c, a[1..])) + RemoveWhitespace(c, b);
      }
    }
  }

  lemma {:induction false} RemoveWhitespaceNone(c: CharClasses, t: seq<char>)
    requires forall i :: 0 <= i < |t| ==> !c.IsWhitespace(t[i])
    ensures RemoveWhitespace(c, t) == t
    decreases |t|
  {
    if t != [] {
      RemoveWhitespaceNone(c, t[1..]);
    }
  }

  /** Reconstruction: the tokens, concatenated, are the content with its whitespace removed. */
  lemma {:induction false} TokensReconstruct(c: CharClasses, s: seq<char>)
    requires c.Valid()
    ensures Concat(Tokens(c, s)) == RemoveWhitespace(c, s)
    decreases |s|
  {
    RemoveWhitespaceTrimStart(c, s);
    match Scan(c, s)
    case Eof =>
      assert TrimStart(c, s) == [];
    case Token(t, rest) =>
      TokenHasNoWhitespace(c, s);
      RemoveWhitespaceNone(c, t);
      RemoveWhitespaceAppend(c, t, rest);
      TokensReconstruct(c, rest);
      assert ([t] + Tokens(c, rest))[1..] == Tokens(c, rest);
  }

  /** Once the lexer has returned `None`, its content is empty and every further call returns `None`. */
  lemma EofIsFinal(c: CharClasses)
    ensures Scan(c, []) == Eof && Tokens(c, []) == []
  {
  }

  /** How the longest `p`-prefix of a concatenation is made up. */
  lemma {:induction false} RunLengthAppend(p: char -> bool, u: seq<char>, rest: seq<char>)
    ensures RunLength(p, u + rest) ==
      if RunLength(p, u) < |u| then RunLength(p, u) else |u| + RunLength(p, rest)
    decreases |u|
  {
    if u == [] {
      assert u + rest == rest;
    } else {
      assert (u + rest)[0] == u[0];
      assert (u + rest)[1..] == u[1..] + rest;
      RunLengthAppend(p, u[1..], rest);
    }
  }

  lemma TrimStartAppend(c: CharClasses, s: seq<char>, rest: seq<char>)
    ensures TrimStart(c, s) != [] ==> TrimStart(c, s + rest) == TrimStart(c, s) + rest
    ensures TrimStart(c, s) == [] ==> TrimStart(c, s + rest) == TrimStart(c, rest)
  {
    RunLengthAppend(c.whitespace, s, rest);
    var k := RunLength(c.whitespace, s);
    if k < |s| {
      DropAppend(s, rest, k);
    } else {
      DropPast(s, rest, RunLength(c.whitespace, rest));
    }
  }

  /** Dropping `k` elements of `s + rest`, with `k` inside `s`. */
  lemma DropAppend<T>(s: seq<T>, rest: seq<T>, k: nat)
    requires k <= |s|
    ensures (s + rest)[k..] == s[k..] + rest
  {
  }

  /** Taking `k` elements of `s + rest`, with `k` inside `s`. */
  lemma TakeAppend<T>(s: seq<T>, rest: seq<T>, k: nat)
    requires k <= |s|
    ensures (s + rest)[..k] == s[..k]
  {
  }

  /** Dropping all of `s` and `j` elements of `rest` from `s + rest`. */
  lemma DropPast<T>(s: seq<T>, rest: seq<T>, j: nat)
    requires j <= |rest|
    ensures (s + rest)[|s| + j..] == rest[j..]
  {
  }

  /** A token cannot run into a following whitespace character. */
  lemma TokenLengthAppend(c: CharClasses, u: seq<char>, rest: seq<char>)
    requires c.Valid()
    requires u != []
    requires rest != [] ==> c.IsWhitespace(rest[0])
    ensures TokenLength(c, u + rest) == TokenLength(c, u)
  {
    assert (u + rest)[0] == u[0];
    assert rest != [] ==> !c.IsNumeric(rest[0]) && !c.IsAlphanumeric(rest[0]);
    if c.IsNumeric(u[0]) {
      RunLengthAppend(c.numeric, u, rest);
      assert rest != [] ==> RunLength(c.numeric, rest) == 0;
    } else if c.IsAlphabetic(u[0]) {
      RunLengthAppend(c.Alphanumeric(), u, rest);
      assert rest != [] ==> RunLength(c.Alphanumeric(), rest) == 0;
    }
  }

  /** Appending content that starts with whitespace leaves the first token alone. */
  lemma ScanAppend(c: CharClasses, s: seq<char>, rest: seq<char>)
    requires c.Valid()
    requires rest != [] ==> c.IsWhitespace(rest[0])
    ensures Scan(c, s).Eof? ==> Tokens(c, s + rest) == Tokens(c, rest)
    ensures Scan(c, s).Token? ==>
      Scan(c, s + rest) == Token(Scan(c, s).token, Scan(c, s).rest + rest)
  {
    TrimStartAppend(c, s, rest);
    var u := TrimStart(c, s);
    if u == [] {
      TokensOfTrimmed(c, s + rest);
      TokensOfTrimmed(c, rest);
    } else {
      TokenLengthAppend(c, u, rest);
      var n := TokenLength(c, u);
      TakeAppend(u, rest, n);
      DropAppend(u, rest, n);
    }
  }

  /** Whitespace is a token boundary: text followed by whitespace tokenizes on its own. */
  lemma {:induction false} TokensSplit(c: CharClasses, s: seq<char>, rest: seq<char>)
    requires c.Valid()
    requires rest != [] ==> c.IsWhitespace(rest[0])
    ensures Tokens(c, s + rest) == Tokens(c, s) + Tokens(c, rest)
    decreases |s|
  {
    ScanAppend(c, s, rest);
    match Scan(c, s)
    case Eof =>
      NilAppend(Tokens(c, s), Tokens(c, rest));
    case Token(t, r) =>
      TokensSplit(c, r, rest);
      ConsSplit(Tokens(c, s + rest), t, Tokens(c, r + rest), Tokens(c, r), Tokens(c, rest), Tokens(c, s));
  }

  /** Sequence step for `TokensSplit`: an empty front adds nothing (stated on `T` to keep the solver off `seq<seq<char>>`). */
  lemma NilAppend<T>(a: seq<T>, b: seq<T>)
    requires a == []
    ensures a + b == b
  {
  }

  /** Sequence step for `TokensSplit`: `[x] + (a + b)` regrouped as `([x] + a) + b`, stated on `T` for the same reason. */
  lemma ConsSplit<T>(all: seq<T>, x: T, tail: seq<T>, a: seq<T>, b: seq<T>, front: seq<T>)
    requires all == [x] + tail && tail == a + b && front == [x] + a
    ensures all == front + b
  {
  }

  /** The token stream only depends on the content after its leading whitespace. */
  lemma TokensOfTrimmed(c: CharClasses, s: seq<char>)
    ensures Tokens(c, s) == Tokens(c, TrimStart(c, s))
  {
    var u := TrimStart(c, s);
    assert RunLength(c.whitespace, u) == 0;
    assert TrimStart(c, u) == u;
    assert Scan(c, s) == Scan(c, u);
  }

  /**
    `w` is a token the rules would cut from the front of `w + rest`: a maximal numeric
    run, an alphabetic-led maximal alphanumeric run, or one other character.
  */
  ghost predicate MaximalToken(c: CharClasses, w: seq<char>, rest: seq<char>) {
    && w != []
    && !c.IsWhitespace(w[0])
    && if c.IsNumeric(w[0]) then
         (forall ch :: ch in w ==> c.IsNumeric(ch)) && (rest != [] ==> !c.IsNumeric(rest[0]))
       else if c.IsAlphabetic(w[0]) then
         (forall ch :: ch in w ==> c.IsAlphanumeric(ch)) && (rest != [] ==> !c.IsAlphanumeric(rest[0]))
       else
         |w| == 1
  }

  lemma RunLengthAll(p: char -> bool, w: seq<char>, rest: seq<char>)
    requires forall ch :: ch in w ==> p(ch)
    requires rest != [] ==> !p(rest[0])
    ensures RunLength(p, w + rest) == |w|
  {
    RunLengthAppend(p, w, rest);
  }

  /**
    The converse of `Scan`'s contract: whitespace, then a maximal token, then anything,
    is scanned as exactly that token.
  */
  lemma ScanMaximalToken(c: CharClasses, s: seq<char>, ws: seq<char>, w: seq<char>, rest: seq<char>)
    requires s == ws + w + rest
    requires forall ch :: ch in ws ==> c.IsWhitespace(ch)
    requires MaximalToken(c, w, rest)
    ensures Scan(c, s) == Token(w, rest)
  {
    var u := w + rest;
    assert s == ws + u;
    RunLengthAll(c.whitespace, ws, u);
    RunLengthAppend(c.whitespace, ws, u);
    assert RunLength(c.whitespace, u) == 0;
    assert TrimStart(c, ws + u) == u by {
      assert (ws + u)[|ws|..] == u;
    }
    assert u[0] == w[0];
    if c.IsNumeric(w[0]) {
      RunLengthAll(c.numeric, w, rest);
    } else if c.IsAlphabetic(w[0]) {
      RunLengthAll(c.Alphanumeric(), w, rest);
    }
    assert TokenLength(c, u) == |w|;
    assert u[..|w|] == w && u[|w|..] == rest;
  }

  /** So the token stream of such content starts with `w`. */
  lemma TokensMaximalToken(c: CharClasses, s: seq<char>, ws: seq<char>, w: seq<char>, rest: seq<char>)
    requires s == ws + w + rest
    requires forall ch :: ch in ws ==> c.IsWhitespace(ch)
    requires MaximalToken(c, w, rest)
    ensures Tokens(c, s) == [w] + Tokens(c, rest)
  {
    ScanMaximalToken(c, s, ws, w, rest);
  }

  /** The character facts the two examples of the source rely on (true of Rust's Unicode tables). */
  ghost predicate ExampleChars(c: CharClasses) {
    && c.IsWhitespace(' ') && !c.IsNumeric(' ') && !c.IsAlphabetic(' ')
    && c.IsNumeric('1') && c.IsNumeric('9') && !c.IsWhitespace('1')
    && c.IsAlphabetic('t') && c.IsAlphabetic('e') && c.IsAlphabetic('x')
    && !c.IsNumeric('t') && !c.IsNumeric('e') && !c.IsNumeric('x') && !c.IsWhitespace('t')
    && !c.IsWhitespace('&') && !c.IsNumeric('&') && !c.IsAlphabetic('&')
  }

  /** Whitespace and then one maximal token at the end of the content give exactly that token. */
  lemma LastToken(c: CharClasses, s: seq<char>, ws: seq<char>, w: seq<char>)
    requires s == ws + w
    requires forall ch :: ch in ws ==> c.IsWhitespace(ch)
    requires MaximalToken(c, w, [])
    ensures Tokens(c, s) == [w]
  {
    TokensMaximalToken(c, s, ws, w, []);
    EofIsFinal(c);
  }

  lemma DocExampleAmp(c: CharClasses)
    requires ExampleChars(c)
    ensures Tokens(c, " &") == ["&"]
  {
    LastToken(c, " &", " ", "&");
  }

  lemma DocExampleText1999(c: CharClasses)
    requires ExampleChars(c)
    ensures Tokens(c, " text1999 &") == ["text1999"] + Tokens(c, " &")
  {
    TokensMaximalToken(c, " text1999 &", " ", "text1999", " &");
  }

  lemma DocExampleText(c: CharClasses)
    requires ExampleChars(c)
    ensures Tokens(c, " text text1999 &") == ["text"] + Tokens(c, " text1999 &")
  {
    TokensMaximalToken(c, " text text1999 &", " ", "text", " text1999 &");
  }

  lemma DocExample1999(c: CharClasses)
    requires ExampleChars(c)
    ensures Tokens(c, "1999 text text1999 &") == ["1999"] + Tokens(c, " text text1999 &")
  {
    TokensMaximalToken(c, "1999 text text1999 &", "", "1999", " text text1999 &");
  }

  /** The example in the doc comment of `next_token`: "1999 text text1999 &" gives 1999, text, text1999, &. */
  lemma DocExample(c: CharClasses)
    requires ExampleChars(c)
    ensures Tokens(c, "1999 text text1999 &") == ["1999", "text", "text1999", "&"]
  {
    DocExampleAmp(c);
    DocExampleText1999(c);
    DocExampleText(c);
    DocExample1999(c);
    Chain4(Tokens(c, "1999 text text1999 &"), Tokens(c, " text text1999 &"),
      Tokens(c, " text1999 &"), Tokens(c, " &"), "1999", "text", "text1999", "&");
  }

  /** Four one-token unfoldings make a four-token stream; stated on `T` so the string literals are not unfolded again. */
  lemma Chain4<T>(x0: seq<T>, x1: seq<T>, x2: seq<T>, x3: seq<T>, a: T, b: T, d: T, e: T)
    requires x0 == [a] + x1 && x1 == [b] + x2 && x2 == [d] + x3 && x3 == [e]
    ensures x0 == [a, b, d, e]
  {
  }

  lemma DigitsThenLetters1999(c: CharClasses)
    requires ExampleChars(c)
    ensures Tokens(c, "1999text") == ["1999"] + Tokens(c, "text")
  {
    TokensMaximalToken(c, "1999text", "", "1999", "text");
  }

  /** `text` alone is a maximal alphanumeric run. */
  lemma TextIsMaximal(c: CharClasses)
    requires ExampleChars(c)
    ensures MaximalToken(c, "text", [])
  {
    assert forall ch :: ch in "text" ==> ch == 't' || ch == 'e' || ch == 'x';
  }

  /** A digit-led run stops at the first letter: "1999text" gives 1999, text. */
  lemma DigitsThenLetters(c: CharClasses)
    requires ExampleChars(c)
    ensures Tokens(c, "1999text") == ["1999", "text"]
  {
    TextIsMaximal(c);
    LastToken(c, "text", "", "text");
    DigitsThenLetters1999(c);
    Chain2(Tokens(c, "1999text"), Tokens(c, "text"), "1999", "text");
  }

  /** Two one-token unfoldings make a two-token stream; stated on `T` like `Chain4`. */
  lemma Chain2<T>(x0: seq<T>, x1: seq<T>, a: T, b: T)
    requires x0 == [a] + x1 && x1 == [b]
    ensures x0 == [a, b]
  {
  }
}
