/**
 * Word colouring of src/components/chat/ChatMessage.tsx: the text is split on runs
 * of white space (keeping the runs), and the first `highlight_word_count` words of
 * a message from someone else get the strong accent shade.
 */
module Highlight {
  import opened Text

  /** The length of the run of non-space characters that starts `s`. */
  function WordRun(s: string): (n: nat)
    ensures n <= |s|
  {
    if |s| == 0 || IsSpace(s[0]) then 0 else 1 + WordRun(s[1..])
  }

  /** The length of the run of space characters that starts `s`. */
  function SpaceRun(s: string): (n: nat)
    ensures n <= |s|
  {
    if |s| == 0 || !IsSpace(s[0]) then 0 else 1 + SpaceRun(s[1..])
  }

  /** The word run holds no white space and stops at white space or at the end. */
  lemma {:induction false} WordRunStops(s: string)
    ensures NoSpace(s[..WordRun(s)])
    ensures WordRun(s) < |s| ==> IsSpace(s[WordRun(s)])
  {
    if |s| > 0 && !IsSpace(s[0]) {
      WordRunStops(s[1..]);
      var n := WordRun(s);
      forall i | 0 <= i < n
        ensures !IsSpace(s[..n][i])
      {
        if i > 0 {
          assert s[..n][i] == s[1..][..n - 1][i - 1];
        }
      }
    }
  }

  /** The space run is all white space and stops at a non-space character or at the end. */
  lemma {:induction false} SpaceRunStops(s: string)
    ensures AllSpace(s[..SpaceRun(s)])
    ensures SpaceRun(s) < |s| ==> !IsSpace(s[SpaceRun(s)])
  {
    if |s| > 0 && IsSpace(s[0]) {
      SpaceRunStops(s[1..]);
      var n := SpaceRun(s);
      forall i | 0 <= i < n
        ensures IsSpace(s[..n][i])
      {
        if i > 0 {
          assert s[..n][i] == s[1..][..n - 1][i - 1];
        }
      }
    }
  }

  /**
   * `message.split(/(\s+)/)`: segments without white space at even positions
   * (possibly empty, at either end) alternating with the white-space runs that
   * separated them at odd positions.
   */
  function Split(s: string): (tokens: seq<string>)
    ensures |tokens| > 0
    decreases |s|
  {
    var n := WordRun(s);
    if n == |s| then [s]
    else
      var m := SpaceRun(s[n..]);
      [s[..n], s[n..n + m]] + Split(s[n + m..])
  }

  predicate NoSpace(w: string) {
    forall i :: 0 <= i < |w| ==> !IsSpace(w[i])
  }

  /** Even pieces hold no white space; odd pieces are non-empty white-space runs. */
  predicate Alternating(tokens: seq<string>) {
    && |tokens| % 2 == 1
    && (forall k :: 0 <= k < |tokens| && k % 2 == 0 ==> NoSpace(tokens[k]))
    && (forall k :: 0 <= k < |tokens| && k % 2 == 1 ==> tokens[k] != "" && AllSpace(tokens[k]))
  }

  /** One step of the split: the leading word, the space run after it, and the split of the rest. */
  lemma {:induction false} SplitStep(s: string) returns (n: nat, m: nat)
    requires WordRun(s) < |s|
    ensures n == WordRun(s) && 0 < m && n + m <= |s|
    ensures NoSpace(s[..n]) && AllSpace(s[n..n + m]) && s[n..n + m] != ""
    ensures Split(s) == [s[..n], s[n..n + m]] + Split(s[n + m..])
    ensures s == s[..n] + s[n..n + m] + s[n + m..]
  {
    n := WordRun(s);
    m := SpaceRun(s[n..]);
    SplitUnfold(s, n, m);
    SeparatorRun(s, n);
    SliceOfSuffix(s, n, m);
    Pieces(s, n, n + m);
  }

  lemma {:induction false} SplitUnfold(s: string, n: nat, m: nat)
    requires n == WordRun(s) < |s| && m == SpaceRun(s[n..])
    ensures Split(s) == [s[..n], s[n..n + m]] + Split(s[n + m..])
  {
  }

  /** After the leading word comes a non-empty run of white space. */
  lemma {:induction false} SeparatorRun(s: string, n: nat)
    requires n == WordRun(s) < |s|
    ensures NoSpace(s[..n])
    ensures 0 < SpaceRun(s[n..]) && AllSpace(s[n..][..SpaceRun(s[n..])])
  {
    WordRunStops(s);
    SpaceRunStops(s[n..]);
    assert s[n..][0] == s[n];
  }

  lemma {:induction false} SliceOfSuffix<T>(s: seq<T>, n: nat, m: nat)
    requires n + m <= |s|
    ensures s[n..n + m] == s[n..][..m]
  {
  }

  lemma {:induction false} Pieces<T>(s: seq<T>, i: nat, j: nat)
    requires i <= j <= |s|
    ensures s == s[..i] + s[i..j] + s[j..]
  {
  }

  lemma {:induction false} SplitAlternates(s: string)
    ensures Alternating(Split(s))
    decreases |s|
  {
    if WordRun(s) < |s| {
      var n, m := SplitStep(s);
      SplitAlternates(s[n + m..]);
      AlternatingCons(s[..n], s[n..n + m], Split(s[n + m..]));
    } else {
      WordRunStops(s);
      assert s[..|s|] == s;
    }
  }

  /** A word and a separator in front of an alternating sequence keep it alternating. */
  lemma {:induction false} AlternatingCons(word: string, sep: string, rest: seq<string>)
    requires NoSpace(word) && sep != "" && AllSpace(sep) && Alternating(rest)
    ensures Alternating([word, sep] + rest)
  {
    var t := [word, sep] + rest;
    forall k | 0 <= k < |t| && k % 2 == 0
      ensures NoSpace(t[k])
    {
      if k >= 2 {
        assert t[k] == rest[k - 2];
      }
    }
    forall k | 0 <= k < |t| && k % 2 == 1
      ensures t[k] != "" && AllSpace(t[k])
    {
      if k >= 2 {
        assert t[k] == rest[k - 2];
      }
    }
  }

  function Concat(tokens: seq<string>): string {
    if |tokens| == 0 then "" else tokens[0] + Concat(tokens[1..])
  }

  /** Joining the pieces gives back the message: splitting loses no character. */
  lemma {:induction false} SplitConcat(s: string)
    ensures Concat(Split(s)) == s
    decreases |s|
  {
    if WordRun(s) < |s| {
      var n, m := SplitStep(s);
      SplitConcat(s[n + m..]);
      ConcatPair(s[..n], s[n..n + m], Split(s[n + m..]));
    }
  }

  lemma {:induction false} ConcatPair(a: string, b: string, rest: seq<string>)
    ensures Concat([a, b] + rest) == a + b + Concat(rest)
  {
    var t := [a, b] + rest;
    assert t[1..][1..] == rest;
  }

  /** `word.trim() === ''`: the piece is empty or only white space. */
  predicate Blank(word: string) {
    |word| == 0 || (IsSpace(word[0]) && Blank(word[1..]))
  }

  lemma {:induction false} BlankIsAllSpace(word: string)
    ensures Blank(word) <==> AllSpace(word)
  {
    if |word| > 0 {
      BlankIsAllSpace(word[1..]);
      assert forall i :: 0 < i < |word| ==> word[i] == word[1..][i - 1];
    }
  }

  /** Split pieces are blank exactly at the separators and at empty ends. */
  lemma BlankPieces(s: string, k: nat)
    requires k < |Split(s)|
    ensures Blank(Split(s)[k]) <==> (k % 2 == 1 || Split(s)[k] == "")
  {
    SplitAlternates(s);
    var w := Split(s)[k];
    BlankIsAllSpace(w);
    if k % 2 == 0 && w != "" {
      assert !IsSpace(w[0]);
    }
  }

  /** How the rendered piece is coloured. */
  datatype Span =
    | Plain(text: string)     // white space, no class
    | SelfWord(text: string)  // `text-gray-300`
    | Strong(text: string)    // `text-<accent>-500`
    | Dim(text: string)       // `text-<accent>-800`

  /** The number of words among the first `i` pieces. */
  function WordsBefore(words: seq<string>, i: nat): (n: nat)
    requires i <= |words|
    ensures n <= i
  {
    if i == 0 then 0 else WordsBefore(words, i - 1) + (if Blank(words[i - 1]) then 0 else 1)
  }

  function WordCount(words: seq<string>): nat {
    WordsBefore(words, |words|)
  }

  function CountStrong(spans: seq<Span>): nat {
    if |spans| == 0 then 0 else CountStrong(spans[..|spans| - 1]) + (if spans[|spans| - 1].Strong? then 1 else 0)
  }

  lemma CountStrongAppend(spans: seq<Span>, span: Span)
    ensures CountStrong(spans + [span]) == CountStrong(spans) + (if span.Strong? then 1 else 0)
  {
    assert (spans + [span])[..|spans|] == spans;
  }

  function Min(a: int, b: int): int {
    if a <= b then a else b
  }

  /** A word-count bound as the comparison `highlightedWords <= highlight_word_count` applies it. */
  function Cap(highlightWordCount: int): nat {
    if highlightWordCount < 0 then 0 else highlightWordCount
  }

  /**
   * The colour of piece `i`, stated by position: blank pieces are plain, words of
   * one's own message grey, and otherwise a word is strong when fewer than
   * `highlightWordCount` words precede it.
   */
  function Expected(words: seq<string>, i: nat, isSelf: bool, highlightWordCount: int): Span
    requires i < |words|
  {
    if Blank(words[i]) then Plain(words[i])
    else if isSelf then SelfWord(words[i])
    else if WordsBefore(words, i) < highlightWordCount then Strong(words[i])
    else Dim(words[i])
  }

  function Coloring(words: seq<string>, isSelf: bool, highlightWordCount: int): (spans: seq<Span>)
    ensures |spans| == |words|
    ensures forall i :: 0 <= i < |words| ==> spans[i] == Expected(words, i, isSelf, highlightWordCount)
  {
    seq(|words|, i requires 0 <= i < |words| => Expected(words, i, isSelf, highlightWordCount))
  }

  /**
   * The `words.map` of the component, with its running `highlightedWords` counter:
   * it colours every piece as `Expected` says.
   */
  method ColorMessage(message: string, isSelf: bool, highlightWordCount: int) returns (spans: seq<Span>)
    ensures spans == Coloring(Split(message), isSelf, highlightWordCount)
  {
    var words := Split(message);
    var highlightedWords := 0;
    spans := [];
    for i := 0 to |words|
      invariant |spans| == i
      invariant highlightedWords == WordsBefore(words, i)
      invariant forall k :: 0 <= k < i ==> spans[k] == Expected(words, k, isSelf, highlightWordCount)
    {
      var word := words[i];
      var span;
      if Blank(word) {
        span := Plain(word);
      } else {
        highlightedWords := highlightedWords + 1;
        if isSelf {
          span := SelfWord(word);
        } else if highlightedWords <= highlightWordCount {
          span := Strong(word);
        } else {
          span := Dim(word);
        }
      }
      spans := spans + [span];
    }
  }

  function Texts(spans: seq<Span>): (ts: seq<string>)
    ensures |ts| == |spans|
    ensures forall i :: 0 <= i < |spans| ==> ts[i] == spans[i].text
  {
    seq(|spans|, i requires 0 <= i < |spans| => spans[i].text)
  }

  /** Rendering the coloured pieces in order shows the message unchanged. */
  lemma ColoringKeepsText(message: string, isSelf: bool, highlightWordCount: int)
    ensures Concat(Texts(Coloring(Split(message), isSelf, highlightWordCount))) == message
  {
    var words := Split(message);
    assert Texts(Coloring(words, isSelf, highlightWordCount)) == words;
    SplitConcat(message);
  }

  /** White space is never counted or coloured, and one's own words are never accented. */
  lemma ColoringClasses(words: seq<string>, isSelf: bool, highlightWordCount: int, i: nat)
    requires i < |words|
    ensures Coloring(words, isSelf, highlightWordCount)[i].Plain? <==> Blank(words[i])
    ensures isSelf ==> !Coloring(words, isSelf, highlightWordCount)[i].Strong? && !Coloring(words, isSelf, highlightWordCount)[i].Dim?
    ensures WordsBefore(words, i + 1) == WordsBefore(words, i) + (if Blank(words[i]) then 0 else 1)
  {
  }

  /** The strong words form a prefix of the words: any word before a strong word is strong. */
  lemma StrongIsPrefix(words: seq<string>, highlightWordCount: int, i: nat, j: nat)
    requires i < j < |words|
    requires !Blank(words[i])
    requires Coloring(words, false, highlightWordCount)[j].Strong?
    ensures Coloring(words, false, highlightWordCount)[i].Strong?
  {
    WordsBeforeMonotone(words, i + 1, j);
  }

  lemma {:induction false} WordsBeforeMonotone(words: seq<string>, i: nat, j: nat)
    requires i <= j <= |words|
    ensures WordsBefore(words, i) <= WordsBefore(words, j)
    decreases j - i
  {
    if i < j {
      WordsBeforeMonotone(words, i, j - 1);
    }
  }

  /** On someone else's message exactly min(`highlightWordCount`, number of words) words are strong. */
  lemma StrongCount(words: seq<string>, highlightWordCount: int)
    ensures CountStrong(Coloring(words, false, highlightWordCount)) == Min(Cap(highlightWordCount), WordCount(words))
  {
    StrongCountPrefix(words, highlightWordCount, |words|);
    assert Coloring(words, false, highlightWordCount)[..|words|] == Coloring(words, false, highlightWordCount);
  }

  lemma {:induction false} StrongCountPrefix(words: seq<string>, highlightWordCount: int, n: nat)
    requires n <= |words|
    ensures CountStrong(Coloring(words, false, highlightWordCount)[..n]) == Min(Cap(highlightWordCount), WordsBefore(words, n))
  {
    var spans := Coloring(words, false, highlightWordCount);
    if n > 0 {
      StrongCountPrefix(words, highlightWordCount, n - 1);
      assert spans[..n] == spans[..n - 1] + [spans[n - 1]];
      CountStrongAppend(spans[..n - 1], spans[n - 1]);
    }
  }

  /** The colour class a span is rendered with; blank pieces have none. */
  function ClassOf(span: Span, accent: string): string {
    match span
    case Plain(_) => ""
    case SelfWord(_) => "text-gray-300"
    case Strong(_) => "text-" + accent + "-500"
    case Dim(_) => "text-" + accent + "-800"
  }

  /** The border colour: selection wins over authorship. */
  function BorderClass(isSelected: bool, isSelf: bool, accent: string): (c: string)
    ensures isSelected ==> c == "border-" + accent + "-400"
    ensures !isSelected && isSelf ==> c == "border-gray-700"
    ensures !isSelected && !isSelf ==> c == "border-" + accent + "-700"
  {
    if isSelected then "border-" + accent + "-400"
    else if isSelf then "border-gray-700"
    else "border-" + accent + "-700"
  }
}
