/**
  The WordPiece tokenizer: a one-pass encoder over characters, against a batch definition in separate
  passes (clean, space out, decompose, strip marks, lower, isolate, split, tokenise).
 */
module WordPiece {
  import opened Common

  const UNK := 100
  const CLS := 101
  const SEP := 102
  const MAX_WORD_CHARS := 100

  // ----- characters -----

  /** Unicode tables; only the facts in `Lawful` are used. */
  datatype Tables = Tables(
    nfd: char -> string, lower: char -> string, isMark: char -> bool,
    isOther: char -> bool, isWhitespace: char -> bool, isPunctuation: char -> bool)

  predicate IsAscii(c: char) {
    c as int < 128
  }

  predicate IsAsciiControl(c: char) {
    c as int < 32 || c as int == 127
  }

  predicate IsLineSpace(c: char) {
    c == '\t' || c == '\n' || c == '\r'
  }

  predicate IsAsciiPunctuation(c: char) {
    '!' <= c <= '/' || ':' <= c <= '@' || '[' <= c <= '`' || '{' <= c <= '~'
  }

  function AsciiLower(c: char): char {
    if 'A' <= c <= 'Z' then ((c as int) + 32) as char else c
  }

  predicate IsChinese(c: char) {
    var n := c as int;
    || 0x4E00 <= n <= 0x9FFF || 0x3400 <= n <= 0x4DBF || 0x20000 <= n <= 0x2A6DF || 0x2A700 <= n <= 0x2B73F
    || 0x2B740 <= n <= 0x2B81F || 0x2B920 <= n <= 0x2CEAF || 0xF900 <= n <= 0xFAFF || 0x2F800 <= n <= 0x2FA1F
  }

  predicate IsRemovedControl(t: Tables, c: char) {
    c as int == 0 || c as int == 0xfffd || (!IsLineSpace(c) && t.isOther(c))
  }

  predicate IsBertWhitespace(t: Tables, c: char) {
    IsLineSpace(c) || t.isWhitespace(c)
  }

  predicate IsBertPunctuation(t: Tables, c: char) {
    IsAsciiPunctuation(c) || t.isPunctuation(c)
  }

  /** How the tables treat ASCII, and that no expansion of another character holds a control character. */
  ghost predicate Lawful(t: Tables) {
    && (forall c :: IsAscii(c) ==>
          && t.nfd(c) == [c] && !t.isMark(c) && t.lower(c) == [AsciiLower(c)]
          && (t.isOther(c) <==> IsAsciiControl(c))
          && (t.isWhitespace(c) <==> c == ' ' || 9 <= c as int <= 13)
          && (t.isPunctuation(c) ==> IsAsciiPunctuation(c)))
    && (forall c :: IsBertPunctuation(t, c) ==> !t.isWhitespace(c))
    && (forall c, d, l :: !IsAscii(c) && d in t.nfd(c) && !t.isMark(d) && l in t.lower(d) ==> !IsAsciiControl(l))
  }

  // ----- the passes -----

  /** A pass replaces every character by some characters. */
  function Expand(f: char -> string, text: string): string {
    if text == [] then [] else Expand(f, text[..|text| - 1]) + f(text[|text| - 1])
  }

  function CleanOne(t: Tables, c: char): string {
    if IsRemovedControl(t, c) then [] else if IsBertWhitespace(t, c) then [' '] else [c]
  }

  function SpaceOne(c: char): string {
    if IsChinese(c) then [' ', c, ' '] else [c]
  }

  function StripOne(t: Tables, c: char): string {
    if t.isMark(c) then [] else [c]
  }

  function IsolateOne(t: Tables, c: char): string {
    if t.isWhitespace(c) then [' '] else if IsBertPunctuation(t, c) then [' ', c, ' '] else [c]
  }

  function Clean(t: Tables, text: string): string {
    Expand(c => CleanOne(t, c), text)
  }

  function SpaceChinese(text: string): string {
    Expand(SpaceOne, text)
  }

  function Decompose(t: Tables, text: string): string {
    Expand(t.nfd, text)
  }

  function StripMarks(t: Tables, text: string): string {
    Expand(c => StripOne(t, c), text)
  }

  function Lowercase(t: Tables, text: string): string {
    Expand(t.lower, text)
  }

  function Isolate(t: Tables, text: string): string {
    Expand(c => IsolateOne(t, c), text)
  }

  /** What the words are split from: clean text, Chinese characters and punctuation spaced out. */
  function Normalised(t: Tables, text: string): string {
    Isolate(t, Lowercase(t, StripMarks(t, Decompose(t, SpaceChinese(Clean(t, text))))))
  }

  lemma {:induction false} ExpandAppend(f: char -> string, a: string, b: string)
    ensures Expand(f, a + b) == Expand(f, a) + Expand(f, b)
  {
    if b == [] {
      assert a + b == a;
    } else {
      var front := b[..|b| - 1];
      assert (a + b)[..|a + b| - 1] == a + front;
      ExpandAppend(f, a, front);
    }
  }

  lemma ExpandOne(f: char -> string, c: char)
    ensures Expand(f, [c]) == f(c)
  {
    assert [c][..0] == [];
  }

  // ----- the classes of characters, written out -----

  lemma PunctuationExactly(c: char)
    ensures IsAsciiPunctuation(c) <==> c in "!\"#$%&'()*+,-./:;<=>?@[\\]^_`{|}~"
  {
  }

  lemma LetterPairs(k: nat)
    requires k < 26
    ensures AsciiLower("ABCDEFGHIJKLMNOPQRSTUVWXYZ"[k]) == "abcdefghijklmnopqrstuvwxyz"[k]
  {
  }

  /** All other characters below 128 are their own lower case. */
  lemma OtherLetters(c: char)
    requires c !in "ABCDEFGHIJKLMNOPQRSTUVWXYZ"
    ensures AsciiLower(c) == c
  {
  }

  /** The blocks of Chinese characters, first and last code point. */
  const CHINESE_BLOCKS: seq<(int, int)> :=
    [(0x4E00, 0x9FFF), (0x3400, 0x4DBF), (0x20000, 0x2A6DF), (0x2A700, 0x2B73F),
     (0x2B740, 0x2B81F), (0x2B920, 0x2CEAF), (0xF900, 0xFAFF), (0x2F800, 0x2FA1F)]

  lemma ChineseExactly(c: char)
    ensures IsChinese(c) <==> exists block <- CHINESE_BLOCKS :: block.0 <= c as int <= block.1
  {
    assert forall block <- CHINESE_BLOCKS :: exists i :: 0 <= i < 8 && CHINESE_BLOCKS[i] == block;
  }

  /** The part of the normalisation after decomposition. */
  function Finish(t: Tables, text: string): string {
    Isolate(t, Lowercase(t, StripMarks(t, text)))
  }

  lemma FinishAppend(t: Tables, a: string, b: string)
    ensures Finish(t, a + b) == Finish(t, a) + Finish(t, b)
  {
    ExpandAppend(c => StripOne(t, c), a, b);
    ExpandAppend(t.lower, StripMarks(t, a), StripMarks(t, b));
    ExpandAppend(c => IsolateOne(t, c), Lowercase(t, StripMarks(t, a)), Lowercase(t, StripMarks(t, b)));
  }

  lemma NormalisedAppend(t: Tables, a: string, b: string)
    ensures Normalised(t, a + b) == Normalised(t, a) + Normalised(t, b)
  {
    ExpandAppend(c => CleanOne(t, c), a, b);
    ExpandAppend(SpaceOne, Clean(t, a), Clean(t, b));
    ExpandAppend(t.nfd, SpaceChinese(Clean(t, a)), SpaceChinese(Clean(t, b)));
    FinishAppend(t, Decompose(t, SpaceChinese(Clean(t, a))), Decompose(t, SpaceChinese(Clean(t, b))));
  }

  // ----- words -----

  function Closed(word: string): seq<string> {
    if word == [] then [] else [word]
  }

  /** The characters after the last space. */
  function Pending(s: string): string {
    if s == [] || s[|s| - 1] == ' ' then [] else Pending(s[..|s| - 1]) + [s[|s| - 1]]
  }

  /** The words before the last space. */
  function Done(s: string): seq<string> {
    if s == [] then []
    else if s[|s| - 1] == ' ' then Done(s[..|s| - 1]) + Closed(Pending(s[..|s| - 1]))
    else Done(s[..|s| - 1])
  }

  /** The maximal runs of characters other than spaces. */
  function SplitWords(s: string): seq<string> {
    Done(s) + Closed(Pending(s))
  }

  lemma {:induction false} SplitWithoutSpace(s: string)
    requires ' ' !in s
    ensures SplitWords(s) == Closed(s) && Done(s) == [] && Pending(s) == s
  {
    if s != [] {
      var front := s[..|s| - 1];
      assert s == front + [s[|s| - 1]];
      SplitWithoutSpace(front);
    }
  }

  lemma {:induction false} SpaceCloses(a: string, b: string)
    ensures Pending(a + [' '] + b) == Pending(b) && Done(a + [' '] + b) == SplitWords(a) + Done(b)
  {
    hide Closed, SplitWords;
    var s := a + [' '] + b;
    if b == [] {
      assert s[..|s| - 1] == a && s[|s| - 1] == ' ';
      SplitIs(a);
    } else {
      var front := b[..|b| - 1];
      assert s[..|s| - 1] == a + [' '] + front && s[|s| - 1] == b[|b| - 1];
      SpaceCloses(a, front);
      AppendAssoc(SplitWords(a), Done(front), Closed(Pending(front)));
    }
  }

  lemma SplitIs(s: string)
    ensures SplitWords(s) == Done(s) + Closed(Pending(s))
  {
  }

  /** Together with SplitWithoutSpace this says what splitting is. */
  lemma SplitAtSpace(a: string, b: string)
    ensures SplitWords(a + [' '] + b) == SplitWords(a) + SplitWords(b)
  {
    hide Done, Pending, Closed;
    SpaceCloses(a, b);
    AppendAssoc(SplitWords(a), Done(b), Closed(Pending(b)));
  }

  // ----- pieces -----

  /** Ids of whole tokens, and of tokens that continue a word (without their prefix). */
  datatype Vocabulary = Vocabulary(initial: map<string, int>, continuation: map<string, int>)

  function PiecesAt(v: Vocabulary, start: nat): map<string, int> {
    if start == 0 then v.initial else v.continuation
  }

  predicate IsLongest(v: Vocabulary, word: string, start: int, end: int) {
    && 0 <= start < end <= |word|
    && word[start..end] in PiecesAt(v, start)
    && forall e :: end < e <= |word| ==> word[start..e] !in PiecesAt(v, start)
  }

  /** Where pieces with these ends stop. */
  function At(ends: seq<int>): int {
    if ends == [] then 0 else ends[|ends| - 1]
  }

  function Front(ends: seq<int>): seq<int>
    requires ends != []
  {
    ends[..|ends| - 1]
  }

  /** Every piece begins where the one before it ends, is in the vocabulary, and no longer one is. */
  predicate IsGreedyUpto(v: Vocabulary, word: string, ends: seq<int>) {
    ends == [] || (IsGreedyUpto(v, word, Front(ends)) && IsLongest(v, word, At(Front(ends)), At(ends)))
  }

  ghost predicate IsGreedy(v: Vocabulary, word: string, ends: seq<int>) {
    IsGreedyUpto(v, word, ends) && At(ends) == |word|
  }

  /** The ids of the pieces. */
  function PieceIds(v: Vocabulary, word: string, ends: seq<int>): seq<int>
    requires IsGreedyUpto(v, word, ends)
  {
    if ends == [] then [] else PieceIds(v, word, Front(ends)) + [PiecesAt(v, At(Front(ends)))[word[At(Front(ends))..At(ends)]]]
  }

  function Pieces(v: Vocabulary, word: string, ends: seq<int>): seq<string>
    requires IsGreedyUpto(v, word, ends)
  {
    if ends == [] then [] else Pieces(v, word, Front(ends)) + [word[At(Front(ends))..At(ends)]]
  }

  /** The pieces make up the word. */
  lemma {:induction false} PiecesMakeWord(v: Vocabulary, word: string, ends: seq<int>)
    requires IsGreedyUpto(v, word, ends)
    ensures 0 <= At(ends) <= |word| && Flatten(Pieces(v, word, ends)) == word[..At(ends)]
    ensures |PieceIds(v, word, ends)| == |Pieces(v, word, ends)| == |ends|
  {
    hide Flatten;
    if ends == [] {
      assert Flatten<char>([]) == [] by {
        FlattenNothing();
      }
    } else {
      PiecesMakeWord(v, word, Front(ends));
      var last := word[At(Front(ends))..At(ends)];
      FlattenSnoc(Pieces(v, word, Front(ends)), last);
      assert word[..At(ends)] == word[..At(Front(ends))] + last;
    }
  }

  lemma FlattenNothing()
    ensures Flatten<char>([]) == []
  {
  }

  lemma LongestIsUnique(v: Vocabulary, word: string, start: int, a: int, b: int)
    requires IsLongest(v, word, start, a) && IsLongest(v, word, start, b)
    ensures a == b
  {
  }

  /** Greedy cutting is deterministic: one cutting is the beginning of the other. */
  lemma {:induction false} CutsAgree(v: Vocabulary, word: string, a: seq<int>, b: seq<int>)
    requires IsGreedyUpto(v, word, a) && IsGreedyUpto(v, word, b) && |a| <= |b|
    ensures a == b[..|a|]
    decreases |b|
  {
    hide IsLongest;
    if a != [] {
      if |a| < |b| {
        CutsAgree(v, word, a, Front(b));
      } else {
        CutsAgree(v, word, Front(a), Front(b));
        LongestIsUnique(v, word, At(Front(a)), At(a), At(b));
        assert a == Front(a) + [At(a)] && b == Front(b) + [At(b)];
      }
    }
  }

  lemma {:induction false} PrefixIsGreedy(v: Vocabulary, word: string, ends: seq<int>, n: nat)
    requires IsGreedyUpto(v, word, ends) && n <= |ends|
    ensures IsGreedyUpto(v, word, ends[..n])
    decreases |ends|
  {
    hide IsLongest;
    if n < |ends| {
      PrefixIsGreedy(v, word, Front(ends), n);
      assert Front(ends)[..n] == ends[..n];
    } else {
      assert ends[..n] == ends;
    }
  }

  /** A cutting that stops short is continued by a longest piece in any complete one. */
  lemma GreedyGoesOn(v: Vocabulary, word: string, ends: seq<int>, whole: seq<int>)
    requires IsGreedyUpto(v, word, ends) && IsGreedy(v, word, whole)
    ensures |ends| <= |whole| && ends == whole[..|ends|]
    ensures |ends| < |whole| ==> IsLongest(v, word, At(ends), whole[|ends|])
    ensures |ends| == |whole| ==> ends == whole
  {
    hide IsLongest;
    if |ends| > |whole| {
      CutsAgree(v, word, whole, ends);
      PrefixIsGreedy(v, word, ends, |whole| + 1);
      var longer := ends[..|whole| + 1];
      assert Front(longer) == whole;
      LongestIsLonger(v, word, At(whole), At(longer));
      assert false;
    } else {
      CutsAgree(v, word, ends, whole);
      if |ends| < |whole| {
        PrefixIsGreedy(v, word, whole, |ends| + 1);
        assert Front(whole[..|ends| + 1]) == ends;
      }
    }
  }

  lemma LongestIsLonger(v: Vocabulary, word: string, start: int, end: int)
    requires IsLongest(v, word, start, end)
    ensures start < end <= |word|
  {
  }

  lemma GreedyIsUnique(v: Vocabulary, word: string, a: seq<int>, b: seq<int>)
    requires IsGreedy(v, word, a) && IsGreedy(v, word, b)
    ensures a == b
  {
    hide IsLongest, IsGreedyUpto;
    GreedyGoesOn(v, word, a, b);
    GreedyGoesOn(v, word, b, a);
  }

  /** The ids of a word: those of its greedy pieces, or one UNK if it is too long or cannot be cut. */
  ghost predicate IsTokens(v: Vocabulary, word: string, ids: seq<int>) {
    if |word| <= MAX_WORD_CHARS && exists ends :: IsGreedy(v, word, ends)
    then exists ends :: IsGreedy(v, word, ends) && ids == PieceIds(v, word, ends)
    else ids == [UNK]
  }

  ghost function Tokens(v: Vocabulary, word: string): (ids: seq<int>)
    ensures IsTokens(v, word, ids)
  {
    if |word| <= MAX_WORD_CHARS && exists ends :: IsGreedy(v, word, ends) then
      var ends :| IsGreedy(v, word, ends);
      PieceIds(v, word, ends)
    else [UNK]
  }

  lemma TokensAreUnique(v: Vocabulary, word: string, ids: seq<int>)
    requires IsTokens(v, word, ids)
    ensures ids == Tokens(v, word)
  {
    hide IsGreedyUpto, PieceIds;
    if |word| <= MAX_WORD_CHARS && exists ends :: IsGreedy(v, word, ends) {
      var a :| IsGreedy(v, word, a) && ids == PieceIds(v, word, a);
      var b :| IsGreedy(v, word, b) && Tokens(v, word) == PieceIds(v, word, b);
      GreedyIsUnique(v, word, a, b);
    }
  }

  // ----- what the tokens of a word are -----

  /** The piece from `start` to `end` has this id, and no longer one from `start` is in the vocabulary. */
  predicate IsPiece(pieces: map<string, int>, word: string, start: int, end: int, id: int) {
    && 0 <= start < end <= |word|
    && word[start..end] in pieces && pieces[word[start..end]] == id
    && forall e :: end < e <= |word| ==> word[start..e] !in pieces
  }

  /** Pieces one after the other: the first a longest one that begins words, every later one a longest that continues them. */
  predicate ArePieces(v: Vocabulary, word: string, ends: seq<int>, ids: seq<int>) {
    && |ids| == |ends|
    && (ends != [] ==> IsPiece(v.initial, word, 0, ends[0], ids[0]))
    && forall k :: 1 <= k < |ends| ==> IsPiece(v.continuation, word, ends[k - 1], ends[k], ids[k])
  }

  /** The pieces make up the whole word. */
  ghost predicate IsCutting(v: Vocabulary, word: string, ends: seq<int>, ids: seq<int>) {
    && ArePieces(v, word, ends, ids)
    && if word == [] then ends == [] else ends != [] && ends[|ends| - 1] == |word|
  }

  ghost predicate CanBeCut(v: Vocabulary, word: string) {
    exists ends, ids :: IsCutting(v, word, ends, ids)
  }

  lemma {:induction false} GreedyIsPieces(v: Vocabulary, word: string, ends: seq<int>, ids: seq<int>)
    ensures ArePieces(v, word, ends, ids) <==> IsGreedyUpto(v, word, ends) && ids == PieceIds(v, word, ends)
    decreases |ends|
  {
    if IsGreedyUpto(v, word, ends) {
      PiecesMakeWord(v, word, ends);
    }
    if ends != [] && |ids| == |ends| {
      var n := |ends| - 1;
      GreedyIsPieces(v, word, Front(ends), ids[..|ids| - 1]);
      assert ends == Front(ends) + [ends[n]] && ids == ids[..|ids| - 1] + [ids[|ids| - 1]];
      PiecesSnoc(v, word, ends, ids);
    }
  }

  lemma PiecesSnoc(v: Vocabulary, word: string, ends: seq<int>, ids: seq<int>)
    requires ends != [] && |ids| == |ends|
    ensures ArePieces(v, word, ends, ids) <==>
            && ArePieces(v, word, Front(ends), ids[..|ids| - 1])
            && IsPiece(if |ends| == 1 then v.initial else v.continuation, word, At(Front(ends)), At(ends), ids[|ids| - 1])
  {
    hide IsPiece;
    var front, fewer := Front(ends), ids[..|ids| - 1];
    if ArePieces(v, word, front, fewer) && IsPiece(if |ends| == 1 then v.initial else v.continuation, word, At(front), At(ends), ids[|ids| - 1]) {
      forall k | 1 <= k < |ends| ensures IsPiece(v.continuation, word, ends[k - 1], ends[k], ids[k]) {
        if k < |ends| - 1 {
          assert IsPiece(v.continuation, word, front[k - 1], front[k], fewer[k]);
        }
      }
      if |ends| > 1 {
        assert IsPiece(v.initial, word, 0, front[0], fewer[0]);
      }
    }
    if ArePieces(v, word, ends, ids) {
      forall k | 1 <= k < |front| ensures IsPiece(v.continuation, word, front[k - 1], front[k], fewer[k]) {
        assert IsPiece(v.continuation, word, ends[k - 1], ends[k], ids[k]);
      }
    }
  }

  /** The tokens are the ids of the one cutting, or 100 when the word is too long or has none. */
  lemma TokensAreCutting(v: Vocabulary, word: string, ids: seq<int>)
    ensures ids == Tokens(v, word) <==>
            if |word| <= 100 && CanBeCut(v, word) then exists ends :: IsCutting(v, word, ends, ids) else ids == [100]
  {
    hide IsGreedyUpto, IsCutting, PieceIds, Tokens;
    if ends, out :| IsCutting(v, word, ends, out) {
      CuttingIsGreedy(v, word, ends, out);
    }
    if ends :| IsGreedy(v, word, ends) {
      CuttingIsGreedy(v, word, ends, PieceIds(v, word, ends));
      assert CanBeCut(v, word);
      if exists other :: IsCutting(v, word, other, ids) {
        var other :| IsCutting(v, word, other, ids);
        CuttingIsGreedy(v, word, other, ids);
      }
      if |word| <= MAX_WORD_CHARS {
        GreedyTokens(v, word, ends);
      }
    }
    if IsTokens(v, word, ids) {
      TokensAreUnique(v, word, ids);
    }
  }

  lemma GreedyTokens(v: Vocabulary, word: string, ends: seq<int>)
    requires IsGreedy(v, word, ends) && |word| <= MAX_WORD_CHARS
    ensures Tokens(v, word) == PieceIds(v, word, ends) && IsCutting(v, word, ends, Tokens(v, word))
  {
    hide IsGreedyUpto, PieceIds, Tokens, IsCutting;
    TokensAreUnique(v, word, PieceIds(v, word, ends));
    CuttingIsGreedy(v, word, ends, PieceIds(v, word, ends));
  }

  lemma CuttingIsGreedy(v: Vocabulary, word: string, ends: seq<int>, ids: seq<int>)
    ensures IsCutting(v, word, ends, ids) <==> IsGreedy(v, word, ends) && ids == PieceIds(v, word, ends)
  {
    hide IsGreedyUpto, ArePieces, PieceIds;
    GreedyIsPieces(v, word, ends, ids);
    if ends != [] && ArePieces(v, word, ends, ids) {
      PiecesReachForward(v, word, ends, ids);
    }
  }

  lemma PiecesReachForward(v: Vocabulary, word: string, ends: seq<int>, ids: seq<int>)
    requires ends != [] && ArePieces(v, word, ends, ids)
    ensures 0 < ends[|ends| - 1] <= |word|
  {
    if |ends| > 1 {
      assert IsPiece(v.continuation, word, ends[|ends| - 2], ends[|ends| - 1], ids[|ids| - 1]);
    }
  }

  /** When 100 is kept for unknown words it says exactly that a word is one. */
  lemma UnknownExactly(v: Vocabulary, word: string)
    requires 100 !in v.initial.Values
    ensures Tokens(v, word) == [100] <==> |word| > 100 || !CanBeCut(v, word)
  {
    hide IsCutting, Tokens;
    TokensAreCutting(v, word, Tokens(v, word));
    if |word| <= 100 && CanBeCut(v, word) {
      var ends :| IsCutting(v, word, ends, Tokens(v, word));
      if Tokens(v, word) != [] {
        FirstIsInitial(v, word, ends, Tokens(v, word));
      }
    }
  }

  lemma FirstIsInitial(v: Vocabulary, word: string, ends: seq<int>, ids: seq<int>)
    requires IsCutting(v, word, ends, ids) && ids != []
    ensures ids[0] in v.initial.Values
  {
  }

  ghost function AllTokens(v: Vocabulary, words: seq<string>): seq<int> {
    if words == [] then [] else AllTokens(v, words[..|words| - 1]) + Tokens(v, words[|words| - 1])
  }

  lemma AllTokensSnoc(v: Vocabulary, words: seq<string>, word: string)
    ensures AllTokens(v, words + [word]) == AllTokens(v, words) + Tokens(v, word)
  {
    assert (words + [word])[..|words|] == words;
  }

  /** The batch definition. */
  ghost function Encoded(t: Tables, v: Vocabulary, text: string): seq<int> {
    [CLS] + AllTokens(v, SplitWords(Normalised(t, text))) + [SEP]
  }

  // ----- special tokens -----

  predicate Contains(text: string, token: string) {
    exists i :: 0 <= i < |text| && StandsAt(text, token, i)
  }

  predicate StandsAt(text: string, token: string, i: nat) {
    i + |token| <= |text| && text[i..i + |token|] == token
  }

  const SPECIAL_TOKENS: seq<string> := ["[PAD]", "[UNK]", "[CLS]", "[SEP]", "[MASK]"]

  lemma SpecialTokensInside(text: string)
    ensures HoldsSpecialToken(text) <==> exists token, before, after :: token in SPECIAL_TOKENS && text == before + token + after
  {
    forall token | token in SPECIAL_TOKENS
      ensures Contains(text, token) <==> exists before, after :: text == before + token + after
    {
      ContainsExactly(text, token);
    }
  }

  lemma ContainsExactly(text: string, token: string)
    requires token != ""
    ensures Contains(text, token) <==> exists before, after :: text == before + token + after
  {
    if i :| 0 <= i < |text| && StandsAt(text, token, i) {
      assert text == text[..i] + token + text[i + |token|..];
    }
    if before, after :| text == before + token + after {
      assert text[|before|..|before| + |token|] == token;
      assert StandsAt(text, token, |before|);
    }
  }

  predicate HoldsSpecialToken(text: string) {
    exists token :: token in ["[PAD]", "[UNK]", "[CLS]", "[SEP]", "[MASK]"] && Contains(text, token)
  }

  // ----- one pass -----

  /** The shared word buffer and id vector of one encoding. */
  class Encoder {
    const t: Tables
    const v: Vocabulary
    var word: string
    var ids: seq<int>
    ghost var fed: string

    constructor (t: Tables, v: Vocabulary)
      ensures this.t == t && this.v == v && Valid() && fed == []
    {
      this.t, this.v := t, v;
      word, ids, fed := [], [CLS], [];
    }

    /** The buffer and the ids are those of the normalised characters fed so far. */
    ghost predicate Valid()
      reads this
    {
      word == Pending(fed) && ids == [CLS] + AllTokens(v, Done(fed))
    }

    /** Greedy longest match; on failure everything this word pushed is taken back. */
    method TokenizeWord(text: string)
      modifies this`ids
      ensures ids == old(ids) + Tokens(v, text)
      ensures |old(ids)| <= |ids| && ids[..|old(ids)|] == old(ids)
      ensures var word := ids[|old(ids)|..];
              if |text| <= 100 && CanBeCut(v, text) then exists ends :: IsCutting(v, text, ends, word) else word == [100]
    {
      TokensAreCutting(v, text, Tokens(v, text));
      hide IsLongest, IsGreedyUpto, PieceIds, IsTokens, Tokens, CanBeCut, IsCutting;
      if |text| > MAX_WORD_CHARS {
        ids := ids + [UNK];
        UnknownWord(v, text);
        return;
      }
      var outputStart := |ids|;
      var start := 0;
      ghost var ends: seq<int> := [];
      NoPieces(v, text);
      while start < |text|
        invariant 0 <= start <= |text| && At(ends) == start
        invariant IsGreedyUpto(v, text, ends) && ids == old(ids) + PieceIds(v, text, ends)
        decreases |text| - start
      {
        var pieces := PiecesAt(v, start);
        var end := |text|;
        while end > start && text[start..end] !in pieces
          invariant start <= end <= |text|
          invariant forall e :: end < e <= |text| ==> text[start..e] !in pieces
        {
          end := end - 1;
        }
        if end == start {
          ids := ids[..outputStart];
          assert ids == old(ids);
          ids := ids + [UNK];
          StuckWord(v, text, ends);
          return;
        }
        PieceSnoc(v, text, ends, end);
        ids := ids + [pieces[text[start..end]]];
        ends := ends + [end];
        start := end;
      }
      CutWord(v, text, ends);
    }

    method FlushWord()
      requires Valid()
      modifies this
      ensures Valid() && fed == old(fed) + [' '] && word == []
    {
      hide AllTokens, Tokens;
      if word != [] {
        TokenizeWord(word);
        AllTokensSnoc(v, Done(fed), word);
        AppendAssoc([CLS], AllTokens(v, Done(fed)), Tokens(v, word));
        word := [];
      } else {
        assert Done(fed) + [] == Done(fed);
      }
      fed := fed + [' '];
      assert fed[..|fed| - 1] == old(fed);
    }

    method Push(c: char)
      requires Valid() && c != ' '
      modifies this
      ensures Valid() && fed == old(fed) + [c]
    {
      word := word + [c];
      fed := fed + [c];
      assert fed[..|fed| - 1] == old(fed);
    }

    method PushIsolated(c: char)
      requires Valid() && c != ' '
      modifies this
      ensures Valid() && fed == old(fed) + [' ', c, ' ']
    {
      hide Valid;
      ghost var before := fed;
      FlushWord();
      Push(c);
      FlushWord();
      assert fed == before + [' ', c, ' '];
    }

    /** One character of the lower-cased expansion. */
    method PushLowercase(l: char)
      requires Valid() && Lawful(t)
      modifies this
      ensures Valid()
      ensures fed == old(fed) + if !IsAsciiControl(l) then IsolateOne(t, l) else if IsLineSpace(l) then [' '] else []
    {
      hide AllTokens, Done, Pending;
      if IsAscii(l) {
        if IsAsciiControl(l) {
          if IsLineSpace(l) {
            FlushWord();
          }
        } else if l == ' ' {
          FlushWord();
        } else if IsAsciiPunctuation(l) {
          PushIsolated(l);
        } else {
          Push(l);
        }
      } else if IsBertPunctuation(t, l) {
        PushIsolated(l);
      } else if t.isWhitespace(l) {
        FlushWord();
      } else {
        Push(l);
      }
    }

    method PushNormalizedCharacter(c: char)
      requires Valid() && Lawful(t) && !IsAscii(c)
      modifies this
      ensures Valid() && fed == old(fed) + Finish(t, t.nfd(c))
    {
      hide Valid, Finish, IsolateOne, Lawful;
      var decomposed := t.nfd(c);
      FinishNothing(t);
      for i := 0 to |decomposed|
        invariant Valid() && fed == old(fed) + Finish(t, decomposed[..i])
      {
        var d := decomposed[i];
        assert decomposed[..i + 1] == decomposed[..i] + [d];
        FinishAppend(t, decomposed[..i], [d]);
        FinishOne(t, d);
        if !t.isMark(d) {
          forall l | l in t.lower(d) ensures !IsAsciiControl(l) {
            ExpandsToNoControl(t, c, d, l);
          }
          PushAllLowercase(t.lower(d));
        }
      }
      assert decomposed[..|decomposed|] == decomposed;
    }

    method PushAllLowercase(lower: string)
      requires Valid() && Lawful(t) && forall l :: l in lower ==> !IsAsciiControl(l)
      modifies this
      ensures Valid() && fed == old(fed) + Isolate(t, lower)
    {
      hide Valid, Lawful, IsolateOne, Isolate;
      IsolateNothing(t);
      for j := 0 to |lower|
        invariant Valid() && fed == old(fed) + Isolate(t, lower[..j])
      {
        PushLowercase(lower[j]);
        assert lower[..j + 1] == lower[..j] + [lower[j]];
        IsolateSnoc(t, lower[..j], lower[j]);
      }
      assert lower[..|lower|] == lower;
    }

    /** One input character, by its class. */
    method PushCharacter(c: char)
      requires Valid() && Lawful(t)
      modifies this
      ensures Valid() && fed == old(fed) + Normalised(t, [c])
    {
      hide Valid, Lawful, Normalised, Finish;
      NormalisedOne(t, c);
      if IsAscii(c) {
        if IsAsciiControl(c) {
          if IsLineSpace(c) {
            FlushWord();
          }
        } else if c == ' ' {
          FlushWord();
        } else if IsAsciiPunctuation(c) {
          PushIsolated(c);
        } else {
          Push(AsciiLower(c));
        }
      } else if IsRemovedControl(t, c) {
      } else if IsBertWhitespace(t, c) {
        FlushWord();
      } else if IsChinese(c) {
        FlushWord();
        PushNormalizedCharacter(c);
        FlushWord();
      } else {
        PushNormalizedCharacter(c);
      }
    }

    /** The encoding of a text without literal special tokens. */
    method Run(text: string)
      requires Valid() && Lawful(t) && fed == []
      modifies this
      ensures ids == Encoded(t, v, text)
    {
      hide Normalised, Lawful, Done, Pending, AllTokens;
      assert Normalised(t, []) == [] by {
        NormalisedNothing(t);
      }
      for i := 0 to |text|
        invariant Valid() && fed == Normalised(t, text[..i])
      {
        assert text[..i + 1] == text[..i] + [text[i]];
        NormalisedAppend(t, text[..i], [text[i]]);
        PushCharacter(text[i]);
      }
      assert text[..|text|] == text;
      FlushWord();
      SplitAtEnd(Normalised(t, text));
      ids := ids + [SEP];
    }
  }

  /** Inputs with a literal special token go to the reference tokenizer. */
  method Encode(t: Tables, v: Vocabulary, reference: string -> Option<seq<int>>, text: string) returns (r: Option<seq<int>>)
    requires Lawful(t)
    ensures r == if HoldsSpecialToken(text) then reference(text) else Some(Encoded(t, v, text))
    ensures (exists token, before, after :: token in SPECIAL_TOKENS && text == before + token + after) ==> r == reference(text)
    ensures (forall token, before, after :: token in SPECIAL_TOKENS ==> text != before + token + after) ==>
              r.Some? && r.value == [101] + AllTokens(v, SplitWords(Normalised(t, text))) + [102]
  {
    SpecialTokensInside(text);
    assert Encoded(t, v, text) == [101] + AllTokens(v, SplitWords(Normalised(t, text))) + [102];
    hide Lawful, Encoded;
    if HoldsSpecialToken(text) {
      return reference(text);
    }
    var encoder := new Encoder(t, v);
    encoder.Run(text);
    return Some(encoder.ids);
  }

  // ----- steps of the pass -----

  lemma NormalisedNothing(t: Tables)
    ensures Normalised(t, []) == []
  {
  }

  lemma FinishNothing(t: Tables)
    ensures Finish(t, []) == []
  {
  }

  lemma IsolateNothing(t: Tables)
    ensures Isolate(t, []) == []
  {
  }

  lemma IsolateSnoc(t: Tables, text: string, c: char)
    ensures Isolate(t, text + [c]) == Isolate(t, text) + IsolateOne(t, c)
  {
    assert (text + [c])[..|text|] == text;
  }

  lemma FinishOne(t: Tables, d: char)
    ensures Finish(t, [d]) == if t.isMark(d) then [] else Isolate(t, t.lower(d))
  {
    ExpandOne(c => StripOne(t, c), d);
    if !t.isMark(d) {
      ExpandOne(t.lower, d);
    }
  }

  lemma ExpandsToNoControl(t: Tables, c: char, d: char, l: char)
    requires Lawful(t) && !IsAscii(c) && d in t.nfd(c) && !t.isMark(d) && l in t.lower(d)
    ensures !IsAsciiControl(l)
  {
  }

  lemma FinishAscii(t: Tables, c: char)
    requires Lawful(t) && IsAscii(c)
    ensures t.nfd(c) == [c] && Finish(t, [c]) == IsolateOne(t, AsciiLower(c))
  {
    FinishOne(t, c);
    ExpandOne(x => IsolateOne(t, x), AsciiLower(c));
  }

  /** The passes over one character. */
  lemma NormalisedOne(t: Tables, c: char)
    requires Lawful(t)
    ensures Normalised(t, [c]) ==
            if IsAscii(c) then
              if IsAsciiControl(c) then (if IsLineSpace(c) then [' '] else [])
              else if c == ' ' then [' ']
              else if IsAsciiPunctuation(c) then [' ', c, ' ']
              else [AsciiLower(c)]
            else if IsRemovedControl(t, c) then []
            else if IsBertWhitespace(t, c) then [' ']
            else if IsChinese(c) then [' '] + Finish(t, t.nfd(c)) + [' ']
            else Finish(t, t.nfd(c))
  {
    hide Finish, Normalised, Decompose, SpaceChinese, Expand, IsChinese;
    NormalisedIs(t, [c]);
    ExpandOne(x => CleanOne(t, x), c);
    if CleanOne(t, c) == [] {
      assert Clean(t, [c]) == [];
      PassesOverNothing(t);
    } else if CleanOne(t, c) == [' '] && c != ' ' {
      assert Clean(t, [c]) == [' '];
      AsciiPasses(t, ' ');
      assert IsBertWhitespace(t, c) && !IsRemovedControl(t, c);
      assert IsAscii(c) ==> IsLineSpace(c);
    } else if IsAscii(c) {
      AsciiPasses(t, c);
    } else {
      OtherPasses(t, c);
    }
  }

  /** The same in plain code points: what the whole normalisation makes of one character. */
  lemma NormalisedInPlain(t: Tables, c: char)
    requires Lawful(t)
    ensures c as int < 128 ==>
              Normalised(t, [c]) ==
              if c in "\t\n\r " then [' ']
              else if c as int < 32 || c as int == 127 then []
              else if c in "!\"#$%&'()*+,-./:;<=>?@[\\]^_`{|}~" then [' ', c, ' ']
              else [AsciiLower(c)]
    ensures c as int >= 128 ==>
              Normalised(t, [c]) ==
              if c as int == 0xfffd || t.isOther(c) then []
              else if t.isWhitespace(c) then [' ']
              else if exists block <- CHINESE_BLOCKS :: block.0 <= c as int <= block.1 then [' '] + Finish(t, t.nfd(c)) + [' ']
              else Finish(t, t.nfd(c))
  {
    hide Finish, Normalised, IsAsciiPunctuation, IsChinese, CHINESE_BLOCKS;
    NormalisedOne(t, c);
    PunctuationExactly(c);
    ChineseExactly(c);
  }

  /** What decomposition and lower-casing of another character give, one by one: marks go, punctuation stands alone. */
  lemma FinishedInPlain(t: Tables, d: char, l: char)
    ensures t.isMark(d) ==> Finish(t, [d]) == ""
    ensures !t.isMark(d) ==> Finish(t, [d]) == Isolate(t, t.lower(d))
    ensures Isolate(t, [l]) ==
            if t.isWhitespace(l) then [' ']
            else if l in "!\"#$%&'()*+,-./:;<=>?@[\\]^_`{|}~" || t.isPunctuation(l) then [' ', l, ' ']
            else [l]
  {
    hide Finish, IsAsciiPunctuation;
    FinishOne(t, d);
    ExpandOne(c => IsolateOne(t, c), l);
    PunctuationExactly(l);
  }

  /** There are such tables, and they may have control characters above ASCII. */
  lemma LawfulTables() returns (t: Tables)
    ensures Lawful(t) && t.isOther(0x80 as char)
  {
    hide AsciiLower;
    t := Tables(Unchanged, LowerLetter, c => false, c => IsAsciiControl(c) || 0x80 <= c as int <= 0x9f,
                c => c == ' ' || 9 <= c as int <= 13, IsAsciiPunctuation);
    forall c | IsAsciiControl(AsciiLower(c)) ensures IsAscii(c) {
      LowersToControl(c);
    }
  }

  function Unchanged(c: char): string { [c] }

  function LowerLetter(c: char): string { [AsciiLower(c)] }

  lemma LowersToControl(c: char)
    ensures IsAsciiControl(AsciiLower(c)) ==> IsAscii(c)
  {
  }

  lemma NormalisedIs(t: Tables, text: string)
    ensures Normalised(t, text) == Finish(t, Decompose(t, SpaceChinese(Clean(t, text))))
  {
  }

  lemma PassesOverNothing(t: Tables)
    ensures Decompose(t, SpaceChinese([])) == [] && Finish(t, []) == []
  {
  }

  lemma AsciiPasses(t: Tables, c: char)
    requires Lawful(t) && IsAscii(c) && !IsAsciiControl(c)
    ensures Finish(t, Decompose(t, SpaceChinese([c]))) ==
            if c == ' ' then [' '] else if IsAsciiPunctuation(c) then [' ', c, ' '] else [AsciiLower(c)]
  {
    hide Finish;
    ExpandOne(SpaceOne, c);
    ExpandOne(t.nfd, c);
    FinishAscii(t, c);
  }

  lemma OtherPasses(t: Tables, c: char)
    requires Lawful(t) && !IsAscii(c)
    ensures Finish(t, Decompose(t, SpaceChinese([c]))) ==
            if IsChinese(c) then [' '] + Finish(t, t.nfd(c)) + [' '] else Finish(t, t.nfd(c))
  {
    hide Finish;
    ExpandOne(SpaceOne, c);
    ExpandOne(t.nfd, c);
    if IsChinese(c) {
      ExpandAppend(t.nfd, [' '], [c]);
      ExpandAppend(t.nfd, [' '] + [c], [' ']);
      ExpandOne(t.nfd, ' ');
      FinishAscii(t, ' ');
      FinishAppend(t, [' '], t.nfd(c));
      FinishAppend(t, [' '] + t.nfd(c), [' ']);
      assert [' ', c, ' '] == [' '] + [c] + [' '];
    }
  }

  lemma SplitAtEnd(s: string)
    ensures Done(s + [' ']) == SplitWords(s)
  {
    assert (s + [' '])[..|s|] == s;
  }

  // ----- steps of a word -----

  lemma NoPieces(v: Vocabulary, word: string)
    ensures IsGreedyUpto(v, word, []) && PieceIds(v, word, []) == []
  {
  }

  lemma UnknownWord(v: Vocabulary, word: string)
    requires |word| > MAX_WORD_CHARS
    ensures Tokens(v, word) == [UNK]
  {
  }

  lemma PieceSnoc(v: Vocabulary, word: string, ends: seq<int>, end: int)
    requires IsGreedyUpto(v, word, ends) && 0 <= At(ends) < end <= |word| && word[At(ends)..end] in PiecesAt(v, At(ends))
    requires forall e :: end < e <= |word| ==> word[At(ends)..e] !in PiecesAt(v, At(ends))
    ensures IsGreedyUpto(v, word, ends + [end])
    ensures PieceIds(v, word, ends + [end]) == PieceIds(v, word, ends) + [PiecesAt(v, At(ends))[word[At(ends)..end]]]
  {
    assert Front(ends + [end]) == ends;
  }

  lemma CutWord(v: Vocabulary, word: string, ends: seq<int>)
    requires |word| <= MAX_WORD_CHARS && IsGreedyUpto(v, word, ends) && At(ends) == |word|
    ensures PieceIds(v, word, ends) == Tokens(v, word)
  {
    hide IsGreedyUpto, PieceIds;
    assert IsGreedy(v, word, ends);
    TokensAreUnique(v, word, PieceIds(v, word, ends));
  }

  /** Where no piece starts, no greedy cutting gets past. */
  lemma StuckWord(v: Vocabulary, word: string, ends: seq<int>)
    requires IsGreedyUpto(v, word, ends) && 0 <= At(ends) < |word|
    requires forall e :: At(ends) < e <= |word| ==> word[At(ends)..e] !in PiecesAt(v, At(ends))
    ensures Tokens(v, word) == [UNK]
  {
    hide IsGreedyUpto, PieceIds;
    forall whole ensures !IsGreedy(v, word, whole) {
      if IsGreedy(v, word, whole) {
        GreedyGoesOn(v, word, ends, whole);
      }
    }
  }
}
