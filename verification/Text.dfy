/** White space, words and visible characters of a text, for any notion of white space. */
module Text {
  import opened Common

  /** The notion of white space: the chunker's separators are white space, brackets and full stops are not. */
  ghost predicate Lawful(ws: char -> bool) {
    ws(' ') && ws('\n') && !ws('[') && !ws(']') && !ws('.') && !ws('!') && !ws('?')
  }

  ghost predicate Blank(ws: char -> bool, s: string) {
    forall i :: 0 <= i < |s| ==> ws(s[i])
  }

  // ----- visible characters -----

  /** The characters among the first `n` that are not white space, in order. */
  ghost function InkUpTo(ws: char -> bool, s: string, n: nat): string
    requires n <= |s|
  {
    if n == 0 then "" else InkUpTo(ws, s, n - 1) + if ws(s[n - 1]) then "" else [s[n - 1]]
  }

  ghost function Ink(ws: char -> bool, s: string): string {
    InkUpTo(ws, s, |s|)
  }

  lemma {:induction false} InkOfPrefix(ws: char -> bool, a: string, b: string, n: nat)
    requires n <= |a|
    ensures InkUpTo(ws, a + b, n) == InkUpTo(ws, a, n)
  {
    if n > 0 {
      InkOfPrefix(ws, a, b, n - 1);
    }
  }

  lemma {:induction false} InkAppendUpTo(ws: char -> bool, a: string, b: string, n: nat)
    requires n <= |b|
    ensures InkUpTo(ws, a + b, |a| + n) == Ink(ws, a) + InkUpTo(ws, b, n)
  {
    if n == 0 {
      InkOfPrefix(ws, a, b, |a|);
    } else {
      InkAppendUpTo(ws, a, b, n - 1);
    }
  }

  lemma InkAppend(ws: char -> bool, a: string, b: string)
    ensures Ink(ws, a + b) == Ink(ws, a) + Ink(ws, b)
  {
    InkAppendUpTo(ws, a, b, |b|);
  }

  lemma {:induction false} BlankHasNoInkUpTo(ws: char -> bool, s: string, n: nat)
    requires n <= |s| && forall i :: 0 <= i < n ==> ws(s[i])
    ensures InkUpTo(ws, s, n) == ""
  {
    if n > 0 {
      BlankHasNoInkUpTo(ws, s, n - 1);
    }
  }

  lemma BlankHasNoInk(ws: char -> bool, s: string)
    requires Blank(ws, s)
    ensures Ink(ws, s) == ""
  {
    BlankHasNoInkUpTo(ws, s, |s|);
  }

  // ----- words -----

  /** A maximal run of visible characters starts at `i`. */
  predicate WordStarts(ws: char -> bool, s: string, i: nat)
    requires i < |s|
  {
    !ws(s[i]) && (i == 0 || ws(s[i - 1]))
  }

  function WordsUpTo(ws: char -> bool, s: string, n: nat): nat
    requires n <= |s|
  {
    if n == 0 then 0 else WordsUpTo(ws, s, n - 1) + if WordStarts(ws, s, n - 1) then 1 else 0
  }

  /** How many words splitting on white space gives. */
  function WordCount(ws: char -> bool, s: string): nat {
    WordsUpTo(ws, s, |s|)
  }

  lemma {:induction false} WordsOfPrefix(ws: char -> bool, s: string, cut: nat, n: nat)
    requires n <= cut <= |s|
    ensures WordsUpTo(ws, s[..cut], n) == WordsUpTo(ws, s, n)
  {
    if n > 0 {
      WordsOfPrefix(ws, s, cut, n - 1);
    }
  }

  lemma {:induction false} WordsMonotone(ws: char -> bool, s: string, a: nat, b: nat)
    requires a <= b <= |s|
    ensures WordsUpTo(ws, s, a) <= WordsUpTo(ws, s, b)
  {
    if a < b {
      WordsMonotone(ws, s, a, b - 1);
    }
  }

  /** Words are counted separately on both sides of a place where white space ends or begins. */
  ghost predicate Separated(ws: char -> bool, a: string, b: string) {
    a == "" || b == "" || ws(a[|a| - 1]) || ws(b[0])
  }

  lemma {:induction false} WordsAppendUpTo(ws: char -> bool, a: string, b: string, n: nat)
    requires n <= |b| && Separated(ws, a, b)
    ensures WordsUpTo(ws, a + b, |a| + n) == WordCount(ws, a) + WordsUpTo(ws, b, n)
  {
    if n == 0 {
      assert (a + b)[..|a|] == a;
      WordsOfPrefix(ws, a + b, |a|, |a|);
    } else {
      WordsAppendUpTo(ws, a, b, n - 1);
    }
  }

  lemma WordsAppend(ws: char -> bool, a: string, b: string)
    requires Separated(ws, a, b)
    ensures WordCount(ws, a + b) == WordCount(ws, a) + WordCount(ws, b)
  {
    WordsAppendUpTo(ws, a, b, |b|);
  }

  lemma {:induction false} BlankHasNoWordsUpTo(ws: char -> bool, s: string, n: nat)
    requires n <= |s| && forall i :: 0 <= i < n ==> ws(s[i])
    ensures WordsUpTo(ws, s, n) == 0
  {
    if n > 0 {
      BlankHasNoWordsUpTo(ws, s, n - 1);
    }
  }

  lemma BlankHasNoWords(ws: char -> bool, s: string)
    requires Blank(ws, s)
    ensures WordCount(ws, s) == 0
  {
    BlankHasNoWordsUpTo(ws, s, |s|);
  }

  // ----- trimming -----

  function LeadingBlanks(ws: char -> bool, s: string, from: nat): (n: nat)
    requires from <= |s|
    ensures from <= n <= |s|
    ensures forall i :: from <= i < n ==> ws(s[i])
    ensures n < |s| ==> !ws(s[n])
    decreases |s| - from
  {
    if from < |s| && ws(s[from]) then LeadingBlanks(ws, s, from + 1) else from
  }

  function TrailingEnd(ws: char -> bool, s: string, to: nat): (n: nat)
    requires to <= |s|
    ensures n <= to
    ensures forall i :: n <= i < to ==> ws(s[i])
    ensures n > 0 ==> !ws(s[n - 1])
  {
    if to > 0 && ws(s[to - 1]) then TrailingEnd(ws, s, to - 1) else to
  }

  function TrimStart(ws: char -> bool, s: string): string {
    s[LeadingBlanks(ws, s, 0)..]
  }

  function TrimEnd(ws: char -> bool, s: string): string {
    s[..TrailingEnd(ws, s, |s|)]
  }

  function Trim(ws: char -> bool, s: string): string {
    TrimEnd(ws, TrimStart(ws, s))
  }

  /** Trimming the end drops white space only. */
  lemma TrimEndKeeps(ws: char -> bool, s: string)
    ensures Ink(ws, TrimEnd(ws, s)) == Ink(ws, s) && WordCount(ws, TrimEnd(ws, s)) == WordCount(ws, s)
    ensures TrimEnd(ws, s) <= s && Blank(ws, s[|TrimEnd(ws, s)|..])
    ensures TrimEnd(ws, s) != "" ==> !ws(TrimEnd(ws, s)[|TrimEnd(ws, s)| - 1])
  {
    var end := TrailingEnd(ws, s, |s|);
    assert s == s[..end] + s[end..];
    InkAppend(ws, s[..end], s[end..]);
    WordsAppend(ws, s[..end], s[end..]);
    BlankHasNoInk(ws, s[end..]);
    BlankHasNoWords(ws, s[end..]);
  }

  lemma TrimStartKeeps(ws: char -> bool, s: string)
    ensures Ink(ws, TrimStart(ws, s)) == Ink(ws, s) && WordCount(ws, TrimStart(ws, s)) == WordCount(ws, s)
    ensures TrimStart(ws, s) != "" ==> !ws(TrimStart(ws, s)[0])
    ensures |TrimStart(ws, s)| <= |s| && Blank(ws, s[..|s| - |TrimStart(ws, s)|])
  {
    var start := LeadingBlanks(ws, s, 0);
    assert s == s[..start] + s[start..];
    InkAppend(ws, s[..start], s[start..]);
    WordsAppend(ws, s[..start], s[start..]);
    BlankHasNoInk(ws, s[..start]);
    BlankHasNoWords(ws, s[..start]);
  }

  lemma TrimKeeps(ws: char -> bool, s: string)
    ensures Ink(ws, Trim(ws, s)) == Ink(ws, s) && WordCount(ws, Trim(ws, s)) == WordCount(ws, s)
    ensures Trim(ws, s) != "" ==> !ws(Trim(ws, s)[0])
  {
    TrimStartKeeps(ws, s);
    TrimEndKeeps(ws, TrimStart(ws, s));
  }

  lemma LeadingIs(ws: char -> bool, s: string, n: nat)
    requires n <= |s| && Blank(ws, s[..n]) && (n < |s| ==> !ws(s[n]))
    ensures LeadingBlanks(ws, s, 0) == n
  {
    assert forall i :: 0 <= i < n ==> s[..n][i] == s[i];
  }

  lemma TrailingIs(ws: char -> bool, s: string, n: nat)
    requires n <= |s| && Blank(ws, s[n..]) && (n > 0 ==> !ws(s[n - 1]))
    ensures TrailingEnd(ws, s, |s|) == n
  {
    assert forall i :: n <= i < |s| ==> s[i] == s[n..][i - n];
  }

  lemma BlankTrimsAway(ws: char -> bool, s: string)
    requires Blank(ws, s)
    ensures Trim(ws, s) == ""
  {
    LeadingIs(ws, s, |s|);
  }

  /** White space in front does not matter to trimming. */
  lemma TrimAfterBlank(ws: char -> bool, pad: string, s: string)
    requires Blank(ws, pad)
    ensures Trim(ws, pad + s) == Trim(ws, s)
  {
    hide TrimEnd;
    var n := LeadingBlanks(ws, s, 0);
    LeadingIs(ws, pad + s, |pad| + n);
    assert (pad + s)[|pad| + n..] == s[n..];
  }

  /** Nor does white space at the end. */
  lemma TrimBeforeBlank(ws: char -> bool, s: string, c: char)
    requires ws(c)
    ensures Trim(ws, s + [c]) == Trim(ws, s)
  {
    var n := LeadingBlanks(ws, s, 0);
    if n == |s| {
      BlankTrimsAway(ws, s);
      BlankTrimsAway(ws, s + [c]);
    } else {
      LeadingIs(ws, s + [c], n);
      var t := s[n..];
      assert (s + [c])[n..] == t + [c];
      var m := TrailingEnd(ws, t, |t|);
      TrailingIs(ws, t + [c], m);
      assert (t + [c])[..m] == t[..m];
    }
  }

  /** Non-empty, with no white space at either end. */
  ghost predicate Tidy(ws: char -> bool, s: string) {
    s != "" && !ws(s[0]) && !ws(s[|s| - 1])
  }

  // ----- joining -----

  function Join(separator: string, parts: seq<string>): string {
    if parts == [] then ""
    else if |parts| == 1 then parts[0]
    else parts[0] + separator + Join(separator, parts[1..])
  }

  lemma {:induction false} JoinAppend(separator: string, a: seq<string>, b: seq<string>)
    requires a != [] && b != []
    ensures Join(separator, a + b) == Join(separator, a) + separator + Join(separator, b)
    decreases |a|
  {
    if |a| == 1 {
      assert (a + b)[1..] == b;
    } else {
      assert (a + b)[1..] == a[1..] + b;
      JoinAppend(separator, a[1..], b);
    }
  }

  /** Joining may be done in two steps. */
  lemma JoinAbsorbs(separator: string, before: seq<string>, part: string, after: seq<string>)
    requires before != []
    ensures Join(separator, [Join(separator, before) + separator + part] + after)
            == Join(separator, before + ([part] + after))
  {
    hide Join;
    var head := Join(separator, before) + separator;
    JoinAppend(separator, before, [part] + after);
    JoinOne(separator, part);
    JoinOne(separator, head + part);
    if after == [] {
      assert [head + part] + after == [head + part] && [part] + after == [part];
    } else {
      var tail := Join(separator, after);
      JoinAppend(separator, [head + part], after);
      JoinAppend(separator, [part], after);
      AppendAssoc(head, part, separator);
      AppendAssoc(head, part + separator, tail);
    }
  }

  lemma JoinOne(separator: string, part: string)
    ensures Join(separator, [part]) == part
  {
  }

  lemma JoinCongruent(separator: string, part: string, a: seq<string>, b: seq<string>)
    requires (a == []) == (b == []) && Join(separator, a) == Join(separator, b)
    ensures Join(separator, [part] + a) == Join(separator, [part] + b)
  {
    if a != [] {
      JoinAppend(separator, [part], a);
      JoinAppend(separator, [part], b);
    }
  }

  ghost function TotalWords(ws: char -> bool, parts: seq<string>): nat {
    if parts == [] then 0 else WordCount(ws, parts[0]) + TotalWords(ws, parts[1..])
  }

  lemma {:induction false} TotalWordsAppend(ws: char -> bool, a: seq<string>, b: seq<string>)
    ensures TotalWords(ws, a + b) == TotalWords(ws, a) + TotalWords(ws, b)
  {
    if a == [] {
      assert a + b == b;
    } else {
      assert (a + b)[1..] == a[1..] + b;
      TotalWordsAppend(ws, a[1..], b);
    }
  }

  /** Joining with a blank separator keeps every visible character and every word. */
  lemma {:induction false} JoinKeeps(ws: char -> bool, separator: string, parts: seq<string>)
    requires separator != "" && Blank(ws, separator)
    ensures Ink(ws, Join(separator, parts)) == Ink(ws, Flatten(parts))
    ensures WordCount(ws, Join(separator, parts)) == TotalWords(ws, parts)
    decreases |parts|
  {
    hide Ink, WordCount, Blank;
    if parts == [] {
      BlankHasNoWords(ws, "");
    } else if |parts| == 1 {
      OnePart(ws, parts);
    } else {
      JoinKeeps(ws, separator, parts[1..]);
      JoinedPair(ws, separator, parts[0], Join(separator, parts[1..]));
      InkAppend(ws, parts[0], Flatten(parts[1..]));
    }
  }

  lemma OnePart(ws: char -> bool, parts: seq<string>)
    requires |parts| == 1
    ensures Flatten(parts) == parts[0] && TotalWords(ws, parts) == WordCount(ws, parts[0])
  {
    hide WordCount;
    assert Flatten(parts) == parts[0] + Flatten<char>([]);
    assert TotalWords(ws, parts) == WordCount(ws, parts[0]) + TotalWords(ws, parts[1..]);
  }

  lemma JoinedPair(ws: char -> bool, separator: string, first: string, tail: string)
    requires separator != "" && Blank(ws, separator)
    ensures Ink(ws, first + separator + tail) == Ink(ws, first) + Ink(ws, tail)
    ensures WordCount(ws, first + separator + tail) == WordCount(ws, first) + WordCount(ws, tail)
  {
    hide Ink, WordCount;
    InkAppend(ws, first + separator, tail);
    InkAppend(ws, first, separator);
    BlankHasNoInk(ws, separator);
    WordsAppend(ws, first, separator);
    WordsAppend(ws, first + separator, tail);
    BlankHasNoWords(ws, separator);
  }

  lemma {:induction false} InkOfFlattenAppend(ws: char -> bool, a: seq<string>, b: seq<string>)
    ensures Ink(ws, Flatten(a + b)) == Ink(ws, Flatten(a)) + Ink(ws, Flatten(b))
  {
    FlattenAppend(a, b);
    InkAppend(ws, Flatten(a), Flatten(b));
  }
}
