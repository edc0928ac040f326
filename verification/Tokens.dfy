// Splitting a command line into arguments, on values: the reference the in-place tokenizer is held to.
module Tokens {
  import opened Words
  import opened Libc

  const SPACE: byte := 32
  const MAX_ARGS: nat := 8  // CMDLINE_MAX_ARGS

  // Length of the word a line starts with
  function WordLen(s: seq<byte>): (n: nat)
    ensures n <= |s|
    ensures forall i :: 0 <= i < n ==> s[i] != SPACE
    ensures n < |s| ==> s[n] == SPACE
  {
    if s == [] || s[0] == SPACE then 0 else 1 + WordLen(s[1..])
  }

  // The words of a line
  function Split(s: seq<byte>): (t: seq<seq<byte>>)
    ensures forall i :: 0 <= i < |t| ==> t[i] != [] && SPACE !in t[i]
    decreases |s|
  {
    if s == [] then []
    else if s[0] == SPACE then Split(s[1..])
    else var n := WordLen(s); [s[..n]] + Split(s[n..])
  }

  lemma {:induction false} WordLenIs(s: seq<byte>, n: nat)
    requires n <= |s| && (forall i :: 0 <= i < n ==> s[i] != SPACE) && (n < |s| ==> s[n] == SPACE)
    ensures WordLen(s) == n
  {
    if n > 0 {
      WordLenIs(s[1..], n - 1);
    }
  }

  predicate EndsWord(s: seq<byte>) { s == [] || s[|s| - 1] == SPACE }

  // A further space changes nothing, a further character starts a word or lengthens the last one.
  function Extended(s: seq<byte>, c: byte): seq<seq<byte>>
    requires !EndsWord(s) ==> Split(s) != []
  {
    Grown(Split(s), EndsWord(s), c)
  }

  function Grown(t: seq<seq<byte>>, ended: bool, c: byte): seq<seq<byte>>
    requires !ended ==> t != []
  {
    if c == SPACE then t
    else if ended then t + [[c]]
    else t[..|t| - 1] + [t[|t| - 1] + [c]]
  }

  lemma {:induction false} LastWord(s: seq<byte>)
    requires !EndsWord(s)
    ensures Split(s) != []
    decreases |s|
  {
    if s[0] == SPACE {
      LastWord(s[1..]);
    }
  }

  lemma {:induction false} SplitSnoc(s: seq<byte>, c: byte)
    ensures !EndsWord(s) ==> Split(s) != []
    ensures Split(s + [c]) == Extended(s, c)
    decreases |s|
  {
    if !EndsWord(s) { LastWord(s); }
    if s == [] {
      SplitOne(c);
      assert s + [c] == [c];
    } else if s[0] == SPACE {
      SplitSnoc(s[1..], c);
      SnocAfterSpace(s, c);
    } else if WordLen(s) < |s| {
      SplitSnoc(s[WordLen(s)..], c);
      SnocAfterWord(s, c, WordLen(s));
    } else {
      SnocOneWord(s, c);
    }
  }

  lemma SnocAfterSpace(s: seq<byte>, c: byte)
    requires s != [] && s[0] == SPACE
    requires !EndsWord(s[1..]) ==> Split(s[1..]) != []
    requires Split(s[1..] + [c]) == Extended(s[1..], c)
    ensures Split(s + [c]) == Extended(s, c)
  {
    assert (s + [c])[1..] == s[1..] + [c];
    assert EndsWord(s) == EndsWord(s[1..]);
  }

  lemma SnocAfterWord(s: seq<byte>, c: byte, n: nat)
    requires s != [] && s[0] != SPACE && n == WordLen(s) < |s|
    requires !EndsWord(s[n..]) ==> Split(s[n..]) != []
    requires Split(s[n..] + [c]) == Extended(s[n..], c)
    ensures Split(s + [c]) == Extended(s, c)
  {
    LongerLine(s, c, n);
    ExtendedTail(s, c, n);
  }

  lemma SplitWord(u: seq<byte>, w: seq<byte>, rest: seq<byte>)
    requires w != [] && SPACE !in w && rest != [] && rest[0] == SPACE && u == w + rest
    ensures Split(u) == [w] + Split(rest)
  {
    WordLenIs(u, |w|);
    assert u[..|w|] == w && u[|w|..] == rest;
  }

  lemma LongerLine(s: seq<byte>, c: byte, n: nat)
    requires s != [] && s[0] != SPACE && n == WordLen(s) < |s|
    ensures Split(s + [c]) == [s[..n]] + Split(s[n..] + [c])
  {
    assert s + [c] == s[..n] + (s[n..] + [c]);
    SplitWord(s + [c], s[..n], s[n..] + [c]);
  }

  lemma ExtendedTail(s: seq<byte>, c: byte, n: nat)
    requires s != [] && s[0] != SPACE && n == WordLen(s) < |s|
    requires !EndsWord(s[n..]) ==> Split(s[n..]) != []
    ensures Extended(s, c) == [s[..n]] + Extended(s[n..], c)
  {
    FirstWord(s, n);
    SplitWord(s, s[..n], s[n..]);
    SameEnd(s, n);
    HeadStays([s[..n]], Split(s[n..]), EndsWord(s), c);
  }

  lemma FirstWord(s: seq<byte>, n: nat)
    requires s != [] && s[0] != SPACE && n == WordLen(s) < |s|
    ensures n > 0 && SPACE !in s[..n] && s[n..][0] == SPACE
  {
  }

  lemma SameEnd(s: seq<byte>, n: nat)
    requires n < |s|
    ensures EndsWord(s[n..]) == EndsWord(s) && s == s[..n] + s[n..]
  {
  }

  lemma HeadStays(w: seq<seq<byte>>, t: seq<seq<byte>>, ended: bool, c: byte)
    requires !ended ==> t != []
    ensures Grown(w + t, ended, c) == w + Grown(t, ended, c)
  {
  }

  lemma SplitOne(c: byte)
    ensures Split([c]) == if c == SPACE then [] else [[c]]
  {
    if c != SPACE {
      WordLenIs([c], 1);
      assert [c][..1] == [c] && [c][1..] == [];
    } else {
      assert [c][1..] == [];
    }
  }

  lemma OneWord(s: seq<byte>)
    requires s != [] && WordLen(s) == |s|
    ensures Split(s) == [s]
  {
    assert s[..|s|] == s && s[|s|..] == [];
  }

  lemma SnocOneWord(s: seq<byte>, c: byte)
    requires s != [] && WordLen(s) == |s|
    ensures !EndsWord(s) && Split(s) != [] && Split(s + [c]) == Extended(s, c)
  {
    OneWord(s);
    if c == SPACE {
      SplitWord(s + [c], s, [c]);
      SplitOne(c);
    } else {
      WordLenIs(s + [c], |s| + 1);
      OneWord(s + [c]);
      assert [s][..0] + [s + [c]] == [s + [c]];
    }
  }

  // ---- What the scan leaves in memory ----

  // A character at p starts a word unless it is a space.
  predicate WordMayStart(s: seq<byte>, p: nat)
    requires p <= |s|
  {
    p == 0 || s[p - 1] == SPACE
  }

  // The positions below p at which the words of a line start
  function StartsTo(s: seq<byte>, p: nat): (t: seq<nat>)
    requires p <= |s|
    ensures forall i :: 0 <= i < |t| ==> t[i] < p
  {
    if p == 0 then []
    else if s[p - 1] != SPACE && WordMayStart(s, p - 1) then StartsTo(s, p - 1) + [p - 1]
    else StartsTo(s, p - 1)
  }

  function Starts(s: seq<byte>): (t: seq<nat>)
    ensures forall i :: 0 <= i < |t| ==> t[i] < |s|
  {
    StartsTo(s, |s|)
  }

  lemma PrefixEnds(s: seq<byte>, p: nat)
    requires p <= |s|
    ensures EndsWord(s[..p]) == WordMayStart(s, p)
  {
  }

  // One start for each word
  lemma {:induction false} StartsOfWords(s: seq<byte>, p: nat)
    requires p <= |s|
    ensures |StartsTo(s, p)| == |Split(s[..p])|
  {
    if p > 0 {
      StartsOfWords(s, p - 1);
      SplitSnoc(s[..p - 1], s[p - 1]);
      PrefixEnds(s, p - 1);
      assert s[..p - 1] + [s[p - 1]] == s[..p];
    }
  }

  lemma {:induction false} StartsPrefix(s: seq<byte>, p: nat, n: nat)
    requires p <= n <= |s|
    ensures StartsTo(s, p) <= StartsTo(s, n)
  {
    if p < n {
      StartsPrefix(s, p, n - 1);
    }
  }

  // Where the scan ends: at the ninth word or at the end of the line
  function Stop(s: seq<byte>): (n: nat)
    ensures n <= |s|
  {
    if |Starts(s)| > MAX_ARGS then Starts(s)[MAX_ARGS] else |s|
  }

  // A ninth word makes too many, and no earlier character does.
  lemma NinthWord(s: seq<byte>, p: nat)
    requires p < |s| && |StartsTo(s, p)| == MAX_ARGS
    ensures s[p] != SPACE && WordMayStart(s, p) ==>
      Stop(s) == p && StartsTo(s, p) <= Starts(s) && |Split(s)| > MAX_ARGS
  {
    StartsOfWords(s, |s|);
    assert s[..|s|] == s;
    StartsPrefix(s, p, |s|);
    StartsPrefix(s, p + 1, |s|);
  }

  // Memory that starts with the line, after the first p characters have been scanned
  function Blanks(m: seq<byte>, line: seq<byte>, p: nat): (r: seq<byte>)
    requires p <= |line| <= |m|
    ensures |r| == |m| && forall i :: |line| <= i < |m| ==> r[i] == m[i]
  {
    seq<byte>(|m|, i requires 0 <= i < |m| => if i < p && line[i] == SPACE then 0 else m[i])
  }

  function Blanked(m: seq<byte>, line: seq<byte>): (r: seq<byte>)
    requires |line| <= |m|
    ensures |r| == |m| && forall i :: |line| <= i < |m| ==> r[i] == m[i]
  {
    Blanks(m, line, Stop(line))
  }

  // Where argument 1 points after the scan: to the second word if there is one, else where it pointed before
  function Second(line: seq<byte>, before: nat): (a: nat) {
    if |Starts(line)| >= 2 then Starts(line)[1] else before
  }

  lemma {:induction false} SecondIsPositive(s: seq<byte>, p: nat)
    requires p <= |s|
    ensures forall i :: 1 <= i < |StartsTo(s, p)| ==> StartsTo(s, p)[i] >= 2
    ensures p < 2 ==> |StartsTo(s, p)| <= p
  {
    if p > 0 {
      SecondIsPositive(s, p - 1);
    }
  }

  // ---- The word at a position ----

  function WordFrom(s: seq<byte>, a: nat): (w: seq<byte>)
    requires a <= |s|
    ensures a + |w| <= |s| && s[a..a + |w|] == w && SPACE !in w
    ensures forall i :: a <= i < a + |w| ==> s[i] != SPACE
    ensures a + |w| < |s| ==> s[a + |w|] == SPACE
  {
    s[a..][..WordLen(s[a..])]
  }

  lemma WordFromIs(s: seq<byte>, a: nat, w: seq<byte>)
    requires a + |w| <= |s| && s[a..a + |w|] == w && SPACE !in w && (a + |w| < |s| ==> s[a + |w|] == SPACE)
    ensures WordFrom(s, a) == w
  {
    forall i | 0 <= i < |w| ensures s[a..][i] != SPACE {
      assert s[a..][i] == s[a..a + |w|][i] == w[i];
    }
    WordLenIs(s[a..], |w|);
  }

  // A start is the position of a character with a space or nothing before it; starts increase.
  lemma {:induction false} StartsAre(s: seq<byte>, p: nat, i: nat)
    requires p <= |s| && i < |StartsTo(s, p)|
    ensures var a := StartsTo(s, p)[i]; s[a] != SPACE && WordMayStart(s, a)
    ensures forall j :: i < j < |StartsTo(s, p)| ==> StartsTo(s, p)[i] < StartsTo(s, p)[j]
  {
    if i < |StartsTo(s, p - 1)| {
      StartsAre(s, p - 1, i);
    }
  }

  // A word that starts before the ninth is over before the scan ends, or the scan ends with the line.
  lemma WordOver(s: seq<byte>, i: nat)
    requires i < |Starts(s)| && i < MAX_ARGS
    ensures Stop(s) == |s| || Starts(s)[i] + |WordFrom(s, Starts(s)[i])| < Stop(s)
  {
    if |Starts(s)| > MAX_ARGS {
      StartsAre(s, |s|, i);
      StartsAre(s, |s|, MAX_ARGS);
      assert s[Stop(s) - 1] == SPACE;
    }
  }

  predicate AreWords(ws: seq<seq<byte>>) { forall i :: 0 <= i < |ws| ==> ws[i] != [] && SPACE !in ws[i] }

  // Words with one space between them
  function Spaced(ws: seq<seq<byte>>): seq<byte> {
    if ws == [] then [] else if |ws| == 1 then ws[0] else ws[0] + [SPACE] + Spaced(ws[1..])
  }

  // Splitting undoes spacing.
  lemma {:induction false} SplitOfSpaced(ws: seq<seq<byte>>)
    requires AreWords(ws)
    ensures Split(Spaced(ws)) == ws
  {
    if |ws| == 1 {
      WordLenIs(ws[0], |ws[0]|);
      OneWord(ws[0]);
    } else if |ws| > 1 {
      SplitOfSpaced(ws[1..]);
      var rest := [SPACE] + Spaced(ws[1..]);
      assert rest[1..] == Spaced(ws[1..]);
      SplitWord(Spaced(ws), ws[0], rest);
    }
  }

  // ---- Commands ----

  // Position of the first name equal to w, or the number of names
  function FirstIndex(names: seq<seq<byte>>, w: seq<byte>): (i: nat)
    ensures i <= |names| && (i < |names| ==> names[i] == w)
    ensures forall j :: 0 <= j < i ==> names[j] != w
  {
    if names == [] || names[0] == w then 0 else 1 + FirstIndex(names[1..], w)
  }

  datatype Outcome = TooManyArgs | BadCmd | Run(entry: nat, args: seq<seq<byte>>)

  // What a command line means, given the names in the command table
  function Meaning(line: seq<byte>, names: seq<seq<byte>>): Outcome {
    var t := Split(line);
    if |t| > MAX_ARGS then TooManyArgs
    else if t == [] || FirstIndex(names, t[0]) == |names| then BadCmd
    else Run(FirstIndex(names, t[0]), t)
  }

  // Nine words or more are too many, whatever the first is.
  lemma TooManyWords(words: seq<seq<byte>>, names: seq<seq<byte>>)
    requires AreWords(words)
    ensures Meaning(Spaced(words), names) == TooManyArgs <==> |words| > 8
  {
    SplitOfSpaced(words);
  }

  // Up to eight words are no command exactly if there is none or the first is not in the table.
  lemma UnknownCommand(words: seq<seq<byte>>, names: seq<seq<byte>>)
    requires AreWords(words) && |words| <= 8
    ensures Meaning(Spaced(words), names) == BadCmd <==> words == [] || words[0] !in names
  {
    SplitOfSpaced(words);
  }

  lemma SpacedMeans(words: seq<seq<byte>>, entry: nat, names: seq<seq<byte>>)
    requires AreWords(words) && 1 <= |words| <= MAX_ARGS
    requires entry < |names| && names[entry] == words[0] && forall j :: 0 <= j < entry ==> names[j] != words[0]
    ensures Spaced(words) != [] && Meaning(Spaced(words), names) == Run(entry, words)
  {
    SplitOfSpaced(words);
    assert FirstIndex(names, words[0]) == entry;
  }
}
