/** The Python `str` built-ins the helpers rely on, over ASCII text:
    `lower()`, `isspace()`, `strip(chars)`, `split()`, `replace(old, new)`
    for one-character arguments, and the substring test `needle in hay`. */
module Text {

  /** The ASCII characters for which `str.isspace()` holds: tab, line feed,
      vertical tab, form feed, carriage return, the four information
      separators 0x1C-0x1F, and space. `str.split()`, `str.strip()` and the
      `\s` class of `re` on `str` patterns agree on this set. */
  const Whitespace: set<char> :=
    {'\t', '\n', '\U{B}', '\U{C}', '\r', '\U{1C}', '\U{1D}', '\U{1E}', '\U{1F}', ' '}

  predicate IsSpace(c: char) {
    c in Whitespace
  }

  /** `str.lower()` on one character: only 'A'..'Z' change. */
  function LowerChar(c: char): (r: char)
    ensures 'A' <= c <= 'Z' ==> 'a' <= r <= 'z' && r as int == c as int + 32
    ensures !('A' <= c <= 'Z') ==> r == c
  {
    if 'A' <= c <= 'Z' then (c as int + 32) as char else c
  }

  /** `str.lower()`: the case folding is per character and keeps the length. */
  function Lower(s: string): (r: string)
    ensures |r| == |s|
    ensures forall i :: 0 <= i < |s| ==> r[i] == LowerChar(s[i])
  {
    seq(|s|, i requires 0 <= i < |s| => LowerChar(s[i]))
  }

  lemma LowerAppend(a: string, b: string)
    ensures Lower(a + b) == Lower(a) + Lower(b)
  {
    assert forall i :: 0 <= i < |a + b| ==> Lower(a + b)[i] == (Lower(a) + Lower(b))[i];
  }

  /** `needle` occurs in `hay` starting at index `i`. */
  predicate OccursAt(needle: string, hay: string, i: int) {
    0 <= i && i + |needle| <= |hay| && hay[i..i + |needle|] == needle
  }

  /** Python's `needle in hay` for strings. */
  predicate Contains(hay: string, needle: string) {
    exists i :: 0 <= i <= |hay| - |needle| && OccursAt(needle, hay, i)
  }

  /** An occurrence inside an occurrence is an occurrence. */
  lemma OccursAtTrans(a: string, b: string, c: string, i: int, j: int)
    requires OccursAt(a, b, i) && OccursAt(b, c, j)
    ensures OccursAt(a, c, i + j)
  {
    forall k | 0 <= k < |a|
      ensures c[i + j + k] == a[k]
    {
      assert c[j + (i + k)] == b[i + k];
    }
    assert c[i + j..i + j + |a|] == a;
  }

  /** An occurrence in a string stays one when text is added on either side. */
  lemma ContainsExtend(hay: string, needle: string, p: string, q: string)
    requires Contains(hay, needle)
    ensures Contains(p + hay + q, needle)
  {
    var i :| 0 <= i <= |hay| - |needle| && OccursAt(needle, hay, i);
    assert OccursAt(hay, p + hay + q, |p|) by {
      assert (p + hay + q)[|p|..|p| + |hay|] == hay;
    }
    OccursAtTrans(needle, hay, p + hay + q, i, |p|);
  }

  /** `s.lstrip(chars)`: drops the longest prefix made of characters in `cs`. */
  function LStrip(s: string, cs: set<char>): (r: string)
    ensures |r| <= |s|
  {
    if |s| > 0 && s[0] in cs then LStrip(s[1..], cs) else s
  }

  /** LStrip leaves a suffix of `s` that does not start with a character of
      `cs`, and everything it dropped is in `cs`. */
  lemma {:induction false} LStripFacts(s: string, cs: set<char>)
    ensures var r := LStrip(s, cs);
      && r == s[|s| - |r|..]
      && (r != [] ==> r[0] !in cs)
      && (forall k :: 0 <= k < |s| - |r| ==> s[k] in cs)
  {
    if |s| > 0 && s[0] in cs {
      LStripFacts(s[1..], cs);
    }
  }

  /** `s.rstrip(chars)`: drops the longest suffix made of characters in `cs`. */
  function RStrip(s: string, cs: set<char>): (r: string)
    ensures |r| <= |s|
  {
    if |s| > 0 && s[|s| - 1] in cs then RStrip(s[..|s| - 1], cs) else s
  }

  /** RStrip leaves a prefix of `s` that does not end with a character of
      `cs`, and everything it dropped is in `cs`. */
  lemma {:induction false} RStripFacts(s: string, cs: set<char>)
    ensures var r := RStrip(s, cs);
      && r == s[..|r|]
      && (r != [] ==> r[|r| - 1] !in cs)
      && (forall k :: |r| <= k < |s| ==> s[k] in cs)
  {
    if |s| > 0 && s[|s| - 1] in cs {
      RStripFacts(s[..|s| - 1], cs);
    }
  }

  /** `s.strip(chars)`: `chars` is a SET of characters, not a prefix or a
      suffix. */
  function Strip(s: string, cs: set<char>): (r: string)
    ensures |r| <= |s|
  {
    RStrip(LStrip(s, cs), cs)
  }

  /** What `strip` leaves is the slice of `s` that remains once every
      leading and every trailing character in `cs` is gone: it neither
      starts nor ends with a character of `cs`. */
  lemma StripFacts(s: string, cs: set<char>)
    ensures var r := Strip(s, cs); var i := |s| - |LStrip(s, cs)|;
      && OccursAt(r, s, i)
      && (forall k :: 0 <= k < i ==> s[k] in cs)
      && (forall k :: i + |r| <= k < |s| ==> s[k] in cs)
      && (r != [] ==> r[0] !in cs && r[|r| - 1] !in cs)
  {
    LStripFacts(s, cs);
    RStripFacts(LStrip(s, cs), cs);
  }

  /** The stripped string sits in the original right after the stripped prefix. */
  lemma StripOccurs(s: string, cs: set<char>)
    ensures OccursAt(Strip(s, cs), s, |s| - |LStrip(s, cs)|)
  {
    StripFacts(s, cs);
  }

  /** The slice described by Strip's contract is the only one: a slice
      `s[i..j]` that is bordered by characters outside `cs` and has only
      characters of `cs` around it is what `strip` returns. */
  lemma {:induction false} StripUnique(s: string, cs: set<char>, i: int, j: int)
    requires 0 <= i < j <= |s|
    requires s[i] !in cs && s[j - 1] !in cs
    requires forall k :: 0 <= k < i ==> s[k] in cs
    requires forall k :: j <= k < |s| ==> s[k] in cs
    ensures Strip(s, cs) == s[i..j]
  {
    var l := LStrip(s, cs);
    LStripFacts(s, cs);
    var a := |s| - |l|;
    if a < i {
      assert false;
    } else if a > i {
      assert false;
    }
    assert l == s[i..];
    var r := RStrip(l, cs);
    RStripFacts(l, cs);
    var b := i + |r|;
    if b < j {
      assert false;
    } else if b > j {
      assert false;
    }
    assert r == l[..j - i];
  }

  /** Strip changes nothing when neither end holds a character of `cs`. */
  lemma StripNoop(s: string, cs: set<char>)
    requires s == [] || (s[0] !in cs && s[|s| - 1] !in cs)
    ensures Strip(s, cs) == s
  {
    if s != [] {
      StripUnique(s, cs, 0, |s|);
      assert s[0..|s|] == s;
    }
  }

  /** Stripping by a subset of a set already stripped changes nothing. */
  lemma StripSubsetNoop(s: string, cs: set<char>, ds: set<char>)
    requires ds <= cs
    ensures Strip(Strip(s, cs), ds) == Strip(s, cs)
  {
    StripFacts(s, cs);
    StripNoop(Strip(s, cs), ds);
  }

  /** `s.replace(from, to)` for one-character arguments. */
  function ReplaceChar(s: string, from: char, to: char): (r: string)
    ensures |r| == |s|
    ensures forall i :: 0 <= i < |s| ==> r[i] == (if s[i] == from then to else s[i])
  {
    seq(|s|, i requires 0 <= i < |s| => if s[i] == from then to else s[i])
  }

  /** Length of the leading run of non-whitespace characters. */
  function WordLen(s: string): (n: nat)
    ensures n <= |s|
    ensures forall k :: 0 <= k < n ==> !IsSpace(s[k])
    ensures n < |s| ==> IsSpace(s[n])
  {
    if s == [] || IsSpace(s[0]) then 0 else 1 + WordLen(s[1..])
  }

  /** A word of `str.split()`: non-empty and free of whitespace. */
  predicate IsWord(w: string) {
    w != [] && forall k :: 0 <= k < |w| ==> !IsSpace(w[k])
  }

  /** `s.split()` with no argument: the maximal runs of non-whitespace
      characters, in order; runs of whitespace, leading and trailing
      whitespace produce no empty words. */
  function Split(s: string): (words: seq<string>)
    ensures forall k :: 0 <= k < |words| ==> IsWord(words[k])
    decreases |s|
  {
    var t := LStrip(s, Whitespace);
    if t == [] then []
    else
      var n := WordLen(t);
      assert n > 0 by { LStripFacts(s, Whitespace); assert !IsSpace(t[0]); }
      var rest := Split(t[n..]);
      assert IsWord(t[..n]);
      [t[..n]] + rest
  }

  /** The characters of `s` that are not whitespace, in order. */
  function NonSpace(s: string): string {
    if s == [] then []
    else (if IsSpace(s[0]) then [] else [s[0]]) + NonSpace(s[1..])
  }

  /** Concatenation of a sequence of words. */
  function Concat(words: seq<string>): string {
    if words == [] then [] else words[0] + Concat(words[1..])
  }

  lemma {:induction false} NonSpaceAppend(a: string, b: string)
    ensures NonSpace(a + b) == NonSpace(a) + NonSpace(b)
  {
    if a == [] {
      assert a + b == b;
    } else {
      assert (a + b)[1..] == a[1..] + b;
      NonSpaceAppend(a[1..], b);
    }
  }

  lemma {:induction false} NonSpaceOfWord(w: string)
    requires forall k :: 0 <= k < |w| ==> !IsSpace(w[k])
    ensures NonSpace(w) == w
  {
    if w != [] {
      NonSpaceOfWord(w[1..]);
    }
  }

  lemma {:induction false} NonSpaceOfSpaces(w: string)
    requires forall k :: 0 <= k < |w| ==> IsSpace(w[k])
    ensures NonSpace(w) == []
  {
    if w != [] {
      NonSpaceOfSpaces(w[1..]);
    }
  }

  /** `split()` loses only whitespace: joining its words gives back the
      input with every whitespace character removed. */
  lemma {:induction false} SplitLosesOnlySpace(s: string)
    ensures Concat(Split(s)) == NonSpace(s)
    decreases |s|
  {
    var t := LStrip(s, Whitespace);
    LStripFacts(s, Whitespace);
    var p := s[..|s| - |t|];
    assert s == p + t;
    NonSpaceAppend(p, t);
    NonSpaceOfSpaces(p);
    if t != [] {
      var n := WordLen(t);
      assert t == t[..n] + t[n..];
      NonSpaceAppend(t[..n], t[n..]);
      NonSpaceOfWord(t[..n]);
      SplitLosesOnlySpace(t[n..]);
      assert Split(s)[1..] == Split(t[n..]);
    }
  }

  /** `" ".join(words)`; the helpers never join, and the model uses it
      only to write example queries out as text. */
  function JoinWords(words: seq<string>): string {
    if words == [] then []
    else if |words| == 1 then words[0]
    else words[0] + " " + JoinWords(words[1..])
  }

  /** A word followed by whitespace or by nothing is the first word of `s`. */
  lemma {:induction false} WordLenOfWord(w: string, tail: string)
    requires IsWord(w)
    requires tail == [] || IsSpace(tail[0])
    ensures WordLen(w + tail) == |w|
    decreases |w|
  {
    if |w| > 1 {
      assert (w + tail)[1..] == w[1..] + tail;
      WordLenOfWord(w[1..], tail);
    } else {
      assert (w + tail)[1..] == tail;
    }
  }

  lemma SplitWordThen(w: string, tail: string)
    requires IsWord(w)
    requires tail == [] || IsSpace(tail[0])
    ensures Split(w + tail) == [w] + Split(tail)
  {
    var s := w + tail;
    assert s[0] == w[0];
    assert LStrip(s, Whitespace) == s;
    WordLenOfWord(w, tail);
    assert s[..|w|] == w && s[|w|..] == tail;
  }

  /** Leading whitespace is skipped by `lstrip()`, however long the run. */
  lemma {:induction false} LStripSpaces(ws: string, x: string)
    requires forall k :: 0 <= k < |ws| ==> IsSpace(ws[k])
    ensures LStrip(ws + x, Whitespace) == LStrip(x, Whitespace)
  {
    if ws != [] {
      assert (ws + x)[0] == ws[0];
      assert (ws + x)[1..] == ws[1..] + x;
      LStripSpaces(ws[1..], x);
    } else {
      assert ws + x == x;
    }
  }

  /** A run of whitespace in front of the text adds no word. */
  lemma SplitSkipsSpaces(ws: string, x: string)
    requires forall k :: 0 <= k < |ws| ==> IsSpace(ws[k])
    ensures Split(ws + x) == Split(x)
  {
    LStripSpaces(ws, x);
  }

  /** Text made only of whitespace has no words. */
  lemma SplitOfSpaces(ws: string)
    requires forall k :: 0 <= k < |ws| ==> IsSpace(ws[k])
    ensures Split(ws) == []
  {
    SplitSkipsSpaces(ws, []);
    assert ws + [] == ws;
  }

  /** `split()` takes the maximal runs: after any run of whitespace, a word
      that ends the text or is followed by whitespace is the next word, and
      the rest of the text gives the rest of the words. */
  lemma SplitSpacesWordThen(ws: string, w: string, tail: string)
    requires forall k :: 0 <= k < |ws| ==> IsSpace(ws[k])
    requires IsWord(w)
    requires tail == [] || IsSpace(tail[0])
    ensures Split(ws + w + tail) == [w] + Split(tail)
  {
    assert ws + w + tail == ws + (w + tail);
    SplitSkipsSpaces(ws, w + tail);
    SplitWordThen(w, tail);
  }

  /** `split()` undoes joining words with single spaces. */
  lemma {:induction false} SplitJoinWords(words: seq<string>)
    requires forall k :: 0 <= k < |words| ==> IsWord(words[k])
    ensures Split(JoinWords(words)) == words
  {
    if words == [] {
    } else if |words| == 1 {
      SplitWordThen(words[0], []);
      assert words[0] + [] == words[0];
      assert Split([]) == [];
    } else {
      var rest := JoinWords(words[1..]);
      assert JoinWords(words) == words[0] + (" " + rest);
      SplitWordThen(words[0], " " + rest);
      SplitSkipsSpaces(" ", rest);
      SplitJoinWords(words[1..]);
    }
  }
}
