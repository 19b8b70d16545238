/**
 * Character and string helpers with Python's `str` semantics, restricted to ASCII:
 * whitespace, case mapping, `in`, `strip`, `split`, `join`, `isupper` and `title`.
 */
module Text {

  import opened Wrappers

  /** Python's whitespace characters in the ASCII range (`str.isspace`, regex `\s`). */
  predicate IsSpace(c: char)
  {
    c == ' ' || c == '\t' || c == '\n' || c == '\r' || c == '\U{000B}' || c == '\U{000C}' || '\U{001C}' <= c <= '\U{001F}'
  }

  predicate IsDigit(c: char)
  {
    '0' <= c <= '9'
  }

  predicate IsUpperAscii(c: char)
  {
    'A' <= c <= 'Z'
  }

  predicate IsLowerAscii(c: char)
  {
    'a' <= c <= 'z'
  }

  predicate IsLetter(c: char)
  {
    IsUpperAscii(c) || IsLowerAscii(c)
  }

  /** Regex `\w`: letters, digits and the underscore. */
  predicate IsWordChar(c: char)
  {
    IsLetter(c) || IsDigit(c) || c == '_'
  }

  function LowerChar(c: char): (r: char)
    ensures IsUpperAscii(c) ==> IsLowerAscii(r)
    ensures !IsUpperAscii(c) ==> r == c
  {
    if IsUpperAscii(c) then (c as int + 32) as char else c
  }

  function UpperChar(c: char): (r: char)
    ensures IsLowerAscii(c) ==> IsUpperAscii(r)
    ensures !IsLowerAscii(c) ==> r == c
  {
    if IsLowerAscii(c) then (c as int - 32) as char else c
  }

  /** `str.lower()`. */
  function Lower(s: string): (r: string)
    ensures |r| == |s|
    ensures forall i :: 0 <= i < |s| ==> r[i] == LowerChar(s[i])
  {
    seq(|s|, i requires 0 <= i < |s| => LowerChar(s[i]))
  }

  /** Lower-casing a text without capitals leaves it as it is. */
  lemma LowerIdentity(s: string)
    requires forall i :: 0 <= i < |s| ==> !IsUpperAscii(s[i])
    ensures Lower(s) == s
  {
    assert forall i :: 0 <= i < |s| ==> Lower(s)[i] == s[i];
  }

  /** `str.upper()`. */
  function Upper(s: string): (r: string)
    ensures |r| == |s|
    ensures forall i :: 0 <= i < |s| ==> r[i] == UpperChar(s[i])
  {
    seq(|s|, i requires 0 <= i < |s| => UpperChar(s[i]))
  }

  /** `sub` occurs in `s` starting at position `i`. */
  predicate OccursAt(s: string, sub: string, i: int)
  {
    0 <= i && i + |sub| <= |s| && s[i..i + |sub|] == sub
  }

  /** `sub in s`. */
  predicate Contains(s: string, sub: string)
  {
    exists i | 0 <= i <= |s| - |sub| :: OccursAt(s, sub, i)
  }

  /** `s.startswith(p)`. */
  predicate StartsWith(s: string, p: string)
  {
    |p| <= |s| && s[..|p|] == p
  }

  /** A character of `sub` that does not occur in `s` rules out `sub in s`. */
  lemma NotContainsByChar(s: string, sub: string, k: nat)
    requires k < |sub|
    requires forall i :: 0 <= i < |s| ==> s[i] != sub[k]
    ensures !Contains(s, sub)
  {
    forall i | 0 <= i <= |s| - |sub|
      ensures !OccursAt(s, sub, i)
    {
      assert s[i..i + |sub|][k] == s[i + k];
    }
  }

  /** A witness position proves `sub in s`. */
  lemma ContainsAt(s: string, sub: string, i: nat)
    requires OccursAt(s, sub, i)
    ensures Contains(s, sub)
  {
  }

  /** `str.lstrip()`. */
  function TrimLeft(s: string): (r: string)
    ensures |r| <= |s| && r == s[|s| - |r|..]
    ensures r != "" ==> !IsSpace(r[0])
    ensures forall i :: 0 <= i < |s| - |r| ==> IsSpace(s[i])
    decreases |s|
  {
    if s != "" && IsSpace(s[0]) then TrimLeft(s[1..]) else s
  }

  /** `str.rstrip()`. */
  function TrimRight(s: string): (r: string)
    ensures |r| <= |s| && r == s[..|r|]
    ensures r != "" ==> !IsSpace(r[|r| - 1])
    ensures forall i :: |r| <= i < |s| ==> IsSpace(s[i])
    decreases |s|
  {
    if s != "" && IsSpace(s[|s| - 1]) then TrimRight(s[..|s| - 1]) else s
  }

  /** `str.strip()`. */
  function Strip(s: string): (r: string)
    ensures |r| <= |s|
    ensures r != "" ==> !IsSpace(r[0]) && !IsSpace(r[|r| - 1])
  {
    TrimRight(TrimLeft(s))
  }

  /** A string with no whitespace at either end is its own strip. */
  lemma StripIdentity(s: string)
    requires s != "" && !IsSpace(s[0]) && !IsSpace(s[|s| - 1])
    ensures Strip(s) == s
  {
    assert TrimLeft(s) == s;
  }

  /** `s.rstrip(c)` for one character. */
  function RStripChar(s: string, c: char): (r: string)
    ensures |r| <= |s| && r == s[..|r|]
    ensures r != "" ==> r[|r| - 1] != c
    decreases |s|
  {
    if s != "" && s[|s| - 1] == c then RStripChar(s[..|s| - 1], c) else s
  }

  /** Length of the leading run of non-whitespace characters. */
  function WordLength(s: string): (n: nat)
    ensures n <= |s|
    ensures forall i :: 0 <= i < n ==> !IsSpace(s[i])
    ensures n < |s| ==> IsSpace(s[n])
    decreases |s|
  {
    if s == "" || IsSpace(s[0]) then 0 else 1 + WordLength(s[1..])
  }

  /** `str.split()` with no separator: the maximal runs of non-whitespace characters. */
  function SplitWs(s: string): (r: seq<string>)
    ensures forall k :: 0 <= k < |r| ==> r[k] != ""
    decreases |s|
  {
    var t := TrimLeft(s);
    if t == "" then []
    else
      var n := WordLength(t);
      [t[..n]] + SplitWs(t[n..])
  }
  /** A text without whitespace is one word. */
  lemma {:induction false} OneWord(s: string)
    requires s != "" && forall i :: 0 <= i < |s| ==> !IsSpace(s[i])
    ensures SplitWs(s) == [s]
  {
    WordLengthOf(s, "");
    assert s + "" == s;
  }

  lemma {:induction false} WordLengthOf(w: string, rest: string)
    requires forall i :: 0 <= i < |w| ==> !IsSpace(w[i])
    requires rest == "" || IsSpace(rest[0])
    ensures WordLength(w + rest) == |w|
    decreases |w|
  {
    if w != "" {
      assert (w + rest)[1..] == w[1..] + rest;
      WordLengthOf(w[1..], rest);
    } else {
      assert w + rest == rest;
    }
  }

  /** A word, a space and a rest: the word, then the words of the rest. */
  lemma SplitWsAfterWord(w: string, rest: string)
    requires w != "" && forall i :: 0 <= i < |w| ==> !IsSpace(w[i])
    ensures SplitWs(w + " " + rest) == [w] + SplitWs(rest)
  {
    var gap := " " + rest;
    var s := w + " " + rest;
    assert s == w + gap;
    WordLengthOf(w, gap);
    assert TrimLeft(s) == s;
    assert s[..|w|] == w;
    assert s[|w|..] == gap;
    assert gap[1..] == rest;
  }

  /** Three words joined by single spaces split back into those words. */
  lemma ThreeWords(a: string, b: string, c: string)
    requires a != "" && forall i :: 0 <= i < |a| ==> !IsSpace(a[i])
    requires b != "" && forall i :: 0 <= i < |b| ==> !IsSpace(b[i])
    requires c != "" && forall i :: 0 <= i < |c| ==> !IsSpace(c[i])
    ensures SplitWs(a + " " + (b + " " + c)) == [a, b, c]
  {
    TwoWords(b, c);
    SplitWsAfterWord(a, b + " " + c);
  }

  /** Two words joined by a single space split back into those words. */
  lemma TwoWords(b: string, c: string)
    requires b != "" && forall i :: 0 <= i < |b| ==> !IsSpace(b[i])
    requires c != "" && forall i :: 0 <= i < |c| ==> !IsSpace(c[i])
    ensures SplitWs(b + " " + c) == [b, c]
  {
    OneWord(c);
    SplitWsAfterWord(b, c);
  }


  /** `sep.join(parts)`. */
  function JoinWith(sep: string, parts: seq<string>): (r: string)
    decreases |parts|
  {
    if |parts| == 0 then ""
    else if |parts| == 1 then parts[0]
    else parts[0] + sep + JoinWith(sep, parts[1..])
  }

  /** First position at or after `from` where `sub` occurs. */
  function IndexOf(s: string, sub: string, from: nat): (r: Option<nat>)
    requires from <= |s|
    ensures r.Some? ==> from <= r.value && OccursAt(s, sub, r.value)
    ensures r.Some? ==> forall j :: from <= j < r.value ==> !OccursAt(s, sub, j)
    ensures r.None? ==> forall j :: from <= j <= |s| - |sub| ==> !OccursAt(s, sub, j)
    decreases |s| - from
  {
    if from + |sub| > |s| then None
    else if s[from..from + |sub|] == sub then Some(from)
    else if from == |s| then None
    else IndexOf(s, sub, from + 1)
  }

  /** `s.split(sep)` for a non-empty separator. */
  function SplitOn(s: string, sep: string): (r: seq<string>)
    requires sep != ""
    ensures |r| >= 1
    decreases |s|
  {
    match IndexOf(s, sep, 0)
    case None => [s]
    case Some(j) => [s[..j]] + SplitOn(s[j + |sep|..], sep)
  }

  lemma JoinCons(sep: string, a: string, parts: seq<string>)
    requires |parts| >= 1
    ensures JoinWith(sep, [a] + parts) == a + sep + JoinWith(sep, parts)
  {
    assert ([a] + parts)[1..] == parts;
  }

  /** Splitting on a separator and joining with it gives the string back. */
  lemma {:induction false} SplitJoinRoundTrip(s: string, sep: string)
    requires sep != ""
    ensures JoinWith(sep, SplitOn(s, sep)) == s
    decreases |s|
  {
    if IndexOf(s, sep, 0).None? {
      assert SplitOn(s, sep) == [s];
    } else {
      var j := IndexOf(s, sep, 0).value;
      SplitJoinRoundTrip(s[j + |sep|..], sep);
      SplitJoinStep(s, sep, j);
    }
  }

  /** The step of the round trip: the piece before the first separator, then the rest. */
  lemma SplitJoinStep(s: string, sep: string, j: nat)
    requires sep != ""
    requires IndexOf(s, sep, 0) == Some(j)
    requires JoinWith(sep, SplitOn(s[j + |sep|..], sep)) == s[j + |sep|..]
    ensures JoinWith(sep, SplitOn(s, sep)) == s
  {
    var parts := SplitOn(s[j + |sep|..], sep);
    assert SplitOn(s, sep) == [s[..j]] + parts;
    JoinCons(sep, s[..j], parts);
    assert s[j..j + |sep|] == sep;
    assert s == s[..j] + s[j..j + |sep|] + s[j + |sep|..];
  }

  /** No piece of a split contains the separator. */
  lemma {:induction false} SplitPiecesFree(s: string, sep: string)
    requires sep != ""
    ensures forall k :: 0 <= k < |SplitOn(s, sep)| ==> !Contains(SplitOn(s, sep)[k], sep)
    decreases |s|
  {
    match IndexOf(s, sep, 0)
    case None =>
    case Some(j) =>
      var rest := s[j + |sep|..];
      SplitPiecesFree(rest, sep);
      forall i | 0 <= i <= j - |sep|
        ensures !OccursAt(s[..j], sep, i)
      {
        assert s[..j][i..i + |sep|] == s[i..i + |sep|];
        assert !OccursAt(s, sep, i);
      }
  }

  /** Every character of `s` not in `cs`, in order (`re.sub("[cs]", "", s)`). */
  function RemoveChars(s: string, cs: set<char>): (r: string)
    ensures |r| <= |s|
    ensures forall i :: 0 <= i < |r| ==> r[i] !in cs
    decreases |s|
  {
    if s == "" then ""
    else if s[0] in cs then RemoveChars(s[1..], cs)
    else [s[0]] + RemoveChars(s[1..], cs)
  }

  /** `str.isupper()`: at least one cased character and no lower-case one. */
  predicate IsUpperWord(s: string)
  {
    (exists i | 0 <= i < |s| :: IsLetter(s[i])) && forall i | 0 <= i < |s| :: !IsLowerAscii(s[i])
  }

  /** `str.title()`: a letter after a letter is lowered, any other letter is raised. */
  function TitleFrom(s: string, afterLetter: bool): (r: string)
    ensures |r| == |s|
    decreases |s|
  {
    if s == "" then ""
    else if IsLetter(s[0]) then
      [if afterLetter then LowerChar(s[0]) else UpperChar(s[0])] + TitleFrom(s[1..], true)
    else [s[0]] + TitleFrom(s[1..], false)
  }

  function Title(s: string): (r: string)
    ensures |r| == |s|
  {
    TitleFrom(s, false)
  }

  /** Title case leaves no letter that follows another letter in upper case. */
  lemma {:induction false} TitleLowersInnerLetters(s: string, afterLetter: bool)
    ensures forall i :: 0 < i < |s| && IsLetter(s[i - 1]) && IsLetter(s[i]) ==> IsLowerAscii(TitleFrom(s, afterLetter)[i])
    ensures forall i :: 0 <= i < |s| && IsLetter(s[i]) && (if i == 0 then !afterLetter else !IsLetter(s[i - 1])) ==> IsUpperAscii(TitleFrom(s, afterLetter)[i])
    decreases |s|
  {
    if s != "" {
      TitleLowersInnerLetters(s[1..], IsLetter(s[0]));
      var r := TitleFrom(s, afterLetter);
      assert r[1..] == TitleFrom(s[1..], IsLetter(s[0]));
      forall i | 0 < i < |s|
        ensures r[i] == TitleFrom(s[1..], IsLetter(s[0]))[i - 1]
      {
      }
    }
  }

}
