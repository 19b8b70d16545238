/**
 * A backtracking matcher for the regular expressions the pipeline uses, with the priority
 * rules of Python's `re`: greedy repetition tries the longest run first, an optional part is
 * tried before skipping it, alternatives are tried left to right, a search reports the
 * leftmost match, `findall` and `sub` scan left to right without overlap. `$` matches at the
 * end or before a final newline, `\b` sits between a word and a non-word character.
 * With `ic` (IGNORECASE) letters compare without case.
 */
module Regex {

  import opened Wrappers
  import opened Text

  datatype CharClass =
    | Digit                          // \d
    | Space                          // \s
    | Word                           // \w
    | AnyButNewline                  // .
    | AnyChar                        // . under DOTALL
    | Chars(cs: string)              // [abc]
    | Range(lo: char, hi: char)      // [a-z]
    | Union(a: CharClass, b: CharClass)
    | Not(k: CharClass)              // [^...]

  predicate InClass(c: char, k: CharClass, ic: bool)
    decreases k
  {
    match k
    case Digit => IsDigit(c)
    case Space => IsSpace(c)
    case Word => IsWordChar(c)
    case AnyButNewline => c != '\n'
    case AnyChar => true
    case Chars(cs) => c in cs || (ic && (LowerChar(c) in cs || UpperChar(c) in cs))
    case Range(lo, hi) => lo <= c <= hi || (ic && (lo <= LowerChar(c) <= hi || lo <= UpperChar(c) <= hi))
    case Union(a, b) => InClass(c, a, ic) || InClass(c, b, ic)
    case Not(x) => !InClass(c, x, ic)
  }

  predicate CharEq(a: char, b: char, ic: bool)
  {
    a == b || (ic && LowerChar(a) == LowerChar(b))
  }

  /** The literal `s` appears in `t` at position `i`. */
  predicate LitAt(t: string, i: nat, s: string, ic: bool)
  {
    i + |s| <= |t| && forall j | 0 <= j < |s| :: CharEq(t[i + j], s[j], ic)
  }

  datatype Elem =
    | Lit(s: string)
    | Rep(k: CharClass, min: nat, max: Option<nat>)   // k{min,max}, greedy
    | Opt(body: seq<Elem>)                            // (?:body)?, greedy
    | Or(left: seq<Elem>, right: seq<Elem>)           // (?:left|right)
    | Group(id: nat, body: seq<Elem>)                 // (body), capture number id
    | Close(id: nat, start: nat)                      // end of a capture opened at start
    | NotAhead(k: CharClass)                          // (?!k)
    | Bol                                             // ^
    | Eol                                             // $
    | WordBoundary                                    // \b
    | LineStart                                       // ^ under MULTILINE
    | LineEnd                                         // $ under MULTILINE

  type Pattern = seq<Elem>

  /** `(?:a1|a2|...|an)` as nested binary alternatives, tried left to right. */
  function AnyOf(alts: seq<Pattern>): (p: Pattern)
    decreases |alts|
  {
    if |alts| == 0 then [Rep(Not(AnyChar), 1, Some(1))]
    else if |alts| == 1 then alts[0]
    else [Or(alts[0], AnyOf(alts[1..]))]
  }

  type Caps = map<nat, (nat, nat)>

  /** A match: where it starts, where it ends, and the spans of its capture groups. */
  datatype Hit = Hit(start: nat, end: nat, caps: Caps)

  function Size(e: Elem): nat
    decreases e
  {
    match e
    case Opt(b) => 1 + SizeSeq(b)
    case Or(a, b) => 1 + SizeSeq(a) + SizeSeq(b)
    case Group(_, b) => 2 + SizeSeq(b)
    case Rep(_, _, _) => 2
    case _ => 1
  }

  function SizeSeq(es: seq<Elem>): nat
    decreases es
  {
    if es == [] then 0 else Size(es[0]) + SizeSeq(es[1..])
  }

  lemma {:induction false} SizeAppend(a: seq<Elem>, b: seq<Elem>)
    ensures SizeSeq(a + b) == SizeSeq(a) + SizeSeq(b)
    decreases |a|
  {
    if a != [] {
      assert (a + b)[0] == a[0];
      assert (a + b)[1..] == a[1..] + b;
      assert SizeSeq(a + b) == Size((a + b)[0]) + SizeSeq((a + b)[1..]);
      SizeAppend(a[1..], b);
    } else {
      assert a + b == b;
    }
  }

  lemma SizeCons(e: Elem, b: seq<Elem>)
    ensures SizeSeq([e] + b) == Size(e) + SizeSeq(b)
  {
    assert ([e] + b)[1..] == b;
  }

  predicate IsBoundary(t: string, i: nat)
    requires i <= |t|
  {
    (i > 0 && IsWordChar(t[i - 1])) != (i < |t| && IsWordChar(t[i]))
  }

  /** The end of the longest run of `k` characters from `i`, at most `hi` long. */
  function RunEnd(t: string, i: nat, k: CharClass, ic: bool, hi: Option<nat>): (m: nat)
    requires i <= |t|
    ensures i <= m <= |t|
    ensures forall j :: i <= j < m ==> InClass(t[j], k, ic)
    ensures hi.Some? ==> m - i <= hi.value
    ensures m < |t| && (hi.None? || m - i < hi.value) ==> !InClass(t[m], k, ic)
    decreases |t| - i
  {
    if i < |t| && (hi.None? || hi.value > 0) && InClass(t[i], k, ic)
    then RunEnd(t, i + 1, k, ic, if hi.Some? then Some(hi.value - 1) else None)
    else i
  }

  /** Whether the zero-width assertion `e` holds at position `i`. */
  predicate ZeroWidthHolds(e: Elem, t: string, i: nat, ic: bool)
    requires i <= |t|
  {
    match e
    case NotAhead(k) => !(i < |t| && InClass(t[i], k, ic))
    case Bol => i == 0
    case Eol => i == |t| || (i + 1 == |t| && t[i] == '\n')
    case WordBoundary => IsBoundary(t, i)
    case LineStart => i == 0 || t[i - 1] == '\n'
    case LineEnd => i == |t| || t[i] == '\n'
    case _ => false
  }

  /** Match `es` at exactly position `i`; the end position and the captures of the first success. */
  function Match(es: seq<Elem>, t: string, i: nat, ic: bool, caps: Caps): (r: Option<(nat, Caps)>)
    requires i <= |t|
    ensures r.Some? ==> i <= r.value.0 <= |t|
    decreases SizeSeq(es), 1
  {
    if es == [] then Some((i, caps))
    else
      var rest := es[1..];
      assert SizeSeq(es) == Size(es[0]) + SizeSeq(rest);
      match es[0]
      case Lit(s) =>
        if LitAt(t, i, s, ic) then Match(rest, t, i + |s|, ic, caps) else None
      case Rep(k, lo, hi) =>
        var m := RunEnd(t, i, k, ic, hi);
        if m < i + lo then None else TryRuns(rest, t, i + lo, m, ic, caps)
      case Opt(body) =>
        SizeAppend(body, rest);
        var r := Match(body + rest, t, i, ic, caps);
        if r.Some? then r else Match(rest, t, i, ic, caps)
      case Or(a, b) =>
        SizeAppend(a, rest);
        SizeAppend(b, rest);
        var r := Match(a + rest, t, i, ic, caps);
        if r.Some? then r else Match(b + rest, t, i, ic, caps)
      case Group(id, body) =>
        SizeCons(Close(id, i), rest);
        SizeAppend(body, [Close(id, i)] + rest);
        Match(body + ([Close(id, i)] + rest), t, i, ic, caps)
      case Close(id, s) => Match(rest, t, i, ic, caps[id := (s, i)])
      case _ => if ZeroWidthHolds(es[0], t, i, ic) then Match(rest, t, i, ic, caps) else None
  }

  /** Try the rest of the pattern after runs ending at k, k - 1, ..., lo, longest first. */
  function TryRuns(rest: seq<Elem>, t: string, lo: nat, k: nat, ic: bool, caps: Caps): (r: Option<(nat, Caps)>)
    requires lo <= k <= |t|
    ensures r.Some? ==> lo <= r.value.0 <= |t|
    decreases SizeSeq(rest) + 1, k - lo
  {
    var r := Match(rest, t, k, ic, caps);
    if r.Some? then r
    else if k == lo then None
    else TryRuns(rest, t, lo, k - 1, ic, caps)
  }

  /** `re.search` from position `i` on: the leftmost match. */
  function SearchFrom(es: Pattern, t: string, i: nat, ic: bool): (r: Option<Hit>)
    requires i <= |t|
    ensures r.Some? ==> i <= r.value.start <= r.value.end <= |t|
    decreases |t| - i
  {
    match Match(es, t, i, ic, map[])
    case Some((e, caps)) => Some(Hit(i, e, caps))
    case None => if i == |t| then None else SearchFrom(es, t, i + 1, ic)
  }

  function Search(es: Pattern, t: string, ic: bool): (r: Option<Hit>)
    ensures r.Some? ==> r.value.start <= r.value.end <= |t|
  {
    SearchFrom(es, t, 0, ic)
  }

  /** `bool(re.search(...))`. */
  predicate Found(es: Pattern, t: string, ic: bool)
  {
    Search(es, t, ic).Some?
  }

  /** The text of one capture group of a match, None when the group did not take part. */
  function GroupText(t: string, h: Hit, id: nat): (r: Option<string>)
  {
    if id in h.caps && h.caps[id].0 <= h.caps[id].1 <= |t| then Some(t[h.caps[id].0..h.caps[id].1])
    else None
  }

  /** Group 1 of the first match. */
  function FirstCapture(es: Pattern, t: string, ic: bool): (r: Option<string>)
  {
    match Search(es, t, ic)
    case None => None
    case Some(h) => GroupText(t, h, 1)
  }

  /** `re.finditer` from position `i`: successive leftmost matches, never overlapping. */
  function FindAllFrom(es: Pattern, t: string, i: nat, ic: bool): (r: seq<Hit>)
    requires i <= |t|
    ensures forall k :: 0 <= k < |r| ==> i <= r[k].start <= r[k].end <= |t|
    decreases |t| - i
  {
    match SearchFrom(es, t, i, ic)
    case None => []
    case Some(h) =>
      var next := if h.end > h.start then h.end else h.end + 1;
      if next > |t| then [h] else [h] + FindAllFrom(es, t, next, ic)
  }

  function FindAll(es: Pattern, t: string, ic: bool): (r: seq<Hit>)
    ensures forall k :: 0 <= k < |r| ==> r[k].start <= r[k].end <= |t|
  {
    FindAllFrom(es, t, 0, ic)
  }

  /** `re.sub(pattern, repl, t[i:])`: every match replaced, the text between kept. */
  function SubFrom(es: Pattern, t: string, i: nat, ic: bool, repl: string): (r: string)
    requires i <= |t|
    decreases |t| - i
  {
    match SearchFrom(es, t, i, ic)
    case None => t[i..]
    case Some(h) =>
      if h.end > h.start then t[i..h.start] + repl + SubFrom(es, t, h.end, ic, repl)
      else if h.start == |t| then t[i..h.start] + repl
      else t[i..h.start] + repl + [t[h.start]] + SubFrom(es, t, h.start + 1, ic, repl)
  }

  function Sub(es: Pattern, t: string, ic: bool, repl: string): (r: string)
  {
    SubFrom(es, t, 0, ic, repl)
  }

  /** A search that succeeds reports a position where the pattern matches and none before it. */
  lemma {:induction false} SearchFromLeftmost(es: Pattern, t: string, i: nat, ic: bool)
    requires i <= |t|
    ensures SearchFrom(es, t, i, ic).Some? ==>
      var h := SearchFrom(es, t, i, ic).value;
      Match(es, t, h.start, ic, map[]) == Some((h.end, h.caps)) &&
      forall j :: i <= j < h.start ==> Match(es, t, j, ic, map[]).None?
    ensures SearchFrom(es, t, i, ic).None? ==> forall j :: i <= j <= |t| ==> Match(es, t, j, ic, map[]).None?
    decreases |t| - i
  {
    if Match(es, t, i, ic, map[]).None? && i < |t| {
      SearchFromLeftmost(es, t, i + 1, ic);
    }
  }

  /** A pattern that begins with a literal matches only where that literal stands. */
  lemma MatchLitHead(s: string, rest: seq<Elem>, t: string, i: nat, ic: bool, caps: Caps)
    requires i <= |t|
    requires Match([Lit(s)] + rest, t, i, ic, caps).Some?
    ensures LitAt(t, i, s, ic)
  {
    assert ([Lit(s)] + rest)[0] == Lit(s);
  }

  /** No position of `t` holds the literal head of the pattern: no search succeeds. */
  lemma {:induction false} SearchLitHeadAbsent(s: string, rest: seq<Elem>, t: string, i: nat, ic: bool)
    requires i <= |t|
    requires forall j :: i <= j <= |t| ==> !LitAt(t, j, s, ic)
    ensures SearchFrom([Lit(s)] + rest, t, i, ic).None?
    decreases |t| - i
  {
    assert ([Lit(s)] + rest)[0] == Lit(s);
    assert Match([Lit(s)] + rest, t, i, ic, map[]).None?;
    if i < |t| {
      SearchLitHeadAbsent(s, rest, t, i + 1, ic);
    }
  }

  /** A match at some position at or after `i` makes the search from `i` succeed. */
  lemma {:induction false} MatchFoundLater(es: Pattern, t: string, i: nat, j: nat, ic: bool)
    requires i <= j <= |t|
    requires Match(es, t, j, ic, map[]).Some?
    ensures SearchFrom(es, t, i, ic).Some?
    decreases j - i
  {
    if i < j && Match(es, t, i, ic, map[]).None? {
      MatchFoundLater(es, t, i + 1, j, ic);
    }
  }

  /** A pattern made only of optional parts and group ends: it matches anywhere, possibly empty. */
  predicate Permissive(es: seq<Elem>)
  {
    forall j :: 0 <= j < |es| ==> es[j].Opt? || es[j].Close?
  }

  lemma {:induction false} PermissiveMatches(es: seq<Elem>, t: string, i: nat, ic: bool, caps: Caps)
    requires i <= |t| && Permissive(es)
    ensures Match(es, t, i, ic, caps).Some?
    decreases SizeSeq(es)
  {
    if es != [] {
      var rest := es[1..];
      assert SizeSeq(es) == Size(es[0]) + SizeSeq(rest);
      assert Permissive(rest) by {
        forall j | 0 <= j < |rest|
          ensures rest[j].Opt? || rest[j].Close?
        {
          assert rest[j] == es[j + 1];
        }
      }
      match es[0]
      case Opt(body) =>
        SizeAppend(body, rest);
        if Match(body + rest, t, i, ic, caps).None? {
          PermissiveMatches(rest, t, i, ic, caps);
        }
      case Close(id, st) =>
        PermissiveMatches(rest, t, i, ic, caps[id := (st, i)]);
    }
  }

  /** A run of at least one `k` character followed by a permissive rest matches wherever a `k` character stands. */
  lemma RunThenPermissive(k: CharClass, rest: seq<Elem>, t: string, i: nat, ic: bool, caps: Caps)
    requires i < |t| && InClass(t[i], k, ic) && Permissive(rest)
    ensures Match([Rep(k, 1, None)] + rest, t, i, ic, caps).Some?
  {
    var es := [Rep(k, 1, None)] + rest;
    assert es[0] == Rep(k, 1, None) && es[1..] == rest;
    var m := RunEnd(t, i, k, ic, None);
    assert m >= i + 1;
    PermissiveMatches(rest, t, m, ic, caps);
  }

  /**
   * A pattern that opens with a group whose body starts with a run of at least one `k`
   * character matches only where such a character stands.
   */
  lemma GroupRunHead(id: nat, k: CharClass, hi: Option<nat>, body: seq<Elem>, rest: seq<Elem>, t: string, i: nat, ic: bool)
    requires i <= |t|
    requires Match([Group(id, [Rep(k, 1, hi)] + body)] + rest, t, i, ic, map[]).Some?
    ensures i < |t| && InClass(t[i], k, ic)
  {
    var es := [Group(id, [Rep(k, 1, hi)] + body)] + rest;
    assert es[0] == Group(id, [Rep(k, 1, hi)] + body) && es[1..] == rest;
    var inner := [Rep(k, 1, hi)] + body + ([Close(id, i)] + rest);
    assert ([Rep(k, 1, hi)] + body) + ([Close(id, i)] + rest) == inner;
    assert inner[0] == Rep(k, 1, hi);
  }

  /** A search from `i` fails when the pattern matches at no position from `i` on. */
  lemma SearchNoneIfNoMatch(es: Pattern, t: string, i: nat, ic: bool)
    requires i <= |t|
    requires forall j :: i <= j <= |t| ==> Match(es, t, j, ic, map[]).None?
    ensures SearchFrom(es, t, i, ic).None?
  {
    SearchFromLeftmost(es, t, i, ic);
  }

  /** No character of `s` is in class `k`. */
  predicate ClassAbsent(s: string, k: CharClass, ic: bool)
  {
    forall j :: 0 <= j < |s| ==> !InClass(s[j], k, ic)
  }

  lemma ClassAbsentConcat(a: string, b: string, k: CharClass, ic: bool)
    requires ClassAbsent(a, k, ic) && ClassAbsent(b, k, ic)
    ensures ClassAbsent(a + b, k, ic)
  {
    forall j | 0 <= j < |a + b|
      ensures !InClass((a + b)[j], k, ic)
    {
      if j < |a| {
        assert (a + b)[j] == a[j];
      } else {
        assert (a + b)[j] == b[j - |a|];
      }
    }
  }

  lemma ClassAbsentSlice(t: string, i: nat, lo: nat, hi: nat, k: CharClass, ic: bool)
    requires i <= lo <= hi <= |t| && ClassAbsent(t[i..], k, ic)
    ensures ClassAbsent(t[lo..hi], k, ic) && ClassAbsent(t[hi..], k, ic)
  {
    forall j | 0 <= j < hi - lo
      ensures !InClass(t[lo..hi][j], k, ic)
    {
      assert t[lo..hi][j] == t[i..][lo - i + j];
    }
    forall j | 0 <= j < |t| - hi
      ensures !InClass(t[hi..][j], k, ic)
    {
      assert t[hi..][j] == t[i..][hi - i + j];
    }
  }

  /** Replacing matches with nothing only removes characters: a class absent before is absent after. */
  lemma {:induction false} SubKeepsClassAbsent(es: Pattern, t: string, i: nat, ic: bool, k: CharClass, kic: bool)
    requires i <= |t| && ClassAbsent(t[i..], k, kic)
    ensures ClassAbsent(SubFrom(es, t, i, ic, ""), k, kic)
    decreases |t| - i, 1
  {
    var found := SearchFrom(es, t, i, ic);
    if found.None? {
      SubNoMatch(es, t, i, ic);
    } else {
      var h := found.value;
      if h.end > h.start {
        SubSkipMatch(es, t, i, ic, k, kic, h.start, h.end);
        SubMatchUnfold(es, t, i, ic, h);
      } else if h.start < |t| {
        SubSkipChar(es, t, i, ic, k, kic, h.start);
        SubSkipUnfold(es, t, i, ic, h);
      } else {
        SubAtEnd(es, t, i, ic, h);
      }
    }
  }

  /** Deleting an empty match at the very end leaves the rest of the text. */
  lemma SubAtEnd(es: Pattern, t: string, i: nat, ic: bool, h: Hit)
    requires i <= |t| && SearchFrom(es, t, i, ic) == Some(h) && h.end <= h.start == |t|
    ensures SubFrom(es, t, i, ic, "") == t[i..]
  {
    assert t[i..h.start] + "" == t[i..];
  }

  /** Without a match the text from `i` on is left as it is. */
  lemma SubNoMatch(es: Pattern, t: string, i: nat, ic: bool)
    requires i <= |t| && SearchFrom(es, t, i, ic).None?
    ensures SubFrom(es, t, i, ic, "") == t[i..]
  {
  }

  /** The step of `SubKeepsClassAbsent` past a non-empty match from `p` to `q`. */
  lemma {:induction false} SubSkipMatch(es: Pattern, t: string, i: nat, ic: bool, k: CharClass, kic: bool, p: nat, q: nat)
    requires i <= p < q <= |t| && ClassAbsent(t[i..], k, kic)
    ensures ClassAbsent(t[i..p] + SubFrom(es, t, q, ic, ""), k, kic)
    decreases |t| - i, 0
  {
    ClassAbsentSlice(t, i, i, p, k, kic);
    ClassAbsentSlice(t, i, p, q, k, kic);
    SubKeepsClassAbsent(es, t, q, ic, k, kic);
    ClassAbsentConcat(t[i..p], SubFrom(es, t, q, ic, ""), k, kic);
  }

  /** Deleting a non-empty match drops it and goes on after it. */
  lemma SubMatchUnfold(es: Pattern, t: string, i: nat, ic: bool, h: Hit)
    requires i <= |t| && SearchFrom(es, t, i, ic) == Some(h) && h.end > h.start
    ensures SubFrom(es, t, i, ic, "") == t[i..h.start] + SubFrom(es, t, h.end, ic, "")
  {
    assert t[i..h.start] + "" == t[i..h.start];
  }

  /** The step of `SubKeepsClassAbsent` past an empty match at `p` before the end. */
  lemma {:induction false} SubSkipChar(es: Pattern, t: string, i: nat, ic: bool, k: CharClass, kic: bool, p: nat)
    requires i <= p < |t| && ClassAbsent(t[i..], k, kic)
    ensures ClassAbsent(t[i..p + 1] + SubFrom(es, t, p + 1, ic, ""), k, kic)
    decreases |t| - i, 0
  {
    ClassAbsentSlice(t, i, i, p + 1, k, kic);
    SubKeepsClassAbsent(es, t, p + 1, ic, k, kic);
    ClassAbsentConcat(t[i..p + 1], SubFrom(es, t, p + 1, ic, ""), k, kic);
  }

  /** Deleting an empty match before the end keeps the character after it. */
  lemma SubSkipUnfold(es: Pattern, t: string, i: nat, ic: bool, h: Hit)
    requires i <= |t| && SearchFrom(es, t, i, ic) == Some(h) && h.end <= h.start < |t|
    ensures SubFrom(es, t, i, ic, "") == t[i..h.start + 1] + SubFrom(es, t, h.start + 1, ic, "")
  {
    SliceThenChar(t, i, h.start);
  }

  lemma SliceThenChar(t: string, i: nat, j: nat)
    requires i <= j < |t|
    ensures t[i..j] + "" + [t[j]] == t[i..j + 1]
  {
  }
}
