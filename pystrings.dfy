/**
 * The few pieces of Python's `str` behaviour the modelled code relies on:
 * `isspace`, `strip()`, `split()` (no separator), `lower()` against an
 * ASCII literal, and `startswith`.
 */
module PyStrings {

  /** The characters `str.isspace()` accepts; `strip()` and `split()` without
      arguments remove and split on exactly these. */
  predicate IsSpace(c: char) {
    ('\t' <= c <= '\r') || ('\U{1c}' <= c <= ' ') || c == '\U{85}' || c == '\U{a0}'
    || c == '\U{1680}' || ('\U{2000}' <= c <= '\U{200a}') || c == '\U{2028}'
    || c == '\U{2029}' || c == '\U{202f}' || c == '\U{205f}' || c == '\U{3000}'
  }

  predicate NoSpace(s: string) {
    forall i :: 0 <= i < |s| ==> !IsSpace(s[i])
  }

  predicate AllSpace(s: string) {
    forall i :: 0 <= i < |s| ==> IsSpace(s[i])
  }

  /** `s.lstrip()` */
  function StripLeft(s: string): (r: string)
    ensures |r| <= |s| && r == s[|s| - |r|..]
    ensures r == [] || !IsSpace(r[0])
    ensures AllSpace(s[..|s| - |r|])
  {
    if s != [] && IsSpace(s[0]) then
      var r := StripLeft(s[1..]);
      SpacePrefix(s, r);
      r
    else s
  }

  /** A suffix of `s[1..]` behind white space is one of `s` when `s[0]` is
      white space too. */
  lemma SpacePrefix(s: string, r: string)
    requires s != [] && IsSpace(s[0]) && |r| <= |s| - 1
    requires r == s[1..][|s| - 1 - |r|..] && AllSpace(s[1..][..|s| - 1 - |r|])
    ensures r == s[|s| - |r|..] && AllSpace(s[..|s| - |r|])
  {
    var k := |s| - |r|;
    forall i | 0 <= i < k ensures IsSpace(s[..k][i]) {
      if i > 0 { assert s[..k][i] == s[1..][..k - 1][i - 1]; }
    }
  }

  /** `s.rstrip()` */
  function StripRight(s: string): (r: string)
    ensures |r| <= |s| && r == s[..|r|]
    ensures r == [] || !IsSpace(r[|r| - 1])
    ensures AllSpace(s[|r|..])
  {
    if s != [] && IsSpace(s[|s| - 1]) then
      var r := StripRight(s[..|s| - 1]);
      SpaceSuffix(s, r);
      r
    else s
  }

  /** A prefix of `s` without its last character, ahead of white space,
      is one of `s` when that last character is white space too. */
  lemma SpaceSuffix(s: string, r: string)
    requires s != [] && IsSpace(s[|s| - 1]) && |r| <= |s| - 1
    requires r == s[..|s| - 1][..|r|] && AllSpace(s[..|s| - 1][|r|..])
    ensures r == s[..|r|] && AllSpace(s[|r|..])
  {
    forall i | 0 <= i < |s| - |r| ensures IsSpace(s[|r|..][i]) {
      if i < |s| - 1 - |r| { assert s[|r|..][i] == s[..|s| - 1][|r|..][i]; }
    }
  }

  /** `s.strip()`: the result has no white space at either end, and only white
      space was removed. */
  function Strip(s: string): (r: string)
    ensures |r| <= |s|
    ensures r == [] || (!IsSpace(r[0]) && !IsSpace(r[|r| - 1]))
  {
    StripRight(StripLeft(s))
  }

  /** Only a string with white space at an end is changed by `strip()`. */
  lemma {:induction false} StripPadded(lead: string, s: string, trail: string)
    requires AllSpace(lead) && AllSpace(trail)
    requires s == [] || (!IsSpace(s[0]) && !IsSpace(s[|s| - 1]))
    ensures Strip(lead + s + trail) == s
  {
    assert lead + s + trail == lead + (s + trail);
    if s == [] {
      assert lead + s + trail == lead + trail;
      StripLeftAllSpace(lead + trail);
      assert StripRight([]) == [];
    } else {
      StripLeftPadded(lead, s + trail);
      StripRightPadded(s, trail);
    }
  }

  lemma StripUnpadded(s: string)
    requires s == [] || (!IsSpace(s[0]) && !IsSpace(s[|s| - 1]))
    ensures Strip(s) == s
  {
    assert s == [] + s + [];
    StripPadded([], s, []);
  }

  lemma {:induction false} StripLeftAllSpace(sp: string)
    requires AllSpace(sp)
    ensures StripLeft(sp) == []
  {
    if sp != [] {
      StripLeftAllSpace(sp[1..]);
    }
  }

  lemma {:induction false} StripLeftPadded(lead: string, s: string)
    requires AllSpace(lead) && (s == [] || !IsSpace(s[0]))
    ensures StripLeft(lead + s) == s
  {
    if lead != [] {
      assert (lead + s)[1..] == lead[1..] + s;
      StripLeftPadded(lead[1..], s);
    } else {
      assert lead + s == s;
    }
  }

  lemma {:induction false} StripRightPadded(s: string, trail: string)
    requires AllSpace(trail) && (s == [] || !IsSpace(s[|s| - 1]))
    ensures StripRight(s + trail) == s
  {
    if trail != [] {
      assert (s + trail)[..|s + trail| - 1] == s + trail[..|trail| - 1];
      StripRightPadded(s, trail[..|trail| - 1]);
    } else {
      assert s + trail == s;
    }
  }

  /** The longest prefix of `s` free of white space. */
  function Word(s: string): (w: string)
    ensures |w| <= |s| && w == s[..|w|] && NoSpace(w)
    ensures |w| == |s| || IsSpace(s[|w|])
  {
    if s == [] || IsSpace(s[0]) then [] else [s[0]] + Word(s[1..])
  }

  /** `s.split()`: the maximal runs of non-white-space characters, in order. */
  function Split(s: string): (parts: seq<string>)
    ensures forall i :: 0 <= i < |parts| ==> parts[i] != [] && NoSpace(parts[i])
    decreases |s|
  {
    var t := StripLeft(s);
    if t == [] then [] else
    var w := Word(t);
    var rest := Split(t[|w|..]);
    WordsCons(w, rest);
    [w] + rest
  }

  /** A word in front of words gives words. */
  lemma WordsCons(w: string, rest: seq<string>)
    requires w != [] && NoSpace(w)
    requires forall i :: 0 <= i < |rest| ==> rest[i] != [] && NoSpace(rest[i])
    ensures forall i :: 0 <= i < |[w] + rest| ==> ([w] + rest)[i] != [] && NoSpace(([w] + rest)[i])
  {
    forall i | 0 <= i < |[w] + rest| ensures ([w] + rest)[i] != [] && NoSpace(([w] + rest)[i]) {
      if i > 0 { assert ([w] + rest)[i] == rest[i - 1]; }
    }
  }

  lemma {:induction false} SplitOfSpaces(sp: string, s: string)
    requires AllSpace(sp)
    ensures Split(sp + s) == Split(s)
  {
    if sp != [] {
      assert (sp + s)[1..] == sp[1..] + s;
      assert StripLeft(sp + s) == StripLeft(sp[1..] + s);
      SplitOfSpaces(sp[1..], s);
    } else {
      assert sp + s == s;
    }
  }

  lemma {:induction false} WordOfWord(w: string, rest: string)
    requires NoSpace(w) && (rest == [] || IsSpace(rest[0]))
    ensures Word(w + rest) == w
  {
    if w != [] {
      assert (w + rest)[1..] == w[1..] + rest;
      WordOfWord(w[1..], rest);
    } else {
      assert w + rest == rest;
    }
  }

  lemma SplitOfWord(w: string, rest: string)
    requires w != [] && NoSpace(w) && (rest == [] || IsSpace(rest[0]))
    ensures Split(w + rest) == [w] + Split(rest)
  {
    WordOfWord(w, rest);
    assert (w + rest)[|w|..] == rest;
  }

  /** The header shapes `split()` turns into exactly two parts. */
  lemma SplitTwo(lead: string, a: string, sep: string, b: string, trail: string)
    requires AllSpace(lead) && AllSpace(sep) && AllSpace(trail) && sep != []
    requires a != [] && NoSpace(a) && b != [] && NoSpace(b)
    ensures Split(lead + (a + (sep + (b + trail)))) == [a, b]
  {
    var tail := b + trail;
    var mid := sep + tail;
    var rest := a + mid;
    assert Split(tail) == [b] by { SplitOfOneWord(b, trail); }
    assert Split(mid) == [b] by { SplitOfSpaces(sep, tail); }
    assert Split(rest) == [a] + [b] by { SplitOfWord(a, mid); }
    assert Split(lead + rest) == Split(rest) by { SplitOfSpaces(lead, rest); }
    Pair(a, b);
  }

  lemma Pair<T>(a: T, b: T)
    ensures [a] + [b] == [a, b]
  {
  }

  lemma SplitOfOneWord(b: string, trail: string)
    requires AllSpace(trail) && b != [] && NoSpace(b)
    ensures Split(b + trail) == [b]
  {
    SplitOfWord(b, trail);
    SplitOfSpaces(trail, []);
    assert trail + [] == trail;
  }

  /** Every white-space-separated word of `s` is reported, and nothing else:
      joined together the parts are `s` with its white space removed. */
  lemma {:induction false} SplitJoin(s: string)
    ensures Concat(Split(s)) == RemoveSpace(s)
    decreases |s|
  {
    var t := StripLeft(s);
    assert s == s[..|s| - |t|] + t;
    RemoveSpaceOfSpaces(s[..|s| - |t|], t);
    if t != [] {
      var w := Word(t);
      SplitJoin(t[|w|..]);
      SplitJoinStep(t, w);
    }
  }

  lemma SplitJoinStep(t: string, w: string)
    requires w == Word(t) && t != [] && !IsSpace(t[0])
    requires Concat(Split(t[|w|..])) == RemoveSpace(t[|w|..])
    ensures Concat([w] + Split(t[|w|..])) == RemoveSpace(t)
  {
    assert t == w + t[|w|..];
    RemoveSpaceAppend(w, t[|w|..]);
    RemoveSpaceOfWord(w);
    assert ([w] + Split(t[|w|..]))[1..] == Split(t[|w|..]);
  }

  function Concat(parts: seq<string>): string {
    if parts == [] then [] else parts[0] + Concat(parts[1..])
  }

  function RemoveSpace(s: string): (r: string)
    ensures NoSpace(r)
  {
    if s == [] then [] else (if IsSpace(s[0]) then [] else [s[0]]) + RemoveSpace(s[1..])
  }

  lemma {:induction false} RemoveSpaceAppend(a: string, b: string)
    ensures RemoveSpace(a + b) == RemoveSpace(a) + RemoveSpace(b)
  {
    if a != [] {
      assert (a + b)[1..] == a[1..] + b;
      RemoveSpaceAppend(a[1..], b);
    } else {
      assert a + b == b;
    }
  }

  lemma {:induction false} RemoveSpaceOfSpaces(sp: string, s: string)
    requires AllSpace(sp)
    ensures RemoveSpace(sp + s) == RemoveSpace(s)
  {
    RemoveSpaceAppend(sp, s);
    RemoveSpaceAllSpace(sp);
  }

  lemma {:induction false} RemoveSpaceAllSpace(sp: string)
    requires AllSpace(sp)
    ensures RemoveSpace(sp) == []
  {
    if sp != [] {
      RemoveSpaceAllSpace(sp[1..]);
    }
  }

  lemma {:induction false} RemoveSpaceOfWord(w: string)
    requires NoSpace(w)
    ensures RemoveSpace(w) == w
  {
    if w != [] {
      RemoveSpaceOfWord(w[1..]);
    }
  }

  /** ASCII lower-casing. Compared against a lower-case ASCII literal with
      no 'k' in it, a prefix of it agrees with Python's full `lower()`: the
      Kelvin sign is the only other character that lower-cases to a lone
      ASCII letter, and the dotted capital I lower-cases to an 'i' followed
      by a combining dot, which no such literal contains. */
  function LowerAscii(s: string): (r: string)
    ensures |r| == |s|
    ensures forall i :: 0 <= i < |s| ==> r[i] == LowerChar(s[i])
  {
    if s == [] then [] else [LowerChar(s[0])] + LowerAscii(s[1..])
  }

  function LowerChar(c: char): char {
    if 'A' <= c <= 'Z' then (c as int + 32) as char else c
  }

  predicate StartsWith(s: string, prefix: string) {
    |prefix| <= |s| && s[..|prefix|] == prefix
  }

  /** `s.lower().startswith(prefix)` for an ASCII lower-case `prefix`. */
  predicate StartsWithIgnoreCase(s: string, prefix: string) {
    |prefix| <= |s| && LowerAscii(s[..|prefix|]) == prefix
  }

  /** `c in s` for a character. */
  predicate Contains(s: string, c: char) {
    exists i :: 0 <= i < |s| && s[i] == c
  }
}
