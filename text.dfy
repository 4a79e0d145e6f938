/** The `std::string` operations that the configuration parser is built
    from: `find`, `find_first_not_of`, `find_last_not_of` and the two forms
    of `erase` it uses, and the trimming they add up to.

    A position is an `Option<nat>`: `None` is `std::string::npos`. */
module Text {
  import opened Wrappers

  /** The characters `loadConfigurations` trims: space, tab, CR and LF. */
  const Blank: set<char> := {' ', '\t', '\r', '\n'}

  predicate AllIn(s: string, chars: set<char>)
  {
    forall k :: 0 <= k < |s| ==> s[k] in chars
  }

  /** `s.find(c)`: the first position of `c` in `s`. */
  function Find(s: string, c: char): (r: Option<nat>)
    ensures r.None? <==> c !in s
    ensures r.Some? ==> r.value < |s| && s[r.value] == c && c !in s[..r.value]
  {
    if |s| == 0 then None
    else if s[0] == c then Some(0)
    else
      match Find(s[1..], c)
      case None => None
      case Some(p) =>
        assert s[..p + 1] == [s[0]] + s[1..][..p];
        Some(p + 1)
  }

  /** `find` reports the first occurrence, whichever position holds it. */
  lemma FindIsFirst(s: string, c: char, p: nat)
    requires p < |s| && s[p] == c && c !in s[..p]
    ensures Find(s, c) == Some(p)
  {
    var q := Find(s, c).value;
    if q < p {
      assert false;
    } else if p < q {
      assert false;
    }
  }

  /** `s.find_first_not_of(chars)`: the first position holding a character
      outside `chars`. */
  function FindFirstNotOf(s: string, chars: set<char>): (r: Option<nat>)
    ensures r.None? <==> AllIn(s, chars)
    ensures r.Some? ==> r.value < |s| && s[r.value] !in chars && AllIn(s[..r.value], chars)
  {
    if |s| == 0 then None
    else if s[0] !in chars then Some(0)
    else
      match FindFirstNotOf(s[1..], chars)
      case None => None
      case Some(p) =>
        assert s[..p + 1] == [s[0]] + s[1..][..p];
        Some(p + 1)
  }

  /** `s.find_last_not_of(chars)`: the last position holding a character
      outside `chars`. */
  function FindLastNotOf(s: string, chars: set<char>): (r: Option<nat>)
    ensures r.None? <==> AllIn(s, chars)
    ensures r.Some? ==> r.value < |s| && s[r.value] !in chars && AllIn(s[r.value + 1..], chars)
  {
    if |s| == 0 then None
    else if s[|s| - 1] !in chars then Some(|s| - 1)
    else
      var r := FindLastNotOf(s[..|s| - 1], chars);
      assert r.Some? ==> s[r.value + 1..] == s[..|s| - 1][r.value + 1..] + [s[|s| - 1]];
      r
  }

  /** `pos + 1` on `size_t`: `npos + 1` wraps around to 0. */
  function SizeAfter(pos: Option<nat>): nat
  {
    match pos
    case None => 0
    case Some(p) => p + 1
  }

  /** `s.erase(0, count)`: drops the first `count` characters, or all of
      them when `count` is `npos` or exceeds the length. */
  function EraseFirst(s: string, count: Option<nat>): (r: string)
    ensures count.Some? && count.value <= |s| ==> r == s[count.value..]
    ensures count.None? ==> r == []
  {
    match count
    case None => []
    case Some(n) => if n >= |s| then [] else s[n..]
  }

  /** `s.erase(pos)`: drops everything from `pos` on. `std::string` throws
      when `pos` is past the end; the parser never asks for that. */
  function EraseFrom(s: string, pos: nat): (r: string)
    requires pos <= |s|
    ensures |r| == pos && s == r + s[pos..]
  {
    s[..pos]
  }

  /** The two statements of `loadConfigurations` that trim a key or value
      of the characters in `chars`: first the leading, then the trailing
      ones are erased. */
  function TrimOf(s: string, chars: set<char>): string
  {
    var left := EraseFirst(s, FindFirstNotOf(s, chars));
    EraseFrom(left, SizeAfter(FindLastNotOf(left, chars)))
  }

  /** Trimming with the parser's blanks. */
  function Trim(s: string): string
  {
    TrimOf(s, Blank)
  }

  /** Erasing the leading `chars` leaves a suffix of `s` that does not start
      with one of them, and only they were dropped. */
  lemma TrimLeading(s: string, chars: set<char>)
    ensures var l := EraseFirst(s, FindFirstNotOf(s, chars));
      && |l| <= |s| && s[|s| - |l|..] == l && AllIn(s[..|s| - |l|], chars)
      && (l != [] ==> l[0] !in chars)
  {
    match FindFirstNotOf(s, chars)
    case None =>
      assert s[..|s|] == s;
    case Some(i) =>
  }

  /** Erasing the trailing `chars` leaves a prefix of `l` that does not end
      with one of them, and only they were dropped. */
  lemma TrimTrailing(l: string, chars: set<char>)
    ensures var t := EraseFrom(l, SizeAfter(FindLastNotOf(l, chars)));
      && |t| <= |l| && l[..|t|] == t && AllIn(l[|t|..], chars)
      && (t != [] ==> t[|t| - 1] !in chars)
      && (t == [] <==> AllIn(l, chars))
  {
    match FindLastNotOf(l, chars)
    case None =>
      assert l[0..] == l;
    case Some(j) =>
  }

  lemma TrimmedEdges(s: string, chars: set<char>)
    ensures var t := TrimOf(s, chars); t != [] ==> t[0] !in chars && t[|t| - 1] !in chars
  {
    TrimLeading(s, chars);
    TrimTrailing(EraseFirst(s, FindFirstNotOf(s, chars)), chars);
  }

  lemma TrimmedEmpty(s: string, chars: set<char>)
    ensures TrimOf(s, chars) == [] <==> AllIn(s, chars)
  {
    var l := EraseFirst(s, FindFirstNotOf(s, chars));
    TrimLeading(s, chars);
    TrimTrailing(l, chars);
    assert s == s[..|s| - |l|] + l;
  }

  /** A prefix `t` of the suffix `l` of `s` that starts at `i` sits at `i`
      in `s`, and what follows it in `l` follows it in `s`. */
  lemma PrefixOfSuffix(s: string, l: string, t: string, i: nat, chars: set<char>)
    requires i <= |s| && l == s[i..] && |t| <= |l| && t == l[..|t|]
    requires AllIn(l[|t|..], chars)
    ensures s[i..i + |t|] == t && AllIn(s[i + |t|..], chars)
  {
    assert s[i + |t|..] == l[|t|..];
  }

  lemma TrimmedInfix(s: string, chars: set<char>)
    ensures var t := TrimOf(s, chars);
      exists i :: 0 <= i <= |s| - |t| && s[i..i + |t|] == t
                  && AllIn(s[..i], chars) && AllIn(s[i + |t|..], chars)
  {
    var l := EraseFirst(s, FindFirstNotOf(s, chars));
    var t := TrimOf(s, chars);
    TrimLeading(s, chars);
    TrimTrailing(l, chars);
    var i := |s| - |l|;
    PrefixOfSuffix(s, l, t, i, chars);
  }

  /** Trimming removes exactly the leading and trailing `chars` (for the
      parser, `Blank`): what is left is a contiguous part of `s`, neither
      starting nor ending with one of them, and everything around it is one
      of them. A string made only of them trims to "". */
  lemma TrimStrips(s: string, chars: set<char>)
    ensures var t := TrimOf(s, chars);
      && (t == [] <==> AllIn(s, chars))
      && (t != [] ==> t[0] !in chars && t[|t| - 1] !in chars)
      && exists i :: 0 <= i <= |s| - |t| && s[i..i + |t|] == t
                     && AllIn(s[..i], chars) && AllIn(s[i + |t|..], chars)
  {
    TrimmedEdges(s, chars);
    TrimmedEmpty(s, chars);
    TrimmedInfix(s, chars);
  }

  /** A string that neither starts nor ends with one of `chars` is left as
      it is. */
  lemma TrimKeepsUnpadded(s: string, chars: set<char>)
    requires s == [] || (s[0] !in chars && s[|s| - 1] !in chars)
    ensures TrimOf(s, chars) == s
  {
    TrimLeading(s, chars);
    var l := EraseFirst(s, FindFirstNotOf(s, chars));
    assert l == s by {
      if s != [] {
        assert FindFirstNotOf(s, chars) == Some(0);
      }
    }
    TrimTrailing(l, chars);
    if s != [] {
      assert FindLastNotOf(s, chars) == Some(|s| - 1);
    }
  }
}
