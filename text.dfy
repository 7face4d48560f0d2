/** The parts of Python's `str` that the core relies on, restricted to
    ASCII: `lower`, `title`, `replace`, `endswith`, slicing with a clamped
    end, and the centring of `'{s:^{w}}'.format(...)`. */
module Text {

  predicate IsUpperChar(c: char) { 'A' <= c <= 'Z' }
  predicate IsLowerChar(c: char) { 'a' <= c <= 'z' }
  predicate IsLetter(c: char) { IsUpperChar(c) || IsLowerChar(c) }

  function LowerChar(c: char): char {
    if IsUpperChar(c) then (c as int + 32) as char else c
  }

  function UpperChar(c: char): char {
    if IsLowerChar(c) then (c as int - 32) as char else c
  }

  /** `s.lower()` */
  function Lower(s: string): (r: string)
    ensures |r| == |s|
  {
    if s == [] then [] else [LowerChar(s[0])] + Lower(s[1..])
  }

  lemma {:induction false} LowerAt(s: string, i: nat)
    requires i < |s|
    ensures Lower(s)[i] == LowerChar(s[i])
  {
    if i > 0 {
      LowerAt(s[1..], i - 1);
    }
  }

  /** Lower-casing, stated character by character. */
  lemma LowerEach(s: string, t: string)
    requires |s| == |t| && forall i :: 0 <= i < |s| ==> LowerChar(s[i]) == t[i]
    ensures Lower(s) == t
  {
    forall i | 0 <= i < |s|
      ensures Lower(s)[i] == t[i]
    {
      LowerAt(s, i);
    }
  }

  /** Lower-casing twice is lower-casing once, so every comparison of a
      lower-cased input is insensitive to the case of that input. */
  lemma LowerIdempotent(s: string)
    ensures Lower(Lower(s)) == Lower(s)
  {
    forall i | 0 <= i < |s|
      ensures Lower(Lower(s))[i] == Lower(s)[i]
    {
      LowerAt(s, i);
      LowerAt(Lower(s), i);
    }
  }

  /** `s[:n]`: Python slicing clamps an end that lies past the string. */
  function Prefix(s: string, n: nat): (r: string)
    ensures |r| == if |s| < n then |s| else n
    ensures r <= s
  {
    if |s| <= n then s else s[..n]
  }

  /** One step of `str.title()`: `afterLetter` tells whether the previous
      character was cased. */
  function TitleFrom(s: string, afterLetter: bool): (r: string)
    ensures |r| == |s|
  {
    if s == [] then []
    else if IsLetter(s[0]) then
      [if afterLetter then LowerChar(s[0]) else UpperChar(s[0])] + TitleFrom(s[1..], true)
    else
      [s[0]] + TitleFrom(s[1..], false)
  }

  /** `s.title()` */
  function Title(s: string): (r: string)
    ensures |r| == |s|
  {
    TitleFrom(s, false)
  }

  /** Reference definition of `str.title()` character by character: a letter
      is upper-cased when it starts a word (it is first, or follows a
      non-letter) and lower-cased otherwise; any other character is kept. */
  function TitleCharAt(s: string, i: nat): char
    requires i < |s|
  {
    if !IsLetter(s[i]) then s[i]
    else if i > 0 && IsLetter(s[i - 1]) then LowerChar(s[i])
    else UpperChar(s[i])
  }

  lemma {:induction false} TitleFromAt(s: string, afterLetter: bool, i: nat)
    requires i < |s|
    ensures TitleFrom(s, afterLetter)[i] ==
      if !IsLetter(s[i]) then s[i]
      else if (if i == 0 then afterLetter else IsLetter(s[i - 1])) then LowerChar(s[i])
      else UpperChar(s[i])
  {
    if i > 0 {
      TitleFromAt(s[1..], IsLetter(s[0]), i - 1);
    }
  }

  lemma TitleAt(s: string, i: nat)
    requires i < |s|
    ensures Title(s)[i] == TitleCharAt(s, i)
  {
    TitleFromAt(s, false, i);
  }

  /** Lower-casing commutes with taking a prefix. */
  lemma LowerPrefix(s: string, n: nat)
    ensures Lower(Prefix(s, n)) == Prefix(Lower(s), n)
  {
    forall i | 0 <= i < |Prefix(s, n)|
      ensures Lower(Prefix(s, n))[i] == Prefix(Lower(s), n)[i]
    {
      LowerAt(Prefix(s, n), i);
      LowerAt(s, i);
    }
  }

  /** Title-casing, stated character by character. */
  lemma TitleEach(s: string, t: string)
    requires |s| == |t| && forall i :: 0 <= i < |s| ==> TitleCharAt(s, i) == t[i]
    ensures Title(s) == t
  {
    forall i | 0 <= i < |s|
      ensures Title(s)[i] == t[i]
    {
      TitleAt(s, i);
    }
  }

  /** `title()` changes only the case of letters. */
  lemma TitleKeepsLower(s: string)
    ensures Lower(Title(s)) == Lower(s)
  {
    forall i | 0 <= i < |s|
      ensures Lower(Title(s))[i] == Lower(s)[i]
    {
      TitleAt(s, i);
      LowerAt(s, i);
      LowerAt(Title(s), i);
    }
  }

  /** Two characters with the same lower case are both letters or both not,
      and have the same upper case. */
  lemma SameLowerChar(a: char, b: char)
    requires LowerChar(a) == LowerChar(b)
    ensures IsLetter(a) <==> IsLetter(b)
    ensures IsLetter(a) ==> UpperChar(a) == UpperChar(b)
  {
  }

  /** `title()` ignores the case its input comes in. */
  lemma TitleCaseBlind(s: string, t: string)
    requires Lower(s) == Lower(t)
    ensures Title(s) == Title(t)
  {
    forall i | 0 <= i < |s|
      ensures Title(s)[i] == Title(t)[i]
    {
      TitleAt(s, i);
      TitleAt(t, i);
      LowerAt(s, i);
      LowerAt(t, i);
      SameLowerChar(s[i], t[i]);
      if i > 0 {
        LowerAt(s, i - 1);
        LowerAt(t, i - 1);
        SameLowerChar(s[i - 1], t[i - 1]);
      }
    }
  }

  /** A title-cased string is its own title case. */
  lemma TitleIdempotent(s: string)
    ensures Title(Title(s)) == Title(s)
  {
    forall i | 0 <= i < |s|
      ensures Title(Title(s))[i] == Title(s)[i]
    {
      TitleAt(s, i);
      TitleAt(Title(s), i);
      if i > 0 {
        TitleAt(s, i - 1);
      }
    }
  }

  /** `p` is a prefix of `s`, compared character by character. This is
      Dafny's `p <= s` (see `IsPrefixMeans`); the recursive form is kept
      because the lemmas about `Replace` reason about the pattern's first
      character, which it exposes without a quantifier. */
  predicate IsPrefix(p: string, s: string) {
    |p| <= |s| && (p == [] || (p[0] == s[0] && IsPrefix(p[1..], s[1..])))
  }

  lemma {:induction false} IsPrefixMeans(p: string, s: string)
    ensures IsPrefix(p, s) <==> p <= s
  {
    if p != [] && |p| <= |s| {
      IsPrefixMeans(p[1..], s[1..]);
      assert p <= s <==> p[0] == s[0] && p[1..] <= s[1..];
    }
  }

  /** `s.replace(pat, rep)`: every occurrence of `pat`, scanned left to right
      without overlap, is replaced by `rep`. */
  function Replace(s: string, pat: string, rep: string): string
    requires |pat| > 0
    decreases |s|
  {
    if s == [] then []
    else if IsPrefix(pat, s) then rep + Replace(s[|pat|..], pat, rep)
    else [s[0]] + Replace(s[1..], pat, rep)
  }

  /** Replacing one character by another keeps the length and maps each
      character on its own. */
  lemma {:induction false} ReplaceCharAt(s: string, a: char, b: char, i: nat)
    requires i < |s|
    ensures |Replace(s, [a], [b])| == |s|
    ensures Replace(s, [a], [b])[i] == if s[i] == a then b else s[i]
  {
    assert IsPrefix([a], s) <==> s[0] == a;
    if i > 0 {
      ReplaceCharAt(s[1..], a, b, i - 1);
    } else if |s| > 1 {
      ReplaceCharAt(s[1..], a, b, 0);
    }
  }

  /** Replacing one character by another, stated character by character. */
  lemma ReplaceEach(s: string, a: char, b: char, t: string)
    requires |s| == |t| && forall i :: 0 <= i < |s| ==> t[i] == if s[i] == a then b else s[i]
    ensures Replace(s, [a], [b]) == t
  {
    if s != [] {
      ReplaceCharAt(s, a, b, 0);
    }
    forall i | 0 <= i < |s|
      ensures Replace(s, [a], [b])[i] == t[i]
    {
      ReplaceCharAt(s, a, b, i);
    }
  }

  /** Where the pattern never occurs, `replace` changes nothing. */
  lemma {:induction false} ReplaceAbsent(s: string, pat: string, rep: string)
    requires |pat| > 0
    requires forall i :: 0 <= i < |s| ==> !IsPrefix(pat, s[i..])
    ensures Replace(s, pat, rep) == s
  {
    if s != [] {
      assert s[0..] == s;
      forall i | 0 <= i < |s[1..]|
        ensures !IsPrefix(pat, s[1..][i..])
      {
        assert s[1..][i..] == s[i + 1..];
      }
      ReplaceAbsent(s[1..], pat, rep);
    }
  }

  /** A string that never holds the pattern's first character is left as
      it is. */
  lemma {:induction false} ReplaceWithoutHead(s: string, pat: string, rep: string)
    requires |pat| > 0 && pat[0] !in s
    ensures Replace(s, pat, rep) == s
  {
    if s != [] {
      assert s[0] != pat[0];
      ReplaceWithoutHead(s[1..], pat, rep);
    }
  }

  /** A leading part that never holds the pattern's first character is
      copied. */
  lemma {:induction false} ReplaceSkipsPlain(p: string, s: string, pat: string, rep: string)
    requires |pat| > 0 && pat[0] !in p
    ensures Replace(p + s, pat, rep) == p + Replace(s, pat, rep)
  {
    if p == [] {
      assert p + s == s;
    } else {
      assert (p + s)[0] == p[0] && (p + s)[1..] == p[1..] + s;
      ReplaceSkipsPlain(p[1..], s, pat, rep);
    }
  }

  /** One leading character that does not start the pattern is copied. */
  lemma ReplaceKeepsHead(c: char, s: string, pat: string, rep: string)
    requires |pat| > 0 && !IsPrefix(pat, [c] + s)
    ensures Replace([c] + s, pat, rep) == [c] + Replace(s, pat, rep)
  {
    assert ([c] + s)[1..] == s;
  }

  /** A pattern at the end of a string without its first character is
      the only occurrence replaced. */
  lemma ReplaceAtEnd(a: string, pat: string, rep: string)
    requires |pat| > 0 && pat[0] !in a
    ensures Replace(a + pat, pat, rep) == a + rep
  {
    ReplaceSkipsPlain(a, pat, pat, rep);
    IsPrefixMeans(pat, pat);
    assert pat[|pat|..] == [];
  }

  /** Two words separated by the pattern's first character, then the
      pattern: only the final pattern is replaced, provided the second word
      does not continue the pattern. */
  lemma ReplaceWordsAtEnd(a: string, sep: char, b: string, pat: string, rep: string)
    requires |pat| >= 2 && sep == pat[0] && sep !in a && sep !in b && b != [] && b[0] != pat[1]
    ensures Replace(a + [sep] + b + pat, pat, rep) == a + [sep] + b + rep
  {
    var tail := b + pat;
    ReplaceAtEnd(b, pat, rep);
    assert ([sep] + tail)[1] == b[0];
    ReplaceKeepsHead(sep, tail, pat, rep);
    ReplaceSkipsPlain(a, [sep] + tail, pat, rep);
    assert a + [sep] + b + pat == a + ([sep] + tail);
    assert a + [sep] + b + rep == a + ([sep] + (b + rep));
  }

  /** `s.endswith(suffix)`, case-sensitive. */
  predicate EndsWith(s: string, suffix: string) {
    |suffix| <= |s| && s[|s| - |suffix|..] == suffix
  }

  /** A directory entry that the core treats as a data file. */
  predicate IsCsvFile(name: string) {
    EndsWith(name, ".csv")
  }

  /** `c * n` */
  function Repeat(c: char, n: nat): (r: string)
    ensures |r| == n
  {
    seq(n, _ => c)
  }

  /** Columns of padding `'{s:^{width}}'` puts before `s`. */
  function LeftPad(len: nat, width: nat): nat {
    if len >= width then 0 else (width - len) / 2
  }

  /** `'{s:{fill}^{width}}'.format(s=s)`: `s` centred in `width` columns,
      the odd column of padding going to the right; a string as wide as the
      field, or wider, is neither padded nor cut. */
  function Centre(s: string, width: nat, fill: char): (r: string)
    ensures |r| == if |s| < width then width else |s|
  {
    if |s| >= width then s
    else
      var pad := width - |s|;
      Repeat(fill, pad / 2) + s + Repeat(fill, pad - pad / 2)
  }

  /** `s` sits after `LeftPad` columns of padding, and the padding on its
      right is as wide as on its left or one column wider. */
  lemma CentreLayout(s: string, width: nat, fill: char)
    ensures var r := Centre(s, width, fill);
      var l := LeftPad(|s|, width);
      && l + |s| <= |r|
      && r[l..l + |s|] == s
      && (forall i :: 0 <= i < l ==> r[i] == fill)
      && (forall i :: l + |s| <= i < |r| ==> r[i] == fill)
      && l <= |r| - l - |s| <= l + 1
  {
    if |s| < width {
      var pad := width - |s|;
      var left := Repeat(fill, pad / 2);
      assert Centre(s, width, fill) == left + s + Repeat(fill, pad - pad / 2);
      assert (left + s + Repeat(fill, pad - pad / 2))[|left|..|left| + |s|] == s;
    }
  }

  /** A field of padding around one padding character is all padding: the
      blank and the dashed rows of the header. */
  lemma CentreFill(width: nat, fill: char)
    requires width > 0
    ensures Centre([fill], width, fill) == Repeat(fill, width)
  {
    var r := Centre([fill], width, fill);
    var l := LeftPad(1, width);
    CentreLayout([fill], width, fill);
    forall i | 0 <= i < width
      ensures r[i] == fill
    {
      if i == l {
        assert r[l..l + 1] == [fill];
      }
    }
  }
}
