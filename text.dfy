/** Python's string primitives as the source uses them: `str.lower()`,
    `str.strip()`, `needle in hay` and `s.startswith(p)`. */
module Text {
  import opened Seqs

  /** Python's lower-case mapping of one code point, for ASCII, Latin-1 and
      Latin Extended-A (which hold every letter of Turkish). `İ` (U+0130)
      lowers to two code points, `i` followed by U+0307, as in Python; code
      points outside these blocks are left unchanged. */
  function LowerChar(c: char): (r: string)
    ensures 1 <= |r| <= 2
    ensures c as int < 0x41 || 0x5B <= c as int < 0xC0 ==> r == [c]
  {
    var n := c as int;
    if n < 0x41 then [c]
    else if n <= 0x5A then [(n + 32) as char]
    else if n < 0xC0 then [c]
    else if n <= 0xDE then (if n == 0xD7 then [c] else [(n + 32) as char])
    else if n < 0x100 || n > 0x17E then [c]
    else if n == 0x130 then ['i', 0x307 as char]
    else if n == 0x178 then [0xFF as char]
    else if n <= 0x137 || 0x14A <= n <= 0x177 then (if n % 2 == 0 && n != 0x130 then [(n + 1) as char] else [c])
    else if 0x139 <= n <= 0x148 || 0x179 <= n then (if n % 2 == 1 then [(n + 1) as char] else [c])
    else [c]
  }

  /** `s.lower()`: each code point replaced by its lower-case mapping. */
  function Lower(s: string): (r: string)
    ensures |r| >= |s|
    ensures r == [] <==> s == []
  {
    if s == [] then [] else LowerChar(s[0]) + Lower(s[1..])
  }

  lemma {:induction false} LowerAppend(a: string, b: string)
    ensures Lower(a + b) == Lower(a) + Lower(b)
  {
    if a == [] {
      assert a + b == b;
    } else {
      assert (a + b)[0] == a[0];
      assert (a + b)[1..] == a[1..] + b;
      LowerAppend(a[1..], b);
    }
  }

  /** Lower-casing leaves a text unchanged when each of its characters is
      its own lower case. */
  lemma {:induction false} LowerFixed(s: string)
    requires forall i :: 0 <= i < |s| ==> LowerChar(s[i]) == [s[i]]
    ensures Lower(s) == s
  {
    if s != [] {
      LowerFixed(s[1..]);
    }
  }

  /** Lower-casing leaves a two-character text unchanged when both
      characters are their own lower case. */
  lemma {:induction false} LowerPairFixed(a: char, b: char)
    requires LowerChar(a) == [a] && LowerChar(b) == [b]
    ensures Lower([a, b]) == [a, b]
  {
    assert [a, b][1..] == [b];
    assert Lower([b]) == LowerChar(b) + Lower([]);
  }

  /** Lower-casing a character's lower case changes nothing. */
  lemma {:induction false} LowerCharIdempotent(c: char)
    ensures Lower(LowerChar(c)) == LowerChar(c)
  {
    var r := LowerChar(c);
    if c as int == 0x130 {
      LowerPairFixed('i', 0x307 as char);
    } else {
      assert |r| == 1 && LowerChar(r[0]) == r;
      assert r == [r[0]];
      assert Lower([r[0]]) == LowerChar(r[0]) + Lower([]);
    }
  }

  /** `s.lower().lower() == s.lower()`. */
  lemma {:induction false} LowerIdempotent(s: string)
    ensures Lower(Lower(s)) == Lower(s)
  {
    if s != [] {
      LowerAppend(LowerChar(s[0]), Lower(s[1..]));
      LowerCharIdempotent(s[0]);
      LowerIdempotent(s[1..]);
    }
  }

  /** The characters Python's `str.isspace()` accepts, which `strip()`
      removes. */
  predicate IsSpace(c: char) {
    var n := c as int;
    (0x09 <= n <= 0x0D) || (0x1C <= n <= 0x20) || n == 0x85 || n == 0xA0 || n == 0x1680
    || (0x2000 <= n <= 0x200A) || n == 0x2028 || n == 0x2029 || n == 0x202F || n == 0x205F || n == 0x3000
  }

  /** White space is its own lower case. */
  lemma {:induction false} LowerBlank(s: string)
    requires forall k :: 0 <= k < |s| ==> IsSpace(s[k])
    ensures Lower(s) == s
  {
    if s != [] {
      LowerBlank(s[1..]);
    }
  }

  /** The number of white-space characters `s.lstrip()` removes. */
  function LeadingSpaces(s: string): (n: nat)
    ensures n <= |s|
    ensures forall k :: 0 <= k < n ==> IsSpace(s[k])
    ensures n < |s| ==> !IsSpace(s[n])
  {
    if s != [] && IsSpace(s[0]) then 1 + LeadingSpaces(s[1..]) else 0
  }

  /** The number of white-space characters `s.rstrip()` removes. */
  function TrailingSpaces(s: string): (n: nat)
    ensures n <= |s|
    ensures forall k :: |s| - n <= k < |s| ==> IsSpace(s[k])
    ensures n < |s| ==> !IsSpace(s[|s| - n - 1])
  {
    if s != [] && IsSpace(s[|s| - 1]) then 1 + TrailingSpaces(s[..|s| - 1]) else 0
  }

  /** `s.strip()`: `s` without its leading and its trailing white space.
      `StripSpec` states what the result is. */
  function Strip(s: string): (r: string)
    ensures |r| <= |s|
  {
    var t := s[LeadingSpaces(s)..];
    t[..|t| - TrailingSpaces(t)]
  }

  /** The result of `s.strip()` is the part of `s` that starts right after
      its leading white space and is followed only by white space; it
      neither starts nor ends with white space. */
  lemma {:induction false} StripSpec(s: string)
    ensures LeadingSpaces(s) + |Strip(s)| <= |s|
    ensures forall k :: 0 <= k < |Strip(s)| ==> Strip(s)[k] == s[LeadingSpaces(s) + k]
    ensures forall k :: LeadingSpaces(s) + |Strip(s)| <= k < |s| ==> IsSpace(s[k])
    ensures Strip(s) == [] || (!IsSpace(Strip(s)[0]) && !IsSpace(Strip(s)[|Strip(s)| - 1]))
  {
    var i := LeadingSpaces(s);
    var t := s[i..];
    var r := Strip(s);
    assert forall k :: i + |r| <= k < |s| ==> IsSpace(s[k]) by {
      forall k | i + |r| <= k < |s| ensures IsSpace(s[k]) {
        assert s[k] == t[k - i];
      }
    }
  }

  /** A text without white space at either end is its own `strip()`. */
  lemma {:induction false} StripUntrimmed(s: string)
    requires s != [] && !IsSpace(s[0]) && !IsSpace(s[|s| - 1])
    ensures Strip(s) == s
  {
    assert LeadingSpaces(s) == 0;
    assert s[0..] == s;
  }

  /** `s.strip()` is empty exactly when every character of `s` is white
      space. */
  lemma {:induction false} StripEmptyIffBlank(s: string)
    ensures Strip(s) == [] <==> forall k :: 0 <= k < |s| ==> IsSpace(s[k])
  {
    StripSpec(s);
  }

  /** White space in front adds its length to the leading white space. */
  lemma {:induction false} LeadingSpacesPrefix(pre: string, s: string)
    requires forall k :: 0 <= k < |pre| ==> IsSpace(pre[k])
    ensures LeadingSpaces(pre + s) == |pre| + LeadingSpaces(s)
  {
    if pre != [] {
      assert (pre + s)[1..] == pre[1..] + s;
      LeadingSpacesPrefix(pre[1..], s);
    } else {
      assert pre + s == s;
    }
  }

  /** Leading white space that stops inside `s` is not affected by what
      follows `s`. */
  lemma {:induction false} LeadingSpacesStops(s: string, post: string)
    requires LeadingSpaces(s) < |s|
    ensures LeadingSpaces(s + post) == LeadingSpaces(s)
  {
    if IsSpace(s[0]) {
      assert (s + post)[1..] == s[1..] + post;
      LeadingSpacesStops(s[1..], post);
    }
  }

  /** White space behind adds its length to the trailing white space. */
  lemma {:induction false} TrailingSpacesSuffix(s: string, post: string)
    requires forall k :: 0 <= k < |post| ==> IsSpace(post[k])
    ensures TrailingSpaces(s + post) == |post| + TrailingSpaces(s)
  {
    if post != [] {
      var shorter := post[..|post| - 1];
      assert (s + post)[..|s + post| - 1] == s + shorter;
      TrailingSpacesSuffix(s, shorter);
    } else {
      assert s + post == s;
    }
  }

  /** `strip()` removes white space padding on either side: padding `s`
      with white space does not change `s.strip()`. */
  lemma {:induction false} StripPadded(pre: string, s: string, post: string)
    requires forall k :: 0 <= k < |pre| ==> IsSpace(pre[k])
    requires forall k :: 0 <= k < |post| ==> IsSpace(post[k])
    ensures Strip(pre + s + post) == Strip(s)
  {
    assert pre + s + post == pre + (s + post);
    StripFrontPadded(pre, s + post);
    StripBackPadded(s, post);
  }

  lemma {:induction false} StripFrontPadded(pre: string, s: string)
    requires forall k :: 0 <= k < |pre| ==> IsSpace(pre[k])
    ensures Strip(pre + s) == Strip(s)
  {
    LeadingSpacesPrefix(pre, s);
    SliceAppend(pre, s, LeadingSpaces(s));
  }

  lemma {:induction false} StripBackPadded(s: string, post: string)
    requires forall k :: 0 <= k < |post| ==> IsSpace(post[k])
    ensures Strip(s + post) == Strip(s)
  {
    var x := s + post;
    if LeadingSpaces(s) < |s| {
      LeadingSpacesStops(s, post);
      var u := s[LeadingSpaces(s)..];
      SliceAppend(s, post, LeadingSpaces(s));
      TrailingSpacesSuffix(u, post);
      SliceAppend(u, post, |u| - TrailingSpaces(u));
    } else {
      assert forall k :: 0 <= k < |x| ==> IsSpace(x[k]) by {
        forall k | 0 <= k < |x| ensures IsSpace(x[k]) {
          if k >= |s| {
            assert x[k] == post[k - |s|];
          }
        }
      }
      StripEmptyIffBlank(x);
      StripEmptyIffBlank(s);
    }
  }

  /** `s.startswith(prefix)`: the first `|prefix|` characters of `s` are
      `prefix`. */
  function StartsWith(s: string, prefix: string): (b: bool)
    ensures b <==> |prefix| <= |s| && s[..|prefix|] == prefix
  {
    prefix <= s
  }

  /** `needle in hay`: the needle occurs at some position of the hay. */
  function Contains(hay: string, needle: string): (b: bool)
  {
    needle <= hay || (hay != [] && Contains(hay[1..], needle))
  }

  /** The reference meaning of `needle in hay`: an index where the needle
      starts. */
  ghost predicate OccursAt(hay: string, needle: string, i: int) {
    0 <= i && i + |needle| <= |hay| && hay[i..i + |needle|] == needle
  }

  lemma {:induction false} ContainsIff(hay: string, needle: string)
    ensures Contains(hay, needle) <==> exists i :: OccursAt(hay, needle, i)
  {
    if needle <= hay {
      assert OccursAt(hay, needle, 0);
    } else if hay != [] {
      ContainsIff(hay[1..], needle);
      if exists i :: OccursAt(hay[1..], needle, i) {
        var i :| OccursAt(hay[1..], needle, i);
        assert hay[1..][i..i + |needle|] == hay[i + 1..i + 1 + |needle|];
        assert OccursAt(hay, needle, i + 1);
      }
      if exists i :: OccursAt(hay, needle, i) {
        var i :| OccursAt(hay, needle, i);
        assert i != 0;
        assert hay[1..][i - 1..i - 1 + |needle|] == hay[i..i + |needle|];
        assert OccursAt(hay[1..], needle, i - 1);
      }
    }
  }

  /** The empty string is in every string (Python: `"" in s` is true). */
  lemma {:induction false} EmptyContained(hay: string)
    ensures Contains(hay, [])
  {
  }

  /** A needle longer than the hay never occurs in it. */
  lemma {:induction false} LongerNotContained(hay: string, needle: string)
    requires |needle| > |hay|
    ensures !Contains(hay, needle)
  {
    if hay != [] {
      LongerNotContained(hay[1..], needle);
    }
  }

  /** Every slice of a text occurs in it. */
  lemma {:induction false} ContainsSlice(hay: string, i: nat, j: nat)
    requires i <= j <= |hay|
    ensures Contains(hay, hay[i..j])
  {
    assert OccursAt(hay, hay[i..j], i);
    ContainsIff(hay, hay[i..j]);
  }

  /** Occurrence survives extending the hay on either side. */
  lemma {:induction false} ContainsInExtension(pre: string, hay: string, post: string, needle: string)
    requires Contains(hay, needle)
    ensures Contains(pre + hay + post, needle)
  {
    ContainsIff(hay, needle);
    var i :| OccursAt(hay, needle, i);
    var big := pre + hay + post;
    assert big[|pre| + i..|pre| + i + |needle|] == hay[i..i + |needle|];
    assert OccursAt(big, needle, |pre| + i);
    ContainsIff(big, needle);
  }
}
