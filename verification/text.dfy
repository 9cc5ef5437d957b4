/**
 * The handful of Python `str` operations the keep-alive script relies on:
 * `strip()`, `split(sep)`, `split(sep, 1)`, `sep.join(parts)` and the
 * substring test `needle in hay`. Strings are sequences of Unicode scalar
 * values, as Python's are.
 */
module Text {

  /** Python's `str.isspace` on a single character. */
  predicate IsSpace(c: char)
  {
    c == ' ' || ('\t' <= c <= '\r') || ('\U{1C}' <= c <= '\U{1F}')
    || c == '\U{85}' || c == '\U{A0}' || c == '\U{1680}'
    || ('\U{2000}' <= c <= '\U{200A}') || c == '\U{2028}' || c == '\U{2029}'
    || c == '\U{202F}' || c == '\U{205F}' || c == '\U{3000}'
  }

  predicate AllSpace(s: string)
  {
    forall k :: 0 <= k < |s| ==> IsSpace(s[k])
  }

  /** Neither end of `s` is whitespace: what `strip()` returns. */
  predicate IsStripped(s: string)
  {
    s == [] || (!IsSpace(s[0]) && !IsSpace(s[|s| - 1]))
  }

  /** The number of whitespace characters `s` starts with. */
  function LeadingSpaces(s: string): (n: nat)
    ensures n <= |s|
    ensures forall k :: 0 <= k < n ==> IsSpace(s[k])
    ensures n < |s| ==> !IsSpace(s[n])
  {
    if s != [] && IsSpace(s[0]) then 1 + LeadingSpaces(s[1..]) else 0
  }

  /** The number of whitespace characters `s` ends with. */
  function TrailingSpaces(s: string): (n: nat)
    ensures n <= |s|
    ensures forall k :: |s| - n <= k < |s| ==> IsSpace(s[k])
    ensures n < |s| ==> !IsSpace(s[|s| - n - 1])
  {
    if s != [] && IsSpace(s[|s| - 1]) then 1 + TrailingSpaces(s[..|s| - 1]) else 0
  }

  /**
   * Python's `s.strip()`: drop the leading whitespace, then the trailing
   * whitespace of what is left; neither end of the result is whitespace.
   */
  function Strip(s: string): (r: string)
    ensures IsStripped(r)
    ensures |r| <= |s|
  {
    var rest := s[LeadingSpaces(s)..];
    rest[..|rest| - TrailingSpaces(rest)]
  }

  /**
   * What `strip()` means: the result is the stretch of `s` left once the
   * whitespace at both ends is cut away.
   */
  lemma StripTrims(s: string)
    ensures exists i, j :: 0 <= i <= j <= |s| && Strip(s) == s[i..j]
                           && AllSpace(s[..i]) && AllSpace(s[j..])
  {
    var i := LeadingSpaces(s);
    var rest := s[i..];
    var j := i + |rest| - TrailingSpaces(rest);
    assert s[i..j] == rest[..j - i];
    assert AllSpace(s[..i]);
    assert forall k :: j <= k < |s| ==> s[k] == rest[k - i];
    assert AllSpace(s[j..]);
  }

  /** Every character of `Strip(s)` comes from `s`. */
  lemma StripChars(s: string, c: char)
    requires c in Strip(s)
    ensures c in s
  {
    var i := LeadingSpaces(s);
    var rest := s[i..];
    var r := Strip(s);
    var k :| 0 <= k < |r| && r[k] == c;
    assert rest[k] == c;
    assert s[i + k] == c;
  }

  /** A character absent from `s` is absent from `Strip(s)`. */
  lemma StripAvoids(s: string, c: char)
    requires c !in s
    ensures c !in Strip(s)
  {
    if c in Strip(s) {
      StripChars(s, c);
    }
  }

  /** `strip()` removes only whitespace: any other character survives it. */
  lemma StripKeeps(s: string, c: char)
    requires !IsSpace(c) && c in s
    ensures c in Strip(s)
  {
    var i := LeadingSpaces(s);
    var rest := s[i..];
    var n := TrailingSpaces(rest);
    var r := Strip(s);
    var k :| 0 <= k < |s| && s[k] == c;
    assert i <= k;
    assert rest[k - i] == c;
    assert k - i < |rest| - n;
    assert r[k - i] == c;
  }

  /** A non-whitespace character is in `Strip(s)` exactly when it is in `s`. */
  lemma StripSameChar(s: string, c: char)
    requires !IsSpace(c)
    ensures c in Strip(s) <==> c in s
  {
    if c in s {
      StripKeeps(s, c);
    } else {
      StripAvoids(s, c);
    }
  }

  lemma {:induction false} LeadingSpacesSkip(p: string, s: string)
    requires AllSpace(p)
    ensures LeadingSpaces(p + s) == |p| + LeadingSpaces(s)
  {
    if p != [] {
      assert (p + s)[0] == p[0];
      assert (p + s)[1..] == p[1..] + s;
      LeadingSpacesSkip(p[1..], s);
    } else {
      assert p + s == s;
    }
  }

  /** Leading whitespace does not change what `strip()` returns. */
  lemma StripSkips(p: string, s: string)
    requires AllSpace(p)
    ensures Strip(p + s) == Strip(s)
  {
    LeadingSpacesSkip(p, s);
    assert (p + s)[|p| + LeadingSpaces(s)..] == s[LeadingSpaces(s)..];
  }

  /** `strip()` leaves an already stripped string alone. */
  lemma StripStripped(s: string)
    requires IsStripped(s)
    ensures Strip(s) == s
  {
    assert s[0..] == s;
  }

  /** Python's `s.split(d)` for a one-character separator `d`. */
  function Split(s: string, d: char): (parts: seq<string>)
    ensures |parts| >= 1
    ensures forall k :: 0 <= k < |parts| ==> d !in parts[k]
  {
    if s == [] then [""]
    else
      var rest := Split(s[1..], d);
      if s[0] == d then [""] + rest
      else [[s[0]] + rest[0]] + rest[1..]
  }

  /** Python's `sep.join(parts)`. */
  function Join(parts: seq<string>, sep: string): string
  {
    if |parts| == 0 then ""
    else if |parts| == 1 then parts[0]
    else parts[0] + sep + Join(parts[1..], sep)
  }

  /** Joining the pieces of a split with its separator gives back the string. */
  lemma {:induction false} JoinSplit(s: string, d: char)
    ensures Join(Split(s, d), [d]) == s
  {
    if s != [] {
      var rest := Split(s[1..], d);
      JoinSplit(s[1..], d);
      if s[0] == d {
        assert Split(s, d) == [""] + rest;
        assert s == [d] + s[1..];
      } else {
        var parts := Split(s, d);
        assert parts == [[s[0]] + rest[0]] + rest[1..];
        if |rest| == 1 {
          assert s == [s[0]] + rest[0];
        } else {
          assert rest == [rest[0]] + rest[1..];
          assert parts[1..] == rest[1..];
          assert Join(rest, [d]) == rest[0] + [d] + Join(rest[1..], [d]);
        }
      }
    }
  }

  /** A string without the separator is a single piece. */
  lemma {:induction false} SplitNone(s: string, d: char)
    requires d !in s
    ensures Split(s, d) == [s]
  {
    if s != [] {
      SplitNone(s[1..], d);
      assert [s[0]] + s[1..] == s;
    }
  }

  /** Splitting at the first separator: the head piece, then the rest split. */
  lemma {:induction false} SplitAt(a: string, b: string, d: char)
    requires d !in a
    ensures Split(a + [d] + b, d) == [a] + Split(b, d)
  {
    if a == [] {
      assert a + [d] + b == [d] + b;
      assert ([d] + b)[1..] == b;
    } else {
      assert (a + [d] + b)[1..] == a[1..] + [d] + b;
      SplitAt(a[1..], b, d);
      assert [a[0]] + a[1..] == a;
    }
  }

  /** The index of the first `d` in `s`, or `|s|` when there is none. */
  function IndexOf(s: string, d: char): (i: nat)
    ensures i <= |s| && d !in s[..i]
    ensures i < |s| ==> s[i] == d
  {
    if s == [] then 0
    else if s[0] == d then 0
    else
      var i := IndexOf(s[1..], d);
      assert s[..i + 1] == [s[0]] + s[1..][..i];
      i + 1
  }

  /**
   * Python's `s.split(d, 1)`: one piece when `d` does not occur, otherwise
   * the text before the first `d` and everything after it.
   */
  function SplitOnce(s: string, d: char): (parts: seq<string>)
    ensures d !in s ==> parts == [s]
    ensures d in s ==> |parts| == 2 && d !in parts[0] && s == parts[0] + [d] + parts[1]
  {
    var i := IndexOf(s, d);
    if i == |s| then
      assert s[..i] == s;
      [s]
    else
      assert s == s[..i] + [d] + s[i + 1..];
      [s[..i], s[i + 1..]]
  }

  /** Splitting once at the first separator yields exactly the two sides. */
  lemma SplitOnceAt(a: string, b: string, d: char)
    requires d !in a
    ensures SplitOnce(a + [d] + b, d) == [a, b]
  {
    var s := a + [d] + b;
    assert s[..|a|] == a && s[|a|] == d && s[|a| + 1..] == b;
  }

  /** Python's `needle in hay` on strings. */
  predicate Contains(hay: string, needle: string)
  {
    |needle| <= |hay| && (hay[..|needle|] == needle || Contains(hay[1..], needle))
  }

  /** `needle` occurs in `hay` starting at position `k`. */
  predicate OccursAt(hay: string, needle: string, k: int)
  {
    0 <= k <= |hay| - |needle| && hay[k..k + |needle|] == needle
  }

  /** An occurrence in `hay[1..]` is an occurrence in `hay` one position later. */
  lemma OccursShift(hay: string, needle: string, k: int)
    requires hay != []
    ensures OccursAt(hay[1..], needle, k) <==> 0 <= k && OccursAt(hay, needle, k + 1)
  {
    if 0 <= k <= |hay| - 1 - |needle| {
      assert hay[1..][k..k + |needle|] == hay[k + 1..k + 1 + |needle|];
    }
  }

  /** `needle in hay` holds exactly when `needle` occurs at some position of `hay`. */
  lemma {:induction false} ContainsAt(hay: string, needle: string)
    ensures Contains(hay, needle) <==> exists k :: OccursAt(hay, needle, k)
    decreases |hay|
  {
    var n := |needle|;
    if n <= |hay| {
      if hay[..n] == needle {
        assert hay[0..0 + n] == hay[..n];
        assert OccursAt(hay, needle, 0);
      } else {
        var tail := hay[1..];
        ContainsAt(tail, needle);
        if Contains(tail, needle) {
          var k :| OccursAt(tail, needle, k);
          OccursShift(hay, needle, k);
        } else {
          forall k ensures !OccursAt(hay, needle, k) {
            if k == 0 {
              assert hay[0..n] == hay[..n];
            } else {
              OccursShift(hay, needle, k - 1);
            }
          }
        }
      }
    }
  }

}
