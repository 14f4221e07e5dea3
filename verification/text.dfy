/** String operations the application calls on its text, in ASCII terms:
    `toLowerCase`, `trim`, `includes`, `split(c)`, `join(sep)`, `replace` with a
    string pattern (first occurrence) and with a global literal pattern (every
    occurrence), and `Number.prototype.toString` for the millisecond stamps used
    as identifiers. */
module Text {

  /** Whitespace as `trim` and the regex class `\s` see it, restricted to ASCII. */
  predicate IsSpace(c: char) {
    c == ' ' || c == '\t' || c == '\n' || c == '\r' || c == '\U{000B}' || c == '\U{000C}'
  }

  /** `toLowerCase` on one ASCII character; every other character is left alone. */
  function LowerChar(c: char): char {
    if 'A' <= c <= 'Z' then (c as int + 32) as char else c
  }

  function Lower(s: string): (r: string)
    ensures |r| == |s|
    ensures forall i :: 0 <= i < |s| ==> r[i] == LowerChar(s[i])
  {
    seq(|s|, i requires 0 <= i < |s| => LowerChar(s[i]))
  }

  /** Lower-casing leaves lower-case text alone. */
  lemma LowerIdempotent(s: string)
    ensures Lower(Lower(s)) == Lower(s)
  {
  }

  lemma LowerAppend(a: string, b: string)
    ensures Lower(a + b) == Lower(a) + Lower(b)
  {
  }

  /** `replace(/\s+/g, '')`: every whitespace character removed. */
  function DropSpaces(s: string): (r: string)
    ensures |r| <= |s|
    ensures forall k :: 0 <= k < |r| ==> !IsSpace(r[k]) && r[k] in s
    decreases |s|
  {
    if |s| == 0 then ""
    else if IsSpace(s[0]) then DropSpaces(s[1..])
    else [s[0]] + DropSpaces(s[1..])
  }

  lemma {:induction false} DropSpacesAppend(a: string, b: string)
    ensures DropSpaces(a + b) == DropSpaces(a) + DropSpaces(b)
    decreases |a|
  {
    if |a| == 0 {
      assert a + b == b;
    } else {
      assert (a + b)[0] == a[0];
      assert (a + b)[1..] == a[1..] + b;
      DropSpacesAppend(a[1..], b);
    }
  }

  /** Text without whitespace is left as it is. */
  lemma {:induction false} DropSpacesNone(s: string)
    requires forall k :: 0 <= k < |s| ==> !IsSpace(s[k])
    ensures DropSpaces(s) == s
    decreases |s|
  {
    if |s| > 0 {
      DropSpacesNone(s[1..]);
    }
  }

  /** `pat` occurs in `s` starting at index `i`. */
  predicate OccursAt(s: string, pat: string, i: int) {
    0 <= i && i + |pat| <= |s| && s[i..i + |pat|] == pat
  }

  /** `s.includes(pat)`. */
  predicate Contains(s: string, pat: string) {
    exists i :: 0 <= i <= |s| - |pat| && OccursAt(s, pat, i)
  }

  lemma ContainsEmpty(s: string)
    ensures Contains(s, "")
  {
    assert OccursAt(s, "", 0);
  }

  // ---------------------------------------------------------------- trim

  /** `trimStart`: drops the leading whitespace. */
  function TrimStart(s: string): (r: string)
    ensures |r| <= |s| && r == s[|s| - |r|..]
    ensures forall k :: 0 <= k < |s| - |r| ==> IsSpace(s[k])
    ensures |r| > 0 ==> !IsSpace(r[0])
    decreases |s|
  {
    if |s| > 0 && IsSpace(s[0]) then TrimStart(s[1..]) else s
  }

  /** `trimEnd`: drops the trailing whitespace. */
  function TrimEnd(s: string): (r: string)
    ensures |r| <= |s| && r == s[..|r|]
    ensures forall k :: |r| <= k < |s| ==> IsSpace(s[k])
    ensures |r| > 0 ==> !IsSpace(r[|r| - 1])
    decreases |s|
  {
    if |s| > 0 && IsSpace(s[|s| - 1]) then TrimEnd(s[..|s| - 1]) else s
  }

  /** No whitespace at either end. */
  predicate Trimmed(s: string) {
    |s| == 0 || (!IsSpace(s[0]) && !IsSpace(s[|s| - 1]))
  }

  /** `trim`: a contiguous slice of `s` with no whitespace at either end; only whitespace is dropped. */
  function Trim(s: string): (r: string)
    ensures Trimmed(r)
    ensures Trimmed(s) ==> r == s
    ensures |r| <= |s|
  {
    var r := TrimEnd(TrimStart(s));
    assert |r| > 0 ==> r[0] == TrimStart(s)[0];
    r
  }

  /** Whitespace in front of a string is ignored by `trim`. */
  lemma {:induction false} TrimSpacePrefix(w: string, s: string)
    requires forall k :: 0 <= k < |w| ==> IsSpace(w[k])
    ensures Trim(w + s) == Trim(s)
    decreases |w|
  {
    if |w| > 0 {
      assert (w + s)[1..] == w[1..] + s;
      TrimSpacePrefix(w[1..], s);
    } else {
      assert w + s == s;
    }
  }

  /** `trim` leaves nothing exactly when the string is all whitespace. */
  lemma TrimBlank(s: string)
    ensures Trim(s) == "" <==> forall k :: 0 <= k < |s| ==> IsSpace(s[k])
  {
    if !forall k :: 0 <= k < |s| ==> IsSpace(s[k]) {
      var k :| 0 <= k < |s| && !IsSpace(s[k]);
      assert |TrimStart(s)| > 0;
    }
  }

  // ---------------------------------------------------------------- split / join

  /** Number of occurrences of `c` in `s`. */
  function Count(s: string, c: char): nat
    decreases |s|
  {
    if |s| == 0 then 0 else (if s[0] == c then 1 else 0) + Count(s[1..], c)
  }

  lemma {:induction false} CountAppend(a: string, b: string, c: char)
    ensures Count(a + b, c) == Count(a, c) + Count(b, c)
    decreases |a|
  {
    if |a| > 0 {
      assert (a + b)[1..] == a[1..] + b;
      CountAppend(a[1..], b, c);
    } else {
      assert a + b == b;
    }
  }

  lemma {:induction false} CountAbsent(s: string, c: char)
    requires c !in s
    ensures Count(s, c) == 0
    decreases |s|
  {
    if |s| > 0 {
      CountAbsent(s[1..], c);
    }
  }

  /** `s.split(c)` for a one-character separator: the pieces between separators,
      one more piece than there are separators (so `""` splits into `[""]`). */
  function Split(s: string, c: char): (r: seq<string>)
    ensures |r| == Count(s, c) + 1
    ensures forall i :: 0 <= i < |r| ==> c !in r[i]
    decreases |s|
  {
    if |s| == 0 then [""]
    else
      var rest := Split(s[1..], c);
      if s[0] == c then [""] + rest
      else [[s[0]] + rest[0]] + rest[1..]
  }

  /** `xs.join(sep)`. */
  function Join(xs: seq<string>, sep: string): string
    decreases |xs|
  {
    if |xs| == 0 then ""
    else if |xs| == 1 then xs[0]
    else xs[0] + sep + Join(xs[1..], sep)
  }

  lemma {:induction false} SplitNoSeparator(s: string, c: char)
    requires c !in s
    ensures Split(s, c) == [s]
    decreases |s|
  {
    if |s| > 0 {
      SplitNoSeparator(s[1..], c);
      assert [s[0]] + s[1..] == s;
    }
  }

  /** The first piece of a split is the longest prefix without the separator: the string starts
      with it, and it is either the whole string or followed by the separator. */
  lemma {:induction false} SplitFirstPiece(s: string, c: char)
    ensures Split(s, c)[0] <= s
    ensures |Split(s, c)[0]| < |s| ==> s[|Split(s, c)[0]|] == c
    decreases |s|
  {
    if |s| > 0 && s[0] != c {
      SplitFirstPiece(s[1..], c);
    }
  }

  /** The first separator closes the first piece. */
  lemma {:induction false} SplitAtFirst(a: string, b: string, c: char)
    requires c !in a
    ensures Split(a + [c] + b, c) == [a] + Split(b, c)
    decreases |a|
  {
    var s := a + [c] + b;
    if |a| == 0 {
      assert s == [c] + b;
      assert s[1..] == b;
    } else {
      assert s[1..] == a[1..] + [c] + b;
      SplitAtFirst(a[1..], b, c);
      assert [a[0]] + a[1..] == a;
    }
  }

  /** Splitting a join on a separator none of the pieces contains gives back the pieces. */
  lemma {:induction false} SplitJoin(xs: seq<string>, c: char)
    requires |xs| >= 1
    requires forall i :: 0 <= i < |xs| ==> c !in xs[i]
    ensures Split(Join(xs, [c]), c) == xs
    decreases |xs|
  {
    if |xs| == 1 {
      SplitNoSeparator(xs[0], c);
    } else {
      SplitJoin(xs[1..], c);
      SplitAtFirst(xs[0], Join(xs[1..], [c]), c);
      assert [xs[0]] + xs[1..] == xs;
    }
  }

  /** Joining the pieces of a split with the same separator gives back the string. */
  lemma {:induction false} JoinSplit(s: string, c: char)
    ensures Join(Split(s, c), [c]) == s
    decreases |s|
  {
    if |s| > 0 {
      var rest := Split(s[1..], c);
      JoinSplit(s[1..], c);
      if s[0] == c {
        assert ([""] + rest)[1..] == rest;
        assert [c] + s[1..] == s;
      } else {
        var r := [[s[0]] + rest[0]] + rest[1..];
        assert r[1..] == rest[1..];
        if |rest| == 1 {
          assert [s[0]] + s[1..] == s;
        } else {
          assert Join(rest, [c]) == rest[0] + [c] + Join(rest[1..], [c]);
          assert [s[0]] + s[1..] == s;
        }
      }
    }
  }

  /** A join holds every separator it inserts plus those already in the pieces. */
  lemma {:induction false} CountJoin(xs: seq<string>, c: char)
    requires |xs| >= 1
    ensures Count(Join(xs, [c]), c) == CountAll(xs, c) + |xs| - 1
    decreases |xs|
  {
    if |xs| > 1 {
      CountJoin(xs[1..], c);
      CountAppend(xs[0] + [c], Join(xs[1..], [c]), c);
      CountAppend(xs[0], [c], c);
      assert Count([c], c) == 1;
    }
  }

  /** Occurrences of `c` over all the strings of `xs`. */
  function CountAll(xs: seq<string>, c: char): nat
    decreases |xs|
  {
    if |xs| == 0 then 0 else Count(xs[0], c) + CountAll(xs[1..], c)
  }

  // ---------------------------------------------------------------- replace

  /** `s.replace(new RegExp(pat, 'g'), rep)` for a pattern without regex metacharacters:
      a left-to-right scan that replaces every non-overlapping occurrence and never
      rescans inserted text. */
  function ReplaceAll(s: string, pat: string, rep: string): string
    requires |pat| > 0
    decreases |s|
  {
    if |s| < |pat| then s
    else if s[..|pat|] == pat then rep + ReplaceAll(s[|pat|..], pat, rep)
    else [s[0]] + ReplaceAll(s[1..], pat, rep)
  }

  /** `s.replace(pat, rep)` with a string pattern: only the first occurrence is replaced. */
  function ReplaceFirst(s: string, pat: string, rep: string): string
    requires |pat| > 0
    decreases |s|
  {
    if |s| < |pat| then s
    else if s[..|pat|] == pat then rep + s[|pat|..]
    else [s[0]] + ReplaceFirst(s[1..], pat, rep)
  }

  lemma OccursAtTail(s: string, pat: string, i: int)
    requires |s| > 0 && 0 <= i
    ensures OccursAt(s[1..], pat, i) <==> OccursAt(s, pat, i + 1)
  {
    if 0 <= i && i + |pat| <= |s| - 1 {
      assert s[1..][i..i + |pat|] == s[i + 1..i + 1 + |pat|];
    }
  }

  /** A string in which the pattern does not occur is left unchanged by a global replace. */
  lemma {:induction false} ReplaceAllAbsent(s: string, pat: string, rep: string)
    requires |pat| > 0
    requires !Contains(s, pat)
    ensures ReplaceAll(s, pat, rep) == s
    decreases |s|
  {
    if |s| >= |pat| {
      assert !OccursAt(s, pat, 0);
      forall i | 0 <= i <= |s[1..]| - |pat|
        ensures !OccursAt(s[1..], pat, i)
      {
        OccursAtTail(s, pat, i);
      }
      ReplaceAllAbsent(s[1..], pat, rep);
      assert [s[0]] + s[1..] == s;
    }
  }

  /** ... and by a first-occurrence replace. */
  lemma {:induction false} ReplaceFirstAbsent(s: string, pat: string, rep: string)
    requires |pat| > 0
    requires !Contains(s, pat)
    ensures ReplaceFirst(s, pat, rep) == s
    decreases |s|
  {
    if |s| >= |pat| {
      assert !OccursAt(s, pat, 0);
      forall i | 0 <= i <= |s[1..]| - |pat|
        ensures !OccursAt(s[1..], pat, i)
      {
        OccursAtTail(s, pat, i);
      }
      ReplaceFirstAbsent(s[1..], pat, rep);
      assert [s[0]] + s[1..] == s;
    }
  }

  /** No occurrence of `pat` in `x + pat + y` starts inside `x`: the occurrence right after `x` is the first one. */
  predicate FirstOccurrenceAfter(x: string, pat: string, y: string) {
    forall i :: 0 <= i < |x| ==> !OccursAt(x + pat + y, pat, i)
  }

  /** When the pattern's first character does not occur in `x`, no occurrence can start inside `x`. */
  lemma FirstOccurrenceAfterFirstChar(x: string, pat: string, y: string)
    requires |pat| > 0 && pat[0] !in x
    ensures FirstOccurrenceAfter(x, pat, y)
  {
    var s := x + pat + y;
    forall i | 0 <= i < |x|
      ensures !OccursAt(s, pat, i)
    {
      assert s[i] == x[i] && x[i] != pat[0];
      if i + |pat| <= |s| {
        assert s[i..i + |pat|][0] == s[i];
      }
    }
  }

  lemma FirstOccurrenceAfterTail(x: string, pat: string, y: string)
    requires |x| > 0
    requires FirstOccurrenceAfter(x, pat, y)
    ensures FirstOccurrenceAfter(x[1..], pat, y)
  {
    var s := x + pat + y;
    assert s[1..] == x[1..] + pat + y;
    forall i | 0 <= i < |x[1..]|
      ensures !OccursAt(x[1..] + pat + y, pat, i)
    {
      OccursAtTail(s, pat, i);
    }
  }

  /** A global replace copies the text before the first occurrence, substitutes it,
      and carries on after it. Together with `ReplaceAllAbsent` this determines
      `ReplaceAll` completely. */
  lemma {:induction false} ReplaceAllAtFirst(x: string, pat: string, y: string, rep: string)
    requires |pat| > 0
    requires FirstOccurrenceAfter(x, pat, y)
    ensures ReplaceAll(x + pat + y, pat, rep) == x + rep + ReplaceAll(y, pat, rep)
    decreases |x|
  {
    var s := x + pat + y;
    if |x| == 0 {
      assert s == pat + y;
      assert s[..|pat|] == pat;
      assert s[|pat|..] == y;
    } else {
      assert !OccursAt(s, pat, 0);
      assert s[..|pat|] != pat;
      var t := s[1..];
      assert t == x[1..] + pat + y;
      assert ReplaceAll(s, pat, rep) == [x[0]] + ReplaceAll(t, pat, rep);
      FirstOccurrenceAfterTail(x, pat, y);
      ReplaceAllAtFirst(x[1..], pat, y, rep);
      assert [x[0]] + x[1..] == x;
    }
  }

  /** A first-occurrence replace substitutes the first occurrence and copies the rest verbatim,
      later occurrences included. */
  lemma {:induction false} ReplaceFirstAtFirst(x: string, pat: string, y: string, rep: string)
    requires |pat| > 0
    requires FirstOccurrenceAfter(x, pat, y)
    ensures ReplaceFirst(x + pat + y, pat, rep) == x + rep + y
    decreases |x|
  {
    var s := x + pat + y;
    if |x| == 0 {
      assert s == pat + y;
      assert s[..|pat|] == pat;
      assert s[|pat|..] == y;
    } else {
      var tail := x[1..] + pat + y;
      assert s[1..] == tail;
      assert !OccursAt(s, pat, 0);
      assert s[..|pat|] != pat;
      assert ReplaceFirst(s, pat, rep) == [x[0]] + ReplaceFirst(tail, pat, rep);
      FirstOccurrenceAfterTail(x, pat, y);
      ReplaceFirstAtFirst(x[1..], pat, y, rep);
      assert [x[0]] + (x[1..] + rep + y) == x + rep + y;
    }
  }

  /** Replacing a pattern by itself changes nothing. */
  lemma {:induction false} ReplaceAllSelf(s: string, pat: string)
    requires |pat| > 0
    ensures ReplaceAll(s, pat, pat) == s
    decreases |s|
  {
    if |s| >= |pat| {
      if s[..|pat|] == pat {
        ReplaceAllSelf(s[|pat|..], pat);
        assert s[..|pat|] + s[|pat|..] == s;
      } else {
        ReplaceAllSelf(s[1..], pat);
        assert [s[0]] + s[1..] == s;
      }
    }
  }

  // ---------------------------------------------------------------- numbers

  function DigitChar(d: nat): char
    requires d < 10
  {
    ('0' as int + d) as char
  }

  predicate IsDigit(c: char) {
    '0' <= c <= '9'
  }

  /** `n.toString()` for a non-negative integer (the `Date.now()` stamps used as identifiers). */
  function Stamp(n: nat): (r: string)
    ensures |r| >= 1
    ensures forall i :: 0 <= i < |r| ==> IsDigit(r[i])
    decreases n
  {
    if n < 10 then [DigitChar(n)] else Stamp(n / 10) + [DigitChar(n % 10)]
  }
}
