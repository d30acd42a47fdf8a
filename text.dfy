/**
 * Strings as sequences of characters, and the few string operations of
 * JavaScript and Python that the modelled code relies on: `split` and
 * `join` with a one-character separator, `includes`, prefixes, and the
 * whitespace classes of Python's `str.strip`/`str.rstrip`.
 */
module Text {

  /** `s.split(d)` with a one-character separator, as in JavaScript and Python. */
  function Split(s: string, d: char): (parts: seq<string>)
    ensures |parts| >= 1
    decreases |s|
  {
    if s == [] then [""]
    else
      var rest := Split(s[1..], d);
      if s[0] == d then [""] + rest
      else [[s[0]] + rest[0]] + rest[1..]
  }

  /** No piece of a split holds the separator. */
  lemma {:induction false} SplitPartsLackSeparator(s: string, d: char)
    ensures forall i :: 0 <= i < |Split(s, d)| ==> d !in Split(s, d)[i]
    decreases |s|
  {
    if s != [] {
      var rest := Split(s[1..], d);
      SplitPartsLackSeparator(s[1..], d);
      if s[0] != d {
        assert d !in [s[0]] + rest[0];
      }
    }
  }

  /** `parts.join(d)`: the parts with one separator between each neighbouring pair. */
  function Join(parts: seq<string>, d: char): string
    decreases |parts|
  {
    if |parts| == 0 then ""
    else if |parts| == 1 then parts[0]
    else parts[0] + [d] + Join(parts[1..], d)
  }

  /** Joining the parts of a split with the separator gives the text back. */
  lemma {:induction false} JoinSplit(s: string, d: char)
    ensures Join(Split(s, d), d) == s
    decreases |s|
  {
    if s != [] {
      var rest := Split(s[1..], d);
      JoinSplit(s[1..], d);
      assert s == [s[0]] + s[1..];
      var parts := Split(s, d);
      if s[0] == d {
        assert parts == [""] + rest && parts[1..] == rest;
        assert Join(parts, d) == "" + [d] + Join(rest, d);
      } else if |rest| == 1 {
        assert parts == [[s[0]] + rest[0]];
        assert Join(rest, d) == rest[0];
      } else {
        assert parts == [[s[0]] + rest[0]] + rest[1..] && parts[1..] == rest[1..];
        assert Join(parts, d) == [s[0]] + rest[0] + [d] + Join(rest[1..], d);
        assert Join(rest, d) == rest[0] + [d] + Join(rest[1..], d);
      }
    }
  }

  /** All elements but the last (JavaScript's `parts.pop()` leaves these behind). */
  function Init<T>(s: seq<T>): seq<T>
    requires |s| >= 1
  {
    s[..|s| - 1]
  }

  function Last<T>(s: seq<T>): T
    requires |s| >= 1
  {
    s[|s| - 1]
  }

  /** Splitting a string that holds no separator gives the string itself. */
  lemma {:induction false} SplitNoSeparator(s: string, d: char)
    requires d !in s
    ensures Split(s, d) == [s]
    decreases |s|
  {
    if s != [] {
      assert s[0] != d;
      assert d !in s[1..] by {
        forall i | 0 <= i < |s[1..]| ensures s[1..][i] != d { assert s[1..][i] == s[i + 1]; }
      }
      SplitNoSeparator(s[1..], d);
      assert s == [s[0]] + s[1..];
    }
  }

  /**
   * Splitting a concatenation: every part of `a` but its last stays a part,
   * and the last part of `a` is continued by `b`. This is what makes line
   * reassembly independent of where a text is cut.
   */
  lemma {:induction false} SplitAppend(a: string, b: string, d: char)
    ensures Split(a + b, d) == Init(Split(a, d)) + Split(Last(Split(a, d)) + b, d)
    decreases |a|
  {
    if a == [] {
      assert a + b == b;
    } else {
      var c, t := a[0], a[1..];
      assert a == [c] + t && a + b == [c] + (t + b);
      SplitAppend(t, b, d);
      SplitCons(c, t, d);
      SplitCons(c, t + b, d);
      if c != d {
        SplitAppendWord(c, t, b, d);
      }
    }
  }

  /** Splitting a text that starts with `c`, in terms of splitting the rest. */
  lemma SplitCons(c: char, s: string, d: char)
    ensures Split([c] + s, d) == if c == d then [""] + Split(s, d) else [[c] + Split(s, d)[0]] + Split(s, d)[1..]
  {
    assert ([c] + s)[1..] == s;
  }

  /** The step of SplitAppend when the first character is not the separator. */
  lemma SplitAppendWord(c: char, t: string, b: string, d: char)
    requires c != d
    requires Split(t + b, d) == Init(Split(t, d)) + Split(Last(Split(t, d)) + b, d)
    ensures Split([c] + (t + b), d) == Init(Split([c] + t, d)) + Split(Last(Split([c] + t, d)) + b, d)
  {
    if |Split(t, d)| == 1 {
      SplitAppendOnePart(c, t, b, d);
    } else {
      SplitAppendParts(c, t, b, d);
    }
  }

  lemma SplitAppendOnePart(c: char, t: string, b: string, d: char)
    requires c != d && |Split(t, d)| == 1
    requires Split(t + b, d) == Init(Split(t, d)) + Split(Last(Split(t, d)) + b, d)
    ensures Split([c] + (t + b), d) == Init(Split([c] + t, d)) + Split(Last(Split([c] + t, d)) + b, d)
  {
    var p := Split(t, d)[0];
    OnePart(Split(t, d));
    SplitCons(c, t, d);
    SplitCons(c, t + b, d);
    SplitCons(c, p + b, d);
    OnePartGrows(c, p, b, Split(t + b, d), Split([c] + (t + b), d), Split([c] + t, d), Split([c] + (p + b), d));
  }

  /** A one-element sequence is its own last element, after nothing. */
  lemma OnePart<T>(s: seq<T>)
    requires |s| == 1
    ensures Init(s) == [] && Last(s) == s[0]
  {
  }

  /** The sequence algebra of SplitAppendOnePart, with the splits named. */
  lemma OnePartGrows(c: char, p: string, b: string, rest: seq<string>, whole: seq<string>, head: seq<string>, tail: seq<string>)
    requires |rest| >= 1
    requires whole == [[c] + rest[0]] + rest[1..]
    requires head == [[c] + p]
    requires tail == whole
    ensures |head| == 1 && Init(head) == [] && Last(head) + b == [c] + (p + b)
    ensures whole == Init(head) + tail
  {
  }

  lemma SplitAppendParts(c: char, t: string, b: string, d: char)
    requires c != d && |Split(t, d)| > 1
    requires Split(t + b, d) == Init(Split(t, d)) + Split(Last(Split(t, d)) + b, d)
    ensures Split([c] + (t + b), d) == Init(Split([c] + t, d)) + Split(Last(Split([c] + t, d)) + b, d)
  {
    var rt := Split(t, d);
    SplitCons(c, t, d);
    SplitCons(c, t + b, d);
    ExtendFirstPart([c], rt, Split(Last(rt) + b, d));
  }

  /** Extending the first part commutes with replacing the last part by a tail of parts. */
  lemma ExtendFirstPart(x: string, parts: seq<string>, tail: seq<string>)
    requires |parts| > 1
    ensures var joined := Init(parts) + tail;
      var extended := [x + parts[0]] + parts[1..];
      [x + joined[0]] + joined[1..] == Init(extended) + tail && Last(extended) == Last(parts)
  {
    var joined := Init(parts) + tail;
    var extended := [x + parts[0]] + parts[1..];
    assert joined[0] == parts[0];
    assert Init(extended) == [x + parts[0]] + Init(parts)[1..];
    assert joined[1..] == Init(parts)[1..] + tail;
  }


  /** A separator-free first part is split off at the first separator. */
  lemma {:induction false} SplitAtFirst(p: string, rest: string, d: char)
    requires d !in p
    ensures Split(p + [d] + rest, d) == [p] + Split(rest, d)
    decreases |p|
  {
    if p == [] {
      assert p + [d] + rest == [d] + rest;
      assert ([d] + rest)[1..] == rest;
    } else {
      assert d !in p[1..] by {
        forall i | 0 <= i < |p[1..]| ensures p[1..][i] != d { assert p[1..][i] == p[i + 1]; }
      }
      SplitAtFirst(p[1..], rest, d);
      var s := p + [d] + rest;
      assert s[0] == p[0] && p[0] != d;
      assert s[1..] == p[1..] + [d] + rest;
      assert [p[0]] + p[1..] == p;
    }
  }

  /** Splitting what was joined from separator-free parts gives the parts back. */
  lemma {:induction false} SplitJoin(parts: seq<string>, d: char)
    requires |parts| >= 1
    requires forall i :: 0 <= i < |parts| ==> d !in parts[i]
    ensures Split(Join(parts, d), d) == parts
    decreases |parts|
  {
    if |parts| == 1 {
      SplitNoSeparator(parts[0], d);
    } else {
      SplitJoin(parts[1..], d);
      SplitAtFirst(parts[0], Join(parts[1..], d), d);
    }
  }

  /** JavaScript's `s.lastIndexOf(c)`: the last position of `c`, or -1. */
  function LastIndexOf(s: string, c: char): (k: int)
    ensures -1 <= k < |s|
    ensures k >= 0 ==> s[k] == c
    ensures forall j :: k < j < |s| ==> s[j] != c
    decreases |s|
  {
    if s == [] then -1
    else if s[|s| - 1] == c then |s| - 1
    else LastIndexOf(s[..|s| - 1], c)
  }

  /** JavaScript's `s.indexOf(c)`: the first position of `c`, or -1. */
  function IndexOf(s: string, c: char): (k: int)
    ensures -1 <= k < |s|
    ensures k >= 0 ==> s[k] == c
    ensures forall j :: 0 <= j < |s| && (k < 0 || j < k) ==> s[j] != c
    decreases |s|
  {
    if s == [] then -1
    else if s[0] == c then 0
    else
      var k := IndexOf(s[1..], c);
      if k < 0 then -1 else k + 1
  }

  /**
   * `s.replace(/[^...]/g, "")`: the characters `keep` accepts, in order.
   * No other character remains; the order and the number of occurrences
   * are fixed by `FilterAppend`, `FilterOne` and `FilterCounts`.
   */
  function Filter(s: string, keep: char -> bool): (r: string)
    ensures |r| <= |s|
    ensures forall i :: 0 <= i < |r| ==> keep(r[i])
    decreases |s|
  {
    if s == [] then []
    else
      assert s == [s[0]] + s[1..];
      (if keep(s[0]) then [s[0]] else []) + Filter(s[1..], keep)
  }

  /** Filtering what holds only kept characters changes nothing. */
  lemma {:induction false} FilterKeepsAll(s: string, keep: char -> bool)
    requires forall i :: 0 <= i < |s| ==> keep(s[i])
    ensures Filter(s, keep) == s
    decreases |s|
  {
    if s != [] {
      FilterKeepsAll(s[1..], keep);
    }
  }

  /** Every kept character occurs in the result as often as in the input. */
  lemma {:induction false} FilterCounts(s: string, keep: char -> bool)
    ensures forall c :: keep(c) ==> multiset(Filter(s, keep))[c] == multiset(s)[c]
    decreases |s|
  {
    if s != [] {
      FilterCounts(s[1..], keep);
      var head := if keep(s[0]) then [s[0]] else [];
      assert s == [s[0]] + s[1..];
      assert multiset(s) == multiset([s[0]]) + multiset(s[1..]);
      assert multiset(Filter(s, keep)) == multiset(head) + multiset(Filter(s[1..], keep));
    }
  }

  /** Filtering keeps order: the kept characters of `a + b` are those of `a`, then those of `b`. */
  lemma {:induction false} FilterAppend(a: string, b: string, keep: char -> bool)
    ensures Filter(a + b, keep) == Filter(a, keep) + Filter(b, keep)
    decreases |a|
  {
    if a == [] {
      assert a + b == b;
    } else {
      var head := if keep(a[0]) then [a[0]] else [];
      var x, y := Filter(a[1..], keep), Filter(b, keep);
      assert (a + b)[0] == a[0] && (a + b)[1..] == a[1..] + b;
      assert Filter(a + b, keep) == head + Filter(a[1..] + b, keep);
      FilterAppend(a[1..], b, keep);
      assert Filter(a, keep) == head + x;
      assert head + (x + y) == (head + x) + y;
    }
  }

  /** A single character is kept or dropped. */
  lemma FilterOne(c: char, keep: char -> bool)
    ensures Filter([c], keep) == if keep(c) then [c] else []
  {
    assert [c][1..] == [];
  }

  /** The first kept character is the first character of the input that `keep` accepts. */
  lemma {:induction false} FilterFirst(s: string, keep: char -> bool)
    requires Filter(s, keep) != []
    ensures exists k :: 0 <= k < |s| && keep(s[k]) && Filter(s, keep)[0] == s[k] && forall j :: 0 <= j < k ==> !keep(s[j])
    decreases |s|
  {
    if !keep(s[0]) {
      FilterFirst(s[1..], keep);
      var k :| 0 <= k < |s[1..]| && keep(s[1..][k]) && Filter(s[1..], keep)[0] == s[1..][k]
        && forall j :: 0 <= j < k ==> !keep(s[1..][j]);
      assert s[k + 1] == s[1..][k];
      forall j | 0 <= j < k + 1 ensures !keep(s[j]) {
        if j > 0 {
          assert s[j] == s[1..][j - 1];
        }
      }
    }
  }

  /** Filtering leaves nothing exactly when no character is kept. */
  lemma FilterEmpty(s: string, keep: char -> bool)
    ensures Filter(s, keep) == [] <==> forall i :: 0 <= i < |s| ==> !keep(s[i])
  {
    var r := Filter(s, keep);
    FilterCounts(s, keep);
    if r != [] {
      assert r[0] in multiset(r);
      assert r[0] in multiset(s);
    } else {
      forall i | 0 <= i < |s| ensures !keep(s[i]) {
        assert s[i] in multiset(s);
      }
    }
  }

  /** `haystack.includes(needle)` / Python's `needle in haystack`. */
  predicate Contains(haystack: string, needle: string) {
    exists i | 0 <= i <= |haystack| - |needle| :: OccursAt(haystack, needle, i)
  }

  /** `needle` stands in `haystack` from index `i` on. */
  predicate OccursAt(haystack: string, needle: string, i: int) {
    0 <= i <= |haystack| - |needle| && haystack[i..i + |needle|] == needle
  }

  /** A slice of a slice is a slice of the original. */
  lemma SliceOfSlice<T>(s: seq<T>, lo: nat, hi: nat, x: nat, y: nat)
    requires lo <= hi <= |s| && x <= y <= hi - lo
    ensures s[lo..hi][x..y] == s[lo + x..lo + y]
  {
    var t := s[lo..hi];
    assert |t[x..y]| == y - x == |s[lo + x..lo + y]|;
    forall k | 0 <= k < y - x
      ensures t[x..y][k] == s[lo + x..lo + y][k]
    {
      assert t[x..y][k] == t[x + k];
      assert t[x + k] == s[lo + x + k];
    }
  }

  /** Adjacent slices join into one. */
  lemma SliceJoin<T>(s: seq<T>, a: nat, b: nat, c: nat)
    requires a <= b <= c <= |s|
    ensures s[a..b] + s[b..c] == s[a..c]
  {
    assert |s[a..b] + s[b..c]| == c - a;
    forall k | 0 <= k < c - a ensures (s[a..b] + s[b..c])[k] == s[a..c][k] {
      if k < b - a { assert (s[a..b] + s[b..c])[k] == s[a + k]; } else { assert (s[a..b] + s[b..c])[k] == s[b..c][k - (b - a)]; }
    }
  }

  /** `s.startsWith(p)`. */
  predicate StartsWith(s: string, p: string) {
    |p| <= |s| && s[..|p|] == p
  }

  /** Python's `str.isspace` for one character. */
  predicate IsSpace(c: char) {
    ('\t' <= c <= '\r') || ('\U{1C}' <= c <= '\U{1F}') || c == ' ' || c == '\U{85}' || c == '\U{A0}'
    || c == '\U{1680}' || ('\U{2000}' <= c <= '\U{200A}') || c == '\U{2028}' || c == '\U{2029}'
    || c == '\U{202F}' || c == '\U{205F}' || c == '\U{3000}'
  }

  /** `not s.strip()` in Python: the string is empty or all whitespace. */
  predicate IsBlank(s: string) {
    forall i :: 0 <= i < |s| ==> IsSpace(s[i])
  }

  /** Python's `s.rstrip()`: the longest prefix of `s` that does not end in whitespace. */
  function RStrip(s: string): (r: string)
    ensures |r| <= |s| && r == s[..|r|]
    ensures r == [] || !IsSpace(r[|r| - 1])
    ensures forall i :: |r| <= i < |s| ==> IsSpace(s[i])
    decreases |s|
  {
    if s == [] || !IsSpace(s[|s| - 1]) then s else RStrip(s[..|s| - 1])
  }

  /** Python's `s.rstrip("\r\n")`: drops every trailing carriage return and line feed. */
  function RStripLineBreaks(s: string): (r: string)
    ensures |r| <= |s| && r == s[..|r|]
    ensures r == [] || (r[|r| - 1] != '\r' && r[|r| - 1] != '\n')
    ensures forall i :: |r| <= i < |s| ==> s[i] == '\r' || s[i] == '\n'
    decreases |s|
  {
    if s == [] || (s[|s| - 1] != '\r' && s[|s| - 1] != '\n') then s else RStripLineBreaks(s[..|s| - 1])
  }

  /** Python's `s[:n]`: at most the first `n` characters. */
  function Take(s: string, n: nat): (r: string)
    ensures |r| == if |s| <= n then |s| else n
    ensures r == s[..|r|]
  {
    if |s| <= n then s else s[..n]
  }

  /** Decimal digits of a natural number, as JavaScript prints it in a template string. */
  function NatToString(n: nat): (r: string)
    ensures |r| >= 1
    ensures forall i :: 0 <= i < |r| ==> '0' <= r[i] <= '9'
    decreases n
  {
    if n < 10 then [DigitChar(n)] else NatToString(n / 10) + [DigitChar(n % 10)]
  }

  function DigitChar(d: nat): (c: char)
    requires d < 10
    ensures '0' <= c <= '9' && c as int - '0' as int == d
  {
    ('0' as int + d) as char
  }

  /** Reads back what NatToString printed. */
  function DigitsValue(s: string): int
    decreases |s|
  {
    if s == [] then 0 else 10 * DigitsValue(s[..|s| - 1]) + (s[|s| - 1] as int - '0' as int)
  }

  lemma {:induction false} NatToStringValue(n: nat)
    ensures DigitsValue(NatToString(n)) == n
    decreases n
  {
    if n >= 10 {
      NatToStringValue(n / 10);
      var r := NatToString(n);
      assert r[..|r| - 1] == NatToString(n / 10);
    } else {
      var r := NatToString(n);
      assert r[..|r| - 1] == [];
    }
  }
}
