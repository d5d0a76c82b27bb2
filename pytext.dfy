/** The pieces of Python's string, bytes and path semantics that the
    augmentation core relies on to build names and parse buffers:
    `find`, `split(sep)[0]`, slicing with out-of-range and negative
    bounds, `os.path.basename`/`dirname`/`join` (POSIX) and `str(int)`. */
module PyText {

  /** `sub` occurs in `s` starting at index `i`. */
  predicate OccursAt<T(==)>(s: seq<T>, sub: seq<T>, i: int) {
    0 <= i && i + |sub| <= |s| && s[i..i + |sub|] == sub
  }

  /** `sub` occurs somewhere in `s` at an index below `bound`. */
  predicate OccursBefore<T(==)>(s: seq<T>, sub: seq<T>, bound: int) {
    exists j :: 0 <= j < bound && OccursAt(s, sub, j)
  }

  /** The lowest index at or after `i` where `sub` occurs in `s`, or -1. */
  function FindFrom<T(==)>(s: seq<T>, sub: seq<T>, i: nat): (r: int)
    ensures r == -1 || (i <= r && OccursAt(s, sub, r))
    ensures forall j :: i <= j && (r == -1 || j < r) ==> !OccursAt(s, sub, j)
    decreases |s| - i
  {
    if i + |sub| > |s| then -1
    else if s[i..i + |sub|] == sub then i
    else FindFrom(s, sub, i + 1)
  }

  /** Python's `s.find(sub)` on `str` and `bytes`: the lowest index where
      `sub` occurs, or -1 when it does not occur at all. */
  function Find<T(==)>(s: seq<T>, sub: seq<T>): (r: int)
    ensures r == -1 <==> !OccursBefore(s, sub, |s| + 1)
    ensures r != -1 ==> OccursAt(s, sub, r) && !OccursBefore(s, sub, r)
  {
    var r := FindFrom(s, sub, 0);
    assert forall j :: 0 <= j && OccursAt(s, sub, j) ==> j <= |s|;
    r
  }

  /** Python's `s.split(sep)[0]`: the part of `s` before the first
      occurrence of `sep`, or all of `s` when `sep` does not occur. */
  function SplitFirst<T(==)>(s: seq<T>, sep: seq<T>): (r: seq<T>)
    requires sep != []
    ensures r <= s
    ensures forall j :: !OccursAt(r, sep, j)
    ensures r == s || OccursAt(s, sep, |r|)
    ensures r == s <==> !OccursBefore(s, sep, |s| + 1)
    ensures !OccursBefore(s, sep, |r|)
  {
    var i := Find(s, sep);
    if i == -1 then s
    else
      assert forall j :: OccursAt(s[..i], sep, j) ==> OccursAt(s, sep, j) && j < i by {
        forall j | OccursAt(s[..i], sep, j) ensures OccursAt(s, sep, j) && j < i {
          assert s[..i][j..j + |sep|] == s[j..j + |sep|];
        }
      }
      s[..i]
  }

  /** `Find` returns the one index where `sub` first occurs. */
  lemma FindIsFirstOccurrence<T>(s: seq<T>, sub: seq<T>, r: int)
    requires OccursAt(s, sub, r) && !OccursBefore(s, sub, r)
    ensures Find(s, sub) == r
  {
    assert OccursBefore(s, sub, |s| + 1);
  }

  lemma OccursInSuffix<T>(s: seq<T>, sub: seq<T>, i: nat, j: int)
    requires i <= |s|
    ensures OccursAt(s[i..], sub, j) <==> j >= 0 && OccursAt(s, sub, i + j)
  {
    if j >= 0 && i + j + |sub| <= |s| {
      assert s[i..][j..j + |sub|] == s[i + j..i + j + |sub|];
    }
  }

  /** When `sep` does not start anywhere in the first `i` elements, splitting
      `s` splits only what follows them. */
  lemma SplitFirstAfterPrefix<T>(s: seq<T>, sep: seq<T>, i: nat)
    requires sep != [] && i <= |s|
    requires !OccursBefore(s, sep, i)
    ensures SplitFirst(s, sep) == s[..i] + SplitFirst(s[i..], sep)
  {
    var t := s[i..];
    var k := Find(t, sep);
    if k == -1 {
      forall j | 0 <= j < |s| + 1 ensures !OccursAt(s, sep, j) {
        if j >= i {
          OccursInSuffix(s, sep, i, j - i);
          assert !OccursBefore(t, sep, |t| + 1);
        }
      }
      assert s[..i] + t == s;
    } else {
      OccursInSuffix(s, sep, i, k);
      forall j | 0 <= j < i + k ensures !OccursAt(s, sep, j) {
        if j >= i {
          OccursInSuffix(s, sep, i, j - i);
        }
      }
      FindIsFirstOccurrence(s, sep, i + k);
      assert s[..i + k] == s[..i] + t[..k];
    }
  }

  /** `sep` cannot start inside `a` in `a + b` when it does not occur in
      `a` and `b` begins with an element that only the first position of
      `sep` may hold. */
  lemma NoOccurrenceBeforeJoint<T>(a: seq<T>, b: seq<T>, sep: seq<T>)
    requires sep != [] && b != []
    requires forall j :: !OccursAt(a, sep, j)
    requires forall k :: 1 <= k < |sep| ==> sep[k] != b[0]
    ensures !OccursBefore(a + b, sep, |a|)
  {
    forall j | 0 <= j < |a| ensures !OccursAt(a + b, sep, j) {
      if j + |sep| <= |a| {
        assert (a + b)[j..j + |sep|] == a[j..j + |sep|];
        assert !OccursAt(a, sep, j);
      } else if j + |sep| <= |a| + |b| {
        assert (a + b)[j..j + |sep|][|a| - j] == b[0];
        assert sep[|a| - j] != b[0];
      }
    }
  }

  /** A one-element pattern that occurs nowhere is an element that does
      not occur. */
  lemma NotAnElement<T>(s: seq<T>, c: T)
    requires forall j :: !OccursAt(s, [c], j)
    ensures forall k :: 0 <= k < |s| ==> s[k] != c
  {
    forall k | 0 <= k < |s| ensures s[k] != c {
      assert !OccursAt(s, [c], k);
      assert s[k..k + 1] == [s[k]];
    }
  }

  lemma SuffixHasNoElement<T>(s: seq<T>, b: seq<T>, c: T)
    requires |b| <= |s| && s == s[..|s| - |b|] + b
    requires forall k :: 0 <= k < |s| ==> s[k] != c
    ensures forall k :: 0 <= k < |b| ==> b[k] != c
  {
    forall k | 0 <= k < |b| ensures b[k] != c {
      assert b[k] == s[|s| - |b| + k];
    }
  }

  lemma ConcatAssociative<T>(a: seq<T>, b: seq<T>, c: seq<T>)
    ensures a + (b + c) == (a + b) + c
  {
  }

  /** Where Python's slice `s[lo:hi]` (step 1) starts or stops for index
      `i`: a negative index counts from the end, and both are clipped to
      the sequence. */
  function SliceIndex(n: nat, i: int): (r: nat)
    ensures r <= n
    ensures 0 <= i <= n ==> r == i
  {
    if i < 0 then (if i + n < 0 then 0 else i + n)
    else if i > n then n
    else i
  }

  /** Python's `s[lo:hi]`: never fails, empty when the bounds cross. */
  function PySlice<T>(s: seq<T>, lo: int, hi: int): (r: seq<T>)
    ensures |r| <= |s|
    ensures 0 <= lo <= hi <= |s| ==> r == s[lo..hi]
  {
    var a := SliceIndex(|s|, lo);
    var b := SliceIndex(|s|, hi);
    if a <= b then s[a..b] else []
  }

  /** The index just after the last '/' of `p`, or 0 when there is none. */
  function AfterLastSlash(p: string): (i: nat)
    ensures i <= |p|
    ensures i > 0 ==> p[i - 1] == '/'
    ensures forall k :: i <= k < |p| ==> p[k] != '/'
  {
    if p == [] then 0
    else if p[|p| - 1] == '/' then |p|
    else AfterLastSlash(p[..|p| - 1])
  }

  /** `os.path.basename(p)`: the final component, after the last '/'. */
  function Basename(p: string): (b: string)
    ensures forall k :: 0 <= k < |b| ==> b[k] != '/'
    ensures |b| <= |p| && p == p[..|p| - |b|] + b
    ensures |b| < |p| ==> p[|p| - |b| - 1] == '/'
  {
    p[AfterLastSlash(p)..]
  }

  predicate AllSlashes(s: string) {
    forall k :: 0 <= k < |s| ==> s[k] == '/'
  }

  /** `s.rstrip('/')`. */
  function RStripSlashes(s: string): (r: string)
    ensures r <= s
    ensures r == [] || r[|r| - 1] != '/'
    ensures AllSlashes(s[|r|..])
  {
    if s == [] || s[|s| - 1] != '/' then s
    else
      var r := RStripSlashes(s[..|s| - 1]);
      assert s[|r|..] == s[..|s| - 1][|r|..] + ['/'];
      r
  }

  /** `os.path.dirname(p)`: everything before the last '/', without
      trailing slashes unless it consists of slashes only. */
  function Dirname(p: string): (d: string)
    ensures d <= p
    ensures AfterLastSlash(p) == 0 ==> d == []
  {
    var head := p[..AfterLastSlash(p)];
    if head != [] && !AllSlashes(head) then RStripSlashes(head) else head
  }

  /** `os.path.join(a, b)` for two components. */
  function Join(a: string, b: string): (r: string)
    ensures |b| <= |r| && r[|r| - |b|..] == b
    ensures b != [] && b[0] == '/' ==> r == b
    ensures a == [] ==> r == b
  {
    if b != [] && b[0] == '/' then b
    else if a == [] || a[|a| - 1] == '/' then a + b
    else a + "/" + b
  }

  /** No two consecutive slashes: the path is already in normal form as far
      as `dirname` and `join` are concerned. */
  predicate NoDoubleSlash(p: string) {
    forall k :: 0 <= k < |p| - 1 ==> !(p[k] == '/' && p[k + 1] == '/')
  }

  /** Joining the directory of `p` with a name that does not start with a
      slash puts the name where `p`'s final component was. */
  lemma JoinDirname(p: string, name: string)
    requires NoDoubleSlash(p)
    requires name == [] || name[0] != '/'
    ensures Join(Dirname(p), name) == p[..AfterLastSlash(p)] + name
  {
    var i := AfterLastSlash(p);
    var head := p[..i];
    if head != [] && !AllSlashes(head) {
      assert head[i - 1] == '/';
      if i >= 2 {
        assert p[i - 2] != '/';
        assert RStripSlashes(head) == head[..i - 1];
        assert head[..i - 1] + "/" == head;
      } else {
        assert AllSlashes(head);
      }
    }
  }

  /** A decimal digit. */
  function DigitChar(d: nat): (c: char)
    requires d < 10
    ensures '0' <= c <= '9' && (c as int) - ('0' as int) == d
  {
    (('0' as int) + d) as char
  }

  predicate AllDigits(s: string) {
    forall k :: 0 <= k < |s| ==> '0' <= s[k] <= '9'
  }

  /** `str(n)` for a natural number: the shortest decimal numeral. */
  function NatToDecimal(n: nat): (s: string)
    ensures s != [] && AllDigits(s)
    ensures s[0] == '0' ==> s == "0"
  {
    if n < 10 then [DigitChar(n)]
    else NatToDecimal(n / 10) + [DigitChar(n % 10)]
  }

  /** `str(i)` for an integer: a '-' before the numeral of a negative value. */
  function IntToDecimal(i: int): (s: string)
    ensures s != []
  {
    if i < 0 then "-" + NatToDecimal(-i) else NatToDecimal(i)
  }

  /** The value of a decimal numeral, read left to right (Python's `int(s)`
      on digits). */
  function DecimalValue(s: string): (n: nat)
    requires AllDigits(s)
  {
    if s == [] then 0
    else 10 * DecimalValue(s[..|s| - 1]) + ((s[|s| - 1] as int) - ('0' as int))
  }

  /** `int(s)` on the numerals `str` produces for integers. */
  function ParseInt(s: string): int
    requires s != [] && (AllDigits(s) || (s[0] == '-' && AllDigits(s[1..])))
  {
    if s[0] == '-' then 0 - DecimalValue(s[1..]) as int else DecimalValue(s)
  }

  /** Reading back the numeral of `n` gives `n`. */
  lemma {:induction false} NatDecimalRoundTrip(n: nat)
    ensures DecimalValue(NatToDecimal(n)) == n
  {
    if n >= 10 {
      NatDecimalRoundTrip(n / 10);
      var s := NatToDecimal(n);
      assert s[..|s| - 1] == NatToDecimal(n / 10);
    }
  }

  /** `int(str(i)) == i` for every integer. */
  lemma IntDecimalRoundTrip(i: int)
    ensures var s := IntToDecimal(i);
            (AllDigits(s) || (s[0] == '-' && AllDigits(s[1..]))) && ParseInt(s) == i
  {
    var s := IntToDecimal(i);
    if i < 0 {
      assert s[1..] == NatToDecimal(-i);
      NatDecimalRoundTrip(-i);
    } else {
      NatDecimalRoundTrip(i);
    }
  }
}
