/**
  The Python `str` operations the pipeline relies on, over `seq<char>`:
  substring search (`in`, `find`), `split`, `partition`, `strip`, `lower`
  on ASCII letters and `str()` of an integer.

  The search functions carry only the bounds their callers need to index
  safely; what they find is stated by lemmas (`FindSpec` and the ones after
  it) that a proof calls where it needs them.
 */
module Strings {
  import opened Wrappers

  /** `p` occurs in `s` starting at index `k`. */
  predicate OccursAt(s: string, p: string, k: nat) {
    k + |p| <= |s| && s[k..k + |p|] == p
  }

  predicate StartsWith(s: string, p: string) {
    |p| <= |s| && s[..|p|] == p
  }

  lemma OccursAtTail(s: string, p: string)
    requires |s| > 0
    ensures forall j: nat :: j >= 1 ==> (OccursAt(s, p, j) <==> OccursAt(s[1..], p, j - 1))
  {
    forall j: nat | j >= 1 ensures OccursAt(s, p, j) <==> OccursAt(s[1..], p, j - 1) {
      if j + |p| <= |s| {
        assert s[1..][j - 1..j - 1 + |p|] == s[j..j + |p|];
      }
    }
  }

  /** `s.find(p)` for a non-empty `p`, with `None` for -1. */
  function Find(s: string, p: string): (r: Option<nat>)
    requires p != []
    ensures r.Some? ==> r.value + |p| <= |s|
    decreases |s|
  {
    if |s| < |p| then None
    else if s[..|p|] == p then Some(0)
    else
      match Find(s[1..], p)
      case None => None
      case Some(k) => Some(k + 1)
  }

  /** `Find` gives the first index at which `p` occurs, and `None` only when there is none. */
  lemma {:induction false} FindSpec(s: string, p: string)
    requires p != []
    ensures Find(s, p).Some? ==> OccursAt(s, p, Find(s, p).value)
    ensures forall j: nat :: (Find(s, p).None? || j < Find(s, p).value) ==> !OccursAt(s, p, j)
    decreases |s|
  {
    if |s| >= |p| && s[..|p|] != p {
      FindSpec(s[1..], p);
      OccursAtTail(s, p);
      assert !OccursAt(s, p, 0);
    }
  }

  /** The first occurrence is the one `Find` returns. */
  lemma FindIs(s: string, p: string, k: nat)
    requires p != [] && OccursAt(s, p, k)
    requires forall j: nat :: j < k ==> !OccursAt(s, p, j)
    ensures Find(s, p) == Some(k)
  {
    FindSpec(s, p);
  }

  /** The first occurrence is still found in any prefix that holds all of it. */
  lemma FindInPrefix(s: string, p: string, n: nat)
    requires p != [] && Find(s, p).Some? && Find(s, p).value + |p| <= n <= |s|
    ensures Find(s[..n], p) == Find(s, p)
  {
    FindSpec(s, p);
    var k := Find(s, p).value;
    var cut := s[..n];
    assert cut[k..k + |p|] == s[k..k + |p|];
    forall j: nat | j < k ensures !OccursAt(cut, p, j) {
      assert !OccursAt(s, p, j);
      assert cut[j..j + |p|] == s[j..j + |p|];
    }
    FindIs(cut, p, k);
  }

  /** Python's `p in s` for a non-empty `p`. */
  predicate Contains(s: string, p: string)
    requires p != []
  {
    Find(s, p).Some?
  }

  lemma ContainsIff(s: string, p: string)
    requires p != []
    ensures Contains(s, p) <==> exists k: nat :: OccursAt(s, p, k)
  {
    FindSpec(s, p);
    if Contains(s, p) {
      assert OccursAt(s, p, Find(s, p).value);
    }
  }

  /** For a one-character pattern, substring search is membership. */
  lemma ContainsChar(s: string, c: char)
    ensures Contains(s, [c]) <==> c in s
  {
    FindSpec(s, [c]);
    if c in s {
      var k :| 0 <= k < |s| && s[k] == c;
      assert s[k..k + 1] == [c];
      assert OccursAt(s, [c], k);
    }
    if Contains(s, [c]) {
      var k := Find(s, [c]).value;
      assert s[k] == s[k..k + 1][0];
    }
  }

  /** Partitioning at a character that `a` does not hold gives back `a` and `b`. */
  lemma PartitionFirst(a: string, c: char, b: string)
    requires c !in a
    ensures Before(a + [c] + b, [c]) == a && After(a + [c] + b, [c]) == b
  {
    var s := a + [c] + b;
    assert s[|a|..|a| + 1] == [c];
    forall j: nat | j < |a| ensures !OccursAt(s, [c], j) {
      assert s[j] == a[j];
      assert s[j..j + 1] == [s[j]];
    }
    FindIs(s, [c], |a|);
    assert s[..|a|] == a;
    assert s[|a| + 1..] == b;
  }

  /** A prefix that ends before the first occurrence does not contain it. */
  lemma PrefixBeforeFirst(s: string, p: string, k: nat)
    requires p != [] && k <= |s|
    requires forall j: nat :: j < k ==> !OccursAt(s, p, j)
    ensures !Contains(s[..k], p)
  {
    var cut := s[..k];
    forall j: nat | OccursAt(cut, p, j) ensures OccursAt(s, p, j) && j < k {
      assert cut[j..j + |p|] == s[j..j + |p|];
    }
    FindSpec(cut, p);
  }

  /** `s.split(sep)` for a non-empty separator. */
  function Split(s: string, sep: string): (r: seq<string>)
    requires sep != []
    ensures |r| >= 1
    ensures Contains(s, sep) ==> |r| >= 2
    decreases |s|
  {
    match Find(s, sep)
    case None => [s]
    case Some(k) => [s[..k]] + Split(s[k + |sep|..], sep)
  }

  /** No piece of a split holds the separator. */
  lemma {:induction false} SplitPiecesFree(s: string, sep: string)
    requires sep != []
    ensures forall i :: 0 <= i < |Split(s, sep)| ==> !Contains(Split(s, sep)[i], sep)
    decreases |s|
  {
    FindSpec(s, sep);
    match Find(s, sep)
    case None =>
    case Some(k) =>
      PrefixBeforeFirst(s, sep, k);
      SplitPiecesFree(s[k + |sep|..], sep);
  }

  /** `sep.join(parts)`. */
  function Join(parts: seq<string>, sep: string): string {
    if |parts| == 0 then ""
    else if |parts| == 1 then parts[0]
    else parts[0] + sep + Join(parts[1..], sep)
  }

  /** Splitting and joining again on the same separator gives the input back. */
  lemma {:induction false} JoinSplit(s: string, sep: string)
    requires sep != []
    ensures Join(Split(s, sep), sep) == s
    decreases |s|
  {
    match Find(s, sep)
    case None =>
    case Some(k) =>
      var rest := s[k + |sep|..];
      var tail := Split(rest, sep);
      JoinSplit(rest, sep);
      FindSpec(s, sep);
      var parts := Split(s, sep);
      assert parts == [s[..k]] + tail;
      assert parts[1..] == tail;
      assert Join(parts, sep) == s[..k] + sep + Join(tail, sep);
      assert s == s[..k] + sep + rest;
  }

  /** `s.partition(sep)[0]`, which is also `s.split(sep)[0]`: a prefix of `s`. */
  function Before(s: string, sep: string): (r: string)
    requires sep != []
    ensures |r| <= |s| && r == s[..|r|]
  {
    match Find(s, sep)
    case None => s
    case Some(k) => s[..k]
  }

  /** `s.partition(sep)[2]`: the text after the first occurrence, or "". */
  function After(s: string, sep: string): (r: string)
    requires sep != []
    ensures |r| <= |s|
  {
    match Find(s, sep)
    case None => ""
    case Some(k) => s[k + |sep|..]
  }

  /** `partition` loses nothing: the three parts put back together give `s`. */
  lemma Partition(s: string, sep: string)
    requires sep != []
    ensures !Contains(Before(s, sep), sep)
    ensures Contains(s, sep) ==> s == Before(s, sep) + sep + After(s, sep)
    ensures !Contains(s, sep) ==> Before(s, sep) == s && After(s, sep) == ""
  {
    FindSpec(s, sep);
    if Contains(s, sep) {
      var k := Find(s, sep).value;
      PrefixBeforeFirst(s, sep, k);
      assert s == s[..k] + s[k..k + |sep|] + s[k + |sep|..];
    }
  }

  lemma SplitFirst(s: string, sep: string)
    requires sep != []
    ensures Split(s, sep)[0] == Before(s, sep)
  {
  }

  /** `s.split(sep)[1]`: the text between the first and the second occurrence. */
  lemma SplitSecond(s: string, sep: string)
    requires sep != [] && Contains(s, sep)
    ensures |Split(s, sep)| >= 2 && Split(s, sep)[1] == Before(After(s, sep), sep)
  {
  }

  /** Cutting `s` after its first `sep` does not change what precedes it. */
  lemma BeforeInPrefix(s: string, sep: string, n: nat)
    requires sep != [] && Find(s, sep).Some? && Find(s, sep).value + |sep| <= n <= |s|
    ensures Before(s[..n], sep) == Before(s, sep)
  {
    var cut := s[..n];
    var p := Find(s, sep).value;
    FindInPrefix(s, sep, n);
    assert cut[..p] == s[..p];
  }

  /** Cutting `s` at its first `sep` leaves no `sep`. */
  lemma BeforeAtFirst(s: string, sep: string)
    requires sep != [] && Find(s, sep).Some?
    ensures Before(s[..Find(s, sep).value], sep) == s[..Find(s, sep).value]
  {
    FindSpec(s, sep);
    PrefixBeforeFirst(s, sep, Find(s, sep).value);
  }

  /** Each occurrence of `outer` is one of `inner` when `outer` starts with `inner`. */
  lemma OccursAtPrefix(s: string, outer: string, inner: string, k: nat)
    requires |inner| <= |outer| && outer[..|inner|] == inner
    requires OccursAt(s, outer, k)
    ensures OccursAt(s, inner, k)
  {
    assert s[k..k + |inner|] == s[k..k + |outer|][..|inner|];
  }

  /**
    Cutting at the first `outer` and then at the first `inner`, where `outer`
    starts with `inner`: the result ends at the first `inner` unless an
    `outer` begins strictly inside that `inner`.
   */
  lemma BeforeUpToInner(s: string, outer: string, inner: string, p: nat)
    requires inner != [] && |inner| <= |outer| && outer[..|inner|] == inner
    requires Find(s, inner) == Some(p)
    requires forall k :: p < k < p + |inner| ==> !OccursAt(s, outer, k)
    ensures Before(Before(s, outer), inner) == s[..p]
  {
    FindSpec(s, outer);
    FindSpec(s, inner);
    if Find(s, outer).Some? {
      var q := Find(s, outer).value;
      OccursAtPrefix(s, outer, inner, q);
      if p + |inner| <= q {
        BeforeInPrefix(s, inner, q);
      } else {
        BeforeAtFirst(s, inner);
      }
    }
  }

  /** With no `inner` at all, neither cut removes anything. */
  lemma BeforeWithoutInner(s: string, outer: string, inner: string)
    requires inner != [] && |inner| <= |outer| && outer[..|inner|] == inner
    requires !Contains(s, inner)
    ensures Before(Before(s, outer), inner) == s
  {
    FindSpec(s, outer);
    if Find(s, outer).Some? {
      OccursAtPrefix(s, outer, inner, Find(s, outer).value);
      FindSpec(s, inner);
    }
  }

  /**
    `s.split(outer)[0].split(inner)[0]` where `outer` starts with `inner`: all
    of `s` when it holds no `inner`, and otherwise the text up to the first
    `inner`, unless an `outer` begins strictly inside that `inner`.
   */
  lemma BeforeBefore(s: string, outer: string, inner: string)
    requires inner != [] && |inner| <= |outer| && outer[..|inner|] == inner
    ensures !Contains(s, inner) ==> Before(Before(s, outer), inner) == s
    ensures Contains(s, inner)
      && (forall k :: Find(s, inner).value < k < Find(s, inner).value + |inner| ==> !OccursAt(s, outer, k))
      ==> Before(Before(s, outer), inner) == s[..Find(s, inner).value]
  {
    if Contains(s, inner) {
      var p := Find(s, inner).value;
      if forall k :: p < k < p + |inner| ==> !OccursAt(s, outer, k) {
        BeforeUpToInner(s, outer, inner, p);
      }
    } else {
      BeforeWithoutInner(s, outer, inner);
    }
  }

  /** A string that starts with `sep` has the rest after its first `sep`. */
  lemma AfterLeading(sep: string, b: string)
    requires sep != []
    ensures After(sep + b, sep) == b
  {
    FindIs(sep + b, sep, 0);
  }

  /** `sep` first occurs at the end of `a + sep` when no earlier position starts one. */
  lemma BeforeTrailing(a: string, sep: string)
    requires sep != []
    requires forall j: nat :: j < |a| ==> !OccursAt(a + sep, sep, j)
    ensures Before(a + sep, sep) == a
  {
    var s := a + sep;
    assert s[|a|..|a| + |sep|] == sep;
    FindIs(s, sep, |a|);
    assert s[..|a|] == a;
  }

  /** `s.find(c)`: the first index holding `c`. */
  function IndexOf(s: string, c: char): (r: Option<nat>)
    ensures r.Some? ==> r.value < |s| && s[r.value] == c
    ensures forall j :: 0 <= j < (if r.Some? then r.value else |s|) ==> s[j] != c
  {
    if |s| == 0 then None
    else if s[0] == c then Some(0)
    else
      match IndexOf(s[1..], c)
      case None => None
      case Some(k) => Some(k + 1)
  }

  /** `s.rfind(c)`: the last index holding `c`. */
  function LastIndexOf(s: string, c: char): (r: Option<nat>)
    ensures r.Some? ==> r.value < |s| && s[r.value] == c
    ensures forall j :: (if r.Some? then r.value + 1 else 0) <= j < |s| ==> s[j] != c
  {
    if |s| == 0 then None
    else if s[|s| - 1] == c then Some(|s| - 1)
    else LastIndexOf(s[..|s| - 1], c)
  }

  /** `s.rpartition(c)[2]`: what follows the last `c`, or all of `s`. */
  function AfterLast(s: string, c: char): (r: string)
    ensures c !in r
  {
    match LastIndexOf(s, c)
    case None => s
    case Some(k) => s[k + 1..]
  }

  /** Python's `str.isspace` for one character. */
  predicate IsSpace(c: char) {
    var n := c as int;
    || 0x09 <= n <= 0x0D || 0x1C <= n <= 0x20
    || n == 0x85 || n == 0xA0 || n == 0x1680
    || 0x2000 <= n <= 0x200A
    || n == 0x2028 || n == 0x2029 || n == 0x202F || n == 0x205F || n == 0x3000
  }

  /** `s.lstrip()`. */
  function TrimStart(s: string): (r: string)
    ensures |r| <= |s| && r == s[|s| - |r|..]
    ensures r != [] ==> !IsSpace(r[0])
    ensures forall i :: 0 <= i < |s| - |r| ==> IsSpace(s[i])
  {
    if |s| > 0 && IsSpace(s[0]) then TrimStart(s[1..]) else s
  }

  /** `s.rstrip()`. */
  function TrimEnd(s: string): (r: string)
    ensures |r| <= |s| && r == s[..|r|]
    ensures r != [] ==> !IsSpace(r[|r| - 1])
    ensures forall i :: |r| <= i < |s| ==> IsSpace(s[i])
  {
    if |s| > 0 && IsSpace(s[|s| - 1]) then TrimEnd(s[..|s| - 1]) else s
  }

  /** `s.strip()`: `s` without its leading and trailing whitespace. */
  function Strip(s: string): (r: string) {
    TrimEnd(TrimStart(s))
  }

  predicate IsStripped(s: string) {
    s == [] || (!IsSpace(s[0]) && !IsSpace(s[|s| - 1]))
  }

  /**
    What `strip` keeps is one contiguous slice of the input, it is free of
    surrounding whitespace, and everything it drops is whitespace.
   */
  lemma StripSlice(s: string)
    ensures IsStripped(Strip(s))
    ensures exists i, j :: (0 <= i <= j <= |s| && Strip(s) == s[i..j]
      && (forall k :: 0 <= k < i ==> IsSpace(s[k]))
      && (forall k :: j <= k < |s| ==> IsSpace(s[k])))
  {
    var t := TrimStart(s);
    var r := TrimEnd(t);
    if r != [] {
      assert r[0] == t[0];
    }
    TrimmedSlice(s, t, r);
  }

  /** Trimming the front and then the back keeps one slice, with only whitespace outside it. */
  lemma TrimmedSlice(s: string, t: string, r: string)
    requires |t| <= |s| && t == s[|s| - |t|..]
    requires |r| <= |t| && r == t[..|r|]
    requires forall k :: 0 <= k < |s| - |t| ==> IsSpace(s[k])
    requires forall k :: |r| <= k < |t| ==> IsSpace(t[k])
    ensures exists i, j :: (0 <= i <= j <= |s| && r == s[i..j]
      && (forall k :: 0 <= k < i ==> IsSpace(s[k]))
      && (forall k :: j <= k < |s| ==> IsSpace(s[k])))
  {
    var i := |s| - |t|;
    var j := i + |r|;
    assert r == s[i..j];
    forall k | j <= k < |s| ensures IsSpace(s[k]) {
      assert s[k] == t[k - i];
    }
  }

  /** A string without surrounding whitespace is left alone by `strip`. */
  lemma StripStripped(s: string)
    requires IsStripped(s)
    ensures Strip(s) == s
  {
  }

  lemma StripIdempotent(s: string)
    ensures Strip(Strip(s)) == Strip(s)
  {
    StripSlice(s);
    StripStripped(Strip(s));
  }

  /** Whitespace before a non-space character is what `lstrip` removes. */
  lemma {:induction false} TrimStartSpaces(w: string, s: string)
    requires forall i :: 0 <= i < |w| ==> IsSpace(w[i])
    requires s != [] && !IsSpace(s[0])
    ensures TrimStart(w + s) == s
    decreases |w|
  {
    if w != [] {
      assert (w + s)[1..] == w[1..] + s;
      TrimStartSpaces(w[1..], s);
    } else {
      assert w + s == s;
    }
  }

  /** Trailing whitespace after `s` is removed together with `s`'s own. */
  lemma {:induction false} TrimEndSpaces(s: string, w: string)
    requires forall i :: 0 <= i < |w| ==> IsSpace(w[i])
    ensures TrimEnd(s + w) == TrimEnd(s)
    decreases |w|
  {
    if w != [] {
      var n := |w| - 1;
      assert (s + w)[..|s + w| - 1] == s + w[..n];
      TrimEndSpaces(s, w[..n]);
    } else {
      assert s + w == s;
    }
  }

  /**
    `rstrip` of a concatenation only reaches into the first part when the
    second is all whitespace and the first ends in whitespace.
   */
  lemma {:induction false} TrimEndAppend(a: string, b: string)
    requires TrimEnd(a) == a || TrimEnd(b) != []
    ensures TrimEnd(a + b) == a + TrimEnd(b)
    decreases |b|
  {
    if b == [] {
      assert a + b == a;
    } else if IsSpace(b[|b| - 1]) {
      var n := |b| - 1;
      assert (a + b)[..|a + b| - 1] == a + b[..n];
      TrimEndAppend(a, b[..n]);
    }
  }

  /** An all-whitespace string strips to nothing on the right. */
  lemma TrimEndEmpty(s: string)
    ensures TrimEnd(s) == [] <==> forall i :: 0 <= i < |s| ==> IsSpace(s[i])
  {
    if forall i :: 0 <= i < |s| ==> IsSpace(s[i]) {
      TrimEndSpaces([], s);
      assert [] + s == s;
    }
  }

  /** `p` occurs in any string that has it as a middle part. */
  lemma ContainsMiddle(a: string, p: string, b: string)
    requires p != []
    ensures Contains(a + p + b, p)
  {
    var s := a + p + b;
    assert s[|a|..|a| + |p|] == p;
    assert OccursAt(s, p, |a|);
    ContainsIff(s, p);
  }

  predicate IsAscii(s: string) {
    forall i :: 0 <= i < |s| ==> s[i] as int < 128
  }

  predicate IsAsciiLetter(c: char) {
    'a' <= c <= 'z' || 'A' <= c <= 'Z'
  }

  /** `s.lower()` on ASCII letters; every other character is kept. */
  function AsciiLower(s: string): (r: string)
    ensures |r| == |s|
    ensures forall i :: 0 <= i < |s| ==>
      r[i] == if 'A' <= s[i] <= 'Z' then (s[i] as int + 32) as char else s[i]
  {
    if s == [] then []
    else [if 'A' <= s[0] <= 'Z' then (s[0] as int + 32) as char else s[0]] + AsciiLower(s[1..])
  }

  predicate IsDigit(c: char) {
    '0' <= c <= '9'
  }

  /** Decimal digits of `n`, most significant first, with no leading zero. */
  function NatToString(n: nat): (r: string)
    ensures |r| >= 1
    decreases n
  {
    if n < 10 then [('0' as int + n) as char]
    else NatToString(n / 10) + [('0' as int + n % 10) as char]
  }

  /** The text of a natural number is all digits, with no leading zero. */
  lemma {:induction false} NatToStringDigits(n: nat)
    ensures var r := NatToString(n);
      (forall i :: 0 <= i < |r| ==> IsDigit(r[i])) && (|r| > 1 ==> r[0] != '0')
    decreases n
  {
    if n >= 10 {
      NatToStringDigits(n / 10);
    }
  }

  /** Python's `str(i)` for an integer. */
  function IntToString(i: int): (r: string) {
    if i < 0 then "-" + NatToString(-i) else NatToString(i)
  }

  /** The value of a string of decimal digits (the inverse of `NatToString`). */
  function DigitsValue(s: string): int {
    if s == [] then 0
    else DigitsValue(s[..|s| - 1]) * 10 + (s[|s| - 1] as int - '0' as int)
  }

  /** Reading back the decimal text of `n` gives `n`. */
  lemma {:induction false} DigitsValueOfNatToString(n: nat)
    ensures DigitsValue(NatToString(n)) == n
    decreases n
  {
    if n >= 10 {
      DigitsValueOfNatToString(n / 10);
      var s := NatToString(n);
      assert s[..|s| - 1] == NatToString(n / 10);
    }
  }

  /** Different integers are written differently. */
  lemma IntToStringInjective(a: int, b: int)
    requires IntToString(a) == IntToString(b)
    ensures a == b
  {
    var s := IntToString(a);
    NatToStringDigits(if a < 0 then -a else a);
    NatToStringDigits(if b < 0 then -b else b);
    if a < 0 {
      assert s[0] == '-';
      assert NatToString(-a) == s[1..] == NatToString(-b);
      DigitsValueOfNatToString(-a);
      DigitsValueOfNatToString(-b);
    } else {
      assert IsDigit(s[0]);
      DigitsValueOfNatToString(a);
      DigitsValueOfNatToString(b);
    }
  }
}
