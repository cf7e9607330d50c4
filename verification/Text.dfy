/** The string operations the scripts lean on, in the form JavaScript gives them:
    indexOf / lastIndexOf, split / join, trim and decimal printing.
    A `char` stands for one UTF-16 code unit. */
module Text {

  datatype Option<+T> = None | Some(value: T)

  const NL: string := "\n"

  // ---------------------------------------------------------------- searching

  predicate OccursAt(s: string, p: string, i: int) {
    0 <= i && i + |p| <= |s| && s[i..i + |p|] == p
  }

  predicate Contains(s: string, p: string) {
    exists i | 0 <= i <= |s| :: OccursAt(s, p, i)
  }

  /** `s.indexOf(p, from)`: the first occurrence at or after `from`, else -1. */
  function IndexFrom(s: string, p: string, from: nat): (r: int)
    requires from <= |s|
    ensures r == -1 || from <= r
    ensures r == -1 ==> forall i :: from <= i ==> !OccursAt(s, p, i)
    ensures r != -1 ==> OccursAt(s, p, r) && forall i :: from <= i < r ==> !OccursAt(s, p, i)
    decreases |s| - from
  {
    if OccursAt(s, p, from) then from
    else if from == |s| then -1
    else IndexFrom(s, p, from + 1)
  }

  function Index(s: string, p: string): (r: int)
    ensures r == -1 || 0 <= r
    ensures r == -1 ==> forall i :: !OccursAt(s, p, i)
    ensures r != -1 ==> OccursAt(s, p, r) && forall i :: 0 <= i < r ==> !OccursAt(s, p, i)
  {
    IndexFrom(s, p, 0)
  }

  /** An occurrence in the tail of a text is an occurrence in the text. */
  lemma OccursInTail(s: string, p: string, from: nat, i: nat)
    requires from <= |s|
    ensures OccursAt(s[from..], p, i) <==> OccursAt(s, p, from + i)
  {
    assert from + i + |p| <= |s| ==> s[from..][i..i + |p|] == s[from + i..from + i + |p|];
  }

  predicate CharAt(s: string, c: char, i: int) {
    0 <= i < |s| && s[i] == c
  }

  lemma OneChar(s: string, c: char, i: int)
    ensures OccursAt(s, [c], i) <==> CharAt(s, c, i)
  {
    assert 0 <= i < |s| ==> s[i..i + 1] == [s[i]];
  }

  /** The first copy of a character is where the text before it has none. */
  lemma CharFound(head: string, value: string, c: char, tail: string)
    requires c !in value
    ensures IndexFrom(head + (value + [c] + tail), [c], |head|) == |head| + |value|
  {
    var rest := value + [c] + tail;
    var text, end := head + rest, |head| + |value|;
    forall j | |head| <= j <= end ensures OccursAt(text, [c], j) <==> j == end {
      assert text[j] == rest[j - |head|];
      OneChar(text, c, j);
    }
    IndexFromIs(text, [c], |head|, end);
  }

  lemma IndexFromIs(s: string, p: string, from: nat, i: nat)
    requires from <= i && OccursAt(s, p, i)
    requires forall j :: from <= j < i ==> !OccursAt(s, p, j)
    ensures IndexFrom(s, p, from) == i
  {
  }

  /** A text with one occurrence of a separator splits in two. */
  lemma SplitOnce(s: string, sep: string, i: nat)
    requires sep != "" && OccursAt(s, sep, i)
    requires forall j :: OccursAt(s, sep, j) ==> j == i
    ensures Index(s, sep) == i && |Split(s, sep)| == 2
  {
    IndexIs(s, sep, i);
    var rest := s[i + |sep|..];
    forall j ensures !OccursAt(rest, sep, j) {
      if j >= 0 { OccursInTail(s, sep, i + |sep|, j); }
    }
    assert Split(rest, sep) == [rest];
  }

  lemma IndexIs(s: string, p: string, i: nat)
    requires OccursAt(s, p, i)
    requires forall j :: 0 <= j < i ==> !OccursAt(s, p, j)
    ensures Index(s, p) == i
  {
  }

  function LastIndexBefore(s: string, c: char, n: nat): (r: int)
    requires n <= |s|
    ensures -1 <= r < n
    ensures r != -1 ==> s[r] == c
    ensures forall k | r < k < n :: s[k] != c
  {
    if n == 0 then -1 else if s[n - 1] == c then n - 1 else LastIndexBefore(s, c, n - 1)
  }

  /** `s.lastIndexOf(c)` for one character. */
  function LastIndex(s: string, c: char): (r: int)
    ensures -1 <= r < |s|
    ensures r != -1 ==> s[r] == c
    ensures forall k | r < k < |s| :: s[k] != c
  {
    LastIndexBefore(s, c, |s|)
  }

  lemma LastIndexIs(a: string, c: char, b: string)
    requires c !in b
    ensures LastIndex(a + [c] + b, c) == |a|
  {
    var s := a + [c] + b;
    assert s[|a|] == c;
    assert forall k | 0 <= k < |b| :: s[|a| + 1 + k] == b[k];
  }

  // ------------------------------------------------------------- split / join

  /** `s.split(sep)` for a non-empty separator. */
  function Split(s: string, sep: string): (parts: seq<string>)
    requires sep != ""
    ensures |parts| >= 1
    decreases |s|
  {
    var i := Index(s, sep);
    if i == -1 then [s] else [s[..i]] + Split(s[i + |sep|..], sep)
  }

  function Join(parts: seq<string>, sep: string): string {
    if |parts| == 0 then ""
    else if |parts| == 1 then parts[0]
    else parts[0] + sep + Join(parts[1..], sep)
  }

  lemma JoinCons(first: string, rest: seq<string>, sep: string)
    requires |rest| >= 1
    ensures Join([first] + rest, sep) == first + sep + Join(rest, sep)
  {
    assert ([first] + rest)[1..] == rest;
  }

  lemma SplitCons(s: string, sep: string) returns (first: string, rest: string)
    requires sep != "" && Index(s, sep) != -1
    ensures s == first + sep + rest && Split(s, sep) == [first] + Split(rest, sep) && |rest| < |s|
  {
    var i := Index(s, sep);
    first, rest := s[..i], s[i + |sep|..];
    assert s[i..i + |sep|] == sep;
  }

  lemma {:induction false} JoinSplit(s: string, sep: string)
    requires sep != ""
    ensures Join(Split(s, sep), sep) == s
    decreases |s|
  {
    if Index(s, sep) != -1 {
      var first, rest := SplitCons(s, sep);
      hide Index, Split, Join;
      JoinSplit(rest, sep);
      JoinCons(first, Split(rest, sep), sep);
    }
  }

  predicate LineFree(parts: seq<string>, c: char) {
    forall i | 0 <= i < |parts| :: c !in parts[i]
  }

  lemma SplitHead(a: string, c: char, rest: string)
    requires c !in a
    ensures Split(a + [c] + rest, [c]) == [a] + Split(rest, [c])
  {
    var s := a + [c] + rest;
    assert OccursAt(s, [c], |a|);
    forall j | 0 <= j < |a| ensures !OccursAt(s, [c], j) {
      assert s[j..j + 1] == [a[j]];
    }
    IndexIs(s, [c], |a|);
    assert s[..|a|] == a && s[|a| + 1..] == rest;
  }

  lemma SplitWhole(a: string, c: char)
    requires c !in a
    ensures Split(a, [c]) == [a]
  {
    forall i ensures !OccursAt(a, [c], i) {
      assert 0 <= i < |a| ==> a[i..i + 1] == [a[i]];
    }
  }

  lemma SplitHeads(a0: string, c: char, a1: string, rest: string)
    requires c !in a0
    ensures Split(a0 + [c] + a1 + [c] + rest, [c]) == [a0] + Split(a1 + [c] + rest, [c])
    ensures Split(a0 + [c] + a1, [c]) == [a0] + Split(a1, [c])
  {
    assert a0 + [c] + a1 + [c] + rest == a0 + [c] + (a1 + [c] + rest);
    SplitHead(a0, c, a1 + [c] + rest);
    SplitHead(a0, c, a1);
  }

  /** The first character of `a` that is a separator cuts it in two. */
  lemma CutAtFirst(a: string, c: char) returns (a0: string, a1: string)
    requires Index(a, [c]) != -1
    ensures a == a0 + [c] + a1 && c !in a0 && |a1| < |a|
  {
    var i := Index(a, [c]);
    a0, a1 := a[..i], a[i + 1..];
    OneChar(a, c, i);
    forall k | 0 <= k < i ensures a0[k] != c { OneChar(a, c, k); }
  }

  /** Splitting distributes over one more separator, whatever stands on either side. */
  lemma {:induction false} SplitCat(a: string, c: char, rest: string)
    ensures Split(a + [c] + rest, [c]) == Split(a, [c]) + Split(rest, [c])
    decreases |a|
  {
    if Index(a, [c]) == -1 {
      forall k | 0 <= k < |a| ensures a[k] != c { OneChar(a, c, k); }
      SplitHead(a, c, rest);
    } else {
      var a0, a1 := CutAtFirst(a, c);
      SplitCat(a1, c, rest);
      SplitHeads(a0, c, a1, rest);
    }
  }

  /** Joining distributes over cutting the list of parts in two. */
  lemma {:induction false} JoinCut(parts: seq<string>, sep: string, k: nat)
    requires 1 <= k < |parts|
    ensures Join(parts, sep) == Join(parts[..k], sep) + sep + Join(parts[k..], sep)
  {
    if k == 1 {
      assert parts[..1] == [parts[0]];
    } else {
      JoinCut(parts[1..], sep, k - 1);
      assert parts[1..][..k - 1] == parts[..k][1..];
      assert parts[1..][k - 1..] == parts[k..];
      var x, y := Join(parts[..k][1..], sep), Join(parts[k..], sep);
      assert parts[0] + sep + (x + sep + y) == (parts[0] + sep + x) + sep + y;
    }
  }

  /** Splitting on a character undoes joining with it when no part carries it. */
  lemma {:induction false} SplitJoin(parts: seq<string>, c: char)
    requires |parts| >= 1 && LineFree(parts, c)
    ensures Split(Join(parts, [c]), [c]) == parts
  {
    if |parts| == 1 {
      SplitWhole(parts[0], c);
    } else {
      SplitJoin(parts[1..], c);
      SplitHead(parts[0], c, Join(parts[1..], [c]));
      assert parts == [parts[0]] + parts[1..];
    }
  }

  /** The parts of a split on a character never carry it. */
  lemma {:induction false} SplitLineFree(s: string, c: char)
    ensures LineFree(Split(s, [c]), c)
    decreases |s|
  {
    var i := Index(s, [c]);
    if i == -1 {
      forall k | 0 <= k < |s| ensures s[k] != c {
        assert !OccursAt(s, [c], k);
        assert s[k..k + 1] == [s[k]];
      }
    } else {
      SplitLineFree(s[i + 1..], c);
      forall k | 0 <= k < i ensures s[..i][k] != c {
        assert !OccursAt(s, [c], k);
        assert s[k..k + 1] == [s[k]];
      }
    }
  }

  /** Two lists of parts that join to the same text are the same list. */
  lemma JoinInjective(xs: seq<string>, ys: seq<string>, c: char)
    requires |xs| >= 1 && |ys| >= 1
    requires LineFree(xs, c) && LineFree(ys, c)
    requires Join(xs, [c]) == Join(ys, [c])
    ensures xs == ys
  {
    SplitJoin(xs, c);
    SplitJoin(ys, c);
  }

  // --------------------------------------------------------------------- trim

  /** The white space `trim` and `\s` share in ECMAScript. */
  predicate IsSpace(c: char) {
    var n := c as int;
    9 <= n <= 13 || n == 0x20 || n == 0xA0 || n == 0x1680 || 0x2000 <= n <= 0x200A
    || n == 0x2028 || n == 0x2029 || n == 0x202F || n == 0x205F || n == 0x3000 || n == 0xFEFF
  }

  predicate AllSpace(s: string) {
    forall i | 0 <= i < |s| :: IsSpace(s[i])
  }

  predicate Trimmed(s: string) {
    s == "" || (!IsSpace(s[0]) && !IsSpace(s[|s| - 1]))
  }

  /** The index of the first character at or after `i` that is not white space. */
  function SkipSpace(s: string, i: nat): (n: nat)
    requires i <= |s|
    ensures i <= n <= |s|
    ensures forall k | i <= k < n :: IsSpace(s[k])
    ensures n < |s| ==> !IsSpace(s[n])
    decreases |s| - i
  {
    if i < |s| && IsSpace(s[i]) then SkipSpace(s, i + 1) else i
  }

  function TrimStart(s: string): (t: string)
    ensures t == "" || !IsSpace(t[0])
  {
    s[SkipSpace(s, 0)..]
  }

  /** The index just past the last character before `i` that is not white space. */
  function SkipSpaceBack(s: string, i: nat): (n: nat)
    requires i <= |s|
    ensures n <= i
    ensures forall k | n <= k < i :: IsSpace(s[k])
    ensures n > 0 ==> !IsSpace(s[n - 1])
  {
    if i > 0 && IsSpace(s[i - 1]) then SkipSpaceBack(s, i - 1) else i
  }

  function TrimEnd(s: string): (t: string)
    ensures t == "" || !IsSpace(t[|t| - 1])
  {
    s[..SkipSpaceBack(s, |s|)]
  }

  function Trim(s: string): (t: string)
    ensures Trimmed(t)
  {
    var u := TrimStart(s);
    var t := TrimEnd(u);
    assert t != "" ==> t[0] == u[0];
    t
  }

  lemma TrimStartPad(a: string, s: string)
    requires AllSpace(a) && (s == "" || !IsSpace(s[0]))
    ensures TrimStart(a + s) == s
  {
    var n := SkipSpace(a + s, 0);
    assert s != "" ==> (a + s)[|a|] == s[0];
    assert forall k | 0 <= k < |a| :: (a + s)[k] == a[k];
    assert n == |a|;
  }

  lemma TrimEndPad(s: string, b: string)
    requires AllSpace(b) && (s == "" || !IsSpace(s[|s| - 1]))
    ensures TrimEnd(s + b) == s
  {
    var n := SkipSpaceBack(s + b, |s + b|);
    assert s != "" ==> (s + b)[|s| - 1] == s[|s| - 1];
    assert forall k | 0 <= k < |b| :: (s + b)[|s| + k] == b[k];
    assert n == |s|;
  }

  /** `trim` removes exactly the padding around a trimmed non-empty core. */
  lemma TrimPad(a: string, s: string, b: string)
    requires AllSpace(a) && AllSpace(b) && Trimmed(s) && s != ""
    ensures Trim(a + s + b) == s
  {
    assert a + s + b == a + (s + b);
    TrimStartPad(a, s + b);
    TrimEndPad(s, b);
  }

  // ------------------------------------------------------------------ decimal

  function Digit(d: nat): (c: char)
    requires d < 10
    ensures '0' <= c <= '9' && c as int == 48 + d
  {
    (48 + d) as char
  }

  predicate IsDigits(s: string) {
    s != "" && forall i | 0 <= i < |s| :: '0' <= s[i] <= '9'
  }

  /** `String(n)` for a non-negative integer. */
  function Decimal(n: nat): (s: string)
    ensures IsDigits(s) && (s[0] == '0' <==> n == 0) && (n == 0 ==> s == "0")
  {
    if n < 10 then [Digit(n)] else Decimal(n / 10) + [Digit(n % 10)]
  }

  /** `Number(s)` for a string of decimal digits. */
  function Number(s: string): nat
    requires IsDigits(s)
    decreases |s|
  {
    var d := s[|s| - 1] as int - 48;
    if |s| == 1 then d else Number(s[..|s| - 1]) * 10 + d
  }

  lemma {:induction false} NumberDecimal(n: nat)
    ensures Number(Decimal(n)) == n
  {
    if n >= 10 {
      NumberDecimal(n / 10);
      var s := Decimal(n);
      assert s[..|s| - 1] == Decimal(n / 10);
    }
  }

  lemma DecimalInjective(m: nat, n: nat)
    ensures Decimal(m) == Decimal(n) ==> m == n
  {
    NumberDecimal(m);
    NumberDecimal(n);
  }
}
