/** Helpers shared by every module of the model: optional values and results,
    the string operations the TypeScript code relies on (trim, lower-case,
    substring search, prefix test), and list operations (filter, sum,
    de-duplication in insertion order, stable descending sort). */
module Common {

  datatype Option<T> = None | Some(value: T) {
    /** The `x ?? d` of the source. */
    function GetOr(d: T): T {
      if Some? then value else d
    }
  }

  datatype Result<T, E> = Ok(value: T) | Err(error: E)

  datatype Outcome<E> = Pass | Fail(error: E)

  /* ---------------------------------------------------------------
     Strings
     --------------------------------------------------------------- */

  /** The characters `String.prototype.trim` strips that the model knows of:
      ASCII white space, no-break space and the byte-order mark. */
  predicate IsSpace(c: char) {
    c == ' ' || c == '\t' || c == '\n' || c == '\r' ||
    c == '\U{000B}' || c == '\U{000C}' || c == '\U{00A0}' || c == '\U{FEFF}'
  }

  predicate IsBlank(s: string) {
    forall i | 0 <= i < |s| :: IsSpace(s[i])
  }

  /** Dropping a leading white-space character keeps a string blank or not. */
  lemma BlankTail(s: string)
    requires s != [] && IsSpace(s[0])
    ensures IsBlank(s[1..]) <==> IsBlank(s)
  {
    if IsBlank(s[1..]) {
      forall i | 0 <= i < |s| ensures IsSpace(s[i]) {
        if i > 0 { assert s[i] == s[1..][i - 1]; }
      }
    }
  }

  /** Dropping a trailing white-space character keeps a string blank or not. */
  lemma BlankInit(s: string)
    requires s != [] && IsSpace(s[|s| - 1])
    ensures IsBlank(s[..|s| - 1]) <==> IsBlank(s)
  {
    if IsBlank(s[..|s| - 1]) {
      forall i | 0 <= i < |s| ensures IsSpace(s[i]) {
        if i < |s| - 1 { assert s[i] == s[..|s| - 1][i]; }
      }
    }
  }

  function TrimStart(s: string): (r: string)
    ensures |r| <= |s| && r == s[|s| - |r|..]
    ensures IsBlank(s[..|s| - |r|])
    ensures r != [] ==> !IsSpace(r[0])
    ensures r == [] <==> IsBlank(s)
  {
    if s == [] then []
    else if IsSpace(s[0]) then
      BlankTail(s);
      var r := TrimStart(s[1..]);
      assert s[..|s| - |r|] == [s[0]] + s[1..][..|s| - 1 - |r|];
      r
    else s
  }

  function TrimEnd(s: string): (r: string)
    ensures |r| <= |s| && r == s[..|r|]
    ensures IsBlank(s[|r|..])
    ensures r != [] ==> !IsSpace(r[|r| - 1])
    ensures r == [] <==> IsBlank(s)
  {
    if s == [] then []
    else if IsSpace(s[|s| - 1]) then
      BlankInit(s);
      var r := TrimEnd(s[..|s| - 1]);
      assert s[|r|..] == s[..|s| - 1][|r|..] + [s[|s| - 1]];
      r
    else s
  }

  /** `s.trim()`: the longest slice of `s` that neither starts nor ends with
      white space. */
  function Trim(s: string): (r: string)
    ensures |r| <= |s|
    ensures r == [] <==> IsBlank(s)
    ensures r != [] ==> !IsSpace(r[0]) && !IsSpace(r[|r| - 1])
    ensures exists i, j | 0 <= i <= j <= |s| :: r == s[i..j] && IsBlank(s[..i]) && IsBlank(s[j..])
  {
    var t := TrimStart(s);
    assert IsBlank(t) ==> t == [] by {
      if t != [] { assert !IsSpace(t[0]); }
    }
    var r := TrimEnd(t);
    var i := |s| - |t|;
    var j := i + |r|;
    assert r == s[i..j];
    assert s[j..] == t[|r|..];
    r
  }

  /** Trimming twice changes nothing more. */
  lemma {:induction false} TrimIdempotent(s: string)
    ensures Trim(Trim(s)) == Trim(s)
  {
    var t := Trim(s);
    assert TrimStart(t) == t;
    assert TrimEnd(t) == t;
  }

  function LowerChar(c: char): char {
    if 'A' <= c <= 'Z' then (c as int + 32) as char else c
  }

  /** `s.toLowerCase()` over the ASCII letters. */
  function ToLower(s: string): (r: string)
    ensures |r| == |s|
    ensures forall i | 0 <= i < |s| :: r[i] == LowerChar(s[i])
  {
    seq(|s|, i requires 0 <= i < |s| => LowerChar(s[i]))
  }

  /** `sub` occurs in `s` starting at position `i`. */
  predicate OccursAt(s: string, sub: string, i: int) {
    0 <= i <= |s| - |sub| && s[i..i + |sub|] == sub
  }

  /** `s.includes(sub)`. */
  predicate Contains(s: string, sub: string) {
    exists i | 0 <= i <= |s| - |sub| :: OccursAt(s, sub, i)
  }

  lemma ContainsEmpty(s: string)
    ensures Contains(s, "")
  {
    assert OccursAt(s, "", 0);
  }

  /** `s.startsWith(p)`. */
  predicate StartsWith(s: string, p: string) {
    |p| <= |s| && s[..|p|] == p
  }

  /** Decimal rendering of a natural number, as a template string shows it. */
  function NatToString(n: nat): (r: string)
    ensures |r| >= 1
    ensures forall i | 0 <= i < |r| :: '0' <= r[i] <= '9'
  {
    var d := [((n % 10) + '0' as int) as char];
    if n < 10 then d else NatToString(n / 10) + d
  }

  /** `n.toString()` for an integer. */
  function IntToString(n: int): (r: string)
    ensures |r| >= 1
  {
    if n < 0 then "-" + NatToString(-n) else NatToString(n)
  }

  predicate IsDigit(c: char) {
    '0' <= c <= '9'
  }

  predicate AllDigits(s: string) {
    forall i | 0 <= i < |s| :: IsDigit(s[i])
  }

  function DigitValue(c: char): nat {
    if IsDigit(c) then c as int - '0' as int else 0
  }

  /** The value of a run of decimal digits. */
  function DigitsValue(s: string): nat {
    if s == [] then 0 else DigitsValue(s[..|s| - 1]) * 10 + DigitValue(s[|s| - 1])
  }

  /** The length of the run of digits `s` starts with. */
  function DigitPrefix(s: string): (k: nat)
    ensures k <= |s|
  {
    if s == [] || !IsDigit(s[0]) then 0 else DigitPrefix(s[1..]) + 1
  }

  /** `t` without a leading `+` or `-`. */
  function SignFree(t: string): string {
    if t != [] && (t[0] == '-' || t[0] == '+') then t[1..] else t
  }

  function Signed(negative: bool, n: nat): int {
    if negative then -(n as int) else n
  }

  /** `Number.parseInt(s)`: leading white space, an optional sign, then the
      longest run of digits, whatever follows it; `None` (NaN) when no digit
      comes. */
  function ParseInt(s: string): (r: Option<int>)
    ensures r.None? <==> DigitPrefix(SignFree(TrimStart(s))) == 0
  {
    var t := TrimStart(s);
    var u := SignFree(t);
    var k := DigitPrefix(u);
    if k == 0 then None else Some(Signed(t != [] && t[0] == '-', DigitsValue(u[..k])))
  }

  /** `Number(s)` on the integer texts a form holds: blank is 0, an
      optionally signed run of digits with white space around it is its
      value, and anything else is `None` (NaN, or a form the model does not
      read: fractions, exponents, hexadecimal). */
  function NumberOf(s: string): (r: Option<int>)
    ensures IsBlank(s) ==> r == Some(0)
    ensures r.None? <==> !IsBlank(s) && !(SignFree(Trim(s)) != [] && AllDigits(SignFree(Trim(s))))
    ensures r.Some? && !IsBlank(s) ==>
      r.value == Signed(Trim(s)[0] == '-', DigitsValue(SignFree(Trim(s))))
  {
    var t := Trim(s);
    if t == [] then Some(0)
    else
      var u := SignFree(t);
      DigitPrefixAll(u);
      if u != [] && DigitPrefix(u) == |u| then Some(Signed(t[0] == '-', DigitsValue(u))) else None
  }

  /** The run of digits covers the whole text exactly when every character
      is a digit. */
  lemma {:induction false} DigitPrefixAll(s: string)
    ensures DigitPrefix(s) == |s| <==> AllDigits(s)
  {
    if s != [] {
      DigitPrefixAll(s[1..]);
      if IsDigit(s[0]) {
        assert AllDigits(s) <==> AllDigits(s[1..]) by {
          if AllDigits(s[1..]) {
            forall i | 0 <= i < |s| ensures IsDigit(s[i]) { if i > 0 { assert s[i] == s[1..][i - 1]; } }
          }
          if AllDigits(s) {
            forall i | 0 <= i < |s| - 1 ensures IsDigit(s[1..][i]) { assert s[1..][i] == s[i + 1]; }
          }
        }
      }
    }
  }

  lemma {:induction false} DigitsOfNat(n: nat)
    ensures AllDigits(NatToString(n)) && DigitsValue(NatToString(n)) == n
  {
    var s := NatToString(n);
    if n >= 10 {
      DigitsOfNat(n / 10);
      assert s[..|s| - 1] == NatToString(n / 10);
    }
  }

  lemma {:induction false} AllDigitsPrefix(s: string)
    requires AllDigits(s)
    ensures DigitPrefix(s) == |s|
  {
    if s != [] {
      assert AllDigits(s[1..]) by {
        forall i | 0 <= i < |s| - 1 ensures IsDigit(s[1..][i]) { assert s[1..][i] == s[i + 1]; }
      }
      AllDigitsPrefix(s[1..]);
    }
  }

  /** A string that neither starts nor ends with white space is its own trim. */
  lemma TrimNoSpace(s: string)
    requires s != [] && !IsSpace(s[0]) && !IsSpace(s[|s| - 1])
    ensures TrimStart(s) == s && Trim(s) == s
  {
  }

  lemma SignedDigitsShape(s: string, d: string, negative: bool)
    requires d != [] && AllDigits(d)
    requires s == (if negative then "-" else "") + d
    ensures Trim(s) == s && TrimStart(s) == s && s != [] && (s[0] == '-' <==> negative)
    ensures SignFree(s) == d && DigitPrefix(d) == |d|
  {
    assert s[0] == '-' || IsDigit(s[0]);
    assert s[|s| - 1] == d[|d| - 1];
    TrimNoSpace(s);
    AllDigitsPrefix(d);
  }

  /** `Number(String(n)) === n` for every integer. */
  lemma NumberOfIntToString(n: int)
    ensures NumberOf(IntToString(n)) == Some(n)
  {
    var m: nat := if n < 0 then -n else n;
    DigitsOfNat(m);
    SignedDigitsShape(IntToString(n), NatToString(m), n < 0);
  }

  /** `parseInt(String(n)) === n` for every natural number. */
  lemma ParseIntNatToString(n: nat)
    ensures ParseInt(NatToString(n)) == Some(n)
  {
    var s := NatToString(n);
    DigitsOfNat(n);
    SignedDigitsShape(s, s, false);
    assert s[..|s|] == s;
  }

  /* ---------------------------------------------------------------
     Sequences
     --------------------------------------------------------------- */

  function Sum(s: seq<int>): int {
    if s == [] then 0 else Sum(s[..|s| - 1]) + s[|s| - 1]
  }

  lemma {:induction false} SumConcat(a: seq<int>, b: seq<int>)
    ensures Sum(a + b) == Sum(a) + Sum(b)
  {
    if b == [] {
      assert a + b == a;
    } else {
      assert (a + b)[..|a + b| - 1] == a + b[..|b| - 1];
      SumConcat(a, b[..|b| - 1]);
    }
  }

  /** `s.filter(p)`: the elements satisfying `p`, in their original order. */
  function Filter<T(!new)>(s: seq<T>, p: T -> bool): (r: seq<T>)
    ensures |r| <= |s|
    ensures forall x :: x in r <==> x in s && p(x)
    ensures forall i | 0 <= i < |r| :: p(r[i])
  {
    if s == [] then []
    else (if p(s[0]) then [s[0]] else []) + Filter(s[1..], p)
  }

  /** Filtering distributes over concatenation, so it keeps the order. */
  lemma {:induction false} FilterConcat<T(!new)>(a: seq<T>, b: seq<T>, p: T -> bool)
    ensures Filter(a + b, p) == Filter(a, p) + Filter(b, p)
  {
    if a != [] {
      assert (a + b)[1..] == a[1..] + b;
      FilterConcat(a[1..], b, p);
    } else {
      assert a + b == b;
    }
  }

  /** A filter that every element passes returns the input unchanged. */
  lemma {:induction false} FilterAll<T(!new)>(s: seq<T>, p: T -> bool)
    requires forall i | 0 <= i < |s| :: p(s[i])
    ensures Filter(s, p) == s
  {
    if s != [] {
      FilterAll(s[1..], p);
    }
  }

  /** `a` is a subsequence of `b`: its elements occur in `b` in the same
      order (the greedy match, which finds one whenever one exists). */
  predicate IsSubseq<T(==)>(a: seq<T>, b: seq<T>)
    decreases |b|
  {
    if a == [] then true
    else if b == [] then false
    else if a[0] == b[0] then IsSubseq(a[1..], b[1..])
    else IsSubseq(a, b[1..])
  }

  lemma {:induction false} SubseqDropHead<T>(a: seq<T>, c: seq<T>)
    requires a != [] && IsSubseq(a, c)
    ensures IsSubseq(a[1..], c)
    decreases |c|, 1
  {
    if a[0] == c[0] {
      SubseqSkip(a[1..], c);
    } else {
      SubseqDropHead(a, c[1..]);
      SubseqSkip(a[1..], c);
    }
  }

  /** A subsequence of the tail is a subsequence of the whole. */
  lemma {:induction false} SubseqSkip<T>(x: seq<T>, c: seq<T>)
    requires c != [] && IsSubseq(x, c[1..])
    ensures IsSubseq(x, c)
    decreases |c|, 0
  {
    if x != [] && x[0] == c[0] {
      SubseqDropHead(x, c[1..]);
    }
  }

  /** A filter returns a subsequence of its input. */
  lemma {:induction false} FilterIsSubseq<T(!new)>(s: seq<T>, p: T -> bool)
    ensures IsSubseq(Filter(s, p), s)
  {
    if s != [] {
      FilterIsSubseq(s[1..], p);
      var f := Filter(s, p);
      if p(s[0]) {
        assert f[0] == s[0] && f[1..] == Filter(s[1..], p);
      } else {
        assert f == Filter(s[1..], p);
        SubseqSkip(f, s);
      }
    }
  }

  /** Two filters in a row are one filter by the conjunction. */
  lemma {:induction false} FilterFilter<T(!new)>(s: seq<T>, p: T -> bool, q: T -> bool, pq: T -> bool)
    requires forall x | x in s :: pq(x) == (p(x) && q(x))
    ensures Filter(Filter(s, p), q) == Filter(s, pq)
  {
    if s != [] {
      FilterFilter(s[1..], p, q, pq);
      var f := Filter(s, p);
      if p(s[0]) {
        assert f[0] == s[0] && f[1..] == Filter(s[1..], p);
      } else {
        assert f == Filter(s[1..], p);
      }
    }
  }

  /** A predicate and its negation split a list between them. */
  lemma {:induction false} FilterPartition<T(!new)>(s: seq<T>, p: T -> bool, q: T -> bool)
    requires forall x :: q(x) == !p(x)
    ensures |Filter(s, p)| + |Filter(s, q)| == |s|
  {
    if s != [] {
      FilterPartition(s[1..], p, q);
    }
  }

  predicate NoDuplicates<T(==)>(s: seq<T>) {
    forall i, j | 0 <= i < j < |s| :: s[i] != s[j]
  }

  /** `Array.from(new Set(s))`: each distinct element once, in the order of
      its first occurrence. */
  function Dedup<T(==,!new)>(s: seq<T>): (r: seq<T>)
    ensures forall x :: x in r <==> x in s
    ensures NoDuplicates(r)
    ensures |r| <= |s|
  {
    if s == [] then []
    else
      var d := Dedup(s[..|s| - 1]);
      var x := s[|s| - 1];
      assert forall y :: y in s <==> y in s[..|s| - 1] || y == x by {
        assert s == s[..|s| - 1] + [x];
      }
      if x in d then d else d + [x]
  }

  /** `s.slice(0, n)`. */
  function Take<T>(s: seq<T>, n: nat): (r: seq<T>)
    ensures |r| <= n && |r| <= |s|
    ensures r == s[..|r|]
    ensures |s| <= n ==> r == s
  {
    if |s| <= n then s else s[..n]
  }

  /** `s.filter((_, j) => j !== i)`: drop position `i`, keep everything else
      in order; an index outside the list removes nothing. */
  function RemoveAt<T>(s: seq<T>, i: int): (r: seq<T>)
    ensures 0 <= i < |s| ==> |r| == |s| - 1
    ensures 0 <= i < |s| ==> forall j | 0 <= j < |r| :: r[j] == if j < i then s[j] else s[j + 1]
    ensures !(0 <= i < |s|) ==> r == s
  {
    if 0 <= i < |s| then s[..i] + s[i + 1..] else s
  }

  /* ---------------------------------------------------------------
     Stable descending sort: `s.sort((a, b) => key(b) - key(a))`
     --------------------------------------------------------------- */

  predicate SortedDesc<T>(s: seq<T>, key: T -> int) {
    forall i, j | 0 <= i < j < |s| :: key(s[i]) >= key(s[j])
  }

  /** Every element of `t`, a permutation of `s[1..]` plus `x`, is bounded
      by the head of the sorted list `s` when `x` is. */
  lemma HeadBoundsInsert<T>(x: T, s: seq<T>, t: seq<T>, key: T -> int)
    requires SortedDesc(s, key) && s != [] && key(s[0]) >= key(x)
    requires multiset(t) == multiset(s[1..]) + multiset{x}
    ensures forall j | 0 <= j < |t| :: key(s[0]) >= key(t[j])
  {
    forall j | 0 <= j < |t| ensures key(s[0]) >= key(t[j]) {
      assert t[j] in multiset(t);
      if t[j] != x {
        assert t[j] in multiset(s[1..]);
        var k :| 0 <= k < |s[1..]| && s[1..][k] == t[j];
        assert s[k + 1] == t[j];
      }
    }
  }

  /** A head bounding every element of a sorted tail gives a sorted list. */
  lemma ConsSorted<T>(h: T, t: seq<T>, key: T -> int)
    requires SortedDesc(t, key)
    requires forall j | 0 <= j < |t| :: key(h) >= key(t[j])
    ensures SortedDesc([h] + t, key)
  {
    var r := [h] + t;
    forall i, j | 0 <= i < j < |r| ensures key(r[i]) >= key(r[j]) {
      assert r[j] == t[j - 1];
      if i > 0 { assert r[i] == t[i - 1]; }
    }
  }

  /** Puts `x` after every element whose key is at least its own, which is
      what makes the sort stable. */
  function InsertDesc<T>(x: T, s: seq<T>, key: T -> int): (r: seq<T>)
    requires SortedDesc(s, key)
    ensures |r| == |s| + 1
    ensures multiset(r) == multiset(s) + multiset{x}
    ensures SortedDesc(r, key)
  {
    if s == [] then [x]
    else if key(s[0]) >= key(x) then
      var t := InsertDesc(x, s[1..], key);
      HeadBoundsInsert(x, s, t, key);
      assert s == [s[0]] + s[1..];
      ConsSorted(s[0], t, key);
      [s[0]] + t
    else
      ConsSorted(x, s, key);
      [x] + s
  }

  /** Array.prototype.sort with a descending comparator (stable since
      ES2019): a sorted permutation of the input. */
  function SortDesc<T>(s: seq<T>, key: T -> int): (r: seq<T>)
    ensures |r| == |s|
    ensures multiset(r) == multiset(s)
    ensures SortedDesc(r, key)
  {
    if s == [] then []
    else
      assert s == s[..|s| - 1] + [s[|s| - 1]];
      InsertDesc(s[|s| - 1], SortDesc(s[..|s| - 1], key), key)
  }

  /** The first `n` elements of a sorted list are sorted and come from it. */
  lemma TopSorted<T>(s: seq<T>, key: T -> int, n: nat)
    requires SortedDesc(s, key)
    ensures SortedDesc(Take(s, n), key)
    ensures |Take(s, n)| == if |s| <= n then |s| else n
  {
  }
}
