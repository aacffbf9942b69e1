/**
 * The JavaScript built-ins that the two form components rely on, restated
 * on Dafny values:
 *  - Number.prototype.toString() on the non-negative integers Date.now() yields,
 *  - String.prototype.split with the one-character separator ",",
 *  - String.prototype.trim,
 *  - Array.prototype.splice(start, 1).
 */
module JsBuiltins {

  datatype Option<+T> = None | Some(value: T)

  // ---------------------------------------------------------------------
  // Number.prototype.toString() in radix 10
  // ---------------------------------------------------------------------

  predicate IsDigit(c: char) {
    '0' <= c <= '9'
  }

  predicate AllDigits(s: string) {
    forall k :: 0 <= k < |s| ==> IsDigit(s[k])
  }

  function DigitChar(d: nat): (c: char)
    requires d < 10
    ensures IsDigit(c) && c as int - '0' as int == d
  {
    (d + '0' as int) as char
  }

  /** The decimal rendering of `n`: digits only, never empty, and no leading zero. */
  function NumberToString(n: nat): (s: string)
    ensures |s| >= 1 && AllDigits(s)
    ensures s[0] == '0' <==> n == 0
    ensures |s| > 1 ==> s[0] != '0'
    decreases n
  {
    if n < 10 then [DigitChar(n)] else NumberToString(n / 10) + [DigitChar(n % 10)]
  }

  /** The value a string of decimal digits denotes (the reference reading of a rendering). */
  function DecimalValue(s: string): nat
    requires AllDigits(s)
  {
    if s == [] then 0 else 10 * DecimalValue(s[..|s| - 1]) + (s[|s| - 1] as int - '0' as int)
  }

  lemma {:induction false} DecimalValueOfNumberToString(n: nat)
    ensures DecimalValue(NumberToString(n)) == n
    decreases n
  {
    if n >= 10 {
      DecimalValueOfNumberToString(n / 10);
      var s := NumberToString(n);
      assert s[..|s| - 1] == NumberToString(n / 10);
    }
  }

  /** Two timestamps render to the same string exactly when they are equal. */
  lemma NumberToStringInjective(a: nat, b: nat)
    ensures NumberToString(a) == NumberToString(b) <==> a == b
  {
    DecimalValueOfNumberToString(a);
    DecimalValueOfNumberToString(b);
  }

  // ---------------------------------------------------------------------
  // String.prototype.split(",") and its inverse, Array.prototype.join(",")
  // ---------------------------------------------------------------------

  /**
   * The pieces between the commas of `s`, in order of appearance. There is
   * always one piece more than there are commas, so "" splits into [""].
   */
  function Split(s: string): (parts: seq<string>)
    ensures |parts| >= 1
    ensures forall i :: 0 <= i < |parts| ==> ',' !in parts[i]
    decreases |s|
  {
    if s == [] then [""]
    else
      var rest := Split(s[1..]);
      if s[0] == ',' then [""] + rest
      else [[s[0]] + rest[0]] + rest[1..]
  }

  /** There is one piece more than there are commas. */
  lemma {:induction false} SplitCount(s: string)
    ensures |Split(s)| == multiset(s)[','] + 1
    decreases |s|
  {
    if s != [] {
      SplitCount(s[1..]);
      assert s == [s[0]] + s[1..];
    }
  }

  /** The pieces glued back together with a comma between neighbours. */
  function Join(parts: seq<string>): string
    requires |parts| >= 1
  {
    if |parts| == 1 then parts[0] else parts[0] + "," + Join(parts[1..])
  }

  lemma {:induction false} JoinConsHead(c: char, parts: seq<string>)
    requires |parts| >= 1
    ensures Join([[c] + parts[0]] + parts[1..]) == [c] + Join(parts)
  {
    var q := [[c] + parts[0]] + parts[1..];
    assert q[1..] == parts[1..];
  }

  /** Joining the pieces of a split gives back the input exactly. */
  lemma {:induction false} JoinSplit(s: string)
    ensures Join(Split(s)) == s
    decreases |s|
  {
    if s != [] {
      JoinSplit(s[1..]);
      JoinSplitStep(s);
    }
  }

  /** One step of JoinSplit: the first character goes back in front of the first piece, or is the first comma. */
  lemma JoinSplitStep(s: string)
    requires s != [] && Join(Split(s[1..])) == s[1..]
    ensures Join(Split(s)) == s
  {
    var rest := Split(s[1..]);
    if s[0] == ',' {
      var parts := [""] + rest;
      assert Split(s) == parts && parts[1..] == rest;
      assert Join(parts) == "" + "," + Join(rest);
      assert "" + "," + s[1..] == s;
    } else {
      assert Split(s) == [[s[0]] + rest[0]] + rest[1..];
      JoinConsHead(s[0], rest);
      assert [s[0]] + s[1..] == s;
    }
  }

  /** A comma-free prefix joins the first piece of what follows it. */
  lemma {:induction false} SplitNoComma(p: string, rest: string)
    requires ',' !in p
    ensures Split(p + rest) == [p + Split(rest)[0]] + Split(rest)[1..]
    decreases |p|
  {
    var r := Split(rest);
    if p == [] {
      assert p + rest == rest && p + r[0] == r[0];
      assert r == [r[0]] + r[1..];
    } else {
      var q := p + rest;
      assert q[1..] == p[1..] + rest;
      SplitNoComma(p[1..], rest);
      SplitNoCommaStep(p, rest, r);
    }
  }

  /** One step of SplitNoComma: the first character of `p` is prepended to the first piece. */
  lemma SplitNoCommaStep(p: string, rest: string, r: seq<string>)
    requires p != [] && ',' !in p && r == Split(rest)
    requires Split(p[1..] + rest) == [p[1..] + r[0]] + r[1..]
    ensures Split(p + rest) == [p + r[0]] + r[1..]
  {
    var q := p + rest;
    assert q[0] == p[0] && q[1..] == p[1..] + rest;
    var tail := Split(q[1..]);
    assert Split(q) == [[p[0]] + tail[0]] + tail[1..];
    assert [p[0]] + (p[1..] + r[0]) == ([p[0]] + p[1..]) + r[0];
    assert [p[0]] + p[1..] == p;
  }

  lemma SplitAfterPiece(head: string, tail: string)
    requires ',' !in head
    ensures Split(head + "," + tail) == [head] + Split(tail)
  {
    var sepTail := "," + tail;
    assert sepTail[1..] == tail;
    var pieces := Split(sepTail);
    assert pieces == [""] + Split(tail);
    assert head + "," + tail == head + sepTail;
    SplitNoComma(head, sepTail);
    assert head + pieces[0] == head;
  }

  /** Splitting a join of comma-free pieces gives back the pieces. */
  lemma {:induction false} SplitJoin(parts: seq<string>)
    requires |parts| >= 1
    requires forall i :: 0 <= i < |parts| ==> ',' !in parts[i]
    ensures Split(Join(parts)) == parts
    decreases |parts|
  {
    if |parts| == 1 {
      SplitNoComma(parts[0], "");
      assert parts[0] + "" == parts[0];
    } else {
      SplitJoin(parts[1..]);
      SplitAfterPiece(parts[0], Join(parts[1..]));
      assert parts == [parts[0]] + parts[1..];
    }
  }

  // ---------------------------------------------------------------------
  // String.prototype.trim
  // ---------------------------------------------------------------------

  /**
   * ECMAScript's WhiteSpace and LineTerminator code points: tab, line feed,
   * vertical tab, form feed, carriage return, space, no-break space, the
   * other space separators of category Zs, the line and paragraph
   * separators, and the byte-order mark.
   */
  predicate IsWhitespace(c: char) {
    var u := c as int;
    (0x09 <= u <= 0x0D) || u == 0x20 ||
    (u >= 0xA0 &&
      (u == 0xA0 || u == 0x1680 || (0x2000 <= u <= 0x200A) || u == 0x2028 || u == 0x2029 ||
       u == 0x202F || u == 0x205F || u == 0x3000 || u == 0xFEFF))
  }

  predicate AllWhitespace(s: string) {
    forall k :: 0 <= k < |s| ==> IsWhitespace(s[k])
  }

  /** Neither end of `t` is whitespace. */
  predicate Trimmed(t: string) {
    t == [] || (!IsWhitespace(t[0]) && !IsWhitespace(t[|t| - 1]))
  }

  /** `t` is the slice of `s` starting at `i`, with only whitespace before and after it. */
  ghost predicate SliceBetweenWhitespace(s: string, i: nat, t: string) {
    i + |t| <= |s| && t == s[i..i + |t|] && AllWhitespace(s[..i]) && AllWhitespace(s[i + |t|..])
  }

  /** Whitespace runs concatenate to a whitespace run. */
  lemma AllWhitespaceAppend(a: string, b: string)
    requires AllWhitespace(a) && AllWhitespace(b)
    ensures AllWhitespace(a + b)
  {
    forall k | 0 <= k < |a + b| ensures IsWhitespace((a + b)[k]) {
      if k < |a| { assert (a + b)[k] == a[k]; } else { assert (a + b)[k] == b[k - |a|]; }
    }
  }

  /** Cutting `s` at `m` is cutting its tail at `m - 1`, with the first element in front. */
  lemma SlicesOfTail<T>(s: seq<T>, m: nat)
    requires 1 <= m <= |s|
    ensures s[1..][m - 1..] == s[m..] && s[..m] == [s[0]] + s[1..][..m - 1]
  {
  }

  function TrimStart(s: string): (t: string)
    ensures |t| <= |s| && t == s[|s| - |t|..]
    ensures AllWhitespace(s[..|s| - |t|])
    ensures t == [] || !IsWhitespace(t[0])
    decreases |s|
  {
    if s != [] && IsWhitespace(s[0]) then
      var rest := s[1..];
      var t := TrimStart(rest);
      SlicesOfTail(s, |s| - |t|);
      AllWhitespaceAppend([s[0]], rest[..|rest| - |t|]);
      t
    else
      assert s[..0] == [];
      s
  }

  function TrimEnd(s: string): (t: string)
    ensures |t| <= |s| && t == s[..|t|]
    ensures AllWhitespace(s[|t|..])
    ensures t == [] || !IsWhitespace(t[|t| - 1])
    decreases |s|
  {
    if s != [] && IsWhitespace(s[|s| - 1]) then
      var init := s[..|s| - 1];
      var t := TrimEnd(init);
      assert init[..|t|] == s[..|t|];
      assert s[|t|..] == init[|t|..] + [s[|s| - 1]];
      AllWhitespaceAppend(init[|t|..], [s[|s| - 1]]);
      t
    else
      assert s[|s|..] == [];
      s
  }

  /** Whitespace, then `t`, then whitespace, read off a suffix `u` of `s` that `t` begins. */
  lemma PrefixOfSuffix(s: string, i: nat, u: string, t: string)
    requires i <= |s| && u == s[i..] && AllWhitespace(s[..i])
    requires |t| <= |u| && t == u[..|t|] && AllWhitespace(u[|t|..])
    ensures SliceBetweenWhitespace(s, i, t)
  {
    assert u[|t|..] == s[i + |t|..];
  }

  /**
   * `s` without its leading and trailing whitespace: a slice of `s` whose
   * ends are not whitespace and outside which there is only whitespace.
   */
  function Trim(s: string): (t: string)
    ensures Trimmed(t)
    ensures SliceBetweenWhitespace(s, |s| - |TrimStart(s)|, t)
  {
    TrimCut(s);
    TrimEnd(TrimStart(s))
  }

  /** Trimming the start, then the end, leaves a slice with whitespace on both sides. */
  lemma TrimCut(s: string)
    ensures SliceBetweenWhitespace(s, |s| - |TrimStart(s)|, TrimEnd(TrimStart(s)))
  {
    var u := TrimStart(s);
    PrefixOfSuffix(s, |s| - |u|, u, TrimEnd(u));
  }

  /** At most one index has only whitespace before it and a non-whitespace character (or the end) at it. */
  lemma StartBoundaryUnique(s: string, i: nat, j: nat)
    requires i <= |s| && j <= |s|
    requires AllWhitespace(s[..i]) && (i == |s| || !IsWhitespace(s[i]))
    requires AllWhitespace(s[..j]) && (j == |s| || !IsWhitespace(s[j]))
    ensures i == j
  {
  }

  /** At most one index has only whitespace after it and a non-whitespace character (or the start) before it. */
  lemma EndBoundaryUnique(s: string, i: nat, j: nat)
    requires i <= |s| && j <= |s|
    requires AllWhitespace(s[i..]) && (i == 0 || !IsWhitespace(s[i - 1]))
    requires AllWhitespace(s[j..]) && (j == 0 || !IsWhitespace(s[j - 1]))
    ensures i == j
  {
  }

  /** Where Trim cuts `s`: whitespace before the start, a non-whitespace character (or the end) at it. */
  lemma TrimStartBoundary(s: string)
    ensures var i := |s| - |TrimStart(s)|;
      AllWhitespace(s[..i]) && (i == |s| || !IsWhitespace(s[i]))
  {
    var u := TrimStart(s);
    var i := |s| - |u|;
    if i < |s| {
      assert u[0] == s[i];
    }
  }

  /** A string of whitespace trims to the empty string. */
  lemma TrimAllWhitespace(s: string)
    requires AllWhitespace(s)
    ensures Trim(s) == []
  {
    TrimStartBoundary(s);
    assert s[..|s|] == s;
    StartBoundaryUnique(s, |s| - |TrimStart(s)|, |s|);
  }

  /** Two non-empty trimmed slices starting at the same index, each with only whitespace after it, are equal. */
  lemma SameStartSameSlice(s: string, i: nat, t: string, r: string)
    requires SliceBetweenWhitespace(s, i, t) && Trimmed(t) && t != []
    requires SliceBetweenWhitespace(s, i, r) && Trimmed(r)
    ensures t == r
  {
    if r == [] {
      assert false;
    }
    var e, e' := i + |t|, i + |r|;
    assert s[e - 1] == t[|t| - 1] && s[e' - 1] == r[|r| - 1];
    EndBoundaryUnique(s, e, e');
  }

  /**
   * Trim is the only trimmed slice with whitespace around it: any other
   * description of the same cut agrees with it.
   */
  lemma {:induction false} TrimUnique(s: string, i: nat, t: string)
    requires SliceBetweenWhitespace(s, i, t) && Trimmed(t)
    ensures t == Trim(s)
  {
    if t == [] {
      assert s == s[..i] + s[i + |t|..];
      AllWhitespaceAppend(s[..i], s[i + |t|..]);
      TrimAllWhitespace(s);
    } else {
      TrimStartBoundary(s);
      assert t[0] == s[i];
      StartBoundaryUnique(s, i, |s| - |TrimStart(s)|);
      SameStartSameSlice(s, i, t, Trim(s));
    }
  }

  /** Trimming twice is trimming once. */
  lemma TrimIdempotent(s: string)
    ensures Trim(Trim(s)) == Trim(s)
  {
    var t := Trim(s);
    assert t[0..0 + |t|] == t && t[..0] == [] && t[0 + |t|..] == [];
    TrimUnique(t, 0, t);
  }

  // ---------------------------------------------------------------------
  // Array.prototype.splice(start, 1)
  // ---------------------------------------------------------------------

  /** Where splice starts on an array of `len` elements: a negative start counts from the end; both ends clamp. */
  function SpliceStart(start: int, len: nat): (k: nat)
    ensures k <= len
    ensures 0 <= start <= len ==> k == start
    ensures start < 0 && 0 <= start + len ==> k == len + start
    ensures start + len < 0 ==> k == 0
    ensures start > len ==> k == len
  {
    if start < 0 then (if len + start < 0 then 0 else len + start)
    else if start > len then len
    else start
  }

  /**
   * The array left behind by `splice(start, 1)`: the element at the clamped
   * start is removed and the rest keep their relative order; a start at or
   * past the end removes nothing.
   */
  function SpliceOne<T>(s: seq<T>, start: int): (r: seq<T>)
    ensures |r| == if s != [] && start < |s| then |s| - 1 else |s|
    ensures start >= |s| ==> r == s
    ensures 0 <= start < |s| ==> (forall j :: 0 <= j < start ==> r[j] == s[j])
    ensures 0 <= start < |s| ==> (forall j :: start <= j < |r| ==> r[j] == s[j + 1])
    ensures 0 <= start < |s| ==> multiset(r) + multiset{s[start]} == multiset(s)
    ensures -|s| <= start < 0 ==> r == s[..|s| + start] + s[|s| + start + 1..]
    ensures start < -|s| && s != [] ==> r == s[1..]
  {
    var k := SpliceStart(start, |s|);
    if k < |s| then
      assert s == s[..k] + [s[k]] + s[k + 1..];
      s[..k] + s[k + 1..]
    else s
  }

  /**
   * The in-place work of splice(k, 1): every element after index `k` moves
   * one place left, so the first Length - 1 elements are the array without
   * its element at `k`. The last slot keeps its old value.
   */
  method ShiftLeftFrom<T>(a: array<T>, k: nat)
    requires k < a.Length
    modifies a
    ensures a[..a.Length - 1] == old(a[..k]) + old(a[k + 1..])
  {
    var i := k;
    while i < a.Length - 1
      invariant k <= i <= a.Length - 1
      invariant forall j :: 0 <= j < k ==> a[j] == old(a[j])
      invariant forall j :: k <= j < i ==> a[j] == old(a[j + 1])
      invariant forall j :: i <= j < a.Length ==> a[j] == old(a[j])
    {
      a[i] := a[i + 1];
      i := i + 1;
    }
  }
}
