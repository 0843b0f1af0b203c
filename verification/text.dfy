/** String operations of the source that several modules need. */
module Text {
  import opened Common

  function IndexOfChar(s: string, c: char): (i: nat)
    ensures i <= |s|
    ensures i < |s| ==> s[i] == c
    ensures forall j :: 0 <= j < i ==> s[j] != c
  {
    if s == "" || s[0] == c then 0 else 1 + IndexOfChar(s[1..], c)
  }

  /** `s.split(c)` for a separator of one character. */
  function Split(s: string, c: char): (r: seq<string>)
    ensures |r| >= 1
    decreases |s|
  {
    var i := IndexOfChar(s, c);
    if i == |s| then [s] else [s[..i]] + Split(s[i + 1..], c)
  }

  /** `parts.join(c)` for a separator of one character. */
  function Join(parts: seq<string>, c: char): (r: string) {
    if parts == [] then ""
    else if |parts| == 1 then parts[0]
    else parts[0] + [c] + Join(parts[1..], c)
  }

  lemma {:induction false} IndexAfter(p: string, c: char, rest: string)
    requires c !in p
    ensures IndexOfChar(p + rest, c) == |p| + IndexOfChar(rest, c)
  {
    if p != "" {
      assert (p + rest)[1..] == p[1..] + rest;
      IndexAfter(p[1..], c, rest);
    } else {
      assert p + rest == rest;
    }
  }

  /** Splitting undoes joining when no part holds the separator. */
  lemma {:induction false} SplitJoin(parts: seq<string>, c: char)
    requires parts != [] && forall p :: p in parts ==> c !in p
    ensures Split(Join(parts, c), c) == parts
  {
    assert parts[0] in parts;
    if |parts| == 1 {
      IndexAfter(parts[0], c, "");
      assert parts[0] + "" == parts[0];
      assert parts == [parts[0]];
    } else {
      var rest := Join(parts[1..], c);
      var s := parts[0] + [c] + rest;
      assert s == parts[0] + ([c] + rest);
      IndexAfter(parts[0], c, [c] + rest);
      assert s[..|parts[0]|] == parts[0] && s[|parts[0]| + 1..] == rest;
      SplitJoin(parts[1..], c);
      assert parts == [parts[0]] + parts[1..];
    }
  }

  /** Two texts cut at the first separator agree before and after it. */
  lemma {:induction false} CutAt(c: char, x: string, restX: string, y: string, restY: string)
    requires c !in x && c !in y && x + ([c] + restX) == y + ([c] + restY)
    ensures x == y && restX == restY
  {
    IndexAfter(x, c, [c] + restX);
    IndexAfter(y, c, [c] + restY);
    var s := x + ([c] + restX);
    assert x == s[..|x|] && y == s[..|y|];
    assert restX == s[|x| + 1..] && restY == s[|y| + 1..];
  }

  /** White space of JavaScript. */
  predicate IsSpace(c: char) {
    c in {' ', '\t', '\n', '\U{b}', '\U{c}', '\r', '\U{a0}',
           '\U{1680}', '\U{2028}', '\U{2029}', '\U{202f}', '\U{205f}', '\U{3000}', '\U{feff}'}
    || '\U{2000}' <= c <= '\U{200a}'
  }

  /** `s.trim()`. */
  function Trim(s: string): (r: string)
    ensures r == "" || (!IsSpace(r[0]) && !IsSpace(r[|r| - 1]))
    ensures r == "" <==> forall c :: c in s ==> IsSpace(c)
  {
    if s == "" then s
    else if IsSpace(s[0]) then Trim(s[1..])
    else if IsSpace(s[|s| - 1]) then Trim(s[..|s| - 1])
    else s
  }

  predicate Blank(s: string) { forall c :: c in s ==> IsSpace(c) }

  /** Trimming cuts the white space at both ends and nothing else. */
  lemma {:induction false} TrimCuts(a: string, m: string, b: string)
    requires Blank(a) && Blank(b) && m != "" && !IsSpace(m[0]) && !IsSpace(m[|m| - 1])
    ensures Trim(a + m + b) == m
    decreases |a| + |b|
  {
    var s := a + m + b;
    if a != "" {
      assert s[0] == a[0] && s[1..] == a[1..] + m + b;
      TrimCuts(a[1..], m, b);
    } else if b != "" {
      assert s[0] == m[0] && s[|s| - 1] == b[|b| - 1] && s[..|s| - 1] == a + m + b[..|b| - 1];
      TrimCuts(a, m, b[..|b| - 1]);
    } else {
      assert s == m;
    }
  }

  lemma {:induction false} CutAfter(head: string, c: char, x: string, restX: string, y: string, restY: string)
    requires c !in x && c !in y && head + (x + ([c] + restX)) == head + (y + ([c] + restY))
    ensures x == y && restX == restY
  {
    var s, t := x + ([c] + restX), y + ([c] + restY);
    assert (head + s)[|head|..] == s && (head + t)[|head|..] == t;
    CutAt(c, x, restX, y, restY);
  }

  function LowerChar(c: char): (r: char) {
    if 'A' <= c <= 'Z' then (c as int - 'A' as int + 'a' as int) as char else c
  }

  function Lower(s: string): (r: string)
    ensures |r| == |s|
    ensures forall i :: 0 <= i < |s| ==> r[i] == LowerChar(s[i])
  {
    seq(|s|, i requires 0 <= i < |s| => LowerChar(s[i]))
  }

  predicate IsDigit(c: char) { '0' <= c <= '9' }

  function DigitValue(c: char): (v: nat)
    requires IsDigit(c)
  {
    c as int - '0' as int
  }

  predicate AllDigits(s: string) { forall c :: c in s ==> IsDigit(c) }

  function DigitChar(v: nat): (c: char)
    requires v < 10
    ensures IsDigit(c) && DigitValue(c) == v
  {
    (v + '0' as int) as char
  }

  /** The number a run of decimal digits stands for. */
  function Decimal(s: string): (n: nat)
    requires AllDigits(s)
  {
    if s == "" then 0 else 10 * Decimal(s[..|s| - 1]) + DigitValue(s[|s| - 1])
  }

  /** A number printed in decimal, without leading zeros. */
  function Print(n: nat): (s: string)
    ensures s != "" && AllDigits(s)
  {
    if n < 10 then [DigitChar(n)] else Print(n / 10) + [DigitChar(n % 10)]
  }

  /** Reading a printed number gives it back, so no two numbers print alike. */
  lemma {:induction false} DecimalPrint(n: nat)
    ensures Decimal(Print(n)) == n
  {
    if n < 10 {
      assert [DigitChar(n)][..0] == "";
    } else {
      DecimalPrint(n / 10);
      var s := Print(n / 10) + [DigitChar(n % 10)];
      assert s[..|s| - 1] == Print(n / 10);
    }
  }

  function Pow10(n: nat): (r: nat)
    ensures r >= 1
  {
    if n == 0 then 1 else 10 * Pow10(n - 1)
  }

  lemma {:induction false} DecimalAppend(a: string, b: string)
    requires AllDigits(a) && AllDigits(b)
    ensures AllDigits(a + b) && Decimal(a + b) == Decimal(a) * Pow10(|b|) + Decimal(b)
  {
    if b == "" {
      assert a + b == a;
    } else {
      var n := |b| - 1;
      assert (a + b)[..|a + b| - 1] == a + b[..n];
      DecimalAppend(a, b[..n]);
      assert (a + b)[|a + b| - 1] == b[n];
      assert AllDigits([b[n]]) && forall c :: c in a + b ==> c in a || c in b;
      ShiftLeft(Decimal(a), Pow10(n), Pow10(|b|), Decimal(b[..n]));
    }
  }

  lemma {:induction false} ShiftLeft(x: nat, p: nat, q: nat, y: nat)
    requires q == 10 * p
    ensures 10 * (x * p + y) == x * q + 10 * y
  {
    assert x * q == x * (10 * p) == 10 * (x * p);
  }

  lemma {:induction false} DecimalBound(s: string)
    requires AllDigits(s)
    ensures Decimal(s) < Pow10(|s|)
  {
    if s != "" {
      assert s[|s| - 1] in s;
      DecimalBound(s[..|s| - 1]);
    }
  }

  /** A printed number has at most as many digits as its size allows. */
  lemma {:induction false} PrintLength(n: nat, digits: nat)
    requires digits >= 1
    ensures |Print(n)| <= digits <==> n < Pow10(digits)
  {
    if digits == 1 || n < 10 {
      assert Pow10(1) == 10;
      Pow10Grows(1, digits);
    } else {
      PrintLength(n / 10, digits - 1);
    }
  }

  lemma {:induction false} Pow10Grows(a: nat, b: nat)
    requires a <= b
    ensures Pow10(a) <= Pow10(b)
  {
    if a < b {
      Pow10Grows(a, b - 1);
    }
  }
}
