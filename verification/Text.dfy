/** String operations of the Go standard library that the modelled code relies on, on sequences of
    Unicode characters, with the facts about joining, splitting and decimal rendering used elsewhere. */
module Text {

  datatype Option<+T> = None | Some(value: T)

  /** White space as `strings.TrimSpace` sees it (the Unicode White_Space property). */
  predicate IsSpace(c: char) {
    '\t' <= c <= '\r' || c == ' ' || c == '\U{85}' || c == '\U{A0}' || c == '\U{1680}'
    || '\U{2000}' <= c <= '\U{200A}' || c == '\U{2028}' || c == '\U{2029}' || c == '\U{202F}'
    || c == '\U{205F}' || c == '\U{3000}'
  }

  /** The 25 characters of the property by number. */
  lemma WhiteSpaceTable(c: char)
    ensures IsSpace(c) <==> c as int in {
      9, 10, 11, 12, 13, 32, 133, 160, 5760, 8192, 8193, 8194, 8195, 8196, 8197, 8198, 8199, 8200, 8201, 8202, 8232,
      8233, 8239, 8287, 12288}
  {}

  function TrimLeft(s: string): string {
    if s != [] && IsSpace(s[0]) then TrimLeft(s[1..]) else s
  }

  function TrimRight(s: string): string {
    if s != [] && IsSpace(s[|s| - 1]) then TrimRight(s[..|s| - 1]) else s
  }

  function TrimSpace(s: string): string {
    TrimRight(TrimLeft(s))
  }

  lemma {:induction false} TrimmedLeft(s: string)
    ensures var r := TrimLeft(s); |r| <= |s| && (r == "" || !IsSpace(r[0]))
  {
    if s != [] && IsSpace(s[0]) { TrimmedLeft(s[1..]); }
  }

  lemma {:induction false} TrimmedRight(s: string)
    ensures var r := TrimRight(s); r <= s && (r == "" || !IsSpace(r[|r| - 1]))
  {
    if s != [] && IsSpace(s[|s| - 1]) { TrimmedRight(s[..|s| - 1]); }
  }

  /** Trimming again changes nothing. */
  lemma TrimTwice(s: string)
    ensures TrimSpace(TrimSpace(s)) == TrimSpace(s)
  {
    TrimmedLeft(s);
    TrimmedRight(TrimLeft(s));
  }

  predicate HasPrefix(s: string, p: string) {
    p <= s
  }

  predicate HasSuffix(s: string, p: string) {
    |p| <= |s| && s[|s| - |p|..] == p
  }

  function TrimSuffix(s: string, p: string): string {
    if HasSuffix(s, p) then s[..|s| - |p|] else s
  }

  predicate ContainsAny(s: string, chars: string) {
    exists i | 0 <= i < |s| :: s[i] in chars
  }

  predicate Contains(s: string, sub: string) {
    exists i | 0 <= i <= |s| - |sub| :: HasPrefix(s[i..], sub)
  }

  /** `strings.Join`. */
  function Join(parts: seq<string>, sep: string): string {
    if |parts| == 0 then ""
    else if |parts| == 1 then parts[0]
    else parts[0] + sep + Join(parts[1..], sep)
  }

  /** Puts a character at the front of the first part. */
  function PrependTo(x: char, parts: seq<string>): (r: seq<string>)
    requires |parts| >= 1
    ensures |r| == |parts|
  {
    [[x] + parts[0]] + parts[1..]
  }

  /** `strings.Split` on a single character. */
  function Split(s: string, c: char): (parts: seq<string>)
    ensures |parts| >= 1
  {
    if s == "" then [""]
    else
      if s[0] == c then [""] + Split(s[1..], c) else PrependTo(s[0], Split(s[1..], c))
  }

  function Digit(d: nat): char
    requires d < 10
  {
    "0123456789"[d]
  }

  /** `strconv.Itoa` on a non-negative number. */
  function Decimal(n: nat): (s: string)
    ensures s != "" && forall i | 0 <= i < |s| :: '0' <= s[i] <= '9'
  {
    if n < 10 then [Digit(n)] else Decimal(n / 10) + [Digit(n % 10)]
  }

  lemma DecimalTail(n: nat)
    requires n >= 10
    ensures var s := Decimal(n); s[..|s| - 1] == Decimal(n / 10) && s[|s| - 1] == Digit(n % 10)
  {}

  lemma DigitInjective(a: nat, b: nat)
    requires a < 10 && b < 10 && Digit(a) == Digit(b)
    ensures a == b
  {}

  lemma {:induction false} DecimalInjective(a: nat, b: nat)
    requires Decimal(a) == Decimal(b)
    ensures a == b
  {
    if a >= 10 { DecimalTail(a); }
    if b >= 10 { DecimalTail(b); }
    if a >= 10 && b >= 10 {
      DecimalInjective(a / 10, b / 10);
      DigitInjective(a % 10, b % 10);
    } else if a < 10 && b < 10 {
      assert Decimal(a)[0] == Decimal(b)[0];
      DigitInjective(a, b);
    }
  }

  /** `strconv.Itoa`. */
  function DecimalInt(n: int): (s: string)
    ensures s != "" && (s[0] == '-' <==> n < 0)
    ensures forall i | 0 <= i < |s| :: s[i] == '-' || '0' <= s[i] <= '9'
  {
    if n < 0 then "-" + Decimal(-n) else Decimal(n)
  }

  lemma DecimalIntInjective(a: int, b: int)
    requires DecimalInt(a) == DecimalInt(b)
    ensures a == b
  {
    if a < 0 && b < 0 {
      assert DecimalInt(a)[1..] == Decimal(-a) && DecimalInt(b)[1..] == Decimal(-b);
      DecimalInjective(-a, -b);
    } else if a >= 0 && b >= 0 {
      DecimalInjective(a, b);
    }
  }

  /** Two strings cut at their first separator: if neither head contains it, heads and tails agree. */
  lemma {:induction false} CutFirst(a: string, s: string, b: string, t: string, c: char)
    requires c !in a && c !in b
    requires a + [c] + s == b + [c] + t
    ensures a == b && s == t
    decreases |a|
  {
    assert (a + [c] + s)[0] == (b + [c] + t)[0];
    assert (a + [c] + s)[1..] == (b + [c] + t)[1..];
    if a != "" && b != "" {
      assert (a + [c] + s)[1..] == a[1..] + [c] + s && (b + [c] + t)[1..] == b[1..] + [c] + t;
      CutFirst(a[1..], s, b[1..], t, c);
    } else if a == "" && b == "" {
      assert (a + [c] + s)[1..] == s && (b + [c] + t)[1..] == t;
    }
  }

  /** Two strings cut at their last separator: if neither tail contains it, heads and tails agree. */
  lemma {:induction false} CutLast(a: string, s: string, b: string, t: string, c: char)
    requires c !in s && c !in t
    requires a + [c] + s == b + [c] + t
    ensures a == b && s == t
    decreases |s|
  {
    var u, v := a + [c] + s, b + [c] + t;
    var n := |u| - 1;
    assert u[n] == v[n] && u[..n] == v[..n];
    if s != "" && t != "" {
      assert u[..n] == a + [c] + s[..|s| - 1] && v[..n] == b + [c] + t[..|t| - 1];
      CutLast(a, s[..|s| - 1], b, t[..|t| - 1], c);
      assert s == s[..|s| - 1] + [u[n]] && t == t[..|t| - 1] + [v[n]];
    } else if s == "" && t == "" {
      assert u[..n] == a && v[..n] == b;
    }
  }

  predicate FreeOf(parts: seq<string>, c: char) {
    forall i | 0 <= i < |parts| :: c !in parts[i]
  }

  /** Joining lists of equal length with a separator absent from every part loses nothing. */
  lemma {:induction false} JoinInjective(p: seq<string>, q: seq<string>, c: char)
    requires |p| == |q| && FreeOf(p, c) && FreeOf(q, c)
    requires Join(p, [c]) == Join(q, [c])
    ensures p == q
  {
    if |p| >= 2 {
      CutFirst(p[0], Join(p[1..], [c]), q[0], Join(q[1..], [c]), c);
      JoinInjective(p[1..], q[1..], c);
      assert p == [p[0]] + p[1..] && q == [q[0]] + q[1..];
    } else if |p| == 1 {
      assert p[0] == q[0];
    }
  }

  lemma Regroup(x: string, a: string, sep: string, b: string)
    ensures (x + a) + sep + b == x + (a + sep + b)
  {}

  lemma PrependJoin(x: char, parts: seq<string>, c: char)
    requires |parts| >= 1
    ensures Join(PrependTo(x, parts), [c]) == [x] + Join(parts, [c])
  {
    var r := PrependTo(x, parts);
    assert r[0] == [x] + parts[0] && r[1..] == parts[1..];
    if |parts| >= 2 { Regroup([x], parts[0], [c], Join(parts[1..], [c])); }
  }

  lemma PrependFree(x: char, parts: seq<string>, c: char)
    requires |parts| >= 1 && x != c && FreeOf(parts, c)
    ensures FreeOf(PrependTo(x, parts), c)
  {
    var r := PrependTo(x, parts);
    forall i | 0 <= i < |r| ensures c !in r[i] {
      if i > 0 { assert r[i] == parts[i]; } else { assert r[0] == [x] + parts[0]; }
    }
  }

  /** Splitting undoes joining, and the parts never contain the separator. */
  lemma {:induction false} SplitJoin(s: string, c: char)
    ensures Join(Split(s, c), [c]) == s && FreeOf(Split(s, c), c)
    decreases |s|
  {
    if s != "" {
      SplitJoin(s[1..], c);
      var rest := Split(s[1..], c);
      assert s == [s[0]] + s[1..];
      if s[0] == c {
        assert ([""] + rest)[1..] == rest;
      } else {
        PrependJoin(s[0], rest, c);
        PrependFree(s[0], rest, c);
      }
    }
  }

  lemma SplitStep(s: string, c: char)
    requires s != ""
    ensures Split(s, c) == if s[0] == c then [""] + Split(s[1..], c) else PrependTo(s[0], Split(s[1..], c))
  {}

  lemma PrependConcat(x: char, head: seq<string>, tail: seq<string>)
    requires |head| >= 1
    ensures PrependTo(x, head + tail) == PrependTo(x, head) + tail
  {}

  /** The separator splits a concatenation exactly where it stands. */
  lemma {:induction false} SplitConcat(s: string, a: string, b: string, c: char)
    requires s == a + ([c] + b)
    ensures Split(s, c) == Split(a, c) + Split(b, c)
    decreases |a|
  {
    SplitStep(s, c);
    if a == "" {
      assert s[1..] == b;
    } else {
      assert s[1..] == a[1..] + ([c] + b);
      SplitConcat(s[1..], a[1..], b, c);
      SplitStep(a, c);
      PrependConcat(a[0], Split(a[1..], c), Split(b, c));
    }
  }
}
