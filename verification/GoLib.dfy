/** The pieces of the Go language and library the programs lean on: machine
    integers, string helpers, decimal numbers and map iteration.  Strings are
    sequences of Unicode code points. */
module GoLib {

  datatype Option<+T> = None | Some(value: T)

  datatype Result<+T, +E> = Ok(value: T) | Err(error: E)

  // ----- 64-bit integers -----

  const MAX_INT := 0x7FFF_FFFF_FFFF_FFFF
  const TWO_64 := 0x1_0000_0000_0000_0000

  lemma Int64()
    ensures MAX_INT == 9_223_372_036_854_775_807 && TWO_64 == 2 * (MAX_INT + 1)
  {
  }

  /** The value an int64 variable holds after being assigned `x`. */
  function Wrap64(x: int): (w: int)
    ensures -MAX_INT - 1 <= w <= MAX_INT
    ensures -MAX_INT - 1 <= x <= MAX_INT ==> w == x
  {
    (x + MAX_INT + 1) % TWO_64 - MAX_INT - 1
  }

  lemma WrapPeriod(x: int, k: int)
    ensures Wrap64(x + k * TWO_64) == Wrap64(x)
  {
    var y := x + MAX_INT + 1;
    var q, r := y / TWO_64, y % TWO_64;
    assert y + k * TWO_64 == (q + k) * TWO_64 + r;
  }

  lemma WrapAdd(a: int, b: int)
    ensures Wrap64(Wrap64(a) + b) == Wrap64(a + b)
  {
    var q := (a + MAX_INT + 1) / TWO_64;
    assert Wrap64(a) == a - q * TWO_64;
    WrapPeriod(a + b, -q);
  }

  lemma WrapTwo(a: int, b: int)
    requires 1 <= a <= MAX_INT && 1 <= b <= MAX_INT
    ensures Wrap64(a + b) < 1 <==> a + b > MAX_INT
  {
  }

  // ----- strings -----

  predicate IsSpace(c: char) {
    || '\t' <= c <= '\r' || c == ' ' || c == '\U{85}' || c == '\U{A0}' || c == '\U{1680}'
    || '\U{2000}' <= c <= '\U{200A}' || c == '\U{2028}' || c == '\U{2029}'
    || c == '\U{202F}' || c == '\U{205F}' || c == '\U{3000}'
  }

  predicate Trimmed(s: string) {
    s != "" ==> !IsSpace(s[0]) && !IsSpace(s[|s| - 1])
  }

  function TrimLeft(s: string): (r: string)
    ensures r != "" ==> !IsSpace(r[0])
    ensures forall c :: c in r ==> c in s
    ensures s != "" && !IsSpace(s[|s| - 1]) ==> r != "" && r[|r| - 1] == s[|s| - 1]
  {
    if s != "" && IsSpace(s[0]) then TrimLeft(s[1..]) else s
  }

  function TrimRight(s: string): (r: string)
    ensures r <= s
    ensures r != "" ==> !IsSpace(r[|r| - 1])
  {
    if s != "" && IsSpace(s[|s| - 1]) then TrimRight(s[..|s| - 1]) else s
  }

  function TrimSpace(s: string): (r: string)
    ensures Trimmed(r)
    ensures forall c :: c in r ==> c in s
    ensures Trimmed(s) ==> r == s
  {
    TrimRight(TrimLeft(s))
  }

  predicate AllSpace(s: string) { forall c :: c in s ==> IsSpace(c) }

  /** The code points with Unicode's White_Space property. */
  lemma SpacesAre(c: char)
    ensures IsSpace(c) <==>
            || c as int in {9, 10, 11, 12, 13, 32, 0x85, 0xA0, 0x1680, 0x2028, 0x2029, 0x202F, 0x205F, 0x3000}
            || 0x2000 <= c as int <= 0x200A
  {
  }

  lemma {:induction false} TrimLeftPadded(pre: string, s: string)
    requires AllSpace(pre) && (s != "" ==> !IsSpace(s[0]))
    ensures TrimLeft(pre + s) == s
  {
    if pre == "" {
      assert pre + s == s;
    } else {
      assert pre[0] in pre && (pre + s)[0] == pre[0] && (pre + s)[1..] == pre[1..] + s;
      TrimLeftPadded(pre[1..], s);
    }
  }

  lemma {:induction false} TrimLeftBlank(s: string)
    requires AllSpace(s)
    ensures TrimLeft(s) == ""
  {
    if s != "" {
      assert s[0] in s;
      TrimLeftBlank(s[1..]);
    }
  }

  lemma {:induction false} TrimRightPadded(s: string, post: string)
    requires AllSpace(post) && (s != "" ==> !IsSpace(s[|s| - 1]))
    ensures TrimRight(s + post) == s
  {
    if post == "" {
      assert s + post == s;
    } else {
      var n := |post| - 1;
      assert post[n] in post && (s + post)[|s + post| - 1] == post[n];
      assert (s + post)[..|s + post| - 1] == s + post[..n];
      TrimRightPadded(s, post[..n]);
    }
  }

  /** Trimming takes away all the space around a trimmed text, and nothing else. */
  lemma TrimPadded(pre: string, core: string, post: string)
    requires AllSpace(pre) && AllSpace(post) && Trimmed(core)
    ensures TrimSpace(pre + core + post) == core
  {
    if core == "" {
      assert forall c :: c in pre + core + post ==> c in pre || c in post;
      TrimLeftBlank(pre + core + post);
    } else {
      assert pre + core + post == pre + (core + post);
      assert (core + post)[0] == core[0];
      TrimLeftPadded(pre, core + post);
      TrimRightPadded(core, post);
    }
  }

  lemma {:induction false} LeadingSpace(s: string) returns (pre: string, rest: string)
    ensures s == pre + rest && AllSpace(pre) && (rest != "" ==> !IsSpace(rest[0]))
  {
    pre, rest := "", s;
    if s != "" && IsSpace(s[0]) {
      pre, rest := LeadingSpace(s[1..]);
      assert s == [s[0]] + s[1..] == [s[0]] + pre + rest;
      pre := [s[0]] + pre;
    }
  }

  lemma {:induction false} TrailingSpace(s: string) returns (rest: string, post: string)
    ensures s == rest + post && AllSpace(post) && (rest != "" ==> !IsSpace(rest[|rest| - 1]))
    ensures s != "" && !IsSpace(s[0]) ==> rest != ""
  {
    rest, post := s, "";
    if s != "" && IsSpace(s[|s| - 1]) {
      var n := |s| - 1;
      rest, post := TrailingSpace(s[..n]);
      assert s == s[..n] + [s[n]] == rest + (post + [s[n]]);
      post := post + [s[n]];
    }
  }

  /** Every text is some space, a trimmed text and some space, and trimming gives
      the text in the middle; it is empty exactly for texts of nothing but space. */
  lemma Padding(s: string) returns (pre: string, core: string, post: string)
    ensures s == pre + core + post && AllSpace(pre) && AllSpace(post) && Trimmed(core)
    ensures TrimSpace(s) == core && (core == "" <==> AllSpace(s))
  {
    var rest;
    pre, rest := LeadingSpace(s);
    core, post := TrailingSpace(rest);
    if core != "" {
      assert rest[0] == core[0] && core[0] in s;
    }
    assert s == pre + core + post;
    TrimPadded(pre, core, post);
    assert forall c :: c in s ==> c in pre || c in core || c in post;
  }

  /** Position of the first `c`, or the length when there is none. */
  function Index(s: string, c: char): (i: nat)
    ensures i <= |s| && c !in s[..i]
    ensures i < |s| ==> s[i] == c
    ensures i == |s| <==> c !in s
  {
    if s == "" || s[0] == c then 0 else 1 + Index(s[1..], c)
  }

  lemma IndexConcat(a: string, c: char, b: string)
    requires c !in a
    ensures Index(a + [c] + b, c) == |a|
  {
    var s := a + [c] + b;
    if a != "" {
      assert s[0] in a && s[1..] == a[1..] + [c] + b;
      IndexConcat(a[1..], c, b);
    }
  }

  /** strings.Cut: text before the first `c`, text after it, whether it occurs. */
  function Cut(s: string, c: char): (string, string, bool) {
    var i := Index(s, c);
    if i < |s| then (s[..i], s[i + 1..], true) else (s, "", false)
  }

  lemma CutConcat(a: string, c: char, b: string)
    requires c !in a
    ensures Cut(a + [c] + b, c) == (a, b, true)
  {
    IndexConcat(a, c, b);
    var s := a + [c] + b;
    assert s[..|a|] == a && s[|a| + 1..] == b;
  }

  function Split(s: string, c: char): (parts: seq<string>)
    ensures parts != [] && forall p :: p in parts ==> c !in p
    decreases |s|
  {
    var i := Index(s, c);
    if i < |s| then [s[..i]] + Split(s[i + 1..], c) else [s]
  }

  function Join(parts: seq<string>, c: char): string {
    if parts == [] then ""
    else if |parts| == 1 then parts[0]
    else parts[0] + [c] + Join(parts[1..], c)
  }

  lemma {:induction false} SplitJoin(parts: seq<string>, c: char)
    requires parts != [] && forall p :: p in parts ==> c !in p
    ensures Split(Join(parts, c), c) == parts
  {
    if |parts| > 1 {
      var rest := Join(parts[1..], c);
      CutConcat(parts[0], c, rest);
      SplitJoin(parts[1..], c);
    }
  }

  lemma JoinAppend(parts: seq<string>, p: string, c: char)
    requires parts != []
    ensures Join(parts + [p], c) == Join(parts, c) + [c] + p
  {
    if |parts| > 1 {
      JoinAppend(parts[1..], p, c);
      assert (parts + [p])[1..] == parts[1..] + [p];
    }
  }

  // ----- decimal numbers -----

  predicate IsDigit(c: char) { '0' <= c <= '9' }

  function DigitsValue(s: string): nat
    requires forall c :: c in s ==> IsDigit(c)
  {
    if s == "" then 0
    else
      assert IsDigit(s[|s| - 1]);
      10 * DigitsValue(s[..|s| - 1]) + (s[|s| - 1] as int - '0' as int)
  }

  /** The digits of `n`, as fmt's %d prints it. */
  function Decimal(n: nat): (s: string)
    ensures s != "" && forall c :: c in s ==> IsDigit(c)
    ensures DigitsValue(s) == n
  {
    if n < 10 then [('0' as int + n) as char]
    else Decimal(n / 10) + [('0' as int + n % 10) as char]
  }

  /** fmt's %d. */
  function Printed(n: int): string {
    if n < 0 then ['-'] + Decimal(-n) else Decimal(n)
  }

  /** Optional sign, then at least one digit and nothing else. */
  function ParseDecimal(s: string): Option<int> {
    var signed := s != "" && (s[0] == '-' || s[0] == '+');
    var digits := if signed then s[1..] else s;
    if digits == "" || exists c :: c in digits && !IsDigit(c) then None
    else
      var v: int := DigitsValue(digits);
      Some(if signed && s[0] == '-' then -v else v)
  }

  /** strconv.Atoi: a value that does not fit in 64 bits is an error. */
  function Atoi(s: string): Option<int> {
    match ParseDecimal(s)
    case Some(v) => if -MAX_INT - 1 <= v <= MAX_INT then Some(v) else None
    case None => None
  }

  lemma ParsePrinted(n: nat)
    ensures ParseDecimal(Decimal(n)) == Some(n)
    ensures Trimmed(Decimal(n))
    ensures n <= MAX_INT ==> Atoi(Decimal(n)) == Some(n)
  {
    var s := Decimal(n);
    assert IsDigit(s[0]) && IsDigit(s[|s| - 1]);
  }

  /** A sign and digits are their value, if it fits. */
  lemma AtoiOf(sign: string, digits: string)
    requires sign in {"", "+", "-"} && digits != "" && forall c :: c in digits ==> IsDigit(c)
    ensures var (n: int, negative) := (DigitsValue(digits), sign == "-");
            var v := if negative then -n else n;
            Atoi(sign + digits) == if -MAX_INT - 1 <= v <= MAX_INT then Some(v) else None
  {
    var s := sign + digits;
    assert digits[0] in digits;
    if sign == "" {
      assert s == digits;
    } else {
      assert s[0] == sign[0] && s[1..] == digits;
    }
  }

  /** Printing and reading an int64 gives it back, negative ones too. */
  lemma AtoiPrinted(n: int)
    requires -MAX_INT - 1 <= n <= MAX_INT
    ensures Atoi(Printed(n)) == Some(n)
  {
    if n < 0 {
      AtoiOf("-", Decimal(-n));
      assert ['-'] + Decimal(-n) == "-" + Decimal(-n);
    } else {
      ParsePrinted(n);
    }
  }

  /** Nothing else is an integer. */
  lemma AtoiOnly(s: string) returns (sign: string, digits: string)
    requires Atoi(s).Some?
    ensures s == sign + digits && sign in {"", "+", "-"} && digits != "" && forall c :: c in digits ==> IsDigit(c)
  {
    sign, digits := "", s;
    if s[0] == '-' || s[0] == '+' {
      sign, digits := [s[0]], s[1..];
      assert s == sign + digits;
    }
  }

  /** Leading zeros do not count. */
  lemma {:induction false} ZerosDoNotCount(s: string)
    requires forall c :: c in s ==> IsDigit(c)
    ensures (forall c :: c in ['0'] + s ==> IsDigit(c)) && DigitsValue(['0'] + s) == DigitsValue(s)
  {
    var t := ['0'] + s;
    if s != "" {
      var n := |s| - 1;
      ZerosDoNotCount(s[..n]);
      assert t[..|t| - 1] == ['0'] + s[..n];
    } else {
      assert t[..0] == "";
    }
  }

  // ----- map iteration -----

  predicate NoDuplicates<T(==)>(s: seq<T>) {
    forall i, j :: 0 <= i < j < |s| ==> s[i] != s[j]
  }

  /** A range loop over a Go map: every key once, in no particular order. */
  method Enumerate<T(==)>(keys: set<T>) returns (order: seq<T>)
    ensures NoDuplicates(order) && |order| == |keys|
    ensures forall k :: k in order <==> k in keys
  {
    order := [];
    var rest := keys;
    while rest != {}
      invariant NoDuplicates(order) && |order| + |rest| == |keys|
      invariant forall k :: k in keys <==> k in order || k in rest
      invariant forall k :: k in rest ==> k !in order
      decreases |rest|
    {
      var k :| k in rest;
      order := order + [k];
      rest := rest - {k};
    }
  }

  lemma DisjointSizes<T>(a: set<T>, b: set<T>, c: set<T>)
    requires a !! b !! c
    ensures |a + b + c| == |a| + |b| + |c|
  {
    assert |a + b| == |a| + |b|;
  }

  lemma AtMostOne<T>(s: set<T>, x: T, y: T)
    requires |s| <= 1 && x in s && y in s
    ensures x == y
  {
    assert |s - {x}| == |s| - 1;
    assert s - {x} == {};
  }

  lemma ConcatAssociative<T>(a: seq<T>, b: seq<T>, c: seq<T>)
    ensures a + b + c == a + (b + c)
  {
  }
}
