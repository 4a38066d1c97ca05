/**
 * The pieces of Java semantics the model relies on: `null`, integer
 * division (which truncates toward zero, unlike Dafny's Euclidean `/`),
 * `Math.round`, `Integer.toString`, and the two `String` operations the
 * watermark task uses, `split(" ")[0]` and `replaceAll(":", "-")`.
 */
module JavaLang {

  /** A Java reference that may be `null`. */
  datatype Option<T> = None | Some(value: T)

  /** Java's `a / b` on `int`: the quotient is truncated toward zero. */
  function Div(a: int, b: int): int
    requires b > 0
  {
    if a >= 0 then a / b else -((-a) / b)
  }

  /** Truncation toward zero: the quotient times the divisor lies between 0 and a, within one divisor of a. */
  lemma DivBounds(a: int, b: int)
    requires b > 0
    ensures a >= 0 ==> 0 <= Div(a, b) && Div(a, b) * b <= a < Div(a, b) * b + b
    ensures a < 0 ==> Div(a, b) <= 0 && a <= Div(a, b) * b < a + b
  {
  }

  lemma MulMono(x: int, y: int, z: int)
    requires x <= y && z >= 0
    ensures x * z <= y * z
  {
  }

  lemma DivUnique(a: int, d: int, q: int, r: int)
    requires d > 0 && a == q * d + r && 0 <= r < d
    ensures a / d == q
  {
    var q', r' := a / d, a % d;
    assert a == q' * d + r';
    if q' < q { MulMono(q' + 1, q, d); }
    if q' > q { MulMono(q + 1, q', d); }
  }

  lemma NatNestedDiv(m: int, b: int, c: int)
    requires m >= 0 && b >= 1 && c >= 1
    ensures (m / b) / c == m / (b * c)
  {
    var q, r1 := m / b, m % b;
    var q2, r2 := q / c, q % c;
    assert m == q * b + r1;
    assert q == q2 * c + r2;
    assert q * b == q2 * (b * c) + r2 * b;
    MulMono(r2, c - 1, b);
    assert (c - 1) * b == b * c - b;
    DivUnique(m, b * c, q2, r2 * b + r1);
  }

  /** Dividing by b and then by c truncates like dividing by b * c. */
  lemma NestedDiv(a: int, b: int, c: int)
    requires b >= 1 && c >= 1
    ensures Div(Div(a, b), c) == Div(a, b * c)
  {
    MulMono(1, b, c);
    var m := if a >= 0 then a else -a;
    var q := m / b;
    NatNestedDiv(m, b, c);
    DivSign(m, b);
    DivSign(q, c);
    DivSign(m, b * c);
    if a >= 0 {
      assert Div(a, b) == q;
      assert Div(q, c) == q / c;
    } else {
      assert Div(a, b) == -q;
      NegDiv(q, c);
    }
  }

  lemma DivSign(m: int, b: int)
    requires m >= 0 && b >= 1
    ensures m / b >= 0 && Div(m, b) == m / b
  {
  }

  lemma NegDiv(q: int, c: int)
    requires q >= 0 && c >= 1
    ensures Div(-q, c) == -(q / c)
  {
  }

  /** A larger divisor never gives a larger quotient of a non-negative number, nor a positive one of a negative number. */
  lemma DivAntitone(a: int, s: int, t: int)
    requires 1 <= s <= t
    ensures a >= 0 ==> Div(a, t) <= Div(a, s)
    ensures a < 0 ==> Div(a, t) <= 0
  {
    if a >= 0 {
      var q := a / t;
      MulMono(s, t, q);
      assert q * t <= a;
      if a / s < q {
        MulMono(a / s + 1, q, s);
      }
    }
  }

  /** A quotient of at least one means the dividend is at least the divisor. */
  lemma DivAtLeastOne(a: int, s: int)
    requires s >= 1 && Div(a, s) >= 1
    ensures s <= a
  {
    assert a >= 0;
    MulMono(1, a / s, s);
  }

  /** `Math.round(x)` on a float, taken over the reals: the nearest integer, halves rounded up. */
  function Round(x: real): (r: int)
    ensures r as real - 0.5 <= x < r as real + 0.5
  {
    (x + 0.5).Floor
  }

  lemma {:induction false} RoundMonotone(x: real, y: real)
    requires x <= y
    ensures Round(x) <= Round(y)
  {
    assert (x + 0.5).Floor as real <= x + 0.5 <= y + 0.5;
  }

  /** The `(int)` cast of a float, over the reals: truncation toward zero. */
  function Truncate(x: real): (r: int)
    ensures x >= 0.0 ==> 0 <= r && r as real <= x < r as real + 1.0
    ensures x < 0.0 ==> r <= 0 && r as real - 1.0 < x <= r as real
  {
    if x >= 0.0 then x.Floor else -((-x).Floor)
  }

  // ---------------------------------------------------------------------
  // Integer.toString and its inverse

  function DigitChar(d: int): (c: char)
    requires 0 <= d < 10
    ensures '0' <= c <= '9'
  {
    "0123456789"[d]
  }

  function DigitValue(c: char): int
  {
    c as int - '0' as int
  }

  predicate IsDigits(s: string)
  {
    forall i :: 0 <= i < |s| ==> '0' <= s[i] <= '9'
  }

  /** The decimal digits of `n`, most significant first, without leading zeros. */
  function NatToString(n: nat): (s: string)
    ensures |s| >= 1 && IsDigits(s)
    decreases n
  {
    if n < 10 then [DigitChar(n)] else NatToString(n / 10) + [DigitChar(n % 10)]
  }

  /** `Integer.toString(i)`: a minus sign for negative values, then the digits. */
  function IntToString(i: int): (s: string)
  {
    if i < 0 then "-" + NatToString(-i) else NatToString(i)
  }

  /** Reads a string of decimal digits back as a number. */
  function ParseDigits(s: string): int
    decreases |s|
  {
    if s == [] then 0 else ParseDigits(s[..|s| - 1]) * 10 + DigitValue(s[|s| - 1])
  }

  /** `Integer.parseInt` restricted to what `IntToString` produces. */
  function ParseInt(s: string): int
  {
    if |s| > 0 && s[0] == '-' then -ParseDigits(s[1..]) else ParseDigits(s)
  }

  lemma {:induction false} ParseNatToString(n: nat)
    ensures ParseDigits(NatToString(n)) == n
    decreases n
  {
    if n >= 10 {
      var prefix := NatToString(n / 10);
      var s := prefix + [DigitChar(n % 10)];
      assert s[..|s| - 1] == prefix;
      ParseNatToString(n / 10);
    }
  }

  lemma ParseIntToString(i: int)
    ensures ParseInt(IntToString(i)) == i
  {
    if i < 0 {
      var s := "-" + NatToString(-i);
      assert s[1..] == NatToString(-i);
      ParseNatToString(-i);
    } else {
      ParseNatToString(i);
      assert NatToString(i)[0] != '-';
    }
  }

  /** Different numbers print differently. */
  lemma IntToStringInjective(i: int, j: int)
    requires IntToString(i) == IntToString(j)
    ensures i == j
  {
    ParseIntToString(i);
    ParseIntToString(j);
  }

  // ---------------------------------------------------------------------
  // String operations

  /** `s.indexOf(c)`, with `|s|` standing for "not found". */
  function IndexOf(s: string, c: char): (i: nat)
    ensures i <= |s|
    ensures forall j :: 0 <= j < i ==> s[j] != c
    ensures i < |s| ==> s[i] == c
    decreases |s|
  {
    if s == [] then 0 else if s[0] == c then 0 else 1 + IndexOf(s[1..], c)
  }

  /**
   * `s.split(" ")[0]`. Java drops trailing empty fields, so a non-empty string
   * made only of spaces splits into an empty array and indexing it throws
   * (`None` here); the empty string splits into the one field "".
   */
  function FirstField(s: string): (r: Option<string>)
    ensures r == None <==> |s| > 0 && forall j :: 0 <= j < |s| ==> s[j] == ' '
    ensures r.Some? ==> ' ' !in r.value && r.value <= s
    ensures r.Some? && |r.value| < |s| ==> s[|r.value|] == ' '
  {
    var i := IndexOf(s, ' ');
    if |s| > 0 && forall j :: 0 <= j < |s| ==> s[j] == ' ' then None
    else Some(s[..i])
  }

  /** `s.replaceAll(":", "-")` (the pattern has no special characters). */
  function ReplaceColons(s: string): (r: string)
    ensures |r| == |s|
    ensures forall j :: 0 <= j < |s| ==> r[j] == if s[j] == ':' then '-' else s[j]
    decreases |s|
  {
    if s == [] then []
    else [if s[0] == ':' then '-' else s[0]] + ReplaceColons(s[1..])
  }
}
