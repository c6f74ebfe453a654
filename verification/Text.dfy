/** Decimal rendering, the "name:port" rendering used for ids, and the byte order of strings. */
module Text {

  function Digit(d: nat): (c: char)
    requires d < 10
    ensures c != ':' && c != '-'
  {
    (48 + d) as char
  }

  /** std::to_string of a non-negative int. */
  function DecimalNat(n: nat): (s: string)
    ensures s != [] && ':' !in s && '-' !in s
  {
    if n < 10 then [Digit(n)] else DecimalNat(n / 10) + [Digit(n % 10)]
  }

  /** std::to_string of an int. */
  function Decimal(i: int): (s: string)
    ensures s != [] && ':' !in s
  {
    if i < 0 then "-" + DecimalNat(-i) else DecimalNat(i)
  }

  lemma DecimalExamples()
    ensures Decimal(0) == "0" && Decimal(7) == "7" && Decimal(80) == "80" && Decimal(8091) == "8091"
    ensures Decimal(-1) == "-1" && Rendered("a", 80) == "a:80"
  {
    assert DecimalNat(8) == "8" && DecimalNat(80) == "80" && DecimalNat(809) == "809" && DecimalNat(8091) == "8091";
    assert DecimalNat(1) == "1";
  }

  /** The digits of a port, most significant first. */
  lemma {:induction false} DecimalDigits(n: nat)
    ensures forall i :: 0 <= i < |Decimal(n)| ==> '0' <= Decimal(n)[i] <= '9'
    ensures |Decimal(n)| > 1 ==> Decimal(n)[0] != '0'
    ensures (Decimal(n)[|Decimal(n)| - 1] as int) - ('0' as int) == n % 10
    ensures n >= 10 ==> Decimal(n)[..|Decimal(n)| - 1] == Decimal(n / 10)
  {
    if n >= 10 {
      DecimalDigits(n / 10);
      assert Decimal(n) == Decimal(n / 10) + [Digit(n % 10)];
    }
  }

  function ReadNat(s: string): int {
    if s == [] then 0 else 10 * ReadNat(s[..|s| - 1]) + (s[|s| - 1] as int - 48)
  }

  function Read(s: string): int {
    if s != [] && s[0] == '-' then -ReadNat(s[1..]) else ReadNat(s)
  }

  lemma {:induction false} ReadDecimalNat(n: nat)
    ensures ReadNat(DecimalNat(n)) == n
  {
    if n >= 10 {
      ReadDecimalNat(n / 10);
      assert DecimalNat(n)[..|DecimalNat(n)| - 1] == DecimalNat(n / 10);
    } else {
      assert [Digit(n)][..0] == [];
    }
  }

  /** Reading a rendered integer gives it back, so the rendering is injective. */
  lemma ReadDecimal(i: int)
    ensures Read(Decimal(i)) == i
  {
    if i < 0 {
      ReadDecimalNat(-i);
      assert Decimal(i)[1..] == DecimalNat(-i);
    } else {
      ReadDecimalNat(i);
      assert DecimalNat(i)[0] in DecimalNat(i);
    }
  }

  /** name + ":" + to_string(port), the id of a backend. */
  function Rendered(name: string, port: int): string {
    name + ":" + Decimal(port)
  }

  lemma LastColon(a: string, b: string, x: string, y: string)
    requires ':' !in x && ':' !in y
    requires a + ":" + x == b + ":" + y
    ensures |x| <= |y|
  {
    var whole := a + ":" + x;
    forall k | |a| < k < |whole| ensures whole[k] != ':' {
      assert whole[k] == x[k - |a| - 1] && x[k - |a| - 1] in x;
    }
    assert whole[|b|] == (b + ":" + y)[|b|] == ':';
  }

  /** Names may contain ':' themselves; the id still determines name and port. */
  lemma RenderedInjective(n1: string, p1: int, n2: string, p2: int)
    ensures Rendered(n1, p1) == Rendered(n2, p2) <==> n1 == n2 && p1 == p2
  {
    if Rendered(n1, p1) == Rendered(n2, p2) {
      var x, y := Decimal(p1), Decimal(p2);
      LastColon(n1, n2, x, y);
      LastColon(n2, n1, y, x);
      var whole := Rendered(n1, p1);
      assert n1 == whole[..|whole| - |x| - 1] == n2;
      assert x == whole[|whole| - |x|..] == y;
      ReadDecimal(p1);
      ReadDecimal(p2);
    }
  }

  /** The order in which std::map<std::string, ...> visits its keys. */
  predicate LexLeq(a: string, b: string) {
    a == [] || (b != [] && (a[0] < b[0] || (a[0] == b[0] && LexLeq(a[1..], b[1..]))))
  }

  lemma {:induction false} LexTotal(a: string, b: string)
    ensures LexLeq(a, b) || LexLeq(b, a)
    ensures LexLeq(a, b) && LexLeq(b, a) ==> a == b
  {
    if a != [] && b != [] && a[0] == b[0] {
      LexTotal(a[1..], b[1..]);
      assert a == [a[0]] + a[1..] && b == [b[0]] + b[1..];
    }
  }

  lemma {:induction false} LexTransitive(a: string, b: string, c: string)
    requires LexLeq(a, b) && LexLeq(b, c)
    ensures LexLeq(a, c)
  {
    if a != [] && a[0] == b[0] == c[0] {
      LexTransitive(a[1..], b[1..], c[1..]);
    }
  }

  lemma {:induction false} PrefixIsLexLeq(a: string, b: string)
    requires a <= b
    ensures LexLeq(a, b)
  {
    if a != [] {
      PrefixIsLexLeq(a[1..], b[1..]);
    }
  }

  lemma {:induction false} LeastExists(keys: set<string>) returns (least: string)
    requires keys != {}
    ensures least in keys && forall k :: k in keys ==> LexLeq(least, k)
    decreases |keys|
  {
    least :| least in keys;
    var rest := keys - {least};
    LexTotal(least, least);
    if rest != {} {
      var other := LeastExists(rest);
      LexTotal(least, other);
      if !LexLeq(least, other) {
        forall k | k in keys ensures LexLeq(other, k) { if k != least { assert k in rest; } }
        least := other;
      } else {
        forall k | k in keys ensures LexLeq(least, k) {
          if k != least { assert k in rest; LexTransitive(least, other, k); }
        }
      }
    }
  }
}
