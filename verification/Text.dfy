/** Decimal numbers, `a:b` renderings and ASCII case, as the configuration and routing code use them. */
module Text {

  /** strconv.Itoa on a non-negative number. */
  function Natural(n: nat): (s: string)
    ensures s != [] && forall i :: 0 <= i < |s| ==> '0' <= s[i] <= '9'
  {
    var last := [('0' as int + n % 10) as char];
    if n < 10 then last else Natural(n / 10) + last
  }

  function Itoa(n: int): string {
    if n < 0 then "-" + Natural(-n) else Natural(n)
  }

  lemma {:induction false} NaturalInjective(m: nat, n: nat)
    requires Natural(m) == Natural(n)
    ensures m == n
  {
    var s, t := Natural(m), Natural(n);
    assert s[|s| - 1] == ('0' as int + m % 10) as char && t[|t| - 1] == ('0' as int + n % 10) as char;
    if m >= 10 && n >= 10 {
      assert s[..|s| - 1] == Natural(m / 10) && t[..|t| - 1] == Natural(n / 10);
      NaturalInjective(m / 10, n / 10);
    }
  }

  /** What a string of decimal digits stands for. */
  function Value(s: string): int {
    if s == "" then 0 else 10 * Value(s[..|s| - 1]) + (s[|s| - 1] as int - '0' as int)
  }

  /** The decimal digits stand for the number, without leading zeros, and a minus goes in front of a negative one. */
  lemma {:induction false} ItoaIsDecimal(n: int)
    ensures if n < 0 then Itoa(n) != "" && Itoa(n)[0] == '-' && Value(Itoa(n)[1..]) == -n else Value(Itoa(n)) == n
    ensures n > 0 ==> Itoa(n)[0] != '0'
  {
    NaturalIsDecimal(if n < 0 then -n else n);
    if n < 0 {
      assert Itoa(n)[1..] == Natural(-n);
    }
  }

  lemma {:induction false} NaturalIsDecimal(n: nat)
    ensures Value(Natural(n)) == n && (n > 0 ==> Natural(n)[0] != '0')
  {
    var s := Natural(n);
    assert s[|s| - 1] as int == '0' as int + n % 10;
    if n >= 10 {
      NaturalIsDecimal(n / 10);
      assert s[..|s| - 1] == Natural(n / 10);
    } else {
      assert s[..0] == "";
    }
  }

  lemma {:induction false} ItoaInjective(m: int, n: int)
    requires Itoa(m) == Itoa(n)
    ensures m == n
  {
    assert Itoa(m)[0] == '-' <==> m < 0;
    assert Itoa(n)[0] == '-' <==> n < 0;
    if m < 0 {
      assert Natural(-m) == Itoa(m)[1..] == Itoa(n)[1..] == Natural(-n);
      NaturalInjective(-m, -n);
    } else {
      NaturalInjective(m, n);
    }
  }

  lemma ItoaHasNoColon(n: int)
    ensures ':' !in Itoa(n)
  {
  }

  /** `a:b`, as fmt.Sprintf("%s:%d") and the notification keys are built. */
  function Colon(a: string, b: string): string {
    a + ":" + b
  }

  lemma {:induction false} LaterColon(a: string, b: string, c: string, d: string)
    requires Colon(a, b) == Colon(c, d) && |a| < |c|
    ensures ':' in b
  {
    assert Colon(a, b)[|c|] == Colon(c, d)[|c|] == ':';
    assert b[|c| - |a| - 1] == ':';
  }

  /** The last colon of a rendering whose second part has none separates the parts again. */
  lemma {:induction false} ColonSplits(a: string, b: string, c: string, d: string)
    requires Colon(a, b) == Colon(c, d) && ':' !in b && ':' !in d
    ensures a == c && b == d
  {
    if |a| < |c| {
      LaterColon(a, b, c, d);
    } else if |c| < |a| {
      LaterColon(c, d, a, b);
    }
    var s := Colon(a, b);
    assert a == s[..|a|] && c == s[..|c|] && b == s[|a| + 1..] && d == s[|c| + 1..];
  }

  /** net.JoinHostPort. */
  function JoinHostPort(host: string, port: int): string {
    if ':' in host || '%' in host then Colon("[" + host + "]", Itoa(port)) else Colon(host, Itoa(port))
  }

  function LowerChar(c: char): char {
    if 'A' <= c <= 'Z' then (c as int + 32) as char else c
  }

  /** strings.ToLower on ASCII text. */
  function ToLower(s: string): (t: string)
    ensures |t| == |s| && forall i :: 0 <= i < |s| ==> t[i] == LowerChar(s[i])
  {
    if s == [] then [] else [LowerChar(s[0])] + ToLower(s[1..])
  }

  /** The host as the routing table looks it up: lower case, without one trailing dot. */
  function Normal(host: string): string {
    var s := ToLower(host);
    if s != [] && s[|s| - 1] == '.' then s[..|s| - 1] else s
  }
}
