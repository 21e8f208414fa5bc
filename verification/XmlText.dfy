/** The texts of XML values: Python's str() and int() on numbers, str() on booleans. */
module XmlText {
  import opened Common

  function DigitChar(d: nat): char
    requires d < 10
  {
    ['0', '1', '2', '3', '4', '5', '6', '7', '8', '9'][d]
  }

  function DigitValue(c: char): Option<nat> {
    if '0' <= c <= '9' then Some((c as int) - ('0' as int)) else None
  }

  function NatText(n: nat): (s: string)
    ensures s != [] && s[0] != '-'
  {
    if n < 10 then [DigitChar(n)] else NatText(n / 10) + [DigitChar(n % 10)]
  }

  function ParseNat(s: string): Option<nat> {
    if s == [] then None
    else
      var last := DigitValue(s[|s| - 1]);
      if last.None? then None
      else if |s| == 1 then last
      else
        var front := ParseNat(s[..|s| - 1]);
        if front.None? then None else Some(10 * front.value + last.value)
  }

  function IntText(n: int): (s: string)
    ensures s != []
  {
    if n < 0 then ['-'] + NatText(-n) else NatText(n)
  }

  /** int(text), for a text that is an optional minus sign and digits; any other text raises. */
  function ParseInt(s: string): Option<int> {
    if s != [] && s[0] == '-' then
      var n := ParseNat(s[1..]);
      if n.None? then None
      else
        var m: int := n.value;
        Some(-m)
    else
      var n := ParseNat(s);
      if n.None? then None else Some(n.value as int)
  }

  lemma {:induction false} NatRoundTrip(n: nat)
    ensures ParseNat(NatText(n)) == Some(n)
  {
    if n >= 10 {
      NatRoundTrip(n / 10);
      var s := NatText(n);
      assert s[..|s| - 1] == NatText(n / 10);
    }
  }

  lemma IntRoundTrip(n: int)
    ensures ParseInt(IntText(n)) == Some(n)
  {
    hide NatText, ParseNat;
    if n < 0 {
      NatRoundTrip(-n);
      assert IntText(n)[1..] == NatText(-n);
    } else {
      NatRoundTrip(n);
    }
  }

  function BoolText(b: bool): (s: string)
    ensures s != []
  {
    if b then "True" else "False"
  }

  function LowerChar(c: char): char {
    if 'A' <= c <= 'Z' then ((c as int) + 32) as char else c
  }

  function Lower(s: string): string {
    seq(|s|, i requires 0 <= i < |s| => LowerChar(s[i]))
  }

  /** text.lower() in ('true', '1', 'yes') */
  function ParseBool(s: string): bool {
    Lower(s) == "true" || Lower(s) == "1" || Lower(s) == "yes"
  }

  lemma BoolRoundTrip(b: bool)
    ensures ParseBool(BoolText(b)) == b
  {
    if b {
      assert Lower("True") == "true";
    } else {
      assert |Lower("False")| == 5;
    }
  }

  /** Other texts that are read as true, and some that are not. */
  lemma BoolsAccepted()
    ensures ParseBool("TRUE") && ParseBool("Yes") && ParseBool("1")
    ensures !ParseBool("no") && !ParseBool("0") && !ParseBool("")
  {
    assert Lower("TRUE") == "true" && Lower("Yes") == "yes" && Lower("1") == "1";
    assert Lower("no") == "no" && Lower("0") == "0" && Lower("") == "";
  }

  /** Numbers are written in decimal, lowest digit last, and booleans as Python writes them. */
  lemma TextsOfPython(n: nat, d: nat)
    requires d < 10
    ensures NatText(d) == [('0' as int + d) as char]
    ensures n > 0 ==> NatText(10 * n + d) == NatText(n) + NatText(d)
    ensures n > 0 ==> var m: int := n; IntText(-m) == "-" + NatText(n)
    ensures BoolText(true) == "True" && BoolText(false) == "False"
  {
    hide NatText;
    OneMoreDigit(n, d);
  }

  lemma OneMoreDigit(n: nat, d: nat)
    requires d < 10
    ensures NatText(d) == [('0' as int + d) as char]
    ensures n > 0 ==> NatText(10 * n + d) == NatText(n) + NatText(d)
  {
    var m := 10 * n + d;
    assert m / 10 == n && m % 10 == d;
    assert n > 0 ==> NatText(m) == NatText(m / 10) + [DigitChar(m % 10)];
  }

  predicate EndsWith(s: string, suffix: string) {
    |s| >= |suffix| && s[|s| - |suffix|..] == suffix
  }
}
