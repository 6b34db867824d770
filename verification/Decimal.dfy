/** Decimal text: how a counter is printed into the KV store and how it is read back. */
module Decimal {
  import opened Text

  const U16_MAX: nat := 0xFFFF
  const U32_MAX: nat := 0xFFFF_FFFF
  const U64_MAX: nat := 0xFFFF_FFFF_FFFF_FFFF

  type u32 = n: nat | n <= U32_MAX
  type u64 = n: nat | n <= U64_MAX

  /** `saturating_add` on `u32`. */
  function SatAdd32(a: u32, b: u32): u32 {
    if a + b <= U32_MAX then a + b else U32_MAX
  }

  /** `saturating_add` on `u64`. */
  function SatAdd64(a: u64, b: u64): u64 {
    if a + b <= U64_MAX then a + b else U64_MAX
  }

  /** `saturating_sub`. */
  function SatSub(a: nat, b: nat): nat {
    if a >= b then a - b else 0
  }

  predicate IsDigit(c: char) {
    '0' <= c <= '9'
  }

  predicate AllDigits(s: string) {
    forall c | c in s :: IsDigit(c)
  }

  function Digit(d: nat): (c: char)
    requires d < 10
    ensures IsDigit(c) && c as int == d + '0' as int
  {
    (d + '0' as int) as char
  }

  /** `to_string` of an unsigned integer. */
  function Print(n: nat): (s: string)
    ensures s != "" && AllDigits(s)
  {
    if n < 10 then [Digit(n)] else Print(n / 10) + [Digit(n % 10)]
  }

  function Value(s: string): nat
    requires AllDigits(s)
  {
    if s == "" then 0
    else
      assert s[|s| - 1] in s;
      Value(s[..|s| - 1]) * 10 + (s[|s| - 1] as int - '0' as int)
  }

  /** `str::parse` into an unsigned integer no larger than `max`: one leading `+` is accepted,
      the empty text, a lone sign, a non-digit and an overflow are not. */
  function Parse(s: string, max: nat): (r: Option<nat>)
    ensures r.Some? ==> r.value <= max
  {
    var digits := if |s| > 1 && s[0] == '+' then s[1..] else s;
    if digits == "" || !AllDigits(digits) then None
    else if Value(digits) > max then None
    else Some(Value(digits))
  }

  lemma {:induction false} ValueOfPrint(n: nat)
    ensures Value(Print(n)) == n
  {
    if n >= 10 {
      ValueOfPrint(n / 10);
      var s := Print(n);
      assert s[..|s| - 1] == Print(n / 10);
    }
  }

  /** What was printed is what is read back, up to the integer's width. */
  lemma ParseOfPrint(n: nat, max: nat)
    ensures Parse(Print(n), max) == if n <= max then Some(n) else None
  {
    ValueOfPrint(n);
    assert Print(n)[0] in Print(n);
  }

  lemma PrintInjective(a: nat, b: nat)
    requires Print(a) == Print(b)
    ensures a == b
  {
    ValueOfPrint(a);
    ValueOfPrint(b);
  }

  // ---------------------------------------------------------------- what is read as a number

  function Zeros(n: nat): string {
    if n == 0 then "" else "0" + Zeros(n - 1)
  }

  lemma {:induction false} ZerosSnoc(n: nat)
    ensures Zeros(n + 1) == Zeros(n) + "0"
  {
    if n > 0 {
      ZerosSnoc(n - 1);
      Assoc("0", Zeros(n - 1), "0");
    }
  }

  lemma {:induction false} ValueOfZeros(z: nat)
    ensures AllDigits(Zeros(z)) && Value(Zeros(z)) == 0
  {
    if z > 0 {
      ValueOfZeros(z - 1);
      ZerosSnoc(z - 1);
      assert Zeros(z)[..|Zeros(z)| - 1] == Zeros(z - 1);
    }
  }

  /** Leading zeros do not change the value. */
  lemma {:induction false} ValueOfPadded(z: nat, n: nat)
    ensures AllDigits(Zeros(z) + Print(n)) && Value(Zeros(z) + Print(n)) == n
  {
    ValueOfZeros(z);
    var s := Zeros(z) + Print(n);
    if n < 10 {
      assert s[..|s| - 1] == Zeros(z);
    } else {
      ValueOfPadded(z, n / 10);
      assert s[..|s| - 1] == Zeros(z) + Print(n / 10);
    }
  }

  lemma PrintSnoc(v: nat, n: nat)
    requires n < 10
    ensures Print(v * 10 + n) == if v == 0 then [Digit(n)] else Print(v) + [Digit(n)]
  {
    assert (v * 10 + n) / 10 == v && (v * 10 + n) % 10 == n;
  }

  lemma LastDigit(s: string) returns (n: nat)
    requires s != "" && AllDigits(s)
    ensures AllDigits(s[..|s| - 1]) && n < 10 && s == s[..|s| - 1] + [Digit(n)]
    ensures Value(s) == Value(s[..|s| - 1]) * 10 + n
  {
    var d := s[|s| - 1];
    assert d in s;
    n := d as int - '0' as int;
    assert Digit(n) == d;
  }

  lemma PaddedSnoc(z: nat, v: nat, n: nat) returns (z': nat)
    requires n < 10
    ensures Zeros(z) + Print(v) + [Digit(n)] == Zeros(z') + Print(v * 10 + n)
  {
    hide Print;
    PrintSnoc(v, n);
    if v == 0 {
      PrintZero();
      ZerosSnoc(z);
      z' := z + 1;
    } else {
      Assoc(Zeros(z), Print(v), [Digit(n)]);
      z' := z;
    }
  }

  lemma PrintZero()
    ensures Print(0) == "0"
  {
  }

  /** A text of digits is a number's print behind some zeros. */
  lemma {:induction false} DigitsArePadded(s: string) returns (z: nat)
    requires s != "" && AllDigits(s)
    ensures s == Zeros(z) + Print(Value(s))
    decreases |s|
  {
    hide Print, AllDigits, Zeros;
    var n := LastDigit(s);
    if |s| == 1 {
      z := 0;
      PrintSnoc(0, n);
      NoZeros();
    } else {
      z := DigitsArePadded(s[..|s| - 1]);
      z := PaddedSnoc(z, Value(s[..|s| - 1]), n);
    }
  }

  lemma NoZeros()
    ensures Zeros(0) == "" && AllDigits("") && Value("") == 0
  {
  }

  /** The texts that denote a number: its decimal digits, with any zeros and at most one `+` in front. */
  ghost predicate Denotes(s: string, n: nat) {
    exists z: nat {:trigger Zeros(z)} :: s == Zeros(z) + Print(n) || s == "+" + (Zeros(z) + Print(n))
  }

  /** Exactly the texts that denote a number no larger than the maximum are read, and as that number. */
  lemma ParseMeans(s: string, max: nat, n: nat)
    ensures Parse(s, max) == Some(n) <==> n <= max && Denotes(s, n)
  {
    if Parse(s, max) == Some(n) {
      var digits := if |s| > 1 && s[0] == '+' then s[1..] else s;
      var z := DigitsArePadded(digits);
      assert s == digits || s == "+" + digits;
      assert Denotes(s, n);
    }
    if n <= max && Denotes(s, n) {
      var z: nat :| s == Zeros(z) + Print(n) || s == "+" + (Zeros(z) + Print(n));
      ReadPadded(s, max, n, z);
    }
  }

  lemma ReadPadded(s: string, max: nat, n: nat, z: nat)
    requires n <= max && (s == Zeros(z) + Print(n) || s == "+" + (Zeros(z) + Print(n)))
    ensures Parse(s, max) == Some(n)
  {
    ValueOfPadded(z, n);
    var digits := Zeros(z) + Print(n);
    assert digits[0] in digits && IsDigit(digits[0]);
    if s != digits {
      assert s[0] == '+' && s[1..] == digits && |s| > 1;
    }
  }
}
