/** Integer tags and their `"%0.3d"` rendering (lib/marcxella/record.rb:74-76). */
module Tags {
  predicate IsDigits(s: string)
  {
    forall i :: 0 <= i < |s| ==> '0' <= s[i] <= '9'
  }

  function DigitChar(d: nat): (c: char)
    requires d < 10
    ensures '0' <= c <= '9' && c as int - '0' as int == d
  {
    (d + '0' as int) as char
  }

  /** The number a string of decimal digits denotes; leading zeros add nothing. */
  function Value(s: string): nat
    requires IsDigits(s)
  {
    if s == [] then 0 else Value(s[..|s| - 1]) * 10 + (s[|s| - 1] as int - '0' as int)
  }

  /** The shortest decimal numeral of `n`. */
  function Decimal(n: nat): (s: string)
    ensures 1 <= |s| && IsDigits(s)
    ensures Value(s) == n
    ensures |s| > 1 ==> s[0] != '0'
    ensures n < 10 ==> |s| == 1
    ensures n < 100 ==> |s| <= 2
    ensures n < 1000 ==> |s| <= 3
    ensures n >= 10 ==> |s| >= 2
    ensures n >= 100 ==> |s| >= 3
  {
    if n < 10 then [DigitChar(n)]
    else
      var h := Decimal(n / 10);
      var s := h + [DigitChar(n % 10)];
      assert s[..|s| - 1] == h;
      assert Value(s) == n / 10 * 10 + n % 10;
      assert s[0] == h[0];
      assert |h| == 1 ==> Value(h) == h[0] as int - '0' as int;
      assert n < 100 ==> n / 10 < 10;
      assert n < 1000 ==> n / 10 < 100;
      assert n >= 100 ==> n / 10 >= 10;
      s
  }

  function Zeros(k: nat): (z: string)
    ensures |z| == k && IsDigits(z)
  {
    seq(k, _ => '0')
  }

  /** The digits of `m`, zero-padded on the left to at least three. */
  function Padded(m: nat): (p: string)
    ensures 3 <= |p| && IsDigits(p) && Value(p) == m
    ensures m < 1000 ==> |p| == 3
    ensures m >= 100 ==> p == Decimal(m)
  {
    var d := Decimal(m);
    ZerosAddNothing(if |d| < 3 then 3 - |d| else 0, d);
    if |d| < 3 then Zeros(3 - |d|) + d else d
  }

  /** Ruby's `"%0.3d" % [n]`: a minus sign for a negative `n`, then the digits
      of its magnitude, zero-padded on the left to at least three digits. */
  function Pad3(n: int): (s: string)
    ensures n >= 0 ==> 3 <= |s| && IsDigits(s) && Value(s) == n
    ensures n < 0 ==> 4 <= |s| && s[0] == '-' && IsDigits(s[1..]) && Value(s[1..]) == -n
    ensures 0 <= n < 1000 ==> |s| == 3
    ensures -1000 < n < 0 ==> |s| == 4
    ensures n >= 100 ==> s == Decimal(n)
    ensures n <= -100 ==> s == "-" + Decimal(-n)
  {
    if n < 0 then
      var s := "-" + Padded(-n);
      assert s[1..] == Padded(-n);
      s
    else Padded(n)
  }

  lemma {:induction false} ZerosAddNothing(k: nat, s: string)
    requires IsDigits(s)
    ensures IsDigits(Zeros(k) + s) && Value(Zeros(k) + s) == Value(s)
    decreases |s|, k
  {
    if s == [] {
      assert Zeros(k) + s == Zeros(k);
      if k > 0 {
        assert Zeros(k)[..k - 1] == Zeros(k - 1);
        ZerosAddNothing(k - 1, []);
        assert Zeros(k - 1) + [] == Zeros(k - 1);
      }
    } else {
      var t := Zeros(k) + s;
      assert t[..|t| - 1] == Zeros(k) + s[..|s| - 1];
      ZerosAddNothing(k, s[..|s| - 1]);
    }
  }

  /** Distinct integers give distinct padded tags, so an integer tag selects
      exactly the fields of one three-character tag when it is below 1000. */
  lemma Pad3Injective(m: int, n: int)
    requires Pad3(m) == Pad3(n)
    ensures m == n
  {
    if m < 0 && n < 0 {
      assert Pad3(m)[1..] == Pad3(n)[1..];
    }
  }

  /** The doc-comment's warning: a Ruby literal `010` is the octal number 8,
      which pads to "008", not to "010". */
  lemma OctalLiteralGotcha()
    ensures Pad3(8) == "008" && Pad3(10) == "010"
  {
  }
}
