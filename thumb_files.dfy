/** The names of thumbnail files in a disk cache directory. */
module ThumbFiles {
  /** The decimal digits of `n`, most significant first, without leading zeros. */
  function NatToString(n: nat): (s: string)
    ensures |s| >= 1
    ensures n >= 10 ==> |s| >= 2
    ensures forall i :: 0 <= i < |s| ==> '0' <= s[i] <= '9'
  {
    if n < 10 then [Digit(n)] else NatToString(n / 10) + [Digit(n % 10)]
  }

  function Digit(d: nat): (c: char)
    requires d < 10
    ensures '0' <= c <= '9'
  {
    ['0', '1', '2', '3', '4', '5', '6', '7', '8', '9'][d]
  }

  /** `String.valueOf(int)` (and `%d`): a minus sign for negative values, then the digits. */
  function IntToString(i: int): (s: string)
    ensures |s| >= 1
  {
    if i < 0 then ['-'] + NatToString(-i) else NatToString(i)
  }

  /** The name of the cached thumbnail of item `id`: `thumb_<id>.jpg`. */
  function FileName(id: int): string {
    "thumb_" + IntToString(id) + ".jpg"
  }

  lemma DigitInjective(a: nat, b: nat)
    requires a < 10 && b < 10 && Digit(a) == Digit(b)
    ensures a == b
  {
  }

  /** Different numbers print differently. */
  lemma {:induction false} NatToStringInjective(a: nat, b: nat)
    requires NatToString(a) == NatToString(b)
    ensures a == b
    decreases a
  {
    var s := NatToString(a);
    assert (a < 10) == (|s| == 1) && (b < 10) == (|NatToString(b)| == 1);
    if a < 10 {
      DigitInjective(a, b);
    } else {
      assert s[..|s| - 1] == NatToString(a / 10);
      assert NatToString(b)[..|s| - 1] == NatToString(b / 10);
      NatToStringInjective(a / 10, b / 10);
      DigitInjective(a % 10, b % 10);
    }
  }

  /** Different ids print differently. */
  lemma IntToStringInjective(a: int, b: int)
    requires IntToString(a) == IntToString(b)
    ensures a == b
  {
    var s := IntToString(a);
    assert (a < 0) == (s[0] == '-') by {
      if a >= 0 { assert '0' <= NatToString(a)[0] <= '9'; }
    }
    assert (b < 0) == (s[0] == '-') by {
      if b >= 0 { assert '0' <= NatToString(b)[0] <= '9'; }
    }
    if a < 0 {
      assert s[1..] == NatToString(-a) && IntToString(b)[1..] == NatToString(-b);
      NatToStringInjective(-a, -b);
    } else {
      NatToStringInjective(a, b);
    }
  }

  /** Different items never share a thumbnail file. */
  lemma FileNameInjective(a: int, b: int)
    requires FileName(a) == FileName(b)
    ensures a == b
  {
    var n := |FileName(a)|;
    assert FileName(a)[6..n - 4] == IntToString(a);
    assert FileName(b)[6..n - 4] == IntToString(b);
    IntToStringInjective(a, b);
  }
}
