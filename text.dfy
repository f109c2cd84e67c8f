/** The string operations the core uses: ASCII case mapping (`str.lower`,
    `str.upper`), splitting at the last '.' (`split(".")[-1]`,
    `rsplit(".", 1)[0]`) and decimal rendering of integers (f-strings). */
module Text {
  import opened Wrappers

  function LowerChar(c: char): char {
    if 'A' <= c <= 'Z' then (c as int - 'A' as int + 'a' as int) as char else c
  }

  function UpperChar(c: char): char {
    if 'a' <= c <= 'z' then (c as int - 'a' as int + 'A' as int) as char else c
  }

  /** `s.lower()`, character by character. */
  function Lower(s: string): (r: string)
    ensures |r| == |s|
    ensures forall i :: 0 <= i < |s| ==> r[i] == LowerChar(s[i])
  {
    seq(|s|, i requires 0 <= i < |s| => LowerChar(s[i]))
  }

  /** `s.upper()`, character by character. */
  function Upper(s: string): (r: string)
    ensures |r| == |s|
    ensures forall i :: 0 <= i < |s| ==> r[i] == UpperChar(s[i])
  {
    seq(|s|, i requires 0 <= i < |s| => UpperChar(s[i]))
  }

  /** Upper-casing twice is upper-casing once, so a format that was
      upper-cased by a caller compares the same when upper-cased again. */
  lemma UpperIdempotent(s: string)
    ensures Upper(Upper(s)) == Upper(s)
  {
    assert forall i :: 0 <= i < |s| ==> UpperChar(UpperChar(s[i])) == UpperChar(s[i]);
  }

  /** The index of the last '.' of `s`, if it has one. */
  function LastDot(s: string): (r: Option<nat>)
    ensures r.Some? ==> r.value < |s| && s[r.value] == '.' && '.' !in s[r.value + 1..]
    ensures r.None? <==> '.' !in s
  {
    if s == [] then None
    else if s[|s| - 1] == '.' then Some(|s| - 1)
    else
      var r := LastDot(s[..|s| - 1]);
      assert s == s[..|s| - 1] + [s[|s| - 1]];
      assert r.Some? ==> s[r.value + 1..] == s[..|s| - 1][r.value + 1..] + [s[|s| - 1]];
      r
  }

  /** `s.split(".")[-1]`: the text after the last '.', or all of `s` when it has none. */
  function AfterLastDot(s: string): (r: string)
    ensures '.' !in r
  {
    match LastDot(s)
    case None => s
    case Some(i) => s[i + 1..]
  }

  /** `s.rsplit(".", 1)[0]`: the text before the last '.', or all of `s` when it has none. */
  function BeforeLastDot(s: string): (r: string)
    ensures |r| <= |s|
  {
    match LastDot(s)
    case None => s
    case Some(i) => s[..i]
  }

  /** Splitting at the last '.' loses nothing: a name with a dot is its stem,
      '.', and its extension; a name without one is its own stem and extension. */
  lemma SplitAtLastDot(s: string)
    ensures '.' in s ==> s == BeforeLastDot(s) + "." + AfterLastDot(s)
    ensures '.' !in s ==> BeforeLastDot(s) == s && AfterLastDot(s) == s
  {
    if LastDot(s).Some? {
      var i := LastDot(s).value;
      assert s == s[..i] + [s[i]] + s[i + 1..];
    }
  }

  /** Conversely, a stem, '.', and an extension without a dot split back
      into that stem and that extension, whatever dots the stem holds. */
  lemma JoinAtLastDot(stem: string, ext: string)
    requires '.' !in ext
    ensures BeforeLastDot(stem + "." + ext) == stem
    ensures AfterLastDot(stem + "." + ext) == ext
  {
    var s := stem + "." + ext;
    assert s[|stem|] == '.';
    assert LastDot(s) == Some(|stem|);
    assert s[..|stem|] == stem;
    assert s[|stem| + 1..] == ext;
  }

  function DigitChar(d: nat): char
    requires d < 10
  {
    (d + '0' as int) as char
  }

  /** Python's `str(n)` for a natural number: decimal, no leading zeros. */
  function Digits(n: nat): (r: string)
    ensures |r| > 0
    ensures forall i :: 0 <= i < |r| ==> '0' <= r[i] <= '9'
  {
    if n < 10 then [DigitChar(n)] else Digits(n / 10) + [DigitChar(n % 10)]
  }

  /** The value of a string of decimal digits: the inverse of `Digits`. */
  function ParseDigits(s: string): nat
  {
    if s == [] then 0
    else
      var d := s[|s| - 1] as int - '0' as int;
      ParseDigits(s[..|s| - 1]) * 10 + (if 0 <= d then d else 0)
  }

  lemma {:induction false} ParseDigitsOfDigits(n: nat)
    ensures ParseDigits(Digits(n)) == n
  {
    if n >= 10 {
      var p := Digits(n / 10);
      assert (p + [DigitChar(n % 10)])[..|p|] == p;
      ParseDigitsOfDigits(n / 10);
    }
  }

  /** Distinct numbers render as distinct strings. */
  lemma DigitsInjective(m: nat, n: nat)
    requires Digits(m) == Digits(n)
    ensures m == n
  {
    ParseDigitsOfDigits(m);
    ParseDigitsOfDigits(n);
  }
}
