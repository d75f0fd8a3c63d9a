/** The 128-bit identifiers of users: `str(uuid)` (the form put into a token's "sub"
    claim) and the parsing pydantic applies when a string is given for a UUID field. */
module Uuids {
  import opened Wrappers

  const UUID_BOUND: nat := 0x1_0000_0000_0000_0000_0000_0000_0000_0000

  /** A UUID, as the 128-bit integer `uuid.UUID.int`. */
  type Uuid = n: nat | n < UUID_BOUND

  function Pow16(k: nat): (p: nat)
    ensures p >= 1
  {
    if k == 0 then 1 else 16 * Pow16(k - 1)
  }

  lemma {:induction false} Pow16Add(a: nat, b: nat)
    ensures Pow16(a + b) == Pow16(a) * Pow16(b)
  {
    if a > 0 {
      Pow16Add(a - 1, b);
    }
  }

  lemma Pow16Of32()
    ensures Pow16(32) == UUID_BOUND
  {
    assert Pow16(2) == 256;
    Pow16Add(2, 2);
    Pow16Add(4, 4);
    Pow16Add(8, 8);
    Pow16Add(16, 16);
  }

  /** Lower-case hexadecimal digit for a value below 16. */
  function HexDigit(d: nat): char
    requires d < 16
  {
    "0123456789abcdef"[d]
  }

  /** The value of a hexadecimal digit in either case. */
  function DigitValue(c: char): (r: Option<nat>)
    ensures r.Some? ==> r.value < 16
  {
    if '0' <= c <= '9' then Some(c as int - '0' as int)
    else if 'a' <= c <= 'f' then Some(c as int - 'a' as int + 10)
    else if 'A' <= c <= 'F' then Some(c as int - 'A' as int + 10)
    else None
  }

  /** The last `k` hexadecimal digits of `n`, most significant first (`'%0kx' % n`
      when `n < 16^k`). */
  function Hex(n: nat, k: nat): (s: string)
    ensures |s| == k
  {
    if k == 0 then "" else Hex(n / 16, k - 1) + [HexDigit(n % 16)]
  }

  /** The number a string of hexadecimal digits denotes, or None when some character is
      not a hexadecimal digit. */
  function HexValue(s: string): (r: Option<nat>)
    ensures r.Some? ==> r.value < Pow16(|s|)
  {
    if s == [] then Some(0)
    else
      match (HexValue(s[..|s| - 1]), DigitValue(s[|s| - 1]))
      case (Some(v), Some(d)) => Some(16 * v + d)
      case _ => None
  }

  lemma {:induction false} HexValueOfHex(n: nat, k: nat)
    requires n < Pow16(k)
    ensures HexValue(Hex(n, k)) == Some(n)
  {
    if k > 0 {
      var s := Hex(n, k);
      assert s[..|s| - 1] == Hex(n / 16, k - 1);
      HexValueOfHex(n / 16, k - 1);
      assert DigitValue(HexDigit(n % 16)) == Some(n % 16);
    }
  }

  /** 32 hexadecimal digits grouped 8-4-4-4-12 and joined by '-'. */
  function Hyphenate(h: string): (s: string)
    requires |h| == 32
    ensures |s| == 36
  {
    h[..8] + "-" + h[8..12] + "-" + h[12..16] + "-" + h[16..20] + "-" + h[20..]
  }

  /** The 32 digits of a 36-character hyphenated form, hyphens dropped. */
  function Unhyphenate(s: string): (h: string)
    requires |s| == 36
    ensures |h| == 32
  {
    s[..8] + s[9..13] + s[14..18] + s[19..23] + s[24..]
  }

  lemma UnhyphenateHyphenate(h: string)
    requires |h| == 32
    ensures var s := Hyphenate(h); s[8] == '-' && s[13] == '-' && s[18] == '-' && s[23] == '-'
    ensures Unhyphenate(Hyphenate(h)) == h
  {
    var s := Hyphenate(h);
    var d := Unhyphenate(s);
    forall i | 0 <= i < 32 ensures d[i] == h[i] {
      if i < 8 {
        assert d[i] == s[i];
      } else if i < 12 {
        assert d[i] == s[i + 1];
      } else if i < 16 {
        assert d[i] == s[i + 2];
      } else if i < 20 {
        assert d[i] == s[i + 3];
      } else {
        assert d[i] == s[i + 4];
      }
    }
  }

  /** `str(u)`: 32 lower-case hexadecimal digits in groups of 8-4-4-4-12 joined by '-'. */
  function Format(u: Uuid): (s: string)
    ensures |s| == 36
  {
    Hyphenate(Hex(u, 32))
  }

  /** The UUID denoted by 32 hexadecimal digits. */
  function FromHexDigits(h: string): (r: Option<Uuid>)
    requires |h| == 32
  {
    match HexValue(h)
    case Some(v) =>
      Pow16Of32();
      Some(v)
    case None => None
  }

  /** The UUID a string denotes: 32 hexadecimal digits, plain or hyphenated as
      8-4-4-4-12, in either case. */
  function Parse(s: string): (r: Option<Uuid>)
    ensures r.Some? ==> |s| == 32 || |s| == 36
    ensures r.Some? && |s| == 36 ==> s[8] == '-' && s[13] == '-' && s[18] == '-' && s[23] == '-'
  {
    if |s| == 32 then FromHexDigits(s)
    else if |s| == 36 && s[8] == '-' && s[13] == '-' && s[18] == '-' && s[23] == '-' then
      FromHexDigits(Unhyphenate(s))
    else None
  }

  /** Parsing `str(u)` gives back `u`: a user id written into a token is read back
      unchanged. */
  lemma ParseFormat(u: Uuid)
    ensures Parse(Format(u)) == Some(u)
  {
    UnhyphenateHyphenate(Hex(u, 32));
    Pow16Of32();
    HexValueOfHex(u, 32);
  }

  /** A hexadecimal letter in lower case; every other character unchanged. */
  function LowerHexChar(c: char): char {
    if 'A' <= c <= 'F' then (c as int - 'A' as int + 'a' as int) as char else c
  }

  function LowerHexChars(s: string): (r: string)
    ensures |r| == |s|
  {
    seq(|s|, i requires 0 <= i < |s| => LowerHexChar(s[i]))
  }

  /** The canonical spelling of a string `Parse` accepts: hexadecimal letters in lower
      case, and the 32-digit form hyphenated 8-4-4-4-12. */
  function Canonical(s: string): string {
    if |s| == 32 then Hyphenate(LowerHexChars(s)) else LowerHexChars(s)
  }

  /** Digits that denote `v` are, lower-cased, the `|h|`-digit hexadecimal form of `v`. */
  lemma {:induction false} HexOfHexValue(h: string, v: nat)
    requires HexValue(h) == Some(v)
    ensures Hex(v, |h|) == LowerHexChars(h)
  {
    if h != [] {
      var k := |h| - 1;
      var init := h[..k];
      var w :| HexValue(init) == Some(w);
      var d :| DigitValue(h[k]) == Some(d);
      assert v == 16 * w + d;
      assert v / 16 == w && v % 16 == d;
      HexOfHexValue(init, w);
      assert HexDigit(d) == LowerHexChar(h[k]);
      assert LowerHexChars(h) == LowerHexChars(init) + [LowerHexChar(h[k])];
    }
  }

  /** The 36-character form with its hyphens in place is the hyphenation of its digits. */
  lemma HyphenateUnhyphenate(s: string)
    requires |s| == 36 && s[8] == '-' && s[13] == '-' && s[18] == '-' && s[23] == '-'
    ensures Hyphenate(LowerHexChars(Unhyphenate(s))) == LowerHexChars(s)
  {
    var l := LowerHexChars(s);
    var t := Hyphenate(LowerHexChars(Unhyphenate(s)));
    var d := LowerHexChars(Unhyphenate(s));
    forall i | 0 <= i < 36 ensures t[i] == l[i] {
      if i == 8 || i == 13 || i == 18 || i == 23 {
        assert t[i] == '-' == l[i];
      } else if i < 8 {
        assert t[i] == d[i];
      } else if i < 13 {
        assert t[i] == d[i - 1];
      } else if i < 18 {
        assert t[i] == d[i - 2];
      } else if i < 23 {
        assert t[i] == d[i - 3];
      } else {
        assert t[i] == d[i - 4];
      }
    }
  }

  /** Whatever spelling `Parse` accepts, `str` of the result is its canonical spelling:
      with `ParseFormat`, `Parse` and `Format` are inverse on canonical strings. */
  lemma ParseCanonical(s: string, u: Uuid)
    requires Parse(s) == Some(u)
    ensures Format(u) == Canonical(s)
  {
    if |s| == 32 {
      HexOfHexValue(s, u);
    } else {
      HexOfHexValue(Unhyphenate(s), u);
      HyphenateUnhyphenate(s);
    }
  }

  /** Distinct UUIDs have distinct string forms. */
  lemma FormatInjective(u: Uuid, v: Uuid)
    requires Format(u) == Format(v)
    ensures u == v
  {
    ParseFormat(u);
    ParseFormat(v);
  }
}
