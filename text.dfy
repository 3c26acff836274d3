/** Strings as the modelled code builds and tests them: leading-zero difficulty
    tests on hex digests, `str(int)`, and `bytes.fromhex` / `bytes.hex`. */
module Text {
  import opened Wrappers

  /** `"0" * d` */
  function Zeros(d: nat): (z: string)
    ensures |z| == d
    ensures forall i :: 0 <= i < d ==> z[i] == '0'
  {
    if d == 0 then "" else Zeros(d - 1) + "0"
  }

  /** `h.startswith("0" * d)`: the difficulty test on a hex digest. */
  predicate HasZeros(h: string, d: nat) {
    |h| >= d && h[..d] == Zeros(d)
  }

  /** `h[:d] == "0" * d`: the same test written with a slice (Python clamps the slice). */
  predicate SliceIsZeros(h: string, d: nat) {
    h[..if d <= |h| then d else |h|] == Zeros(d)
  }

  /** The slice form and the `startswith` form of the difficulty test agree. */
  lemma SliceTestIsPrefixTest(h: string, d: nat)
    ensures SliceIsZeros(h, d) <==> HasZeros(h, d)
  {
    if d > |h| {
      assert |h[..|h|]| != |Zeros(d)|;
    }
  }

  /** A digest passes every difficulty up to the one it passes. */
  lemma HasZerosMonotone(h: string, d: nat, e: nat)
    requires HasZeros(h, d) && e <= d
    ensures HasZeros(h, e)
  {
    assert h[..e] == h[..d][..e];
  }

  function DigitChar(d: nat): char
    requires d < 10
  {
    "0123456789"[d]
  }

  /** `str(n)` for a non-negative integer. */
  function NatStr(n: nat): (s: string)
    ensures |s| >= 1 && '0' <= s[0] <= '9'
  {
    if n < 10 then [DigitChar(n)] else NatStr(n / 10) + [DigitChar(n % 10)]
  }

  /** `str(i)` for any integer: a minus sign in front of a negative one. */
  function IntStr(i: int): (s: string)
    ensures |s| >= 1
    ensures (s[0] == '-') <==> i < 0
  {
    if i < 0 then "-" + NatStr(-i) else NatStr(i)
  }

  /** The fields of an f-string such as `f"{a}|{b}|{c}"`, joined by `sep`. */
  function Join(fields: seq<string>, sep: string): string {
    if |fields| == 0 then "" else if |fields| == 1 then fields[0] else fields[0] + sep + Join(fields[1..], sep)
  }

  /** `Join` written out for four fields. */
  lemma Join4(a: string, b: string, c: string, d: string, sep: string)
    ensures Join([a, b, c, d], sep) == a + sep + b + sep + c + sep + d
  {
    assert [c, d][1..] == [d];
    assert Join([c, d], sep) == c + sep + d;
    assert [b, c, d][1..] == [c, d];
    assert Join([b, c, d], sep) == b + sep + (c + sep + d);
    assert [a, b, c, d][1..] == [b, c, d];
  }

  /** `Join` written out for five fields. */
  lemma Join5(a: string, b: string, c: string, d: string, e: string, sep: string)
    ensures Join([a, b, c, d, e], sep) == a + sep + b + sep + c + sep + d + sep + e
  {
    assert [a, b, c, d, e][1..] == [b, c, d, e];
    Join4(b, c, d, e, sep);
  }

  /** A `time.time()` reading. Float seconds are modelled as an integer count. */
  type Time = int

  newtype byte = x: int | 0 <= x < 256

  /** The value of one hexadecimal digit, upper or lower case. */
  function HexValue(c: char): Option<nat> {
    if '0' <= c <= '9' then Some(c as nat - '0' as nat)
    else if 'a' <= c <= 'f' then Some(c as nat - 'a' as nat + 10)
    else if 'A' <= c <= 'F' then Some(c as nat - 'A' as nat + 10)
    else None
  }

  /** The characters `bytes.fromhex` skips in front of a digit pair. */
  predicate IsAsciiSpace(c: char) {
    c == ' ' || c == '\t' || c == '\n' || c == '\r' || c == 11 as char || c == 12 as char
  }

  /** `bytes.fromhex(s)`: `None` where Python raises `ValueError`. White space may
      stand before each pair of digits, never inside one. */
  function FromHex(s: string): (r: Option<seq<byte>>)
    decreases |s|
  {
    if s == [] then Some([])
    else if IsAsciiSpace(s[0]) then FromHex(s[1..])
    else if |s| < 2 || HexValue(s[0]).None? || HexValue(s[1]).None? then None
    else
      var b := (HexValue(s[0]).value * 16 + HexValue(s[1]).value) as byte;
      match FromHex(s[2..])
      case None => None
      case Some(rest) => Some([b] + rest)
  }

  function LowerHexDigit(d: nat): (c: char)
    requires d < 16
    ensures HexValue(c) == Some(d) && !IsAsciiSpace(c)
  {
    "0123456789abcdef"[d]
  }

  /** `bs.hex()`: two lower-case digits per byte. */
  function ToHex(bs: seq<byte>): (s: string)
    ensures |s| == 2 * |bs|
  {
    if bs == [] then ""
    else [LowerHexDigit(bs[0] as nat / 16), LowerHexDigit(bs[0] as nat % 16)] + ToHex(bs[1..])
  }

  /** What `sign(...).hex()` and `to_string().hex()` produce, `bytes.fromhex` reads back. */
  lemma {:induction false} FromHexToHex(bs: seq<byte>)
    ensures FromHex(ToHex(bs)) == Some(bs)
  {
    if bs != [] {
      var s := ToHex(bs);
      assert s[2..] == ToHex(bs[1..]);
      FromHexToHex(bs[1..]);
      assert [bs[0]] + bs[1..] == bs;
    }
  }
}
