/**
 * The proxy size for one resolution folder (lines 59-65): the folder name is
 * read as "WxH", the proxy width is fixed at 1920, and the proxy height is
 * 1920 * H / W rounded to the nearest integer, ties to even (Python's `round`).
 * The arithmetic is exact here; the script goes through a float.
 */
module Dimensions {
  import opened Results
  import opened Strings

  /** The exceptions lines 59-62 can raise. */
  datatype DimensionError =
    | WrongPartCount(parts: nat)   // `Width,Height = ...split("x")` unpacks too many or too few values
    | NotAnInteger(text: string)   // `int(...)` rejects the text
    | ZeroWidth                    // `intH / intW` divides by zero

  /** `Proxy_Width`, line 63. */
  const ProxyWidth: nat := 1920

  function Abs(x: int): nat
  {
    if x < 0 then -x else x
  }

  /** `Width,Height = text.split("x")` followed by `int(Width)` and `int(Height)`, in that order. */
  function ParseResolution(text: string): (r: Result<(nat, nat), DimensionError>)
  {
    var parts := Split(text, 'x');
    if |parts| != 2 then Failure(WrongPartCount(|parts|))
    else match ParseNat(parts[0])
      case None => Failure(NotAnInteger(parts[0]))
      case Some(w) =>
        match ParseNat(parts[1])
        case None => Failure(NotAnInteger(parts[1]))
        case Some(h) => Success((w, h))
  }

  /** The resolution text Resolve reports for a W x H clip parses back to (W, H). */
  lemma ParseResolutionRoundTrip(w: nat, h: nat)
    ensures ParseResolution(NatToString(w) + "x" + NatToString(h)) == Success((w, h))
  {
    var ws, hs := NatToString(w), NatToString(h);
    assert 'x' !in ws && 'x' !in hs;
    SplitAround(ws, 'x', hs);
    SplitWithoutSeparator(ws, 'x');
    SplitWithoutSeparator(hs, 'x');
    assert ws + "x" + hs == ws + ['x'] + hs;
    ParseNatToString(w);
    ParseNatToString(h);
  }

  /**
   * A label parses exactly when it is two digit strings around a single 'x',
   * and it is then rebuilt from them.
   */
  lemma ParseResolutionAccepts(text: string)
    ensures var parts := Split(text, 'x');
      ParseResolution(text).Success? <==> |parts| == 2 && IsDecimal(parts[0]) && IsDecimal(parts[1])
    ensures ParseResolution(text).Success? ==>
      var parts := Split(text, 'x');
      text == parts[0] + "x" + parts[1] &&
      ParseResolution(text).value == (DigitsValue(parts[0]), DigitsValue(parts[1]))
  {
    var parts := Split(text, 'x');
    if |parts| == 2 {
      JoinSplit(text, 'x');
      assert parts[1..] == [parts[1]];
    }
  }

  /** `round(n / d)` for d > 0: the nearest integer, ties going to the even one. */
  function RoundHalfEven(n: int, d: int): (r: int)
    requires d > 0
    ensures 2 * Abs(r * d - n) <= d
    ensures 2 * Abs(r * d - n) == d ==> r % 2 == 0
  {
    var q, m := n / d, n % d;
    assert n == q * d + m;
    if 2 * m < d then q
    else if 2 * m > d then
      assert (q + 1) * d - n == d - m;
      q + 1
    else if q % 2 == 0 then q
    else
      assert (q + 1) * d - n == d - m;
      q + 1
  }

  /** Two integers at most half a step from n / d each are at most one step apart. */
  lemma {:induction false} CloseMultiples(r: int, s: int, d: int, n: int)
    requires d > 0 && r < s
    requires 2 * Abs(r * d - n) <= d && 2 * Abs(s * d - n) <= d
    ensures s == r + 1
    ensures 2 * Abs(r * d - n) == d && 2 * Abs(s * d - n) == d
  {
    var k := s - r;
    assert (k - 1) * d == s * d - r * d - d;
    NonPositiveFactor(k - 1, d);
  }

  lemma NonPositiveFactor(a: int, d: int)
    requires d > 0 && a * d <= 0
    ensures a <= 0
  {
  }

  /** The nearest-with-ties-to-even integer is unique, so RoundHalfEven is Python's `round`. */
  lemma RoundHalfEvenUnique(n: int, d: int, r: int)
    requires d > 0
    requires 2 * Abs(r * d - n) <= d
    requires 2 * Abs(r * d - n) == d ==> r % 2 == 0
    ensures r == RoundHalfEven(n, d)
  {
    var s := RoundHalfEven(n, d);
    if r < s {
      CloseMultiples(r, s, d, n);
    } else if s < r {
      CloseMultiples(s, r, d, n);
    }
  }

  /** `round(1920 * h / w)`: the proxy height for a w x h source, w > 0 (line 64). */
  function ProxyHeight(w: nat, h: nat): nat
    requires w > 0
  {
    RoundHalfEven(ProxyWidth * h, w)
  }

  /**
   * The proxy height keeps the source's aspect ratio as closely as an integer
   * can: 1920 / height is within half a pixel of w / h, a tie going to the even height.
   */
  lemma ProxyHeightNearest(w: nat, h: nat)
    requires w > 0
    ensures 2 * Abs(ProxyHeight(w, h) * w - ProxyWidth * h) <= w
    ensures 2 * Abs(ProxyHeight(w, h) * w - ProxyWidth * h) == w ==> ProxyHeight(w, h) % 2 == 0
    ensures forall r ::
      (2 * Abs(r * w - ProxyWidth * h) <= w && (2 * Abs(r * w - ProxyWidth * h) == w ==> r % 2 == 0))
      ==> r == ProxyHeight(w, h)
  {
    forall r | 2 * Abs(r * w - ProxyWidth * h) <= w && (2 * Abs(r * w - ProxyWidth * h) == w ==> r % 2 == 0)
      ensures r == ProxyHeight(w, h)
    {
      RoundHalfEvenUnique(ProxyWidth * h, w, r);
    }
  }

  /**
   * The proxy (width, height) for a resolution folder name, or the exception
   * the script raises on it.
   */
  function ProxySize(text: string): Result<(nat, nat), DimensionError>
  {
    match ParseResolution(text)
    case Failure(e) => Failure(e)
    case Success((w, h)) =>
      if w == 0 then Failure(ZeroWidth)
      else Success((ProxyWidth, ProxyHeight(w, h)))
  }

  /**
   * The outcome for a folder name, read off its pieces around 'x': a proxy
   * 1920 wide and as high as the rounded 1920 * H / W when the name is two
   * digit strings W and H around a single 'x' with W not zero; otherwise the
   * exception the script raises first, in the order of lines 59-62.
   */
  lemma ProxySizeOutcome(text: string)
    ensures var parts := Split(text, 'x');
      ProxySize(text).Success? <==>
        |parts| == 2 && IsDecimal(parts[0]) && IsDecimal(parts[1]) && DigitsValue(parts[0]) != 0
    ensures var parts := Split(text, 'x');
      ProxySize(text).Success? ==>
        text == parts[0] + "x" + parts[1] &&
        ProxySize(text).value == (ProxyWidth, RoundHalfEven(ProxyWidth * DigitsValue(parts[1]), DigitsValue(parts[0])))
    ensures var parts := Split(text, 'x');
      |parts| != 2 ==> ProxySize(text) == Failure(WrongPartCount(|parts|))
    ensures var parts := Split(text, 'x');
      |parts| == 2 && !IsDecimal(parts[0]) ==> ProxySize(text) == Failure(NotAnInteger(parts[0]))
    ensures var parts := Split(text, 'x');
      |parts| == 2 && IsDecimal(parts[0]) && !IsDecimal(parts[1]) ==> ProxySize(text) == Failure(NotAnInteger(parts[1]))
    ensures var parts := Split(text, 'x');
      |parts| == 2 && IsDecimal(parts[0]) && IsDecimal(parts[1]) && DigitsValue(parts[0]) == 0 ==>
        ProxySize(text) == Failure(ZeroWidth)
  {
    ParseResolutionAccepts(text);
  }

  /** The worked example: a UHD folder "3840x2160" gets a 1920 x 1080 proxy. */
  lemma ProxySizeUhd()
    ensures ProxySize("3840x2160") == Success((1920, 1080))
  {
    var t := NatToString(3840) + "x" + NatToString(2160);
    ParseResolutionRoundTrip(3840, 2160);
    assert NatToString(3840) == "3840" && NatToString(2160) == "2160";
    assert t == "3840x2160";
    assert ProxyHeight(3840, 2160) == 1080;
  }

  /** A tie: 1920 * 3 / 1280 is 4.5, which rounds to the even 4, not 5. */
  lemma ProxySizeTieGoesToEven()
    ensures ProxySize("1280x3") == Success((1920, 4))
  {
    var t := NatToString(1280) + "x" + NatToString(3);
    ParseResolutionRoundTrip(1280, 3);
    assert NatToString(1280) == "1280" && NatToString(3) == "3";
    assert t == "1280x3";
    assert ProxyHeight(1280, 3) == 4;
  }

  /** A label without an 'x' splits into one part, so unpacking it into `Width,Height` raises. */
  lemma ProxySizeNoSeparator()
    ensures ProxySize("1080p") == Failure(WrongPartCount(1))
  {
    SplitWithoutSeparator("1080p", 'x');
  }

  /** A zero width divides by zero. */
  lemma ProxySizeZeroWidth()
    ensures ProxySize("0x1080") == Failure(ZeroWidth)
  {
    var t := NatToString(0) + "x" + NatToString(1080);
    ParseResolutionRoundTrip(0, 1080);
    assert NatToString(0) == "0" && NatToString(1080) == "1080";
    assert t == "0x1080";
  }
}
