/** Decimal rendering of the int values StringBuilder.append(int) writes. */
module Decimal {
  import opened Wrappers

  predicate IsDigit(c: char) {
    '0' <= c <= '9'
  }

  predicate AllDigits(s: string) {
    forall i :: 0 <= i < |s| ==> IsDigit(s[i])
  }

  function DigitChar(d: nat): (c: char)
    requires d < 10
    ensures IsDigit(c)
  {
    ('0' as int + d) as char
  }

  function DigitValue(c: char): (d: nat)
    requires IsDigit(c)
    ensures d < 10
  {
    c as int - '0' as int
  }

  /** The decimal digits of n, most significant first, with no leading zero. */
  function Digits(n: nat): (s: string)
    ensures |s| >= 1 && AllDigits(s)
    ensures s[0] == '0' ==> n == 0
  {
    if n < 10 then [DigitChar(n)] else Digits(n / 10) + [DigitChar(n % 10)]
  }

  /** The value a string of decimal digits denotes. */
  function DigitsValue(s: string): nat
    requires AllDigits(s)
  {
    if s == [] then 0 else DigitsValue(s[..|s| - 1]) * 10 + DigitValue(s[|s| - 1])
  }

  lemma {:induction false} DigitsValueOfDigits(n: nat)
    ensures DigitsValue(Digits(n)) == n
  {
    if n >= 10 {
      var s := Digits(n);
      assert s[..|s| - 1] == Digits(n / 10);
      DigitsValueOfDigits(n / 10);
    }
  }

  /** Integer.toString(n): a minus sign before the digits of |n| when n < 0. */
  function DecimalString(n: int): (s: string)
    ensures |s| >= 1
    ensures forall i :: 0 <= i < |s| ==> s[i] != '=' && s[i] != '&'
  {
    if n < 0 then "-" + Digits(-n) else Digits(n)
  }

  /** Integer.parseInt restricted to what DecimalString writes. */
  function ParseDecimal(s: string): Option<int> {
    if |s| >= 2 && s[0] == '-' && AllDigits(s[1..]) then Some(-(DigitsValue(s[1..]) as int))
    else if |s| >= 1 && AllDigits(s) then Some(DigitsValue(s))
    else None
  }

  lemma DecimalExamples()
    ensures DecimalString(100) == "100" && DecimalString(50) == "50"
  {
    assert Digits(1) == "1";
    assert Digits(10) == Digits(1) + "0";
    assert Digits(100) == Digits(10) + "0";
    assert Digits(5) == "5";
    assert Digits(50) == Digits(5) + "0";
  }

  lemma ParseDecimalString(n: int)
    ensures ParseDecimal(DecimalString(n)) == Some(n)
  {
    if n < 0 {
      assert DecimalString(n)[1..] == Digits(-n);
      DigitsValueOfDigits(-n);
    } else {
      DigitsValueOfDigits(n);
    }
  }
}

/** The UriEnhancer strategies: pure maps from a base URL and a spec to the
    URL actually fetched. */
module UriEnhancers {
  import opened Wrappers
  import opened ImageLoadSpecs
  import opened Decimal

  /** The two strategies shipped with the loader. */
  datatype UriEnhancer = IdentityEnhancer | ImgIXEnhancer

  function Enhance(e: UriEnhancer, url: string, spec: ImageLoadSpec): string {
    match e
    case IdentityEnhancer => IdentityEnhance(url, spec)
    case ImgIXEnhancer => ImgIXEnhance(url, spec)
  }

  /** UriEnhancerIdentity.enhance: the URL as given, whatever the spec. */
  function IdentityEnhance(url: string, spec: ImageLoadSpec): (r: string)
    ensures r == url
  {
    url
  }

  /** The character that joins the added parameters to the URL. */
  function Separator(url: string): char {
    if '?' in url then '&' else '?'
  }

  /** The imgIX `auto` parameter with its trailing '&', empty for a null format. */
  function AutoParam(format: Option<Format>): string {
    match format
    case Some(JPEG) => "auto=jpeg&"
    case Some(PNG) => "auto=png&"
    case Some(WEBP) => "auto=webp&"
    case None => ""
  }

  /** The fixed tail of every imgIX URL. */
  function SizeParams(width: int, height: int): string {
    "fit=crop&w=" + DecimalString(width) + "&h=" + DecimalString(height)
  }

  /** UriEnhancerImgIX.enhance: the URL, '?' or '&', the format, then crop
      mode, width and height. */
  function ImgIXEnhance(url: string, spec: ImageLoadSpec): (r: string)
    ensures |r| > |url| && r[..|url|] == url
    ensures r[|url|] == (if '?' in url then '&' else '?')
    ensures var t := SizeParams(spec.width, spec.height);
            |r| >= |t| && r[|r| - |t|..] == t
  {
    url + [Separator(url)] + AutoParam(spec.format)
    + "fit=crop&" + "w=" + DecimalString(spec.width) + "&" + "h=" + DecimalString(spec.height)
  }

  /** The output is exactly the URL, the separator, the format and the size part. */
  lemma ImgIXShape(url: string, spec: ImageLoadSpec)
    ensures ImgIXEnhance(url, spec) == url + [Separator(url)] + AutoParam(spec.format) + SizeParams(spec.width, spec.height)
  {
  }

  /** The input URL, query string included, is an unchanged prefix of the output. */
  lemma ImgIXKeepsUrl(url: string, spec: ImageLoadSpec)
    ensures |ImgIXEnhance(url, spec)| > |url|
    ensures ImgIXEnhance(url, spec)[..|url|] == url
  {
  }

  /** '&' follows a URL that already has a query string, '?' any other. */
  lemma ImgIXSeparator(url: string, spec: ImageLoadSpec)
    ensures ImgIXEnhance(url, spec)[|url|] == (if '?' in url then '&' else '?')
  {
  }

  /** JPEG, PNG and WEBP select auto=jpeg, auto=png and auto=webp; a null
      format goes straight on to the crop parameter. */
  lemma ImgIXFormatParam(url: string, spec: ImageLoadSpec)
    ensures var rest := ImgIXEnhance(url, spec)[|url| + 1..];
            && (spec.format == Some(JPEG) ==> rest[..10] == "auto=jpeg&")
            && (spec.format == Some(PNG) ==> rest[..9] == "auto=png&")
            && (spec.format == Some(WEBP) ==> rest[..10] == "auto=webp&")
            && (spec.format == None ==> rest[..9] == "fit=crop&")
  {
    ImgIXShape(url, spec);
    var auto := AutoParam(spec.format);
    var tail := SizeParams(spec.width, spec.height);
    assert ImgIXEnhance(url, spec)[|url| + 1..] == auto + tail;
    assert (auto + tail)[..|auto|] == auto;
    assert tail[..9] == "fit=crop&";
  }

  /** The output always ends in fit=crop&w=<width>&h=<height>. */
  lemma ImgIXEndsWithSize(url: string, spec: ImageLoadSpec)
    ensures var r := ImgIXEnhance(url, spec);
            var t := SizeParams(spec.width, spec.height);
            |r| >= |t| && r[|r| - |t|..] == t
  {
    ImgIXShape(url, spec);
  }

  lemma SizeParamsExample()
    ensures SizeParams(100, 50) == "fit=crop&w=100&h=50"
  {
    DecimalExamples();
  }

  /** The plain example URL and its enhanced form, written out in one piece. */
  lemma PlainExampleString()
    ensures "http://x/img" + "?" + "auto=jpeg&" + "fit=crop&w=100&h=50"
         == "http://x/img?auto=jpeg&fit=crop&w=100&h=50"
    ensures '?' !in "http://x/img"
  {
  }

  /** The example URL with a query string and its enhanced form, in one piece. */
  lemma QueryExampleString()
    ensures "http://x/img?a=1" + "&" + "auto=jpeg&" + "fit=crop&w=100&h=50"
         == "http://x/img?a=1&auto=jpeg&fit=crop&w=100&h=50"
    ensures "http://x/img?a=1"[12] == '?'
  {
  }

  /** A JPEG 100 x 50 spec on a URL without a query string. */
  lemma ImgIXExample()
    ensures ImgIXEnhance("http://x/img", ImageLoadSpec(100, 50, Some(JPEG), ARGB_8888))
         == "http://x/img?auto=jpeg&fit=crop&w=100&h=50"
  {
    PlainExampleString();
    SizeParamsExample();
    ImgIXShape("http://x/img", ImageLoadSpec(100, 50, Some(JPEG), ARGB_8888));
  }

  /** The same spec on a URL that already has a query string. */
  lemma ImgIXExampleWithQuery()
    ensures ImgIXEnhance("http://x/img?a=1", ImageLoadSpec(100, 50, Some(JPEG), ARGB_8888))
         == "http://x/img?a=1&auto=jpeg&fit=crop&w=100&h=50"
  {
    QueryExampleString();
    SizeParamsExample();
    ImgIXShape("http://x/img?a=1", ImageLoadSpec(100, 50, Some(JPEG), ARGB_8888));
  }

  /** The index of the last c in s. */
  function LastIndexOf(s: string, c: char): (r: Option<nat>)
    ensures r.None? ==> c !in s
    ensures r.Some? ==> r.value < |s| && s[r.value] == c && c !in s[r.value + 1..]
  {
    if s == [] then None
    else if s[|s| - 1] == c then Some(|s| - 1)
    else
      var r := LastIndexOf(s[..|s| - 1], c);
      assert r.Some? ==> s[r.value + 1..] == s[..|s| - 1][r.value + 1..] + [s[|s| - 1]];
      r
  }

  /** A c with no c after it is the last one. */
  lemma {:induction false} LastIndexOfUnique(s: string, c: char, i: nat)
    requires i < |s| && s[i] == c && c !in s[i + 1..]
    ensures LastIndexOf(s, c) == Some(i)
  {
    if i < |s| - 1 {
      assert s[i + 1..][|s| - i - 2] == s[|s| - 1];
      assert s[..|s| - 1][i + 1..] == s[i + 1..|s| - 1];
      LastIndexOfUnique(s[..|s| - 1], c, i);
    }
  }

  lemma LastIndexOfAppend(a: string, c: char, b: string)
    requires c !in b
    ensures LastIndexOf(a + [c] + b, c) == Some(|a|)
  {
    var s := a + [c] + b;
    assert s[|a| + 1..] == b;
    LastIndexOfUnique(s, c, |a|);
  }

  /** How a backend reads the requested size back out of an imgIX URL: the
      text after the last '=' is the height, the text before it must end in
      "&h", and the text after the '=' before that is the width. */
  function ImgIXSize(r: string): Option<(int, int)> {
    match LastIndexOf(r, '=')
    case None => None
    case Some(i) => SizeAround(r[..i], r[i + 1..])
  }

  function SizeAround(front: string, heightText: string): Option<(int, int)> {
    if |front| < 2 || front[|front| - 2..] != "&h" then None
    else
      var q := front[..|front| - 2];
      match LastIndexOf(q, '=')
      case None => None
      case Some(j) =>
        match (ParseDecimal(q[j + 1..]), ParseDecimal(heightText))
        case (Some(w), Some(h)) => Some((w, h))
        case _ => None
  }

  lemma SizeAroundOf(head: string, width: int, height: int)
    ensures SizeAround(head + "=" + DecimalString(width) + "&h", DecimalString(height)) == Some((width, height))
  {
    var ws := DecimalString(width);
    var front := head + "=" + ws + "&h";
    assert front[..|front| - 2] == head + "=" + ws;
    assert front[|front| - 2..] == "&h";
    assert '=' !in ws;
    LastIndexOfAppend(head, '=', ws);
    assert (head + "=" + ws)[|head| + 1..] == ws;
    ParseDecimalString(width);
    ParseDecimalString(height);
  }

  /** Reading the size back from any text that ends in "=<w>&h=<h>". */
  lemma ImgIXSizeOfTail(head: string, width: int, height: int)
    ensures ImgIXSize(head + "=" + DecimalString(width) + "&h=" + DecimalString(height)) == Some((width, height))
  {
    var front := head + "=" + DecimalString(width) + "&h";
    var hs := DecimalString(height);
    var r := front + "=" + hs;
    assert head + "=" + DecimalString(width) + "&h=" + hs == r;
    assert '=' !in hs;
    LastIndexOfAppend(front, '=', hs);
    assert r[..|front|] == front;
    assert r[|front| + 1..] == hs;
    SizeAroundOf(head, width, height);
  }

  /** Whatever the URL and format, the backend recovers exactly the spec's
      width and height from the enhanced URL. */
  lemma ImgIXSizeRoundTrip(url: string, spec: ImageLoadSpec)
    ensures ImgIXSize(ImgIXEnhance(url, spec)) == Some((spec.width, spec.height))
  {
    var head := url + [Separator(url)] + AutoParam(spec.format) + "fit=crop&w";
    assert ImgIXEnhance(url, spec) == head + "=" + DecimalString(spec.width) + "&h=" + DecimalString(spec.height);
    ImgIXSizeOfTail(head, spec.width, spec.height);
  }

  /** Identity ignores the spec. */
  lemma IdentityIgnoresSpec(url: string, a: ImageLoadSpec, b: ImageLoadSpec)
    ensures IdentityEnhance(url, a) == IdentityEnhance(url, b)
  {
  }

  /** Identity applied twice is identity applied once. */
  lemma IdentityIdempotent(url: string, spec: ImageLoadSpec)
    ensures IdentityEnhance(IdentityEnhance(url, spec), spec) == IdentityEnhance(url, spec)
  {
  }

  /** imgIX after identity is imgIX alone. */
  lemma ImgIXAfterIdentity(url: string, spec: ImageLoadSpec)
    ensures ImgIXEnhance(IdentityEnhance(url, spec), spec) == ImgIXEnhance(url, spec)
  {
  }

  /** The UriEnhancer contract both strategies honour: the original URL, with
      any query string it has, is kept as a prefix of the fetched URL. */
  lemma EnhancePreservesUrl(e: UriEnhancer, url: string, spec: ImageLoadSpec)
    ensures |Enhance(e, url, spec)| >= |url|
    ensures Enhance(e, url, spec)[..|url|] == url
  {
    if e == ImgIXEnhancer {
      ImgIXKeepsUrl(url, spec);
    }
  }
}
