/**
 * The short-code generator and the URL validity gate.
 * Math.random is replaced by a supplied sequence of draws: each draw is the index
 * Math.floor(Math.random() * 62) would have produced.
 */
module ShortCode {

  /** The 62 symbols, in the order the generator indexes them: A-Z, then a-z, then 0-9. */
  const Alphabet: string := Upper + Lower + Digits

  const Upper: string := "ABCDEFGHIJKLMNOPQRSTUVWXYZ"
  const Lower: string := "abcdefghijklmnopqrstuvwxyz"
  const Digits: string := "0123456789"

  /** Number of characters in every generated code. */
  const CodeLength: nat := 6

  /** One random draw: a position in Alphabet. */
  type Draw = i: int | 0 <= i < 62

  predicate IsAlphanumeric(c: char)
  {
    'A' <= c <= 'Z' || 'a' <= c <= 'z' || '0' <= c <= '9'
  }

  /** A well-formed code: six characters from A-Z, a-z and 0-9. */
  predicate IsShortCode(s: string)
  {
    |s| == CodeLength && forall c :: c in s ==> IsAlphanumeric(c)
  }

  lemma UpperRange(i: int)
    requires 0 <= i < |Upper|
    ensures 'A' <= Upper[i] <= 'Z'
  {
  }

  lemma LowerRange(i: int)
    requires 0 <= i < |Lower|
    ensures 'a' <= Lower[i] <= 'z'
  {
  }

  lemma DigitRange(i: int)
    requires 0 <= i < |Digits|
    ensures '0' <= Digits[i] <= '9'
  {
  }

  lemma AlphabetIsAlphanumeric()
    ensures |Alphabet| == 62
    ensures forall i :: 0 <= i < |Alphabet| ==> IsAlphanumeric(Alphabet[i])
  {
    forall i | 0 <= i < |Alphabet|
      ensures IsAlphanumeric(Alphabet[i])
    {
      if i < 26 {
        UpperRange(i);
        assert Alphabet[i] == Upper[i];
      } else if i < 52 {
        LowerRange(i - 26);
        assert Alphabet[i] == Lower[i - 26];
      } else {
        DigitRange(i - 52);
        assert Alphabet[i] == Digits[i - 52];
      }
    }
  }

  /** The characters that a sequence of draws selects, in order. */
  function Spell(ds: seq<Draw>): (s: string)
    ensures |s| == |ds|
    ensures forall i :: 0 <= i < |ds| ==> s[i] == Alphabet[ds[i]]
  {
    if ds == [] then "" else Spell(ds[..|ds| - 1]) + [Alphabet[ds[|ds| - 1]]]
  }

  /** generateShortCode: append one alphabet character per draw, six times. */
  method GenerateShortCode(draws: seq<Draw>) returns (code: string)
    requires |draws| >= CodeLength
    ensures code == Spell(draws[..CodeLength])
    ensures IsShortCode(code)
  {
    code := "";
    for i := 0 to CodeLength
      invariant code == Spell(draws[..i])
    {
      assert draws[..i + 1][..i] == draws[..i];
      code := code + [Alphabet[draws[i]]];
    }
    AlphabetIsAlphanumeric();
  }

  predicate StartsWith(s: string, prefix: string)
  {
    |prefix| <= |s| && s[..|prefix|] == prefix
  }

  /** isValidUrl: a plain prefix test, nothing after the scheme is examined. */
  predicate IsValidUrl(url: string)
  {
    StartsWith(url, "http://") || StartsWith(url, "https://")
  }

  /** Whatever follows the scheme, the URL is accepted. */
  lemma {:induction false} ValidUrlAcceptsAnyRest(rest: string)
    ensures IsValidUrl("http://" + rest)
    ensures IsValidUrl("https://" + rest)
  {
    assert ("http://" + rest)[..7] == "http://";
    assert ("https://" + rest)[..8] == "https://";
  }

  /** Conversely, an accepted URL is one of the two schemes followed by something. */
  lemma ValidUrlHasScheme(url: string)
    requires IsValidUrl(url)
    ensures url == "http://" + url[7..] || url == "https://" + url[8..]
  {
    if StartsWith(url, "http://") {
      assert url == url[..7] + url[7..];
    } else {
      assert url == url[..8] + url[8..];
    }
  }

  /** A URL not beginning with "http" is rejected; so is one shorter than "http://". */
  lemma ValidUrlNeedsHttp(url: string)
    ensures IsValidUrl(url) ==> |url| >= 7 && url[..4] == "http"
  {
    if IsValidUrl(url) {
      if StartsWith(url, "http://") {
        assert url[..4] == url[..7][..4];
      } else {
        assert url[..4] == url[..8][..4];
      }
    }
  }

  lemma ValidUrlExamples()
    ensures !IsValidUrl("")
    ensures !IsValidUrl("ftp://x")
    ensures IsValidUrl("http://x")
    ensures IsValidUrl("https://x")
  {
    ValidUrlAcceptsAnyRest("x");
    ValidUrlNeedsHttp("ftp://x");
    assert "ftp://x"[..4] == "ftp:";
  }
}
