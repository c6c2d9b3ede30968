/**
 * The PKCE challenge encoding: PHP computes it as
 * `rtrim(strtr(base64_encode($hash), '+/', '-_'), '=')`, i.e. standard
 * base64 with padding (section 4 of RFC 4648), the two alphabet characters
 * swapped for their URL-safe forms, then the padding trimmed.  The model
 * writes out each of the three steps and proves that together they are the
 * unpadded "base64url" encoding of section 5 of RFC 4648, as required for
 * the S256 method by section 4.2 of RFC 7636.
 */
module Base64Url {

  newtype byte = b: int | 0 <= b < 256

  /** Character `i` of the standard base64 alphabet `A-Z a-z 0-9 + /`. */
  function StdChar(i: int): (c: char)
    requires 0 <= i < 64
  {
    if i < 26 then ('A' as int + i) as char
    else if i < 52 then ('a' as int + (i - 26)) as char
    else if i < 62 then ('0' as int + (i - 52)) as char
    else if i == 62 then '+'
    else '/'
  }

  /** Character `i` of the URL-safe alphabet `A-Z a-z 0-9 - _`. */
  function UrlChar(i: int): (c: char)
    requires 0 <= i < 64
  {
    if i < 62 then StdChar(i)
    else if i == 62 then '-'
    else '_'
  }

  /** The characters of the URL-safe alphabet. */
  predicate IsUrlChar(c: char) {
    'A' <= c <= 'Z' || 'a' <= c <= 'z' || '0' <= c <= '9' || c == '-' || c == '_'
  }

  lemma UrlCharIsUrlChar(i: int)
    requires 0 <= i < 64
    ensures IsUrlChar(UrlChar(i)) && UrlChar(i) != '='
  {
  }

  /** The four characters that encode the 24 bits `b0 b1 b2`. */
  function Quad(url: bool, b0: byte, b1: byte, b2: byte): (q: string)
    ensures |q| == 4
  {
    var i0, i1 := b0 as int / 4, (b0 as int % 4) * 16 + b1 as int / 16;
    var i2, i3 := (b1 as int % 16) * 4 + b2 as int / 64, b2 as int % 64;
    if url then [UrlChar(i0), UrlChar(i1), UrlChar(i2), UrlChar(i3)]
    else [StdChar(i0), StdChar(i1), StdChar(i2), StdChar(i3)]
  }

  /** PHP `base64_encode`: standard alphabet, `=` padding to a multiple of four. */
  function Encode(bytes: seq<byte>): (s: string)
    ensures |s| == 4 * ((|bytes| + 2) / 3)
  {
    if |bytes| == 0 then ""
    else if |bytes| == 1 then Quad(false, bytes[0], 0, 0)[..2] + "=="
    else if |bytes| == 2 then Quad(false, bytes[0], bytes[1], 0)[..3] + "="
    else Quad(false, bytes[0], bytes[1], bytes[2]) + Encode(bytes[3..])
  }

  /** The character substitution of PHP `strtr($s, '+/', '-_')`. */
  function TranslateChar(c: char): char {
    if c == '+' then '-' else if c == '/' then '_' else c
  }

  /** PHP `strtr($s, '+/', '-_')`. */
  function Translate(s: string): (t: string)
    ensures |t| == |s|
  {
    if s == [] then []
    else [TranslateChar(s[0])] + Translate(s[1..])
  }

  /** PHP `rtrim($s, '=')`. */
  function TrimPadding(s: string): string
    decreases |s|
  {
    if s != [] && s[|s| - 1] == '=' then TrimPadding(s[..|s| - 1]) else s
  }

  /** The challenge encoding exactly as the server computes it. */
  function EncodeChallenge(digest: seq<byte>): (s: string)
    ensures |s| == (4 * |digest| + 2) / 3
    ensures forall i :: 0 <= i < |s| ==> IsUrlChar(s[i])
  {
    TranslateEncode(digest);
    TrimAfterUrlText(EncodeUnpadded(digest), Padding(|digest|));
    TrimPadding(Translate(Encode(digest)))
  }

  /** Reference definition: base64url without padding, section 5 of RFC 4648. */
  function EncodeUnpadded(bytes: seq<byte>): (s: string)
    ensures |s| == (4 * |bytes| + 2) / 3
    ensures forall i :: 0 <= i < |s| ==> IsUrlChar(s[i])
  {
    if |bytes| == 0 then ""
    else if |bytes| == 1 then Quad(true, bytes[0], 0, 0)[..2]
    else if |bytes| == 2 then Quad(true, bytes[0], bytes[1], 0)[..3]
    else Quad(true, bytes[0], bytes[1], bytes[2]) + EncodeUnpadded(bytes[3..])
  }

  /** The padding `base64_encode` appends for an input of `n` bytes. */
  function Padding(n: nat): string {
    if n % 3 == 1 then "==" else if n % 3 == 2 then "=" else ""
  }

  lemma {:induction false} TranslateAt(s: string)
    ensures forall i :: 0 <= i < |s| ==> Translate(s)[i] == TranslateChar(s[i])
    decreases |s|
  {
    if s != [] {
      TranslateAt(s[1..]);
    }
  }

  lemma TranslateAppend(a: string, b: string)
    ensures Translate(a + b) == Translate(a) + Translate(b)
  {
    TranslateAt(a + b);
    TranslateAt(a);
    TranslateAt(b);
  }

  lemma TranslateStdChar(i: int)
    requires 0 <= i < 64
    ensures TranslateChar(StdChar(i)) == UrlChar(i)
  {
  }

  lemma TranslateQuad(b0: byte, b1: byte, b2: byte)
    ensures Translate(Quad(false, b0, b1, b2)) == Quad(true, b0, b1, b2)
  {
    forall i | 0 <= i < 64 ensures TranslateChar(StdChar(i)) == UrlChar(i) {
      TranslateStdChar(i);
    }
    TranslateAt(Quad(false, b0, b1, b2));
  }

  /** The alphabet swap of a final, padded group. */
  lemma TranslateLastGroup(b0: byte, b1: byte, k: nat, pad: string)
    requires 2 <= k <= 3 && pad == Padding(k - 1)
    ensures Translate(Quad(false, b0, b1, 0)[..k] + pad) == Quad(true, b0, b1, 0)[..k] + pad
  {
    TranslateQuad(b0, b1, 0);
    var s := Quad(false, b0, b1, 0)[..k] + pad;
    TranslateAt(s);
    TranslateAt(Quad(false, b0, b1, 0));
    assert forall i :: k <= i < |s| ==> s[i] == '=';
  }

  lemma EncodeGroup(bytes: seq<byte>)
    requires |bytes| > 2
    ensures Encode(bytes) == Quad(false, bytes[0], bytes[1], bytes[2]) + Encode(bytes[3..])
    ensures EncodeUnpadded(bytes) == Quad(true, bytes[0], bytes[1], bytes[2]) + EncodeUnpadded(bytes[3..])
    ensures Padding(|bytes| - 3) == Padding(|bytes|)
  {
  }

  lemma TranslateConcat(q: string, u: string, e: string, v: string, p: string)
    requires Translate(q) == u && Translate(e) == v + p
    ensures Translate(q + e) == (u + v) + p
  {
    TranslateAppend(q, e);
    assert u + (v + p) == (u + v) + p;
  }

  /** One full group followed by the rest of the input. */
  lemma TranslateEncodeStep(bytes: seq<byte>)
    requires |bytes| > 2
    requires Translate(Encode(bytes[3..])) == EncodeUnpadded(bytes[3..]) + Padding(|bytes| - 3)
    ensures Translate(Encode(bytes)) == EncodeUnpadded(bytes) + Padding(|bytes|)
  {
    EncodeGroup(bytes);
    TranslateQuad(bytes[0], bytes[1], bytes[2]);
    TranslateConcat(Quad(false, bytes[0], bytes[1], bytes[2]), Quad(true, bytes[0], bytes[1], bytes[2]),
      Encode(bytes[3..]), EncodeUnpadded(bytes[3..]), Padding(|bytes|));
  }

  /** Swapping the alphabet of the padded encoding gives the unpadded encoding plus the padding. */
  lemma {:induction false} TranslateEncode(bytes: seq<byte>)
    ensures Translate(Encode(bytes)) == EncodeUnpadded(bytes) + Padding(|bytes|)
    decreases |bytes|
  {
    if |bytes| == 0 {
    } else if |bytes| == 1 {
      TranslateLastGroup(bytes[0], 0, 2, "==");
    } else if |bytes| == 2 {
      TranslateLastGroup(bytes[0], bytes[1], 3, "=");
    } else {
      TranslateEncode(bytes[3..]);
      TranslateEncodeStep(bytes);
    }
  }

  /** Trimming removes exactly the padding when the text before it has no `=`. */
  lemma TrimAfterUrlText(x: string, pad: string)
    requires pad == "" || pad == "=" || pad == "=="
    requires forall i :: 0 <= i < |x| ==> IsUrlChar(x[i])
    ensures TrimPadding(x + pad) == x
  {
    assert x == [] || x[|x| - 1] != '=' by {
      if x != [] { assert IsUrlChar(x[|x| - 1]); }
    }
    assert TrimPadding(x) == x;
    if pad == "==" {
      assert (x + pad)[..|x| + 1] == x + "=";
      assert (x + "=")[..|x|] == x;
      assert TrimPadding(x + "=") == x;
    } else if pad == "=" {
      assert (x + pad)[..|x|] == x;
    } else {
      assert x + pad == x;
    }
  }

  /**
   * The server's three-step computation is base64url without padding:
   * the challenge is `ceil(4n/3)` URL-safe characters (43 for a SHA-256 digest).
   */
  lemma EncodeChallengeIsUnpaddedBase64Url(digest: seq<byte>)
    ensures EncodeChallenge(digest) == EncodeUnpadded(digest)
    ensures |EncodeChallenge(digest)| == (4 * |digest| + 2) / 3
    ensures forall i :: 0 <= i < |EncodeChallenge(digest)| ==> IsUrlChar(EncodeChallenge(digest)[i])
  {
    TranslateEncode(digest);
    TrimAfterUrlText(EncodeUnpadded(digest), Padding(|digest|));
  }
}
