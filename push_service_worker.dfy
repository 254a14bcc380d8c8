/**
 * The client side of the push demo: the decoder that turns the server's
 * URL-safe base64 VAPID public key into the byte array the push manager
 * expects (`urlBase64ToUint8Array`), and the hand-over of a subscription to
 * the push server (`registerPushServer`).
 */
module PushServiceWorker {
  import opened Wrappers
  import opened Base64

  // ---------------------------------------------------------------------
  // Padding
  // ---------------------------------------------------------------------

  /**
   * How many '=' characters bring a string of length `n` up to a multiple
   * of four: the unique count below four that does so.
   */
  function PaddingLength(n: nat): (p: nat)
    ensures p <= 3
    ensures (n + p) % 4 == 0
    ensures n % 4 == 0 ==> p == 0
  {
    (4 - n % 4) % 4
  }

  /** `c.repeat(n)`: the string of `n` copies of `c`. */
  function Repeat(c: char, n: nat): (r: string)
    ensures |r| == n
    ensures forall i :: 0 <= i < n ==> r[i] == c
  {
    if n == 0 then [] else [c] + Repeat(c, n - 1)
  }

  /**
   * The input followed by the padding: the shortest extension of
   * `base64String` by '=' characters whose length is a multiple of four.
   */
  function Pad(base64String: string): (r: string)
    ensures |r| % 4 == 0
    ensures |base64String| <= |r| < |base64String| + 4
    ensures |r| == |base64String| + PaddingLength(|base64String|)
    ensures r[..|base64String|] == base64String
    ensures forall i :: |base64String| <= i < |r| ==> r[i] == '='
  {
    base64String + Repeat('=', PaddingLength(|base64String|))
  }

  /** Padding an already padded string adds nothing. */
  lemma PadIdempotent(s: string)
    ensures Pad(Pad(s)) == Pad(s)
  {
    var r := Pad(s);
    assert Pad(r) == r + Repeat('=', 0);
  }

  // ---------------------------------------------------------------------
  // Alphabet substitution
  // ---------------------------------------------------------------------

  /**
   * `s.replace(/x/g, y)` for a single literal character `x`: every
   * occurrence of `from` becomes `to`, everything else stays where it was.
   */
  function ReplaceAll(s: string, from: char, to: char): (r: string)
    ensures |r| == |s|
    ensures forall i :: 0 <= i < |s| ==> r[i] == (if s[i] == from then to else s[i])
  {
    if s == [] then []
    else [if s[0] == from then to else s[0]] + ReplaceAll(s[1..], from, to)
  }

  /**
   * The two chained replacements that turn the URL and filename safe
   * alphabet into the standard one: '-' becomes '+', '_' becomes '/', every
   * other character (the '=' padding included) is kept, position for position.
   */
  function ToStandardAlphabet(s: string): (r: string)
    ensures |r| == |s|
    ensures forall i :: 0 <= i < |s| && s[i] == '-' ==> r[i] == '+'
    ensures forall i :: 0 <= i < |s| && s[i] == '_' ==> r[i] == '/'
    ensures forall i :: 0 <= i < |s| && s[i] != '-' && s[i] != '_' ==> r[i] == s[i]
    ensures forall i :: 0 <= i < |r| ==> r[i] != '-' && r[i] != '_'
  {
    ReplaceAll(ReplaceAll(s, '-', '+'), '_', '/')
  }

  // ---------------------------------------------------------------------
  // urlBase64ToUint8Array
  // ---------------------------------------------------------------------

  /**
   * What `urlBase64ToUint8Array` computes: the bytes `atob` yields for the
   * padded string in the standard alphabet, or the exception it throws.
   */
  function UrlBase64ToBytes(base64String: string): (r: Result<seq<Byte>, DomException>)
    ensures r.Success? ==> 4 * |r.value| <= 3 * (|base64String| + PaddingLength(|base64String|))
  {
    ForgivingDecode(ToStandardAlphabet(Pad(base64String)))
  }

  /**
   * `urlBase64ToUint8Array`: pads, substitutes the alphabet, decodes with
   * `atob` and copies the decoded binary string into a fresh byte array.
   */
  method UrlBase64ToUint8Array(base64String: string) returns (result: Result<array<Byte>, DomException>)
    ensures result.Failure? <==> UrlBase64ToBytes(base64String).Failure?
    ensures result.Failure? ==> result.error == UrlBase64ToBytes(base64String).error
    ensures result.Success? ==> fresh(result.value)
    ensures result.Success? ==>
              result.value.Length == |Atob(ToStandardAlphabet(Pad(base64String))).value|
    ensures result.Success? ==> result.value[..] == UrlBase64ToBytes(base64String).value
  {
    var padding := Repeat('=', PaddingLength(|base64String|));
    var base64 := ToStandardAlphabet(base64String + padding);
    assert base64String + padding == Pad(base64String);
    var decoded := Atob(base64);
    if decoded.Failure? {
      return Failure(decoded.error);
    }
    var rawData := decoded.value;
    var outputArray := CopyCharCodes(rawData);
    BinaryStringCodes(base64);
    assert outputArray[..] == ForgivingDecode(base64).value;
    return Success(outputArray);
  }

  /** The character codes of `atob`'s binary string, kept modulo 256, are the decoded bytes. */
  lemma BinaryStringCodes(data: string)
    requires Atob(data).Success?
    ensures var raw, bytes := Atob(data).value, ForgivingDecode(data).value;
            |raw| == |bytes| && forall k :: 0 <= k < |raw| ==> (raw[k] as int) % 256 == bytes[k]
  {
    var bytes := ForgivingDecode(data).value;
    var raw := seq(|bytes|, i requires 0 <= i < |bytes| => bytes[i] as char);
    assert Atob(data).value == raw;
    forall k | 0 <= k < |raw| ensures (raw[k] as int) % 256 == bytes[k] {
      assert raw[k] as int == bytes[k];
    }
  }

  /**
   * The allocation and copy loop of `urlBase64ToUint8Array`: a fresh
   * `Uint8Array` as long as `rawData`, element `i` set to the code of
   * character `i`. A `Uint8Array` stores a number modulo 256.
   */
  method CopyCharCodes(rawData: string) returns (outputArray: array<Byte>)
    ensures fresh(outputArray)
    ensures outputArray.Length == |rawData|
    ensures forall i :: 0 <= i < |rawData| ==> outputArray[i] == (rawData[i] as int) % 256
  {
    outputArray := new Byte[|rawData|];
    for i := 0 to |rawData|
      invariant forall k :: 0 <= k < i ==> outputArray[k] == (rawData[k] as int) % 256
    {
      outputArray[i] := (rawData[i] as int) % 256;
    }
  }

  // ---------------------------------------------------------------------
  // Round trip with the base64url encoder
  // ---------------------------------------------------------------------

  /**
   * With padding added and the alphabet changed, the unpadded base64url
   * encoding of `b` becomes the canonical standard encoding of `b`.
   */
  lemma {:induction false} PaddedStandardForm(b: seq<Byte>)
    ensures ToStandardAlphabet(Pad(UrlSafeEncode(b)))
         == StdChars(Sextets(b)) + seq(PaddingLength(|Sextets(b)|), _ => '=')
  {
    var s := Sextets(b);
    var u := UrlSafeEncode(b);
    var lhs := ToStandardAlphabet(Pad(u));
    var rhs := StdChars(s) + seq(PaddingLength(|s|), _ => '=');
    assert |lhs| == |rhs|;
    forall i | 0 <= i < |lhs| ensures lhs[i] == rhs[i] {
      if i < |u| {
        assert Pad(u)[i] == u[i] == UrlChar(s[i]);
        assert rhs[i] == StdChar(s[i]);
      } else {
        assert Pad(u)[i] == '=';
        assert rhs[i] == '=';
      }
    }
  }

  /**
   * What the decoder promises: for every byte sequence, decoding its
   * unpadded base64url encoding yields that byte sequence.
   */
  lemma {:induction false} RoundTrip(b: seq<Byte>)
    ensures UrlBase64ToBytes(UrlSafeEncode(b)) == Success(b)
  {
    var s := Sextets(b);
    PaddedStandardForm(b);
    CanonicalDecode(s, PaddingLength(|s|));
    SextetsRoundTrip(b);
  }

  /** A base64url encoding that already carries its '=' padding decodes alike. */
  lemma RoundTripPadded(b: seq<Byte>)
    ensures UrlBase64ToBytes(Pad(UrlSafeEncode(b))) == Success(b)
  {
    PadIdempotent(UrlSafeEncode(b));
    RoundTrip(b);
  }

  /**
   * A string whose length leaves remainder 1 modulo 4 encodes no whole
   * number of bytes: padding appends three '=', of which `atob` removes at
   * most two, and the '=' left over makes it throw.
   */
  lemma ResidueOneRejected(s: string)
    requires |s| % 4 == 1
    ensures UrlBase64ToBytes(s).Failure?
  {
    var std := ToStandardAlphabet(s);
    var e := ToStandardAlphabet(Pad(s));
    assert e == std + "===" by {
      assert |e| == |s| + 3;
      forall i | 0 <= i < |e| ensures e[i] == (std + "===")[i] {
        if i < |s| { assert Pad(s)[i] == s[i]; } else { assert Pad(s)[i] == '='; }
      }
    }
    StripConcat(std, "===");
    StripWithoutWhitespace("===");
    TrailingEqualsRejected(StripAsciiWhitespace(std));
  }

  /** Whatever comes before it, a run of three '=' leaves an '=' that the decode rejects. */
  lemma TrailingEqualsRejected(w: string)
    ensures DecodeStripped(DropPadding(w + "===")).Failure?
  {
    var stripped := w + "===";
    var d := DropPadding(stripped);
    assert stripped[|w|] == '=';
    assert |w| < |d| && d[|w|] == '=';
    assert !IsBase64Char(d[|w|]);
  }

  // ---------------------------------------------------------------------
  // registerPushServer
  // ---------------------------------------------------------------------

  /** The POST request `registerPushServer` sends to the push server. */
  datatype RegisterRequest<T> = RegisterRequest(httpMethod: string, url: string, contentType: string, subscription: T)

  /**
   * `registerPushServer`: sends the subscription, as the `subscription`
   * member of a JSON body, to the server's `/register` endpoint without
   * waiting for the answer, and hands the subscription on unchanged.
   */
  method RegisterPushServer<T>(pushServer: string, pushSubscription: T)
    returns (request: RegisterRequest<T>, r: T)
    ensures r == pushSubscription
    ensures request.subscription == pushSubscription
    ensures request.httpMethod == "post"
    ensures request.url == pushServer + "/register"
    ensures request.contentType == "application/json"
  {
    request := RegisterRequest("post", pushServer + "/register", "application/json", pushSubscription);
    r := pushSubscription;
  }
}
