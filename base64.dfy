/**
 * Base 64 as defined by RFC 4648: the split of bytes into 6-bit groups
 * (section 4), the standard alphabet (section 4), the URL and filename safe
 * alphabet (section 5), and the decoder the browser offers as `window.atob`,
 * which is the "forgiving-base64 decode" algorithm of the WHATWG Infra
 * standard.
 */
module Base64 {
  import opened Wrappers

  type Byte = b: int | 0 <= b < 256
  type Sextet = v: int | 0 <= v < 64

  /** The exception `atob` throws on input it cannot decode. */
  datatype DomException = InvalidCharacterError

  // ---------------------------------------------------------------------
  // 6-bit groups (RFC 4648, section 4)
  // ---------------------------------------------------------------------

  /**
   * Splits the bytes into 24-bit groups, each read as four 6-bit values; a
   * final group of one or two bytes is filled with zero bits and gives two or
   * three values (the padding characters are not part of this sequence).
   */
  function Sextets(b: seq<Byte>): (s: seq<Sextet>)
    ensures |s| % 4 != 1
  {
    if |b| == 0 then []
    else if |b| == 1 then [b[0] / 4, (b[0] % 4) * 16]
    else if |b| == 2 then [b[0] / 4, (b[0] % 4) * 16 + b[1] / 16, (b[1] % 16) * 4]
    else [b[0] / 4, (b[0] % 4) * 16 + b[1] / 16, (b[1] % 16) * 4 + b[2] / 64, b[2] % 64]
         + Sextets(b[3..])
  }

  /**
   * Joins 6-bit values back into bytes, four values to three bytes; a final
   * group of two or three values gives one or two bytes and its left-over
   * low bits are discarded. A final group of one value carries no whole byte
   * and is not accepted.
   */
  function SextetsToBytes(s: seq<Sextet>): (b: seq<Byte>)
    requires |s| % 4 != 1
    ensures 4 * |b| <= 3 * |s| < 4 * |b| + 4
  {
    if |s| == 0 then []
    else if |s| == 2 then [First(s[0], s[1])]
    else if |s| == 3 then [First(s[0], s[1]), Second(s[1], s[2])]
    else [First(s[0], s[1]), Second(s[1], s[2]), Third(s[2], s[3])] + SextetsToBytes(s[4..])
  }

  /** n bytes give ceil(4n/3) values, four per whole group of three bytes. */
  lemma {:induction false} SextetsLength(b: seq<Byte>)
    ensures |Sextets(b)| == (4 * |b| + 2) / 3
  {
    if |b| >= 3 {
      SextetsLength(b[3..]);
    }
  }

  /** The three bytes a group of four 6-bit values carries. */
  function First(s0: Sextet, s1: Sextet): Byte { s0 as int * 4 + s1 as int / 16 }
  function Second(s1: Sextet, s2: Sextet): Byte { (s1 as int % 16) * 16 + s2 as int / 4 }
  function Third(s2: Sextet, s3: Sextet): Byte { (s2 as int % 4) * 64 + s3 as int }

  lemma GroupRoundTrip(b0: Byte, b1: Byte, b2: Byte)
    ensures var s1 := (b0 % 4) * 16 + b1 / 16;
            var s2 := (b1 % 16) * 4 + b2 / 64;
            && First(b0 / 4, s1) == b0
            && Second(s1, s2) == b1
            && Third(s2, b2 % 64) == b2
  {
  }

  /** Joining the groups of a byte sequence gives back that byte sequence. */
  lemma {:induction false} SextetsRoundTrip(b: seq<Byte>)
    ensures SextetsToBytes(Sextets(b)) == b
  {
    if |b| == 1 {
      GroupRoundTrip(b[0], 0, 0);
    } else if |b| == 2 {
      GroupRoundTrip(b[0], b[1], 0);
    } else if |b| >= 3 {
      var s := Sextets(b);
      GroupRoundTrip(b[0], b[1], b[2]);
      assert s[4..] == Sextets(b[3..]);
      SextetsRoundTrip(b[3..]);
      assert b == b[..3] + b[3..];
    }
  }

  // ---------------------------------------------------------------------
  // Alphabets (RFC 4648, sections 4 and 5)
  // ---------------------------------------------------------------------

  /** The characters of the standard alphabet: A-Z, a-z, 0-9, '+' and '/'. */
  predicate IsBase64Char(c: char) {
    ('A' <= c <= 'Z') || ('a' <= c <= 'z') || ('0' <= c <= '9') || c == '+' || c == '/'
  }

  /** The value a character of the standard alphabet encodes. */
  function StdValue(c: char): (v: Sextet)
    requires IsBase64Char(c)
    ensures c == '+' <==> v == 62
    ensures c == '/' <==> v == 63
  {
    if 'A' <= c <= 'Z' then c as int - 'A' as int
    else if 'a' <= c <= 'z' then c as int - 'a' as int + 26
    else if '0' <= c <= '9' then c as int - '0' as int + 52
    else if c == '+' then 62
    else 63
  }

  /** The character of the standard alphabet that encodes `v`. */
  function StdChar(v: Sextet): (c: char)
    ensures IsBase64Char(c) && StdValue(c) == v
  {
    if v < 26 then ('A' as int + v) as char
    else if v < 52 then ('a' as int + v - 26) as char
    else if v < 62 then ('0' as int + v - 52) as char
    else if v == 62 then '+'
    else '/'
  }

  /** Every character of the standard alphabet is the encoding of its value. */
  lemma StdCharOfValue(c: char)
    requires IsBase64Char(c)
    ensures StdChar(StdValue(c)) == c
  {
  }

  /** The character of the URL and filename safe alphabet that encodes `v`. */
  function UrlChar(v: Sextet): (c: char)
    ensures v == 62 ==> c == '-'
    ensures v == 63 ==> c == '_'
    ensures v < 62 ==> c == StdChar(v)
    ensures c != '+' && c != '/' && c != '='
  {
    if v == 62 then '-' else if v == 63 then '_' else StdChar(v)
  }

  /** The standard-alphabet characters encoding `s`, without padding. */
  function StdChars(s: seq<Sextet>): (t: string)
    ensures |t| == |s|
    ensures forall i :: 0 <= i < |t| ==> IsBase64Char(t[i]) && StdValue(t[i]) == s[i]
  {
    seq(|s|, i requires 0 <= i < |s| => StdChar(s[i]))
  }

  /**
   * The base64url encoding of `b` (RFC 4648, section 5) with the padding
   * omitted, as section 3.2 of RFC 4648 permits and as VAPID public keys are
   * published.
   */
  function UrlSafeEncode(b: seq<Byte>): (t: string)
    ensures |t| == |Sextets(b)| == (4 * |b| + 2) / 3
    ensures forall i :: 0 <= i < |t| ==> t[i] == UrlChar(Sextets(b)[i])
  {
    var s := Sextets(b);
    SextetsLength(b);
    seq(|s|, i requires 0 <= i < |s| => UrlChar(s[i]))
  }

  // ---------------------------------------------------------------------
  // window.atob: the forgiving-base64 decode algorithm of the WHATWG Infra standard
  // ---------------------------------------------------------------------

  /** TAB, LF, FF, CR and SPACE. */
  predicate IsAsciiWhitespace(c: char) {
    c == '\t' || c == '\n' || c == '\U{000C}' || c == '\r' || c == ' '
  }

  /** The string with every ASCII whitespace character removed. */
  function StripAsciiWhitespace(s: string): (r: string)
    ensures |r| <= |s|
    ensures forall i :: 0 <= i < |r| ==> !IsAsciiWhitespace(r[i])
  {
    if s == [] then []
    else if IsAsciiWhitespace(s[0]) then StripAsciiWhitespace(s[1..])
    else [s[0]] + StripAsciiWhitespace(s[1..])
  }

  /** Whitespace removal changes nothing in a string without whitespace. */
  lemma {:induction false} StripWithoutWhitespace(s: string)
    requires forall i :: 0 <= i < |s| ==> !IsAsciiWhitespace(s[i])
    ensures StripAsciiWhitespace(s) == s
  {
    if s != [] {
      StripWithoutWhitespace(s[1..]);
    }
  }

  /** Whitespace removal works piece by piece. */
  lemma {:induction false} StripConcat(s: string, t: string)
    ensures StripAsciiWhitespace(s + t) == StripAsciiWhitespace(s) + StripAsciiWhitespace(t)
  {
    if s == [] {
      assert s + t == t;
    } else {
      assert (s + t)[1..] == s[1..] + t;
      StripConcat(s[1..], t);
    }
  }

  /**
   * When the length is a multiple of four, removes one or two trailing '='
   * characters (two when there are two); otherwise leaves the string alone.
   */
  function DropPadding(d: string): (r: string)
    ensures |d| - 2 <= |r| <= |d| && r == d[..|r|]
    ensures |d| % 4 != 0 ==> r == d
    ensures forall i :: |r| <= i < |d| ==> d[i] == '='
    ensures |d| % 4 == 0 && |r| == |d| - 1 ==> |d| < 2 || d[|d| - 2] != '='
    ensures |d| % 4 == 0 && |r| == |d| && |d| > 0 ==> d[|d| - 1] != '='
  {
    if |d| % 4 == 0 && |d| >= 2 && d[|d| - 2] == '=' && d[|d| - 1] == '=' then d[..|d| - 2]
    else if |d| % 4 == 0 && |d| >= 1 && d[|d| - 1] == '=' then d[..|d| - 1]
    else d
  }

  predicate AllBase64(d: string) {
    forall i :: 0 <= i < |d| ==> IsBase64Char(d[i])
  }

  /**
   * The last steps of the decode, on a string already stripped of whitespace
   * and padding: a length that leaves remainder 1 modulo 4, or any character
   * outside the standard alphabet, is rejected; otherwise the characters'
   * values are joined into bytes.
   */
  function DecodeStripped(d: string): (r: Result<seq<Byte>, DomException>)
    ensures r.Success? ==> 4 * |r.value| <= 3 * |d|
  {
    if |d| % 4 == 1 then Failure(InvalidCharacterError)
    else if !AllBase64(d) then Failure(InvalidCharacterError)
    else
      var v := seq(|d|, i requires 0 <= i < |d| => StdValue(d[i]));
      Success(SextetsToBytes(v))
  }

  /**
   * The bytes `atob` decodes `data` to, or the exception it throws: ASCII
   * whitespace is removed, then the padding, then the rest is decoded.
   */
  function ForgivingDecode(data: string): (r: Result<seq<Byte>, DomException>)
    ensures r.Success? ==> |r.value| <= 3 * |data| / 4
  {
    DecodeStripped(DropPadding(StripAsciiWhitespace(data)))
  }

  /**
   * `window.atob`: the decoded bytes as a "binary string", one character per
   * byte, each character's code being that byte.
   */
  function Atob(data: string): (r: Result<string, DomException>)
    ensures r.Success? <==> ForgivingDecode(data).Success?
    ensures r.Failure? ==> r.error == ForgivingDecode(data).error
    ensures r.Success? ==> |r.value| == |ForgivingDecode(data).value|
    ensures r.Success? ==> forall i :: 0 <= i < |r.value| ==>
              r.value[i] as int == ForgivingDecode(data).value[i] < 256
  {
    match ForgivingDecode(data)
    case Failure(e) => Failure(e)
    case Success(b) => Success(seq(|b|, i requires 0 <= i < |b| => b[i] as char))
  }

  /** Standard-alphabet characters followed by '=' contain no whitespace. */
  lemma CanonicalHasNoWhitespace(t: string, p: nat)
    requires AllBase64(t)
    ensures StripAsciiWhitespace(t + seq(p, _ => '=')) == t + seq(p, _ => '=')
  {
    var e := t + seq(p, _ => '=');
    forall i | 0 <= i < |e| ensures !IsAsciiWhitespace(e[i]) {
      if i < |t| { assert e[i] == t[i]; } else { assert e[i] == '='; }
    }
    StripWithoutWhitespace(e);
  }

  /** Padding removal takes off exactly the '=' characters of a canonical encoding. */
  lemma CanonicalPadding(t: string, p: nat)
    requires AllBase64(t) && |t| % 4 != 1 && p < 4 && (|t| + p) % 4 == 0
    ensures DropPadding(t + seq(p, _ => '=')) == t
  {
    var n := |t|;
    var last := if n > 0 then t[n - 1] else 'A';
    assert last != '=' by {
      if n > 0 { assert IsBase64Char(t[n - 1]); }
    }
    if p == 0 {
      assert t + seq(p, _ => '=') == t;
    } else if p == 1 {
      assert seq(p, _ => '=') == "=";
      var e := t + "=";
      assert |e| % 4 == 0 && n >= 3;
      assert e[n] == '=' && e[n - 1] == last;
      assert e[..n] == t;
    } else {
      assert seq(p, _ => '=') == "==";
      var e := t + "==";
      assert |e| % 4 == 0;
      assert e[n] == '=' && e[n + 1] == '=';
      assert e[..n] == t;
    }
  }

  /**
   * On a canonical encoding (standard alphabet, '=' padding up to a multiple
   * of four, no whitespace) the forgiving decoder agrees with RFC 4648,
   * section 4: it yields exactly the bytes the 6-bit groups carry.
   */
  lemma CanonicalDecode(s: seq<Sextet>, p: nat)
    requires |s| % 4 != 1 && p < 4 && (|s| + p) % 4 == 0
    ensures ForgivingDecode(StdChars(s) + seq(p, _ => '=')) == Success(SextetsToBytes(s))
  {
    var d := StdChars(s);
    var e := d + seq(p, _ => '=');
    CanonicalHasNoWhitespace(d, p);
    CanonicalPadding(d, p);
    assert DropPadding(StripAsciiWhitespace(e)) == d;
    StandardCharsDecode(s);
  }

  /** Standard-alphabet text of a group sequence decodes to the bytes the groups carry. */
  lemma StandardCharsDecode(s: seq<Sextet>)
    requires |s| % 4 != 1
    ensures DecodeStripped(StdChars(s)) == Success(SextetsToBytes(s))
  {
    var d := StdChars(s);
    assert AllBase64(d);
    var v := seq(|d|, i requires 0 <= i < |d| => StdValue(d[i]));
    assert v == s;
  }
}
