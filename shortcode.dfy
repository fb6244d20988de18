/** Short-code generation. The digest, the short-ID encoding and the base64 encoding
    are foreign library calls and come in as a `Codec`; the message that is hashed,
    the choice of the first four digest bytes and the length clamp are modelled. */
module ShortCode {
  import opened Domain

  /** How many salt indices Shorten tries. */
  const MaxRetries: nat := 10
  /** The target length of a short code. */
  const ShortCodeLength: nat := 7

  newtype byte = x: int | 0 <= x < 256

  /** A SHA-256 digest. */
  type Digest = d: seq<byte> | |d| == 32 witness seq(32, _ => 0 as byte)

  /** An encoding by the short-ID encoder configured with minimum length ShortCodeLength. */
  type Hashid = s: string | |s| >= ShortCodeLength witness "0000000"

  /** The padded URL-safe base64 text of a 32-byte digest. */
  type Base64Text = s: string | |s| == 44 witness seq(44, _ => 'A')

  /** The foreign encoders: `hashids` answers None when the encoder reports an error. */
  datatype Codec = Codec(
    sha256: string -> Digest,
    hashids: seq<nat> -> Option<Hashid>,
    base64url: Digest -> Base64Text)

  predicate IsDigits(s: string) {
    forall i :: 0 <= i < |s| ==> '0' <= s[i] <= '9'
  }

  function Digit(d: nat): char
    requires d < 10
  {
    ('0' as int + d) as char
  }

  /** The decimal numeral of `n`, as `%d` writes it. */
  function Decimal(n: nat): (s: string)
    ensures |s| >= 1 && IsDigits(s)
    decreases n
  {
    if n < 10 then [Digit(n)] else Decimal(n / 10) + [Digit(n % 10)]
  }

  /** The number a decimal numeral denotes. */
  function DecimalValue(s: string): nat
    requires IsDigits(s)
    decreases |s|
  {
    if s == [] then 0
    else DecimalValue(s[..|s| - 1]) * 10 + (s[|s| - 1] as int - '0' as int)
  }

  /** Reading back a numeral gives the number written. */
  lemma {:induction false} DecimalRoundTrip(n: nat)
    ensures DecimalValue(Decimal(n)) == n
    decreases n
  {
    if n >= 10 {
      DecimalRoundTrip(n / 10);
      var s := Decimal(n);
      assert s[..|s| - 1] == Decimal(n / 10);
    }
  }

  /** The message hashed for attempt `salt`: the URL, a dash, the salt in decimal. */
  function HashInput(url: string, salt: nat): string {
    url + "-" + Decimal(salt)
  }

  /** The message is the URL, a dash, and a numeral that reads back as the salt. */
  lemma HashInputLayout(url: string, salt: nat)
    ensures var x := HashInput(url, salt);
      && |x| > |url| + 1 && x[..|url|] == url && x[|url|] == '-'
      && IsDigits(x[|url| + 1..]) && DecimalValue(x[|url| + 1..]) == salt
  {
    var x := HashInput(url, salt);
    assert x[|url| + 1..] == Decimal(salt);
    DecimalRoundTrip(salt);
  }

  /** Distinct (URL, salt) pairs give distinct messages to hash, so each retry of one
      URL hashes something new. */
  lemma HashInputInjective(url1: string, salt1: nat, url2: string, salt2: nat)
    requires HashInput(url1, salt1) == HashInput(url2, salt2)
    ensures url1 == url2 && salt1 == salt2
  {
    var d1, d2 := Decimal(salt1), Decimal(salt2);
    var x := HashInput(url1, salt1);
    assert x == url1 + "-" + d1 && x == url2 + "-" + d2;
    // the dash before each numeral; the one before the shorter numeral would
    // otherwise fall inside the longer numeral, which holds digits only
    assert x[|x| - |d1| - 1] == '-' && x[|x| - |d2| - 1] == '-';
    if |d1| != |d2| {
      assert false;
    }
    assert url1 == x[..|url1|] == url2;
    assert d1 == x[|url1| + 1..] == d2;
    DecimalRoundTrip(salt1);
    DecimalRoundTrip(salt2);
  }

  /** The code for attempt `salt`: the short-ID encoding of the first four digest
      bytes, replaced by the first ShortCodeLength characters of the digest's base64
      text when it is longer than ShortCodeLength. */
  function Generate(codec: Codec, url: string, salt: nat): (r: Result<string>)
    ensures r.Ok? ==> |r.value| == ShortCodeLength
    ensures r.Err? ==> r.error == GenerationFailed
  {
    var hash := codec.sha256(HashInput(url, salt));
    var numbers := [hash[0] as nat, hash[1] as nat, hash[2] as nat, hash[3] as nat];
    match codec.hashids(numbers)
    case None => Err(GenerationFailed)
    case Some(encoded) =>
      if |encoded| > ShortCodeLength then Ok(codec.base64url(hash)[..ShortCodeLength])
      else Ok(encoded)
  }
}
