/** The one-time code generator and the claims of the two session tokens. The
    random source, the clock and the HMAC signer are parameters. */
module Utils {
  import opened Common

  /** The byte a random byte becomes: the code of '0' plus the byte modulo 10,
      in byte arithmetic, which cannot wrap here. */
  function OtpByte(b: bv8): (d: bv8)
    ensures 0x30 <= d <= 0x39
    ensures d as int == 0x30 + b as int % 10
  {
    DigitFits(b);
    0x30 + b % 10
  }

  lemma DigitFits(b: bv8)
    ensures (b % 10) as int == b as int % 10 && b % 10 < 10
    ensures (0x30 + b % 10) as int == 0x30 + (b % 10) as int
  {
  }

  /** The character of a code byte, which is a decimal digit. */
  function OtpDigit(b: bv8): (c: char)
    ensures '0' <= c <= '9'
    ensures c as int - '0' as int == b as int % 10
  {
    OtpByte(b) as char
  }

  /** GenerateOtp: six bytes are drawn from the random source (`random(k)` is
      byte k); if drawing fails the result is "" with an error. Otherwise each
      byte is replaced in place by its digit and the six bytes are the code. */
  method GenerateOtp(random: nat -> bv8, readFails: bool) returns (otp: string, failed: bool)
    ensures failed <==> readFails
    ensures failed ==> otp == ""
    ensures !failed ==> |otp| == 6 && forall k :: 0 <= k < 6 ==> otp[k] == OtpDigit(random(k))
  {
    var otpBytes := new bv8[6](k requires 0 <= k => random(k));
    if readFails {
      return "", true;
    }
    for i := 0 to 6
      invariant forall k :: 0 <= k < i ==> otpBytes[k] == OtpByte(random(k))
      invariant forall k :: i <= k < 6 ==> otpBytes[k] == random(k)
    {
      otpBytes[i] := 0x30 + otpBytes[i] % 10;
    }
    otp := seq(6, k requires 0 <= k < 6 reads otpBytes => otpBytes[k] as char);
    failed := false;
  }

  /** The claims of a token. */
  datatype Claims = Claims(userId: Id, kind: string, exp: int)

  const Day: int := 24 * 60 * 60

  /** GenerateToken's claims: an access token of type "access" that expires a
      day after its clock reading, and a refresh token of type "refresh" that
      expires seven days after its own (the clock is read once per token). */
  function AccessClaims(userId: Id, now: int): (c: Claims)
    ensures c.userId == userId && c.kind == "access" && c.exp - now == Day
  {
    Claims(userId, "access", now + Day)
  }

  function RefreshClaims(userId: Id, now: int): (c: Claims)
    ensures c.userId == userId && c.kind == "refresh" && c.exp - now == 7 * Day
  {
    Claims(userId, "refresh", now + 7 * Day)
  }

  /** GenerateToken with the signer as `sign` (None when signing fails):
      either both tokens are signed and the result maps exactly the two names
      to them, or the result is an error. */
  function GenerateToken(userId: Id, nowAccess: int, nowRefresh: int, sign: Claims -> Option<string>)
    : (r: Option<map<string, string>>)
    ensures r.Some? <==> sign(AccessClaims(userId, nowAccess)).Some? && sign(RefreshClaims(userId, nowRefresh)).Some?
    ensures r.Some? ==> r.value.Keys == {"access_token", "refresh_token"}
    ensures r.Some? ==> r.value["access_token"] == sign(AccessClaims(userId, nowAccess)).value
                        && r.value["refresh_token"] == sign(RefreshClaims(userId, nowRefresh)).value
  {
    var access := sign(AccessClaims(userId, nowAccess));
    if access.None? then None
    else
      var refresh := sign(RefreshClaims(userId, nowRefresh));
      if refresh.None? then None
      else Some(map["access_token" := access.value, "refresh_token" := refresh.value])
  }

  /** Both tokens name the same user and differ in type, and the refresh token
      outlives the access token by at least six days when the clock does not
      go back between the two readings. */
  lemma TokensDiffer(userId: Id, nowAccess: int, nowRefresh: int)
    requires nowAccess <= nowRefresh
    ensures AccessClaims(userId, nowAccess).userId == RefreshClaims(userId, nowRefresh).userId == userId
    ensures AccessClaims(userId, nowAccess).kind != RefreshClaims(userId, nowRefresh).kind
    ensures RefreshClaims(userId, nowRefresh).exp - AccessClaims(userId, nowAccess).exp >= 6 * Day
  {
  }
}
