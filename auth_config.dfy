/** src/auth.config.ts: the session-id generator (32 random bytes as 64
    lower-case hex digits), the `authorized` callback whose public prefix list
    contains "/", and the `jwt` and `session` callbacks that carry the session
    id from the token into the session. */
module AuthConfig {
  import opened Common

  // ---------------------------------------------------------------------------
  // Session identifiers
  // ---------------------------------------------------------------------------

  /** One element of a `Uint8Array`. */
  type Byte = b: int | 0 <= b < 256

  /** `new Uint8Array(32)`: the session id carries 256 random bits. */
  const SessionIdBytes := 32

  predicate IsHexDigit(c: char)
  {
    '0' <= c <= '9' || 'a' <= c <= 'f'
  }

  /** The digit `Number.prototype.toString(16)` writes for a value below 16. */
  function HexDigit(d: int): (c: char)
    requires 0 <= d < 16
    ensures IsHexDigit(c)
  {
    if d < 10 then ('0' as int + d) as char else ('a' as int + d - 10) as char
  }

  /** The value of a lower-case hex digit. */
  function DigitValue(c: char): (d: int)
    requires IsHexDigit(c)
    ensures 0 <= d < 16
  {
    if c <= '9' then c as int - '0' as int else c as int - 'a' as int + 10
  }

  lemma DigitRoundTrip(d: int)
    requires 0 <= d < 16
    ensures DigitValue(HexDigit(d)) == d
  {
  }

  /** `n.toString(16)`: base-16 digits, most significant first, without
      leading zeros. */
  function ToRadix16(n: nat): (s: string)
    ensures 1 <= |s|
    ensures n < 16 <==> |s| == 1
  {
    if n < 16 then [HexDigit(n)] else ToRadix16(n / 16) + [HexDigit(n % 16)]
  }

  /** `s.padStart(len, fill)`: fill on the left up to `len` characters. */
  function PadStart(s: string, len: nat, fill: char): (r: string)
    ensures |r| == if |s| >= len then |s| else len
    ensures r[|r| - |s|..] == s
    ensures forall i :: 0 <= i < |r| - |s| ==> r[i] == fill
  {
    if |s| >= len then s else seq(len - |s|, _ => fill) + s
  }

  /** `byte.toString(16).padStart(2, '0')`. */
  function ByteToHex(b: Byte): (h: string)
    ensures |h| == 2 && IsHexDigit(h[0]) && IsHexDigit(h[1])
    ensures DigitValue(h[0]) * 16 + DigitValue(h[1]) == b
  {
    Radix16OfByte(b);
    DigitRoundTrip(b / 16);
    DigitRoundTrip(b % 16);
    PadStart(ToRadix16(b), 2, '0')
  }

  /** The two digits of a byte, the high nibble first. */
  function HexPair(b: Byte): string
  {
    [HexDigit(b / 16), HexDigit(b % 16)]
  }

  /** Every byte becomes exactly two digits: bytes below 16, which
      `toString(16)` writes with one digit, get a leading '0'. */
  lemma ByteToHexIsPair(b: Byte)
    ensures ByteToHex(b) == HexPair(b)
  {
    Radix16OfByte(b);
  }

  /** A byte has one or two base-16 digits: the low nibble alone below 16,
      otherwise the high nibble then the low one. */
  lemma Radix16OfByte(b: Byte)
    ensures b < 16 ==> ToRadix16(b) == [HexDigit(b % 16)] && b / 16 == 0
    ensures b >= 16 ==> ToRadix16(b) == [HexDigit(b / 16), HexDigit(b % 16)]
  {
    if b >= 16 {
      assert ToRadix16(b / 16) == [HexDigit(b / 16)];
    }
  }

  /** Every byte as its two digits, in order: by `ByteToHexIsPair` this is
      what joining the `ByteToHex` renderings of the bytes yields. */
  function HexEncode(bytes: seq<Byte>): (s: string)
    ensures |s| == 2 * |bytes|
  {
    if bytes == [] then "" else HexPair(bytes[0]) + HexEncode(bytes[1..])
  }

  /** The join grows by two digits per byte appended. */
  lemma {:induction false} HexEncodeSnoc(init: seq<Byte>, b: Byte)
    ensures HexEncode(init + [b]) == HexEncode(init) + HexPair(b)
  {
    if init != [] {
      assert (init + [b])[1..] == init[1..] + [b];
      HexEncodeSnoc(init[1..], b);
    }
  }

  /** Reads a string of lower-case hex digit pairs back into bytes; None when
      the length is odd or a character is not a lower-case hex digit. */
  function HexDecode(s: string): (r: Option<seq<Byte>>)
    ensures r.Some? ==> |s| == 2 * |r.value|
  {
    if s == [] then Some([])
    else if |s| < 2 || !IsHexDigit(s[0]) || !IsHexDigit(s[1]) then None
    else
      match HexDecode(s[2..])
      case None => None
      case Some(rest) => Some([16 * DigitValue(s[0]) + DigitValue(s[1])] + rest)
  }

  /** Byte i of the input is written at positions 2i (high nibble) and
      2i+1 (low nibble) of the id. */
  lemma {:induction false} HexEncodeAt(bytes: seq<Byte>, i: nat)
    requires i < |bytes|
    ensures HexEncode(bytes)[2 * i] == HexDigit(bytes[i] / 16)
    ensures HexEncode(bytes)[2 * i + 1] == HexDigit(bytes[i] % 16)
  {
    if i > 0 {
      HexEncodeAt(bytes[1..], i - 1);
    }
  }

  /** The id consists of lower-case hex digits only. */
  lemma HexEncodeIsHex(bytes: seq<Byte>)
    ensures forall i :: 0 <= i < |HexEncode(bytes)| ==> IsHexDigit(HexEncode(bytes)[i])
  {
    forall i | 0 <= i < |HexEncode(bytes)|
      ensures IsHexDigit(HexEncode(bytes)[i])
    {
      HexEncodeAt(bytes, i / 2);
    }
  }

  /** Decoding recovers the bytes that were encoded. */
  lemma {:induction false} DecodeEncode(bytes: seq<Byte>)
    ensures HexDecode(HexEncode(bytes)) == Some(bytes)
  {
    if bytes != [] {
      var s := HexEncode(bytes);
      assert s[2..] == HexEncode(bytes[1..]);
      DecodeEncode(bytes[1..]);
      DigitRoundTrip(bytes[0] / 16);
      DigitRoundTrip(bytes[0] % 16);
      assert bytes == [bytes[0]] + bytes[1..];
    }
  }

  /** Distinct random bytes give distinct session ids. */
  lemma EncodeInjective(a: seq<Byte>, b: seq<Byte>)
    requires HexEncode(a) == HexEncode(b)
    ensures a == b
  {
    DecodeEncode(a);
    DecodeEncode(b);
  }

  /** `generateSessionId`: a 32-byte buffer filled in place by the random
      source (whose output is the parameter `random`), then mapped byte by byte
      to two hex digits and joined. */
  method GenerateSessionId(random: seq<Byte>) returns (id: string)
    requires |random| == SessionIdBytes
    ensures id == HexEncode(random)
    ensures |id| == 2 * SessionIdBytes
  {
    var buffer := new Byte[SessionIdBytes];
    forall i | 0 <= i < buffer.Length {
      buffer[i] := random[i];
    }
    assert buffer[..] == random;
    id := "";
    var i := 0;
    while i < buffer.Length
      invariant 0 <= i <= buffer.Length
      invariant buffer[..] == random
      invariant id == HexEncode(buffer[..i])
    {
      assert buffer[..i + 1] == buffer[..i] + [buffer[i]];
      HexEncodeSnoc(buffer[..i], buffer[i]);
      ByteToHexIsPair(buffer[i]);
      id := id + ByteToHex(buffer[i]);
      i := i + 1;
    }
    assert buffer[..i] == random;
  }

  // ---------------------------------------------------------------------------
  // Route policy of this configuration
  // ---------------------------------------------------------------------------

  const ConfigPublicPaths: seq<string> := ["/", "/authclient/Register", "/authclient/Login"]
  const ConfigPrivatePaths: seq<string> := ["/profile"]

  /** What the callback returns: `true`, `false`, or a redirect response. */
  datatype Verdict = Grant | Refuse | RedirectTo(target: string)

  predicate StartsWithAny(path: string, prefixes: seq<string>)
  {
    exists i :: 0 <= i < |prefixes| && prefixes[i] <= path
  }

  /** The `authorized` callback of this configuration, branch for branch. */
  function ConfigAuthorized(path: string, hasSession: bool): (v: Verdict)
    ensures v == Refuse ==> !hasSession
    ensures v.RedirectTo? ==> v == RedirectTo("/") && hasSession && "/authclient" <= path
  {
    if StartsWithAny(path, ConfigPublicPaths) then Grant
    else if StartsWithAny(path, ConfigPrivatePaths) then (if hasSession then Grant else Refuse)
    else if path == "/" then (if hasSession then Grant else Refuse)
    else if "/authclient" <= path && hasSession then RedirectTo("/")
    else Grant
  }

  /** Because "/" is among the public prefixes, the callback grants every
      request: a path starting with "/" takes the first branch, and a path that
      does not cannot start with "/profile" or "/authclient" nor equal "/", so it
      reaches the final default. */
  lemma ConfigAuthorizedAlwaysGrants(path: string, hasSession: bool)
    ensures ConfigAuthorized(path, hasSession) == Grant
  {
    if "/" <= path {
      assert ConfigPublicPaths[0] <= path;
    }
  }

  // ---------------------------------------------------------------------------
  // Token and session callbacks
  // ---------------------------------------------------------------------------

  /** A field of the token or session payload: unset, a string, or some other
      JSON value (whose truthiness is recorded). */
  datatype Claim = Unset | Str(s: string) | NonString(truthy: bool)

  predicate ClaimTruthy(c: Claim)
  {
    match c
    case Unset => false
    case Str(s) => s != ""
    case NonString(t) => t
  }

  /** The JWT payload the callbacks read and write. */
  class Token {
    var email: Claim
    var sub: Claim
    var id: Claim
    var role: Claim
    var sessionId: Claim
    var provider: Claim

    constructor (email: Claim, sub: Claim, id: Claim, role: Claim, sessionId: Claim, provider: Claim)
      ensures this.email == email && this.sub == sub && this.id == id && this.role == role
      ensures this.sessionId == sessionId && this.provider == provider
    {
      this.email := email;
      this.sub := sub;
      this.id := id;
      this.role := role;
      this.sessionId := sessionId;
      this.provider := provider;
    }
  }

  /** The session object handed to the client. `hasUser` says whether
      `session.user` is present; `userId` and `userRole` are its fields. */
  class Session {
    var hasUser: bool
    var userId: Claim
    var userRole: Claim
    var sessionId: Claim
    var provider: Claim

    constructor (hasUser: bool)
      ensures this.hasUser == hasUser
      ensures userId == Unset && userRole == Unset && sessionId == Unset && provider == Unset
    {
      this.hasUser := hasUser;
      userId, userRole, sessionId, provider := Unset, Unset, Unset, Unset;
    }
  }

  /** The `jwt` callback: on a fresh sign-in (`freshSignIn`, the callback's
      `user` argument being present) a new session id is written into the
      token; on every other call the token is returned untouched. `random`
      is what the random source yields for the id. */
  method Jwt(token: Token, freshSignIn: bool, random: seq<Byte>) returns (result: Token)
    requires |random| == SessionIdBytes
    modifies token
    ensures result == token
    ensures freshSignIn ==> token.sessionId == Str(HexEncode(random))
    ensures freshSignIn ==> token.email == old(token.email) && token.sub == old(token.sub)
                            && token.id == old(token.id) && token.role == old(token.role)
                            && token.provider == old(token.provider)
    ensures !freshSignIn ==> unchanged(token)
  {
    if freshSignIn {
      var id := GenerateSessionId(random);
      token.sessionId := Str(id);
    }
    result := token;
  }

  /** The `session` callback: the session id is copied only when the token
      holds a non-empty string there; otherwise the session is untouched. */
  method SessionCallback(session: Session, token: Token) returns (result: Session)
    modifies session
    ensures result == session
    ensures token.sessionId.Str? && token.sessionId.s != "" ==> session.sessionId == token.sessionId
    ensures !(token.sessionId.Str? && token.sessionId.s != "") ==> unchanged(session)
    ensures session.hasUser == old(session.hasUser) && session.userId == old(session.userId)
    ensures session.userRole == old(session.userRole) && session.provider == old(session.provider)
  {
    if ClaimTruthy(token.sessionId) && token.sessionId.Str? {
      session.sessionId := token.sessionId;
    }
    result := session;
  }

  /** Two tokens minted by two fresh sign-ins whose random bytes differ carry
      different session ids. */
  method TwoSignIns(first: Token, second: Token, random1: seq<Byte>, random2: seq<Byte>)
    requires |random1| == SessionIdBytes && |random2| == SessionIdBytes
    requires random1 != random2 && first != second
    modifies first, second
    ensures first.sessionId != second.sessionId
  {
    var _ := Jwt(first, true, random1);
    var _ := Jwt(second, true, random2);
    if HexEncode(random1) == HexEncode(random2) {
      EncodeInjective(random1, random2);
    }
  }
}
