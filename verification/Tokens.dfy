/**
 * Minting and verifying the two kinds of HMAC token, `{id}.{seconds}.{hex mac}`.
 *
 * `mac` is HMAC-SHA256 (RFC 2104) as a function of secret and text to 32 bytes of
 * which nothing else is assumed.  `other` is what JavaScript's Number makes of a
 * text that is not a run of decimal digits up to 2^53.
 */
module Tokens {
  import opened Common
  import opened TokenText

  type Digest = b: seq<byte> | |b| == 32 witness seq(32, _ => 0)

  const MAX_SAFE: nat := 0x20_0000_0000_0000
  /** The last second a JavaScript Date can hold. */
  const MAX_SECOND: nat := 8_640_000_000_000

  const SESSION_MAX_AGE: nat := 60 * 60
  const DEVICE_MAX_AGE: nat := 365 * 24 * 60 * 60
  const CLOCK_SKEW: nat := 60

  datatype JsNumber = NaN | Finite(value: real) | Infinite(positive: bool)

  function ToNumber(text: string, other: string -> JsNumber): JsNumber {
    if text != "" && AllDigits(text) && FromDecimal(text) <= MAX_SAFE
    then Finite(FromDecimal(text) as real)
    else other(text)
  }

  /** now - timestamp > maxAge */
  predicate TooOld(now: nat, t: JsNumber, maxAge: nat) {
    match t
    case NaN => false
    case Finite(v) => now as real - v > maxAge as real
    case Infinite(positive) => !positive
  }

  /** timestamp > now + 60 */
  predicate TooNew(now: nat, t: JsNumber) {
    match t
    case NaN => false
    case Finite(v) => v > (now + CLOCK_SKEW) as real
    case Infinite(positive) => positive
  }

  function SignedText(id: string, timestamp: string): string {
    id + "." + timestamp
  }

  /** Minting; None when the secret is not configured. */
  function Generate(mac: (string, string) -> Digest, secret: string, id: string, second: nat): Option<string> {
    if secret == "" then None
    else
      var timestamp := ToDecimal(second);
      Some(id + "." + timestamp + "." + HexEncode(mac(secret, SignedText(id, timestamp))))
  }

  /** The check both services make; the id on success. */
  function Verify(mac: (string, string) -> Digest, secret: string, maxAge: nat,
                  other: string -> JsNumber, token: string, now: nat): Option<string> {
    var parts := Split(token);
    if |parts| != 3 then None
    else if parts[0] == "" || parts[1] == "" || parts[2] == "" then None
    else
      var timestamp := ToNumber(parts[1], other);
      if timestamp.NaN? then None
      else if TooOld(now, timestamp, maxAge) then None
      else if TooNew(now, timestamp) then None
      else if secret == "" then None
      else
        var expected := HexEncode(mac(secret, SignedText(parts[0], parts[1])));
        if HexDecode(parts[2]) == HexDecode(expected) then Some(parts[0]) else None
  }

  /** SessionAuthMiddleware.verifyToken */
  function VerifySession(mac: (string, string) -> Digest, secret: string,
                         other: string -> JsNumber, token: string, now: nat): Option<string> {
    Verify(mac, secret, SESSION_MAX_AGE, other, token, now)
  }

  /** DeviceAuthMiddleware.verifyToken */
  predicate VerifyDevice(mac: (string, string) -> Digest, secret: string,
                         other: string -> JsNumber, token: string, now: nat) {
    Verify(mac, secret, DEVICE_MAX_AGE, other, token, now).Some?
  }

  /** DeviceAuthMiddleware.extractDeviceId */
  function ExtractDeviceId(token: string): string {
    Split(token)[0]
  }

  // --- What is accepted ---

  predicate InWindow(now: nat, t: JsNumber, maxAge: nat) {
    t.Finite? && now as real - maxAge as real <= t.value <= (now + CLOCK_SKEW) as real
  }

  /** A token in its three parts, each of them non-empty and dot-free. */
  predicate HasParts(token: string, id: string, timestamp: string, hex: string) {
    token == id + "." + timestamp + "." + hex &&
    id != "" && timestamp != "" && hex != "" && DotFree(id) && DotFree(timestamp) && DotFree(hex)
  }

  /** Everything acceptance asks for. */
  ghost predicate Genuine(mac: (string, string) -> Digest, secret: string, maxAge: nat, other: string -> JsNumber,
                          token: string, now: nat, id: string, timestamp: string, hex: string) {
    HasParts(token, id, timestamp, hex) && secret != "" && InWindow(now, ToNumber(timestamp, other), maxAge) &&
    HexDecode(hex) == mac(secret, id + "." + timestamp)
  }

  lemma JoinThree(a: string, b: string, c: string)
    ensures Join([a, b, c]) == a + "." + b + "." + c
  {
    assert [a, b, c][1..] == [b, c] && [b, c][1..] == [c];
    assert Join([b, c]) == b + "." + c;
    assert a + "." + (b + "." + c) == a + "." + b + "." + c;
  }

  lemma PartsAre(token: string, id: string, timestamp: string, hex: string)
    ensures HasParts(token, id, timestamp, hex) <==>
            Split(token) == [id, timestamp, hex] && id != "" && timestamp != "" && hex != ""
  {
    JoinThree(id, timestamp, hex);
    JoinSplit(token);
    if HasParts(token, id, timestamp, hex) {
      SplitJoin([id, timestamp, hex]);
    }
    if Split(token) == [id, timestamp, hex] {
      assert id in Split(token) && timestamp in Split(token) && hex in Split(token);
    }
  }

  lemma WindowIs(now: nat, t: JsNumber, maxAge: nat)
    ensures !t.NaN? && !TooOld(now, t, maxAge) && !TooNew(now, t) <==> InWindow(now, t, maxAge)
  {}

  /**
   * A token is accepted with an id exactly when it consists of that id, a timestamp
   * inside the window and a text that decodes to the MAC of "id.timestamp".
   */
  lemma AcceptanceExact(mac: (string, string) -> Digest, secret: string, maxAge: nat, other: string -> JsNumber,
                        token: string, now: nat, id: string)
    ensures Verify(mac, secret, maxAge, other, token, now) == Some(id) <==>
            exists timestamp, hex :: Genuine(mac, secret, maxAge, other, token, now, id, timestamp, hex)
  {
    var parts := Split(token);
    if Verify(mac, secret, maxAge, other, token, now) == Some(id) {
      assert parts == [parts[0], parts[1], parts[2]];
      PartsAre(token, id, parts[1], parts[2]);
      WindowIs(now, ToNumber(parts[1], other), maxAge);
      HexEncoded(mac(secret, SignedText(id, parts[1])));
      assert Genuine(mac, secret, maxAge, other, token, now, id, parts[1], parts[2]);
    }
    if timestamp, hex :| Genuine(mac, secret, maxAge, other, token, now, id, timestamp, hex) {
      PartsAre(token, id, timestamp, hex);
      WindowIs(now, ToNumber(timestamp, other), maxAge);
      HexEncoded(mac(secret, SignedText(id, timestamp)));
    }
  }

  /** The text under the MAC reads as one id and one timestamp only. */
  lemma SignedTextSplitsOnce(id: string, timestamp: string, id': string, timestamp': string)
    requires DotFree(id) && DotFree(timestamp) && DotFree(id') && DotFree(timestamp')
    requires id + "." + timestamp == id' + "." + timestamp'
    ensures id == id' && timestamp == timestamp'
  {
    assert [id, timestamp][1..] == [timestamp] && [id', timestamp'][1..] == [timestamp'];
    assert Join([id, timestamp]) == Join([id', timestamp']);
    SplitJoin([id, timestamp]);
    SplitJoin([id', timestamp']);
    assert [id, timestamp][0] == [id', timestamp'][0] && [id, timestamp][1] == [id', timestamp'][1];
  }

  // --- Minting ---

  /** What is minted: the id, the second in decimal, and in lower-case hex the MAC of the two. */
  ghost predicate IsToken(mac: (string, string) -> Digest, secret: string, id: string, second: nat, token: string) {
    exists timestamp: string, hex: string :: token == id + "." + timestamp + "." + hex &&
      timestamp != "" && AllDigits(timestamp) && FromDecimal(timestamp) == second &&
      |hex| == 64 && (forall c :: c in hex ==> c in "0123456789abcdef") &&
      HexDecode(hex) == mac(secret, id + "." + timestamp)
  }

  /** Minting fails exactly if the secret is not configured. */
  lemma MintExact(mac: (string, string) -> Digest, secret: string, id: string, second: nat)
    ensures Generate(mac, secret, id, second).None? <==> secret == ""
    ensures secret != "" ==> IsToken(mac, secret, id, second, Generate(mac, secret, id, second).value)
  {
    if secret != "" {
      var timestamp := ToDecimal(second);
      var hex := HexEncode(mac(secret, SignedText(id, timestamp)));
      DecimalRoundTrip(second);
      HexEncoded(mac(secret, SignedText(id, timestamp)));
      HexLower(mac(secret, SignedText(id, timestamp)));
      assert Generate(mac, secret, id, second).value == id + "." + timestamp + "." + hex;
    }
  }

  // --- Round trip ---

  lemma MintedNumber(second: nat, other: string -> JsNumber)
    requires second <= MAX_SECOND
    ensures ToNumber(ToDecimal(second), other) == Finite(second as real)
  {
    DecimalRoundTrip(second);
  }

  lemma MintedParts(mac: (string, string) -> Digest, secret: string, id: string, second: nat)
    requires secret != "" && id != "" && DotFree(id)
    ensures var ts := ToDecimal(second);
      HasParts(Generate(mac, secret, id, second).value, id, ts, HexEncode(mac(secret, SignedText(id, ts))))
  {
    DecimalRoundTrip(second);
    HexEncoded(mac(secret, SignedText(id, ToDecimal(second))));
  }

  /** A minted token is accepted, with its own id, exactly from 60 s before to `maxAge` after it was minted. */
  lemma RoundTrip(mac: (string, string) -> Digest, secret: string, maxAge: nat, other: string -> JsNumber,
                  id: string, second: nat, now: nat)
    requires secret != "" && id != "" && DotFree(id) && second <= MAX_SECOND
    ensures Verify(mac, secret, maxAge, other, Generate(mac, secret, id, second).value, now) ==
            if second - CLOCK_SKEW <= now <= second + maxAge then Some(id) else None
  {
    var token, ts := Generate(mac, secret, id, second).value, ToDecimal(second);
    var hex := HexEncode(mac(secret, SignedText(id, ts)));
    MintedParts(mac, secret, id, second);
    PartsAre(token, id, ts, hex);
    MintedNumber(second, other);
    WindowIs(now, Finite(second as real), maxAge);
    HexEncoded(mac(secret, SignedText(id, ts)));
  }

  /** Minting and verifying agree exactly on the ids that are non-empty and contain no dot. */
  lemma RoundTripExact(mac: (string, string) -> Digest, secret: string, maxAge: nat, other: string -> JsNumber,
                       id: string, second: nat)
    requires secret != "" && second <= MAX_SECOND
    ensures Verify(mac, secret, maxAge, other, Generate(mac, secret, id, second).value, second) == Some(id) <==>
            id != "" && DotFree(id)
  {
    var token := Generate(mac, secret, id, second).value;
    if id != "" && DotFree(id) {
      RoundTrip(mac, secret, maxAge, other, id, second, second);
    } else {
      AcceptanceExact(mac, secret, maxAge, other, token, second, id);
    }
  }

  /** The session token: one hour. */
  lemma SessionRoundTrip(mac: (string, string) -> Digest, secret: string, other: string -> JsNumber,
                         id: string, second: nat, now: nat)
    requires secret != "" && id != "" && DotFree(id) && second <= MAX_SECOND
    ensures VerifySession(mac, secret, other, Generate(mac, secret, id, second).value, now) ==
            if second - 60 <= now <= second + 3600 then Some(id) else None
  {
    RoundTrip(mac, secret, SESSION_MAX_AGE, other, id, second, now);
  }

  /** The device token: one year; the id taken from it is the minted one. */
  lemma DeviceRoundTrip(mac: (string, string) -> Digest, secret: string, other: string -> JsNumber,
                        id: string, second: nat, now: nat)
    requires secret != "" && id != "" && DotFree(id) && second <= MAX_SECOND
    ensures var token := Generate(mac, secret, id, second).value;
      (VerifyDevice(mac, secret, other, token, now) <==> second - 60 <= now <= second + 31_536_000) &&
      ExtractDeviceId(token) == id
  {
    var token := Generate(mac, secret, id, second).value;
    RoundTrip(mac, secret, DEVICE_MAX_AGE, other, id, second, now);
    RoundTrip(mac, secret, DEVICE_MAX_AGE, other, id, second, second);
    assert VerifyDevice(mac, secret, other, token, second);
  }

  /** The id the relay takes from a token it accepted is the one under the MAC. */
  lemma DeviceIdGenuine(mac: (string, string) -> Digest, secret: string, other: string -> JsNumber,
                        token: string, now: nat)
    requires VerifyDevice(mac, secret, other, token, now)
    ensures exists timestamp, hex ::
              Genuine(mac, secret, DEVICE_MAX_AGE, other, token, now, ExtractDeviceId(token), timestamp, hex)
  {
    AcceptanceExact(mac, secret, DEVICE_MAX_AGE, other, token, now, ExtractDeviceId(token));
  }
}
