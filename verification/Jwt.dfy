/** Compact signed tokens: three base64url segments joined by dots, with issue and expiry times. */
module Jwt {
  import opened Wrappers
  import Base64Url

  type Bytes = seq<Base64Url.Byte>

  datatype Value = Number(n: real) | Other(text: string)

  type Claims = map<string, Value>

  datatype Error =
    | BadStructure | NotAscii | BadSignatureEncoding | SignatureMismatch | BadPayload | Expired | ExpiryNotANumber

  /** JSON over UTF-8 and the keyed digest: foreign code, any functions. */
  datatype Codec = Codec(header: Bytes, dumps: Claims -> Bytes, loads: Bytes -> Option<Claims>, hmac: string -> Bytes)

  function WithTimes(payload: Claims, now: int, lifetime: int): Claims {
    payload["iat" := Number(now as real)]["exp" := Number((now + lifetime) as real)]
  }

  function Token(header: string, payload: string, signature: string): string {
    header + "." + payload + "." + signature
  }

  function CreateToken(codec: Codec, payload: Claims, lifetime: int, now: int): string {
    var header := Base64Url.Encode(codec.header);
    var body := Base64Url.Encode(codec.dumps(WithTimes(payload, now, lifetime)));
    Token(header, body, Base64Url.Encode(codec.hmac(header + "." + body)))
  }

  /** token.split(".") */
  function Split(s: string): (parts: seq<string>)
    ensures parts != []
    decreases |s|
  {
    if s == "" then [""]
    else
      var rest := Split(s[1..]);
      if s[0] == '.' then [""] + rest else [[s[0]] + rest[0]] + rest[1..]
  }

  function DecodeToken(codec: Codec, token: string, now: real): Result<Claims, Error> {
    var parts := Split(token);
    if |parts| != 3 then Err(BadStructure)
    else if !Base64Url.IsAscii(parts[0] + "." + parts[1]) then Err(NotAscii)
    else
      match Base64Url.Decode(parts[2])
      case Err(_) => Err(BadSignatureEncoding)
      case Ok(signature) =>
        if signature != codec.hmac(parts[0] + "." + parts[1]) then Err(SignatureMismatch)
        else CheckPayload(codec, parts[1], now)
  }

  function CheckPayload(codec: Codec, segment: string, now: real): Result<Claims, Error> {
    match Base64Url.Decode(segment)
    case Err(_) => Err(BadPayload)
    case Ok(bytes) =>
      match codec.loads(bytes)
      case None => Err(BadPayload)
      case Some(claims) =>
        if "exp" !in claims then Ok(claims)
        else
          match claims["exp"]
          case Other(_) => Err(ExpiryNotANumber)
          case Number(n) => if now > n then Err(Expired) else Ok(claims)
  }

  // ---- Segments -----------------------------------------------------------------------------------

  predicate NoDot(s: string) {
    forall i :: 0 <= i < |s| ==> s[i] != '.'
  }

  lemma {:induction false} SplitNoDot(s: string)
    requires NoDot(s)
    ensures Split(s) == [s]
    decreases |s|
  {
    if s != "" {
      SplitNoDot(s[1..]);
      assert [s[0]] + s[1..] == s;
    }
  }

  lemma {:induction false} SplitAtDot(s: string, rest: string)
    requires NoDot(s)
    ensures Split(s + "." + rest) == [s] + Split(rest)
    decreases |s|
  {
    var t := s + "." + rest;
    if s == "" {
      assert t[1..] == rest;
    } else {
      assert t[1..] == s[1..] + "." + rest && t[0] == s[0];
      SplitAtDot(s[1..], rest);
      assert [s[0]] + s[1..] == s;
      assert ([s[1..]] + Split(rest))[1..] == Split(rest);
    }
  }

  lemma {:induction false} SplitParts(s: string)
    ensures forall i :: 0 <= i < |Split(s)| ==> NoDot(Split(s)[i])
    decreases |s|
  {
    if s != "" {
      SplitParts(s[1..]);
      var rest := Split(s[1..]);
      assert forall i :: 0 < i < |rest| ==> rest[1..][i - 1] == rest[i];
    }
  }

  ghost function Join(parts: seq<string>): string
    requires parts != []
  {
    if |parts| == 1 then parts[0] else parts[0] + "." + Join(parts[1..])
  }

  lemma JoinLonger(c: char, parts: seq<string>)
    requires parts != []
    ensures Join([[c] + parts[0]] + parts[1..]) == [c] + Join(parts)
  {
    var longer := [[c] + parts[0]] + parts[1..];
    assert longer[1..] == parts[1..];
    if |parts| > 1 {
      assert [c] + parts[0] + "." + Join(parts[1..]) == [c] + (parts[0] + "." + Join(parts[1..]));
    }
  }

  lemma JoinEmptyFirst(parts: seq<string>)
    requires parts != []
    ensures Join([""] + parts) == "." + Join(parts)
  {
    assert ([""] + parts)[1..] == parts;
  }

  lemma {:induction false} JoinSplit(s: string)
    ensures Join(Split(s)) == s
    decreases |s|
  {
    if s != "" {
      JoinSplit(s[1..]);
      JoinLonger(s[0], Split(s[1..]));
      JoinEmptyFirst(Split(s[1..]));
      assert [s[0]] + s[1..] == s;
    }
  }

  lemma TokenSplits(h: string, p: string, s: string)
    requires NoDot(h) && NoDot(p) && NoDot(s)
    ensures Split(Token(h, p, s)) == [h, p, s]
  {
    assert Token(h, p, s) == h + "." + (p + "." + s);
    SplitAtDot(h, p + "." + s);
    SplitAtDot(p, s);
    SplitNoDot(s);
  }

  lemma EncodedSegment(data: Bytes)
    ensures NoDot(Base64Url.Encode(data)) && Base64Url.IsAscii(Base64Url.Encode(data))
  {
    Base64Url.EncodedShape(data);
  }

  lemma SigningInputAscii(a: string, b: string)
    requires Base64Url.IsAscii(a) && Base64Url.IsAscii(b)
    ensures Base64Url.IsAscii(a + "." + b)
  {
    var t := a + "." + b;
    forall c | c in t
      ensures c < 128 as char
    {
      assert c in a || c in b || c == '.';
    }
  }

  // ---- Tokens -------------------------------------------------------------------------------------

  /**
   A token decodes to the payload with its two times until the clock passes the expiry, and is
   refused as expired from then on, for every payload that JSON gives back unchanged.
  */
  lemma CreatedTokenDecodes(codec: Codec, payload: Claims, lifetime: int, now: int, later: real)
    requires codec.loads(codec.dumps(WithTimes(payload, now, lifetime))) == Some(WithTimes(payload, now, lifetime))
    ensures DecodeToken(codec, CreateToken(codec, payload, lifetime, now), later) ==
            if later > (now + lifetime) as real then Err(Expired) else Ok(WithTimes(payload, now, lifetime))
  {
    var claims := WithTimes(payload, now, lifetime);
    var h, p := Base64Url.Encode(codec.header), Base64Url.Encode(codec.dumps(claims));
    var mac := codec.hmac(h + "." + p);
    EncodedSegment(codec.header);
    EncodedSegment(codec.dumps(claims));
    EncodedSegment(mac);
    TokenSplits(h, p, Base64Url.Encode(mac));
    SigningInputAscii(h, p);
    Base64Url.DecodeEncode(mac);
    Base64Url.DecodeEncode(codec.dumps(claims));
  }

  /**
   Over a faithful JSON: until it expires a created token carries every claim of the payload as it
   was, but for the two times, which are those of its creation and of its end.
  */
  lemma CreatedTokenCarriesPayload(codec: Codec, payload: Claims, lifetime: int, now: int, later: real)
    requires forall c :: codec.loads(codec.dumps(c)) == Some(c)
    ensures var decoded := DecodeToken(codec, CreateToken(codec, payload, lifetime, now), later);
            if later > (now + lifetime) as real then decoded == Err(Expired)
            else
              && decoded.Ok? && decoded.value.Keys == payload.Keys + {"iat", "exp"}
              && decoded.value["iat"] == Number(now as real)
              && decoded.value["exp"] == Number((now + lifetime) as real)
              && forall k :: k in payload && k != "iat" && k != "exp" ==> decoded.value[k] == payload[k]
  {
    CreatedTokenDecodes(codec, payload, lifetime, now, later);
    assert "iat" != "exp";
  }

  /** And it is signed by the digest of its own header and payload, in the order header, payload, signature. */
  lemma CreatedTokenShape(codec: Codec, payload: Claims, lifetime: int, now: int)
    ensures var parts := Split(CreateToken(codec, payload, lifetime, now));
            && |parts| == 3 && Base64Url.Decode(parts[0]) == Ok(codec.header)
            && Base64Url.Decode(parts[2]) == Ok(codec.hmac(parts[0] + "." + parts[1]))
            && exists claims :: Base64Url.Decode(parts[1]) == Ok(codec.dumps(claims))
  {
    var claims := WithTimes(payload, now, lifetime);
    var h, p := Base64Url.Encode(codec.header), Base64Url.Encode(codec.dumps(claims));
    var mac := codec.hmac(h + "." + p);
    EncodedSegment(codec.header);
    EncodedSegment(codec.dumps(claims));
    EncodedSegment(mac);
    TokenSplits(h, p, Base64Url.Encode(mac));
    Base64Url.DecodeEncode(codec.header);
    Base64Url.DecodeEncode(mac);
    Base64Url.DecodeEncode(codec.dumps(claims));
  }

  /** The claims say that they have not expired by the given time, or nothing about it. */
  predicate Unexpired(claims: Claims, now: real) {
    "exp" in claims ==> claims["exp"].Number? && now <= claims["exp"].n
  }

  /**
   Exactly the tokens accepted, and with which claims: three segments of ASCII text, a third that
   decodes to the digest of the first two, a second that decodes to JSON claims, not yet expired.
  */
  lemma AcceptedIff(codec: Codec, h: string, p: string, s: string, now: real, claims: Claims)
    requires NoDot(h) && NoDot(p) && NoDot(s)
    ensures DecodeToken(codec, Token(h, p, s), now) == Ok(claims) <==>
            && Base64Url.IsAscii(h + "." + p)
            && Base64Url.Decode(s) == Ok(codec.hmac(h + "." + p))
            && Base64Url.Decode(p).Ok? && codec.loads(Base64Url.Decode(p).value) == Some(claims)
            && Unexpired(claims, now)
  {
    TokenSplits(h, p, s);
  }

  /** An accepted token has three segments, a signature for the first two, and a payload that has not expired. */
  lemma AcceptedTokenIsSigned(codec: Codec, token: string, now: real)
    requires DecodeToken(codec, token, now).Ok?
    ensures exists h, p, s ::
              && token == Token(h, p, s) && NoDot(h) && NoDot(p) && NoDot(s)
              && Base64Url.Decode(s) == Ok(codec.hmac(h + "." + p))
              && CheckPayload(codec, p, now) == DecodeToken(codec, token, now)
  {
    var parts := Split(token);
    JoinSplit(token);
    SplitParts(token);
    var h, p, s := parts[0], parts[1], parts[2];
    assert parts == [h, p, s] && [h, p, s][1..] == [p, s] && [p, s][1..] == [s];
    assert Join([s]) == s && Join([p, s]) == p + "." + s;
    assert token == h + "." + (p + "." + s);
    assert token == Token(h, p, s);
  }

  /**
   Changing header or payload under an old signature is refused unless the keyed digest collides on
   the two texts.
  */
  lemma ReusedSignatureNeedsCollision(codec: Codec, h: string, p: string, h2: string, p2: string, s: string,
      now: real, later: real)
    requires NoDot(h) && NoDot(p) && NoDot(h2) && NoDot(p2) && NoDot(s)
    requires DecodeToken(codec, Token(h, p, s), now).Ok? && DecodeToken(codec, Token(h2, p2, s), later).Ok?
    ensures codec.hmac(h + "." + p) == codec.hmac(h2 + "." + p2)
  {
    TokenSplits(h, p, s);
    TokenSplits(h2, p2, s);
  }
}
