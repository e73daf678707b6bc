/** Signing, parsing and signature checking of compact tokens (section 7.1 of RFC 7515) as in
    internal/auth. JSON decoding, HMAC-SHA256 and RSA are parameters. */
module Jwt {
  import opened Base64Url
  import opened Wrappers

  datatype Error = InvalidToken | InvalidHeader | InvalidPayload | InvalidSignature | UnsupportedAlg | MissingKey

  // ---------------------------------------------------------------- strings.Split and its inverse

  function Split(s: string): (parts: seq<string>)
    ensures |parts| >= 1
  {
    if s == "" then [""]
    else
      var rest := Split(s[1..]);
      if s[0] == '.' then [""] + rest else [[s[0]] + rest[0]] + rest[1..]
  }

  function Join(parts: seq<string>): string
    requires |parts| >= 1
  {
    if |parts| == 1 then parts[0] else parts[0] + "." + Join(parts[1..])
  }

  lemma {:induction false} JoinFront(a: string, rest: seq<string>)
    requires |rest| >= 1
    ensures Join([a] + rest) == a + "." + Join(rest)
  {
    assert ([a] + rest)[1..] == rest;
  }

  lemma {:induction false} JoinPrefix(ch: char, rest: seq<string>)
    requires |rest| >= 1
    ensures Join([[ch] + rest[0]] + rest[1..]) == [ch] + Join(rest)
  {
    if |rest| > 1 {
      JoinFront([ch] + rest[0], rest[1..]);
    }
  }

  lemma {:induction false} JoinSplit(s: string)
    ensures Join(Split(s)) == s
  {
    if s == "" {
    } else {
      JoinSplit(s[1..]);
      var rest := Split(s[1..]);
      assert s == [s[0]] + s[1..];
      if s[0] == '.' {
        JoinFront("", rest);
      } else {
        JoinPrefix(s[0], rest);
      }
    }
  }

  lemma {:induction false} SplitPart(a: string, tail: string)
    requires '.' !in a && (tail == "" || tail[0] == '.')
    ensures Split(a + tail) == if tail == "" then [a] else [a] + Split(tail[1..])
  {
    if a == "" {
      assert a + tail == tail;
    } else {
      assert a == [a[0]] + a[1..];
      assert (a + tail)[1..] == a[1..] + tail;
      SplitPart(a[1..], tail);
    }
  }

  /** Parts without dots come back exactly. */
  lemma {:induction false} SplitJoin(parts: seq<string>)
    requires |parts| >= 1 && forall i :: 0 <= i < |parts| ==> '.' !in parts[i]
    ensures Split(Join(parts)) == parts
  {
    if |parts| == 1 {
      SplitPart(parts[0], "");
      assert parts[0] + "" == parts[0];
    } else {
      var tail := "." + Join(parts[1..]);
      SplitJoin(parts[1..]);
      SplitPart(parts[0], tail);
      assert tail[1..] == Join(parts[1..]);
      assert Join(parts) == parts[0] + tail;
    }
  }

  lemma {:induction false} JoinThree(parts: seq<string>)
    requires |parts| == 3
    ensures Join(parts) == parts[0] + "." + parts[1] + "." + parts[2]
  {
    var two, one := parts[1..], parts[2..];
    assert two[1..] == one;
    assert Join(one) == parts[2];
    assert Join(two) == parts[1] + "." + parts[2];
    assert parts[0] + "." + (parts[1] + "." + parts[2]) == parts[0] + "." + parts[1] + "." + parts[2];
  }

  // ---------------------------------------------------------------- tokens

  /** What the code takes from elsewhere: the algorithm named by a header's JSON, whether a payload's
      JSON is acceptable, the HMAC of a text under a key, whether there is a public key, and RSA's verdict. */
  datatype Env = Env(
    algorithm: seq<Byte> -> Option<string>,
    payloadOk: seq<Byte> -> bool,
    hmac: (seq<Byte>, string) -> seq<Byte>,
    hasPublicKey: bool,
    rsa: (string, seq<Byte>) -> bool)

  datatype Token = Token(algorithm: string, header: seq<Byte>, payload: seq<Byte>, raw: string, signature: seq<Byte>)

  function SignedPortion(header: seq<Byte>, payload: seq<Byte>): string {
    Encode(header) + "." + Encode(payload)
  }

  /** SignHS256, given the JSON of header and claims. */
  function Sign(env: Env, header: seq<Byte>, payload: seq<Byte>, key: seq<Byte>): string {
    SignedPortion(header, payload) + "." + Encode(env.hmac(key, SignedPortion(header, payload)))
  }

  /** The header part decodes to JSON that names an algorithm. */
  predicate GoodHeader(env: Env, part: string) {
    Decode(part).Some? && env.algorithm(Decode(part).value).Some?
  }

  predicate GoodPayload(env: Env, part: string) {
    Decode(part).Some? && env.payloadOk(Decode(part).value)
  }

  /** The checks are made in the order of the parts, and the first that fails names the error. */
  function Parse(env: Env, token: string): (r: Result<Token, Error>)
    ensures var parts := Split(token);
      && (r == Err(InvalidToken) <==> |parts| != 3)
      && (r == Err(InvalidHeader) <==> |parts| == 3 && !GoodHeader(env, parts[0]))
      && (r == Err(InvalidPayload) <==> |parts| == 3 && GoodHeader(env, parts[0]) && !GoodPayload(env, parts[1]))
      && (r == Err(InvalidSignature) <==>
            |parts| == 3 && GoodHeader(env, parts[0]) && GoodPayload(env, parts[1]) && Decode(parts[2]).None?)
      && (r.Ok? <==> |parts| == 3 && GoodHeader(env, parts[0]) && GoodPayload(env, parts[1]) && Decode(parts[2]).Some?)
    ensures r.Ok? ==>
      && r.value.raw == token && env.algorithm(r.value.header) == Some(r.value.algorithm)
      && Decode(Split(token)[0]) == Some(r.value.header)
      && Decode(Split(token)[1]) == Some(r.value.payload)
      && Decode(Split(token)[2]) == Some(r.value.signature)
  {
    var parts := Split(token);
    if |parts| != 3 then Err(InvalidToken)
    else
      match Decode(parts[0])
      case None => Err(InvalidHeader)
      case Some(header) =>
        match env.algorithm(header)
        case None => Err(InvalidHeader)
        case Some(algorithm) =>
          match Decode(parts[1])
          case None => Err(InvalidPayload)
          case Some(payload) =>
            if !env.payloadOk(payload) then Err(InvalidPayload)
            else
              match Decode(parts[2])
              case None => Err(InvalidSignature)
              case Some(signature) => Ok(Token(algorithm, header, payload, token, signature))
  }

  /** verifySignature: None is acceptance. */
  function Verify(env: Env, token: Token, key: seq<Byte>): Option<Error>
    requires |Split(token.raw)| >= 2
  {
    var parts := Split(token.raw);
    var signed := parts[0] + "." + parts[1];
    if token.algorithm == "HS256" then
      if |key| == 0 then Some(MissingKey)
      else if token.signature != env.hmac(key, signed) then Some(InvalidSignature)
      else None
    else if token.algorithm == "RS256" then
      if !env.hasPublicKey then Some(MissingKey)
      else if !env.rsa(signed, token.signature) then Some(InvalidSignature)
      else None
    else Some(UnsupportedAlg)
  }

  /** A signed token splits into exactly its three parts. */
  lemma {:induction false} SignedTokenSplits(env: Env, header: seq<Byte>, payload: seq<Byte>, key: seq<Byte>)
    ensures Split(Sign(env, header, payload, key))
         == [Encode(header), Encode(payload), Encode(env.hmac(key, SignedPortion(header, payload)))]
  {
    var mac := env.hmac(key, SignedPortion(header, payload));
    EncodeIsRaw(header);
    EncodeIsRaw(payload);
    EncodeIsRaw(mac);
    var parts := [Encode(header), Encode(payload), Encode(mac)];
    SplitJoin(parts);
    JoinThree(parts);
  }

  /** What was signed is what is parsed, byte for byte, and the signature verifies with the same key
      exactly when that key is not empty. */
  lemma {:induction false} SignedTokenVerifies(env: Env, header: seq<Byte>, payload: seq<Byte>, key: seq<Byte>)
    requires env.algorithm(header) == Some("HS256") && env.payloadOk(payload)
    ensures var raw := Sign(env, header, payload, key);
      && Parse(env, raw) == Ok(Token("HS256", header, payload, raw, env.hmac(key, SignedPortion(header, payload))))
      && Verify(env, Parse(env, raw).value, key) == if key == [] then Some(MissingKey) else None
  {
    SignedTokenSplits(env, header, payload, key);
    RoundTrip(header);
    RoundTrip(payload);
    RoundTrip(env.hmac(key, SignedPortion(header, payload)));
  }

  /** For any text that parses, verification looks at the text itself: the checked portion and the
      signature part are all of it, with nothing left over. */
  lemma {:induction false} VerifiedTextIsWhole(env: Env, raw: string, key: seq<Byte>)
    requires Parse(env, raw).Ok? && Parse(env, raw).value.algorithm == "HS256" && key != []
    ensures var parts := Split(raw);
      && raw == parts[0] + "." + parts[1] + "." + parts[2]
      && (Verify(env, Parse(env, raw).value, key) == None <==>
            Decode(parts[2]) == Some(env.hmac(key, parts[0] + "." + parts[1])))
  {
    JoinSplit(raw);
    JoinThree(Split(raw));
  }

  /** The key that the named algorithm needs is there. */
  ghost predicate HasKey(env: Env, algorithm: string, key: seq<Byte>) {
    (algorithm == "HS256" && |key| > 0) || (algorithm == "RS256" && env.hasPublicKey)
  }

  /** The signature is a true one of the text under the named algorithm. */
  ghost predicate Authentic(env: Env, t: Token, signed: string, key: seq<Byte>) {
    || (t.algorithm == "HS256" && t.signature == env.hmac(key, signed))
    || (t.algorithm == "RS256" && env.rsa(signed, t.signature))
  }

  /** Every text that parses: it is accepted if and only if its algorithm is one of the two, the key for it
      is there, and its signature is true of the text before the last dot; and why it is refused. */
  lemma {:induction false} VerifiesIff(env: Env, raw: string, key: seq<Byte>)
    requires Parse(env, raw).Ok?
    ensures var t, signed := Parse(env, raw).value, Split(raw)[0] + "." + Split(raw)[1];
      var answer := Verify(env, t, key);
      && (answer == None <==> HasKey(env, t.algorithm, key) && Authentic(env, t, signed, key))
      && (answer == Some(UnsupportedAlg) <==> t.algorithm != "HS256" && t.algorithm != "RS256")
      && (answer == Some(MissingKey) <==>
            (t.algorithm == "HS256" || t.algorithm == "RS256") && !HasKey(env, t.algorithm, key))
      && (answer == Some(InvalidSignature) <==>
            HasKey(env, t.algorithm, key) && !Authentic(env, t, signed, key))
  {
    assert "HS256"[0] != "RS256"[0];
  }

  /** Accepted texts are not unique: a text that parses and verifies is the one that signing its header
      and payload yields if and only if all three of its parts are canonical. */
  lemma {:induction false} VerifiedIsSignedIff(env: Env, raw: string, key: seq<Byte>)
    requires Parse(env, raw).Ok? && Parse(env, raw).value.algorithm == "HS256" && key != []
    requires Verify(env, Parse(env, raw).value, key) == None
    ensures var t, parts := Parse(env, raw).value, Split(raw);
      raw == Sign(env, t.header, t.payload, key) <==>
      Canonical(parts[0]) && Canonical(parts[1]) && Canonical(parts[2])
  {
    var t, parts := Parse(env, raw).value, Split(raw);
    ReencodesIff(parts[0]);
    ReencodesIff(parts[1]);
    ReencodesIff(parts[2]);
    VerifiedTextIsWhole(env, raw, key);
    if raw == Sign(env, t.header, t.payload, key) {
      SignedTokenSplits(env, t.header, t.payload, key);
    }
    if Canonical(parts[0]) && Canonical(parts[1]) && Canonical(parts[2]) {
      assert SignedPortion(t.header, t.payload) == parts[0] + "." + parts[1];
    }
  }
}
