/**
 The signed identity sent with each request to an agent: `<base64url(json)>.<base64url(signature)>`.
 JSON and the signature scheme are parameters.
 */
module IdentityToken {
  import opened Prelude
  import opened Text
  import opened Base64Url

  datatype Claims = Claims(
    userId: string, roles: seq<string>, projectId: Option<string>, profileId: Option<string>,
    scopes: seq<string>, exp: int, jti: string)

  datatype TokenError = Malformed | BadSignature | Serde | Expired

  const SIGNATURE_LENGTH := 64

  /** A key pair with the JSON functions. */
  datatype Service = Service(
    toJson: Claims -> seq<Byte>, fromJson: seq<Byte> -> Option<Claims>,
    sign: seq<Byte> -> seq<Byte>, check: (seq<Byte>, seq<Byte>) -> bool)

  /** JSON round trips and own signatures check. */
  ghost predicate Sound(s: Service) {
    && (forall c :: s.fromJson(s.toJson(c)) == Some(c))
    && (forall p :: |s.sign(p)| == SIGNATURE_LENGTH && s.check(p, s.sign(p)))
  }

  function Frame(payload: seq<Byte>, signature: seq<Byte>): string {
    Encode(payload) + "." + Encode(signature)
  }

  function Issue(s: Service, c: Claims): string {
    var payload := s.toJson(c);
    Frame(payload, s.sign(payload))
  }

  function IssueFor(s: Service, c: Claims, now: int, ttl: int): string {
    Issue(s, c.(exp := now + ttl))
  }

  function Verify(s: Service, token: string, now: int): Result<Claims, TokenError> {
    match SplitOnce(token, '.')
    case None => Err(Malformed)
    case Some((p, q)) =>
      var payload, signature := Decode(p), Decode(q);
      if payload.None? || signature.None? || |signature.value| != SIGNATURE_LENGTH then Err(Malformed)
      else if !s.check(payload.value, signature.value) then Err(BadSignature)
      else
        match s.fromJson(payload.value)
        case None => Err(Serde)
        case Some(c) => if c.exp <= now then Err(Expired) else Ok(c)
  }

  lemma FrameSplits(payload: seq<Byte>, signature: seq<Byte>)
    ensures SplitOnce(Frame(payload, signature), '.') == Some((Encode(payload), Encode(signature)))
  {
    DecodeEncode(payload);
    SplitOnceAt(Encode(payload), '.', Encode(signature));
    assert Frame(payload, signature) == Encode(payload) + ['.'] + Encode(signature);
  }

  /** The first dot always separates payload and signature, so framing loses nothing. */
  lemma FrameIsInjective(p: seq<Byte>, q: seq<Byte>, x: seq<Byte>, y: seq<Byte>)
    requires Frame(p, q) == Frame(x, y)
    ensures p == x && q == y
  {
    FrameSplits(p, q);
    FrameSplits(x, y);
    DecodeEncode(p);
    DecodeEncode(q);
    DecodeEncode(x);
    DecodeEncode(y);
  }

  /** An issued token yields exactly its claims until it expires, and nothing from then on. */
  lemma VerifyIssued(s: Service, c: Claims, now: int)
    requires Sound(s)
    ensures Verify(s, Issue(s, c), now) == if now < c.exp then Ok(c) else Err(Expired)
  {
    var payload := s.toJson(c);
    FrameSplits(payload, s.sign(payload));
    DecodeEncode(payload);
    DecodeEncode(s.sign(payload));
  }

  /** A token issued for a span is accepted exactly during it, and carries all the claims it was issued for. */
  lemma IssuedForIsValidDuringItsTtl(s: Service, c: Claims, now: int, ttl: int, later: int)
    requires Sound(s)
    ensures Verify(s, IssueFor(s, c, now, ttl), later).Ok? <==> later - now < ttl
    ensures later - now < ttl ==>
              var x := Verify(s, IssueFor(s, c, now, ttl), later).value;
              && x.userId == c.userId && x.roles == c.roles && x.projectId == c.projectId
              && x.profileId == c.profileId && x.scopes == c.scopes && x.jti == c.jti && x.exp == now + ttl
  {
    VerifyIssued(s, c.(exp := now + ttl), later);
  }

  /** Payload and signature that `verify` accepts for `c` at time `now`. */
  predicate Accepts(s: Service, payload: seq<Byte>, signature: seq<Byte>, c: Claims, now: int) {
    && |signature| == SIGNATURE_LENGTH && s.check(payload, signature)
    && s.fromJson(payload) == Some(c) && now < c.exp
  }

  /**
   Exactly which strings are accepted, for any service: the frames of an accepted payload and
   signature, no other spelling.
   */
  lemma VerifyOkIff(s: Service, token: string, c: Claims, now: int)
    ensures Verify(s, token, now) == Ok(c) <==>
            exists payload, signature :: Accepts(s, payload, signature, c, now) && token == Frame(payload, signature)
  {
    if Verify(s, token, now) == Ok(c) {
      SplitOnceParts(token, '.');
      var (p, q) := SplitOnce(token, '.').value;
      EncodeDecode(p);
      EncodeDecode(q);
      assert Accepts(s, Decode(p).value, Decode(q).value, c, now);
      assert token == Frame(Decode(p).value, Decode(q).value);
    }
    forall payload, signature | Accepts(s, payload, signature, c, now) && token == Frame(payload, signature)
      ensures Verify(s, token, now) == Ok(c)
    {
      FrameSplits(payload, signature);
      DecodeEncode(payload);
      DecodeEncode(signature);
    }
  }

  /** When only own signatures check, the accepted tokens are exactly the signed frames of live claims. */
  lemma OnlySignedTokensAreAccepted(s: Service, token: string, c: Claims, now: int)
    requires Sound(s) && forall p, q :: s.check(p, q) ==> q == s.sign(p)
    ensures Verify(s, token, now) == Ok(c) <==>
            exists payload :: s.fromJson(payload) == Some(c) && token == Frame(payload, s.sign(payload)) && now < c.exp
  {
    VerifyOkIff(s, token, c, now);
    if Verify(s, token, now) == Ok(c) {
      var payload, signature :| Accepts(s, payload, signature, c, now) && token == Frame(payload, signature);
      assert signature == s.sign(payload);
    }
    forall payload | s.fromJson(payload) == Some(c) && token == Frame(payload, s.sign(payload)) && now < c.exp
      ensures Verify(s, token, now) == Ok(c)
    {
      assert Accepts(s, payload, s.sign(payload), c, now);
    }
  }

  /** Acceptance only ever ends: a token valid later was valid before, with the same claims. */
  lemma AcceptanceOnlyEnds(s: Service, token: string, now: int, later: int)
    requires now <= later && Verify(s, token, later).Ok?
    ensures Verify(s, token, now) == Verify(s, token, later)
  {
    var c := Verify(s, token, later).value;
    VerifyOkIff(s, token, c, later);
    var payload, signature :| Accepts(s, payload, signature, c, later) && token == Frame(payload, signature);
    assert Accepts(s, payload, signature, c, now);
    VerifyOkIff(s, token, c, now);
  }
}
