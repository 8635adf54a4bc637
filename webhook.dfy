/** The webhook endpoint of the relay (app/main.py): signature verification, the gate that
    decides whether verification applies, and the routing of events to handlers. */
module Webhook {
  import opened Common
  import Hex
  import Text

  /** An HMAC-SHA256 digest: 32 bytes. */
  type Digest = d: seq<byte> | |d| == 32 witness seq(32, _ => 0)

  /** HMAC-SHA256 keyed with the (UTF-8 encoded) secret, over the raw body. The digest
      algorithm itself is not modelled: callers supply it. */
  type Mac = (string, seq<byte>) -> Digest

  const SignaturePrefix: string := "sha256="

  /** The signature header GitHub sends for `payload` under `secret`. */
  function ExpectedSignature(payload: seq<byte>, secret: string, mac: Mac): string {
    SignaturePrefix + Hex.Encode(mac(secret, payload))
  }

  /** `verify_signature`: permissive when no secret is configured, otherwise the header must
      equal `sha256=` followed by the lower-case hex digest. `hmac.compare_digest` is
      modelled as plain equality. */
  function VerifySignature(payload: seq<byte>, signature: string, secret: string, mac: Mac): (ok: bool)
    ensures secret == "" ==> ok
    ensures ok && secret != "" ==>
              Text.StartsWith(signature, SignaturePrefix) && |signature| == |SignaturePrefix| + 64
  {
    Hex.EncodeLength(mac(secret, payload));
    if secret == "" then true
    else signature == ExpectedSignature(payload, secret, mac)
  }

  /** Reads a signature header as the digest it carries, independently of any secret. */
  function ParseSignature(signature: string): Option<seq<byte>> {
    if Text.StartsWith(signature, SignaturePrefix) then Hex.Decode(signature[|SignaturePrefix|..])
    else None
  }

  /** With no secret configured every signature is accepted, for any payload. */
  lemma PermissiveWithoutSecret(payload: seq<byte>, signature: string, mac: Mac)
    ensures VerifySignature(payload, signature, "", mac)
  {
  }

  /** With a secret, a header is accepted exactly when it parses as `sha256=<hex>` and the
      bytes it carries are the HMAC of the body. */
  lemma VerifyIffCarriesDigest(payload: seq<byte>, signature: string, secret: string, mac: Mac)
    requires secret != ""
    ensures VerifySignature(payload, signature, secret, mac)
        <==> ParseSignature(signature) == Some(mac(secret, payload))
  {
    var d := mac(secret, payload);
    var expected := ExpectedSignature(payload, secret, mac);
    assert expected[|SignaturePrefix|..] == Hex.Encode(d);
    Hex.DecodeEncode(d);
    if ParseSignature(signature) == Some(d) {
      var rest := signature[|SignaturePrefix|..];
      Hex.EncodeDecode(rest);
      assert signature == SignaturePrefix + rest;
    }
  }

  /** A header whose length is not that of `sha256=` plus 64 hex digits is always refused
      when a secret is configured (for instance `sha256=invalid`). */
  lemma WrongLengthRejected(payload: seq<byte>, signature: string, secret: string, mac: Mac)
    requires secret != "" && |signature| != |SignaturePrefix| + 64
    ensures !VerifySignature(payload, signature, secret, mac)
  {
    Hex.EncodeLength(mac(secret, payload));
  }

  /** A non-empty optional header value: Python's truthiness of an `Optional[str]`. */
  predicate Present(header: Option<string>) {
    header.Some? && header.value != ""
  }

  /** The gate of the webhook endpoint: verification happens only when both the signature
      header and the secret are present, and a failed verification rejects the request. */
  predicate GateRejects(header: Option<string>, secret: string, payload: seq<byte>, mac: Mac) {
    Present(header) && secret != "" && !VerifySignature(payload, header.value, secret, mac)
  }

  datatype Handler = LabeledHandler | ClosedHandler

  /** The HTTP outcome: 401, `{"message": "pong"}` or `{"status": "accepted"}`. */
  datatype Reply = Unauthorized | Pong | Accepted

  datatype Dispatch = Dispatch(reply: Reply, handler: Option<Handler>)

  /** `data.get("action", "unknown")`. */
  function EffectiveAction(action: Option<string>): string {
    action.GetOr("unknown")
  }

  /** Routing of an authenticated event. A handler's failure is caught and logged by the
      endpoint, so what it answers does not depend on the handler's outcome. */
  function Route(event: Option<string>, action: Option<string>): (d: Dispatch)
    ensures d.reply != Unauthorized
    ensures d.reply == Pong <==> event == Some("ping")
    ensures d.reply == Pong ==> d.handler == None
    ensures d.handler == Some(LabeledHandler) <==> event == Some("issues") && EffectiveAction(action) == "labeled"
    ensures d.handler == Some(ClosedHandler) <==> event == Some("issues") && EffectiveAction(action) == "closed"
  {
    if event == Some("issues") then
      if EffectiveAction(action) == "labeled" then Dispatch(Accepted, Some(LabeledHandler))
      else if EffectiveAction(action) == "closed" then Dispatch(Accepted, Some(ClosedHandler))
      else Dispatch(Accepted, None)
    else if event == Some("ping") then Dispatch(Pong, None)
    else Dispatch(Accepted, None)
  }

  /** The `webhook` endpoint: the gate, then the routing. */
  function HandleWebhook(event: Option<string>, action: Option<string>, header: Option<string>,
                         secret: string, payload: seq<byte>, mac: Mac): (d: Dispatch)
    ensures d.reply == Unauthorized <==> GateRejects(header, secret, payload, mac)
    ensures d.reply == Unauthorized ==> d.handler == None
    ensures d.reply == Pong <==> !GateRejects(header, secret, payload, mac) && event == Some("ping")
    ensures d.handler == Some(LabeledHandler)
        <==> !GateRejects(header, secret, payload, mac) && event == Some("issues")
             && EffectiveAction(action) == "labeled"
    ensures d.handler == Some(ClosedHandler)
        <==> !GateRejects(header, secret, payload, mac) && event == Some("issues")
             && EffectiveAction(action) == "closed"
    ensures !GateRejects(header, secret, payload, mac) && event != Some("ping") ==> d.reply == Accepted
  {
    if GateRejects(header, secret, payload, mac) then Dispatch(Unauthorized, None)
    else Route(event, action)
  }

  /** Without a signature header, or without a secret, no request is rejected. */
  lemma UnverifiedWhenHeaderOrSecretMissing(event: Option<string>, action: Option<string>,
                                            header: Option<string>, secret: string,
                                            payload: seq<byte>, mac: Mac)
    requires !Present(header) || secret == ""
    ensures HandleWebhook(event, action, header, secret, payload, mac).reply != Unauthorized
  {
  }

  /** The signature GitHub computes is accepted. */
  lemma GenuineSignatureAccepted(event: Option<string>, action: Option<string>, secret: string,
                                 payload: seq<byte>, mac: Mac)
    ensures HandleWebhook(event, action, Some(ExpectedSignature(payload, secret, mac)), secret,
                          payload, mac).reply != Unauthorized
  {
  }

  /** A request whose action is missing is routed like one whose action is "unknown":
      to no handler. */
  lemma MissingActionRoutesNowhere(event: Option<string>)
    ensures Route(event, None) == Route(event, Some("unknown"))
    ensures Route(event, None).handler == None
  {
  }

  /** A labeled issue event signed with the secret `test_webhook_secret` runs the labeled
      handler and is accepted; the same event with the header `sha256=invalid` is rejected
      with 401, whatever the body and the digest function. */
  lemma LabeledScenario(payload: seq<byte>, mac: Mac)
    ensures HandleWebhook(Some("issues"), Some("labeled"),
                          Some(ExpectedSignature(payload, "test_webhook_secret", mac)),
                          "test_webhook_secret", payload, mac)
            == Dispatch(Accepted, Some(LabeledHandler))
    ensures HandleWebhook(Some("issues"), Some("labeled"), Some("sha256=invalid"),
                          "test_webhook_secret", payload, mac)
            == Dispatch(Unauthorized, None)
  {
    WrongLengthRejected(payload, "sha256=invalid", "test_webhook_secret", mac);
  }
}
