// When the digest of a received message is checked, and what it decides.
module Authentication {
  import opened Results
  import opened Bytes
  import opened Asn1
  import opened Message
  import opened Signature

  // The message carries the 12-octet digest that signing it under the key would put there.
  predicate Authentic(mac: Mac, key: bytes, data: bytes) {
    && TopLevel(data).Ok? && OpenEnvelope(TopLevel(data).value).Ok?
    && |OpenEnvelope(TopLevel(data).value).value.authParams| == AUTH_PARAM_LEN
    && AuthParamsOffset(data).Ok?
    && Resign(mac, key, data, AuthParamsOffset(data).value) == data
  }

  lemma AuthenticIsVerified(mac: Mac, data: bytes, key: bytes)
    requires TopLevel(data).Ok? && OpenEnvelope(TopLevel(data).value).Ok?
    ensures Authentic(mac, key, data) <==>
      VerifyAuth(mac, data, OpenEnvelope(TopLevel(data).value).value, Some(key)).Ok?
  {
    hide TopLevel;
    hide OpenEnvelope;
    hide VerifyAuth;
    hide Resign;
    AcceptsIffResigned(mac, data, key);
  }

  // With verification on, a message is read exactly when it is read with verification off and, if its own flags
  // say that it is authenticated, its digest is right. What is read is the same.
  lemma ReadExactlyIf(mac: Mac, data: bytes, key: bytes, priv: Option<bytes>)
    ensures var off := DecodeMessage(mac, data, Keys(Some(key), priv), false);
      var on := DecodeMessage(mac, data, Keys(Some(key), priv), true);
      && (on.Ok? <==> off.Ok? && (Has(off.value.env.flags, FLAG_AUTH) ==> Authentic(mac, key, data)))
      && (on.Ok? ==> on == off)
  {
    hide TopLevel;
    hide OpenEnvelope;
    hide VerifyAuth;
    hide ScopedBody;
    hide OpenPdu;
    hide Authentic;
    hide Has;
    if TopLevel(data).Ok? && OpenEnvelope(TopLevel(data).value).Ok? {
      AuthenticIsVerified(mac, data, key);
    }
  }

  // A message whose flags do not say that it is authenticated is read alike under every key, under none, and
  // with verification on or off.
  lemma UnflaggedIgnoresKey(mac: Mac, data: bytes, priv: Option<bytes>, key: Option<bytes>, other: Option<bytes>,
                            verify: bool, again: bool)
    requires DecodeMessage(mac, data, Keys(key, priv), verify).Ok?
    requires !Has(DecodeMessage(mac, data, Keys(key, priv), verify).value.env.flags, FLAG_AUTH)
    ensures DecodeMessage(mac, data, Keys(other, priv), again) == DecodeMessage(mac, data, Keys(key, priv), verify)
  {
    hide TopLevel;
    hide OpenEnvelope;
    hide VerifyAuth;
    hide ScopedBody;
    hide OpenPdu;
    hide Has;
  }

  // A message whose flags say so is read only with a key.
  lemma FlaggedNeedsKey(mac: Mac, data: bytes, priv: Option<bytes>)
    ensures var r := DecodeMessage(mac, data, Keys(None, priv), true);
      r.Ok? ==> !Has(r.value.env.flags, FLAG_AUTH)
  {
    hide TopLevel;
    hide OpenEnvelope;
    hide ScopedBody;
    hide OpenPdu;
    hide Has;
  }

  // Turning verification off changes nothing about a message that verifies.
  lemma VerifyOff(mac: Mac, data: bytes, keys: Keys, verify: bool)
    requires DecodeMessage(mac, data, keys, true).Ok?
    ensures DecodeMessage(mac, data, keys, verify) == DecodeMessage(mac, data, keys, true)
  {
    hide TopLevel;
    hide OpenEnvelope;
    hide VerifyAuth;
    hide ScopedBody;
    hide OpenPdu;
  }

  // Keys are not looked at when no flag asks for them.
  lemma KeysUnused(mac: Mac, data: bytes, keys: Keys, other: Keys, verify: bool)
    requires DecodeMessage(mac, data, keys, true).Ok?
    requires DecodeMessage(mac, data, keys, true).value.env.flags == FLAG_REPORTABLE
    ensures DecodeMessage(mac, data, other, verify) == DecodeMessage(mac, data, keys, true)
  {
    hide TopLevel;
    hide OpenEnvelope;
    hide VerifyAuth;
    hide ScopedBody;
    hide OpenPdu;
    hide Has;
    ReportableOnly();
    var ch := TopLevel(data).value;
    PlainBody(ch, OpenEnvelope(ch).value, keys.priv, other.priv);
  }

  lemma ReportableOnly()
    ensures !Has(FLAG_REPORTABLE, FLAG_AUTH) && !Has(FLAG_REPORTABLE, FLAG_PRIV)
  {
  }

  lemma PlainBody(ch: seq<Child>, env: Envelope, key: Option<bytes>, other: Option<bytes>)
    requires !Has(env.flags, FLAG_PRIV)
    ensures ScopedBody(ch, env, key) == ScopedBody(ch, env, other)
  {
    hide Has;
  }
}
