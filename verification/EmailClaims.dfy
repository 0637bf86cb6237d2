// The address a token carries and the issuer's verdict on it
// (src/auth/verifiedEmail.ts). Silence is neither confirmation nor refusal.
module EmailClaims {
  import opened Wrappers
  import opened Settings

  datatype Value = Text(text: string) | Truth(truth: bool) | Other

  type Claims = map<string, Value>

  datatype EmailClaim = EmailClaim(address: string, verdict: Option<bool>)

  const DEFAULT_EMAIL_CLAIM := "https://letterirl.com/email"
  const DEFAULT_EMAIL_VERIFIED_CLAIM := "https://letterirl.com/email_verified"

  function Claimed(claims: Claims, name: string): Value {
    if name in claims then claims[name] else Other
  }

  function ReadString(value: Value): Option<string> {
    if value.Text? && Trim(value.text) != "" then Some(Trim(value.text)) else None
  }

  function ReadVerdict(value: Value): Option<bool> {
    if value == Truth(true) || value == Text("true") then Some(true)
    else if value == Truth(false) || value == Text("false") then Some(false)
    else None
  }

  function ClaimName(env: Env, setting: string, fallback: string): string {
    if setting in env then env[setting] else fallback
  }

  function ReadEmailClaim(claims: Claims, env: Env): Option<EmailClaim> {
    var standard := ReadString(Claimed(claims, "email"));
    if standard.Some? then Some(EmailClaim(standard.value, ReadVerdict(Claimed(claims, "email_verified"))))
    else
      var namespaced := ReadString(Claimed(claims, ClaimName(env, "LETTER_IRL_OAUTH_EMAIL_CLAIM",
          DEFAULT_EMAIL_CLAIM)));
      if namespaced.None? then None
      else
        var verdict := ClaimName(env, "LETTER_IRL_OAUTH_EMAIL_VERIFIED_CLAIM", DEFAULT_EMAIL_VERIFIED_CLAIM);
        Some(EmailClaim(namespaced.value, ReadVerdict(Claimed(claims, verdict))))
  }

  // ---- What the claims say, without the reading of them --------------------------------

  predicate Carries(claims: Claims, name: string, address: string) {
    name in claims && claims[name].Text? && address != "" && Trim(claims[name].text) == address
  }

  predicate StatesTrue(claims: Claims, name: string) {
    name in claims && claims[name] in {Truth(true), Text("true")}
  }

  predicate StatesFalse(claims: Claims, name: string) {
    name in claims && claims[name] in {Truth(false), Text("false")}
  }

  predicate Says(claims: Claims, name: string, verdict: Option<bool>) {
    && (verdict == Some(true) <==> StatesTrue(claims, name))
    && (verdict == Some(false) <==> StatesFalse(claims, name))
  }

  ghost predicate StandardAddress(claims: Claims) {
    exists address :: Carries(claims, "email", address)
  }

  // The names of the namespaced pair, which a deployment may set.
  function AddressPlace(env: Env): string {
    if "LETTER_IRL_OAUTH_EMAIL_CLAIM" in env then env["LETTER_IRL_OAUTH_EMAIL_CLAIM"]
    else "https://letterirl.com/email"
  }

  function VerdictPlace(env: Env): string {
    if "LETTER_IRL_OAUTH_EMAIL_VERIFIED_CLAIM" in env then env["LETTER_IRL_OAUTH_EMAIL_VERIFIED_CLAIM"]
    else "https://letterirl.com/email_verified"
  }

  // An address goes with the verdict stated beside it: the standard pair of claims
  // where the standard one carries an address, and otherwise the namespaced pair.
  ghost predicate States(claims: Claims, env: Env, address: string, verdict: Option<bool>) {
    if StandardAddress(claims) then Carries(claims, "email", address) && Says(claims, "email_verified", verdict)
    else Carries(claims, AddressPlace(env), address) && Says(claims, VerdictPlace(env), verdict)
  }

  // The token confirms `address`.
  ghost predicate Confirms(claims: Claims, env: Env, address: string) {
    if StandardAddress(claims) then Carries(claims, "email", address) && StatesTrue(claims, "email_verified")
    else Carries(claims, AddressPlace(env), address) && StatesTrue(claims, VerdictPlace(env))
  }

  lemma {:induction false} StringsAreRead(claims: Claims, name: string, address: string)
    ensures ReadString(Claimed(claims, name)) == Some(address) <==> Carries(claims, name, address)
  {
  }

  lemma {:induction false} VerdictsAreRead(claims: Claims, name: string, verdict: Option<bool>)
    ensures ReadVerdict(Claimed(claims, name)) == verdict <==> Says(claims, name, verdict)
  {
    assert "true" != "false" by { assert |"true"| != |"false"|; }
    if verdict.Some? { assert verdict == if verdict.value then Some(true) else Some(false); }
  }

  lemma {:induction false} StandardIsRead(claims: Claims)
    ensures ReadString(Claimed(claims, "email")).Some? <==> StandardAddress(claims)
  {
    var read := ReadString(Claimed(claims, "email"));
    if read.Some? { StringsAreRead(claims, "email", read.value); }
    forall address | Carries(claims, "email", address) ensures read.Some? { StringsAreRead(claims, "email", address); }
  }

  // The claim read is the address and the verdict that the claims state.
  lemma {:induction false} ReadsWhatIsStated(claims: Claims, env: Env, address: string, verdict: Option<bool>)
    ensures ReadEmailClaim(claims, env) == Some(EmailClaim(address, verdict)) <==> States(claims, env, address, verdict)
  {
    StandardIsRead(claims);
    StringsAreRead(claims, "email", address);
    VerdictsAreRead(claims, "email_verified", verdict);
    StringsAreRead(claims, AddressPlace(env), address);
    VerdictsAreRead(claims, VerdictPlace(env), verdict);
  }

  lemma {:induction false} ConfirmedIsRead(claims: Claims, env: Env, address: string)
    ensures ReadEmailClaim(claims, env) == Some(EmailClaim(address, Some(true))) <==> Confirms(claims, env, address)
  {
    ReadsWhatIsStated(claims, env, address, Some(true));
    VerdictsAreRead(claims, "email_verified", Some(true));
    VerdictsAreRead(claims, VerdictPlace(env), Some(true));
  }

  // While the standard claim carries an address, nothing but it and its own
  // verdict matters.
  lemma {:induction false} StandardClaimDecides(a: Claims, b: Claims, env: Env)
    requires Claimed(a, "email") == Claimed(b, "email") && Claimed(a, "email_verified") == Claimed(b, "email_verified")
    requires StandardAddress(a)
    ensures ReadEmailClaim(a, env) == ReadEmailClaim(b, env)
  {
    StandardIsRead(a);
  }

  // Silence is not confirmation: every confirmation rests on the verdict beside the
  // address, and without that claim the token confirms nothing at all.
  lemma {:induction false} SilenceIsNotConfirmation(claims: Claims, env: Env, address: string, other: string)
    ensures var verdict := if StandardAddress(claims) then "email_verified" else VerdictPlace(env);
      && (Confirms(claims, env, address) ==> StatesTrue(claims, verdict))
      && !Confirms(claims - {verdict}, env, other)
  {
    var verdict := if StandardAddress(claims) then "email_verified" else VerdictPlace(env);
    var silent := claims - {verdict};
    assert "email" != "email_verified" by { assert |"email"| != |"email_verified"|; }
    if StandardAddress(claims) {
      var a :| Carries(claims, "email", a);
      assert Carries(silent, "email", a);
    } else {
      forall a ensures !Carries(silent, "email", a) { assert !Carries(claims, "email", a); }
    }
  }
}
