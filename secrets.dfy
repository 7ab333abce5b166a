/** Secret strength and rotation bookkeeping. Encryption is outside the
    model: its outcome comes in as a parameter. The process environment the
    rotated secret is written to is a map field of the manager; the clock
    is the parameter `now` (nanoseconds). */
module Secrets {
  import opened Common
  import opened Validation

  // ---------------------------------------------------------------------
  // Strength
  // ---------------------------------------------------------------------

  /** The class the secret check puts a character in: ASCII upper, lower,
      digit, and everything else special. */
  function SecretClass(c: char): (k: CharClass)
    ensures k != Other
    ensures k == Upper <==> IsAsciiUpper(c)
    ensures k == Lower <==> IsAsciiLower(c)
    ensures k == Digit <==> IsAsciiDigit(c)
  {
    if IsAsciiUpper(c) then Upper
    else if IsAsciiLower(c) then Lower
    else if IsAsciiDigit(c) then Digit
    else Special
  }

  predicate HasSecretClass(s: string, k: CharClass)
  {
    exists i :: 0 <= i < |s| && SecretClass(s[i]) == k
  }

  /** At least 16 bytes and all four classes present. */
  predicate StrongSecret(secret: string)
  {
    Utf8Len(secret) >= 16
    && HasSecretClass(secret, Upper) && HasSecretClass(secret, Lower)
    && HasSecretClass(secret, Digit) && HasSecretClass(secret, Special)
  }

  const TooShort: string := "secret must be at least 16 characters long"
  const TooSimple: string := "secret must contain uppercase, lowercase, digit, and special characters"

  /** The verdict on a secret: too short under 16 bytes, too simple without
      all four classes, accepted otherwise. */
  function SecretVerdict(secret: string): (r: Option<string>)
    ensures r == None <==> StrongSecret(secret)
    ensures Utf8Len(secret) < 16 ==> r == Some(TooShort)
  {
    if Utf8Len(secret) < 16 then Some(TooShort)
    else if HasSecretClass(secret, Upper) && HasSecretClass(secret, Lower)
      && HasSecretClass(secret, Digit) && HasSecretClass(secret, Special) then None
    else Some(TooSimple)
  }

  method ValidateSecretStrength(secret: string) returns (err: Option<string>)
    ensures err == SecretVerdict(secret)
  {
    if Utf8Len(secret) < 16 {
      return Some(TooShort);
    }
    var hasUpper, hasLower, hasDigit, hasSpecial := false, false, false, false;
    var i := 0;
    while i < |secret|
      invariant 0 <= i <= |secret|
      invariant hasUpper <==> HasSecretClass(secret[..i], Upper)
      invariant hasLower <==> HasSecretClass(secret[..i], Lower)
      invariant hasDigit <==> HasSecretClass(secret[..i], Digit)
      invariant hasSpecial <==> HasSecretClass(secret[..i], Special)
    {
      var c := secret[i];
      assert secret[..i + 1] == secret[..i] + [c];
      if 'A' <= c <= 'Z' {
        hasUpper := true;
      } else if 'a' <= c <= 'z' {
        hasLower := true;
      } else if '0' <= c <= '9' {
        hasDigit := true;
      } else {
        hasSpecial := true;
      }
      i := i + 1;
    }
    assert secret[..|secret|] == secret;
    if !hasUpper || !hasLower || !hasDigit || !hasSpecial {
      return Some(TooSimple);
    }
    return None;
  }

  /** The two strength rules differ only in what counts as special: an
      accepted secret whose special characters are all ASCII punctuation or
      symbols is also a strong password. */
  lemma AcceptedSecretIsStrongPassword(secret: string)
    requires SecretVerdict(secret) == None
    requires forall i :: 0 <= i < |secret| && SecretClass(secret[i]) == Special ==> IsAsciiPunctOrSymbol(secret[i])
    ensures StrongPassword(secret)
  {
    var u :| 0 <= u < |secret| && SecretClass(secret[u]) == Upper;
    assert PasswordClass(secret[u]) == Upper;
    var l :| 0 <= l < |secret| && SecretClass(secret[l]) == Lower;
    assert PasswordClass(secret[l]) == Lower;
    var d :| 0 <= d < |secret| && SecretClass(secret[d]) == Digit;
    assert PasswordClass(secret[d]) == Digit;
    var s :| 0 <= s < |secret| && SecretClass(secret[s]) == Special;
    assert PasswordClass(secret[s]) == Special;
  }

  /** A space is special for secrets but not for passwords. */
  lemma SpaceCountsOnlyForSecrets()
    ensures SecretClass(' ') == Special && PasswordClass(' ') == Other
  {
  }

  // ---------------------------------------------------------------------
  // Rotation
  // ---------------------------------------------------------------------

  datatype SecretRotationConfig = SecretRotationConfig(rotationInterval: int, rotationEnabled: bool, notifyBeforeExp: int)

  datatype SecretMetadata = SecretMetadata(key: string, createdAt: int, lastRotated: int, expiresAt: int, version: int)

  /** The metadata Go reads for a key it has never seen: all zero. */
  function ZeroMetadata(): SecretMetadata
  {
    SecretMetadata("", ZeroTime, ZeroTime, ZeroTime, 0)
  }

  class RotationManager {
    const config: SecretRotationConfig
    var metadata: map<string, SecretMetadata>
    var environment: map<string, string>

    constructor (config: SecretRotationConfig, environment: map<string, string>)
      ensures this.config == config && metadata == map[] && this.environment == environment
    {
      this.config := config;
      metadata := map[];
      this.environment := environment;
    }

    function Recorded(key: string): SecretMetadata
      reads this
    {
      if key in metadata then metadata[key] else ZeroMetadata()
    }

    /** Rotation is due when it is enabled and the secret is unknown or was
        last rotated more than one interval ago. */
    function ShouldRotate(key: string, now: int): (due: bool)
      reads this
      ensures !config.rotationEnabled ==> !due
      ensures config.rotationEnabled && key !in metadata ==> due
      ensures config.rotationEnabled && key in metadata ==>
        (due <==> now - metadata[key].lastRotated > config.rotationInterval)
    {
      if !config.rotationEnabled then false
      else if key !in metadata then true
      else now - metadata[key].lastRotated > config.rotationInterval
    }

    /** Stores the encrypted value in the environment and records the
        rotation: one version more, the creation time kept, and expiry one
        interval from now. A failed encryption changes nothing. */
    method RotateSecret(key: string, encrypted: Result<string>, now: int) returns (err: Option<string>)
      modifies this`metadata, this`environment
      ensures encrypted.Err? ==> err.Some? && metadata == old(metadata) && environment == old(environment)
      ensures encrypted.Ok? ==> err == None && environment == old(environment)[key := "encrypted:" + encrypted.value]
      ensures encrypted.Ok? ==>
        metadata == old(metadata)[key := SecretMetadata(key, old(Recorded(key)).createdAt, now,
                                                         now + config.rotationInterval, old(Recorded(key)).version + 1)]
    {
      if encrypted.Err? {
        return Some("failed to encrypt new secret: " + encrypted.error);
      }
      environment := environment[key := "encrypted:" + encrypted.value];
      var prev := Recorded(key);
      metadata := metadata[key := SecretMetadata(key, prev.createdAt, now, now + config.rotationInterval, prev.version + 1)];
      return None;
    }
  }

  /** Just after a rotation, and for one interval after it, the secret is not
      due again. */
  lemma RotatedNotDueWithinInterval(m: RotationManager, key: string, now: int, later: int)
    requires key in m.metadata && m.metadata[key].lastRotated == now
    requires now <= later <= now + m.config.rotationInterval
    ensures !m.ShouldRotate(key, later)
  {
  }
}
