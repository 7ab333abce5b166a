/** The revoked-token list: token identifiers mapped to their expiry
    instant. Membership alone decides whether a token is revoked; a
    periodic sweep drops the entries whose expiry has passed. The clock is
    the parameter `now` of the sweep. */
module TokenBlacklistModel {

  /** Revoked tokens after a sweep at `now`: those whose expiry is not
      before now. */
  function Unexpired(tokens: map<string, int>, now: int): (r: map<string, int>)
  {
    map t | t in tokens && !(now > tokens[t]) :: tokens[t]
  }

  /** The sweep keeps exactly the unexpired tokens with their expiry,
      never adds one, and a second sweep at the same instant changes
      nothing. */
  lemma SweepKeepsExactlyUnexpired(tokens: map<string, int>, now: int)
    ensures forall t :: t in Unexpired(tokens, now) <==> t in tokens && now <= tokens[t]
    ensures forall t :: t in Unexpired(tokens, now) ==> Unexpired(tokens, now)[t] == tokens[t]
    ensures |Unexpired(tokens, now)| <= |tokens|
    ensures Unexpired(Unexpired(tokens, now), now) == Unexpired(tokens, now)
  {
    assert Unexpired(tokens, now).Keys <= tokens.Keys;
    SubsetCard(Unexpired(tokens, now).Keys, tokens.Keys);
  }

  lemma SubsetCard<T>(a: set<T>, b: set<T>)
    requires a <= b
    ensures |a| <= |b|
  {
    assert b == a + (b - a);
  }

  /** Adding a token: afterwards it is revoked, with the new expiry; a new
      token raises the count by one and a re-added one leaves it as it was. */
  lemma AddCount(tokens: map<string, int>, token: string, expiry: int)
    ensures token in tokens[token := expiry] && tokens[token := expiry][token] == expiry
    ensures token !in tokens ==> |tokens[token := expiry]| == |tokens| + 1
    ensures token in tokens ==> |tokens[token := expiry]| == |tokens|
  {
    if token in tokens {
      assert tokens[token := expiry].Keys == tokens.Keys;
    } else {
      assert tokens[token := expiry].Keys == tokens.Keys + {token};
    }
  }

  class TokenBlacklist {
    var tokens: map<string, int>
    const cleanupInterval: int

    constructor (cleanupInterval: int)
      ensures tokens == map[] && this.cleanupInterval == cleanupInterval
    {
      tokens := map[];
      this.cleanupInterval := cleanupInterval;
    }

    /** Records (or overwrites) the token's expiry. */
    method Add(token: string, expiry: int)
      modifies this`tokens
      ensures tokens == old(tokens)[token := expiry]
      ensures IsBlacklisted(token)
      ensures Count() == old(Count()) + (if token in old(tokens) then 0 else 1)
    {
      AddCount(tokens, token, expiry);
      tokens := tokens[token := expiry];
    }

    /** Whether the token is present, whatever its expiry. */
    predicate IsBlacklisted(token: string)
      reads this
      ensures IsBlacklisted(token) ==> Count() >= 1
    {
      token in tokens
    }

    /** The number of distinct revoked tokens. */
    function Count(): (n: nat)
      reads this
      ensures n == 0 <==> tokens == map[]
    {
      |tokens|
    }

    /** Drops every token whose expiry is before now. */
    method RemoveExpiredTokens(now: int)
      modifies this`tokens
      ensures tokens == Unexpired(old(tokens), now)
    {
      var keys := tokens.Keys;
      ghost var original := tokens;
      while keys != {}
        invariant keys <= original.Keys
        invariant tokens == map t | t in original && (t in keys || !(now > original[t])) :: original[t]
        decreases |keys|
      {
        var t :| t in keys;
        if now > tokens[t] {
          tokens := tokens - {t};
        }
        keys := keys - {t};
      }
    }
  }
}
