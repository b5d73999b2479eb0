/**
 The gateway's session guard: it reads a bearer token, looks the user up in its
 cache or at Auth, and forwards or rejects the request.
 */
module SessionGuard {
  import opened Outcomes
  import opened Identity
  import opened SessionMachine
  import opened Staleness
  import opened Text

  /** The claims the guard reads. `userId` and `role` are `None` when missing or malformed. */
  datatype Payload = Payload(isAccess: bool, userId: Option<UserId>, role: Option<Role>, pwdTs: PwdTs)

  datatype Verified = Valid(payload: Payload) | Expired | Invalid

  /** Auth's answer to a lookup; `Failure` carries the status the client maps it to, if any. */
  datatype Lookup = NoClient | Found(state: UserState) | Failure(status: Option<int>)

  datatype Decision = Forward | Reject(status: int)

  // ---------------------------------------------------------------- bearer

  /** `header.split(None, 1)` must give the scheme `bearer` and a token that is not blank. */
  function ExtractBearer(header: Option<string>): Option<string> {
    if header.None? then None
    else
      var h := TrimStart(header.value, IsSpace);
      var n := StopAt(h, IsSpace);
      var token := Strip(h[n..]);
      if Lower(h[..n]) == "bearer" && token != "" then Some(token) else None
  }

  /** A token without outer spaces survives the header, whatever the case of the scheme and the spacing around it. */
  lemma BearerRoundTrip(before: string, scheme: string, gap: string, token: string, after: string)
    requires Lower(scheme) == "bearer" && token != "" && Trimmed(token, IsSpace) && gap != ""
    requires forall c :: c in before + gap + after ==> IsSpace(c)
    ensures ExtractBearer(Some(before + scheme + gap + token + after)) == Some(token)
  {
    hide IsSpace, LowerChar;
    var rest := gap + token + after;
    assert before + scheme + gap + token + after == before + (scheme + rest);
    SchemeHasNoSpace(scheme);
    assert (scheme + rest)[0] == scheme[0] && rest[0] == gap[0];
    assert forall c :: c in before ==> c in before + gap + after;
    assert forall c :: c in gap ==> c in before + gap + after;
    StartIsSkipped(before, scheme + rest, IsSpace);
    StopsAfter(scheme, rest, IsSpace);
    assert (scheme + rest)[..|scheme|] == scheme && (scheme + rest)[|scheme|..] == rest;
    assert forall c :: c in after ==> c in before + gap + after;
    StripRemoves(gap, token, after);
  }

  /** Nothing else is a token: what is extracted stands behind the scheme `bearer` and a gap, stripped. */
  lemma OnlyBearersAreExtracted(header: string)
    requires ExtractBearer(Some(header)).Some?
    ensures
      var h := TrimStart(header, IsSpace);
      var token := ExtractBearer(Some(header)).value;
      && |h| > 6 && Lower(h[..6]) == "bearer" && IsSpace(h[6]) && token == Strip(h[6..]) && token != ""
  {
    var h := TrimStart(header, IsSpace);
    var n := StopAt(h, IsSpace);
    assert |Lower(h[..n])| == n;
  }

  lemma SchemeHasNoSpace(scheme: string)
    requires Lower(scheme) == "bearer"
    ensures |scheme| == 6 && forall i :: 0 <= i < |scheme| ==> !IsSpace(scheme[i])
  {
    forall i | 0 <= i < |scheme|
      ensures !IsSpace(scheme[i])
    {
      assert LowerChar(scheme[i]) == "bearer"[i] && "bearer"[i] >= 'a';
    }
  }

  // -------------------------------------------------------------- decision

  function Evaluate(payload: Payload, state: UserState): (r: Decision)
    ensures r == Forward <==>
      && state.isActive && !state.isBlocked && payload.role == Some(state.role)
      && !GatewayRejects(payload.pwdTs, state.pwdTs)
    ensures r == Reject(403) <==> state.isBlocked || !state.isActive
    ensures r != Forward && r != Reject(403) ==> r == Reject(401)
  {
    if state.isBlocked then Reject(403)
    else if !state.isActive then Reject(403)
    else if payload.role != Some(state.role) then Reject(401)
    else if GatewayRejects(payload.pwdTs, state.pwdTs) then Reject(401)
    else Forward
  }

  datatype Entry = Entry(state: UserState, expiresAt: Time)

  /** The gateway's optional cache of user states. */
  class GatewayCache {
    var store: map<UserId, Entry>

    constructor ()
      ensures store == map[]
    {
      store := map[];
    }

    /** The state of a live entry. */
    ghost function Cached(u: UserId, now: Time): Option<UserState>
      reads this
    {
      if u in store && now < store[u].expiresAt then Some(store[u].state) else None
    }

    method GetCached(u: UserId, now: Time) returns (hit: Option<UserState>)
      modifies this
      ensures hit == old(Cached(u, now))
      ensures store == if hit.Some? then old(store) else old(store) - {u}
    {
      if u !in store {
        assert store - {u} == store;
        return None;
      }
      if now >= store[u].expiresAt {
        store := store - {u};
        return None;
      }
      hit := Some(store[u].state);
    }

    /** A time-to-live of zero or less turns the cache off. */
    method SetCached(u: UserId, state: UserState, ttl: int, now: Time)
      modifies this
      ensures store == if ttl <= 0 then old(store) else old(store)[u := Entry(state, now + ttl)]
    {
      if ttl <= 0 {
        return;
      }
      store := store[u := Entry(state, now + ttl)];
    }

    method Invalidate(u: UserId)
      modifies this
      ensures store == old(store) - {u}
    {
      store := store - {u};
    }
  }

  /** The payload of a bearer token that is a valid access token with a user id. */
  function Presented(header: Option<string>, verify: string -> Verified): (r: Option<Payload>)
    ensures r.Some? <==>
      && ExtractBearer(header).Some?
      && verify(ExtractBearer(header).value).Valid?
      && verify(ExtractBearer(header).value).payload.isAccess
      && verify(ExtractBearer(header).value).payload.userId.Some?
    ensures r.Some? ==> r.value == verify(ExtractBearer(header).value).payload
  {
    var token := ExtractBearer(header);
    if token.None? then None
    else
      var v := verify(token.value);
      if v.Valid? && v.payload.isAccess && v.payload.userId.Some? then Some(v.payload) else None
  }

  class Guard {
    const enabled: bool
    const ttl: int
    const cache: GatewayCache

    constructor (enabled: bool, ttl: int, cache: GatewayCache)
      ensures this.enabled == enabled && this.ttl == ttl && this.cache == cache
    {
      this.enabled, this.ttl, this.cache := enabled, ttl, cache;
    }

    /**
     Forwards exactly the requests that are out of its scope and those whose valid
     access token matches a known, open, current user state. `lookup` is what Auth
     answers if it is asked, `asked` and `answered` are the clock before and after.
     */
    method EnforceSession(publicPath: bool, header: Option<string>, verify: string -> Verified, lookup: Lookup,
                          asked: Time, answered: Time) returns (decision: Decision)
      modifies cache
      ensures !(enabled && !publicPath && ExtractBearer(header).Some?) ==> decision == Forward && cache.store == old(cache.store)
      ensures enabled && !publicPath && ExtractBearer(header).Some? && Presented(header, verify).None? ==>
        decision == Reject(401) && cache.store == old(cache.store)
      ensures enabled && !publicPath && ExtractBearer(header).Some? && Presented(header, verify).Some? ==>
        var payload := Presented(header, verify).value;
        var u := payload.userId.value;
        var cached := old(cache.Cached(u, asked));
        var known := if cached.Some? then cached else if lookup.Found? then Some(lookup.state) else None;
        && (decision == Forward <==>
              && known.Some? && known.value.isActive && !known.value.isBlocked && payload.role == Some(known.value.role)
              && !GatewayRejects(payload.pwdTs, known.value.pwdTs))
        && (decision == Reject(403) <==> known.Some? && (known.value.isBlocked || !known.value.isActive))
        && (decision == Reject(503) <==> known.None? && lookup != Failure(Some(401)))
        && (decision.Reject? ==> decision.status in {401, 403, 503})
        && cache.store == if cached.Some? then old(cache.store)
                          else if lookup.Found? && ttl > 0 then old(cache.store)[u := Entry(lookup.state, answered + ttl)]
                          else old(cache.store) - {u}
    {
      hide ExtractBearer, Evaluate, GatewayRejects;
      if !enabled || publicPath {
        return Forward;
      }
      var token := ExtractBearer(header);
      if token.None? {
        return Forward;
      }
      var v := verify(token.value);
      if !v.Valid? {
        return Reject(401);
      }
      if !v.payload.isAccess || v.payload.userId.None? {
        return Reject(401);
      }
      var u := v.payload.userId.value;
      var state := cache.GetCached(u, asked);
      if state.None? {
        match lookup {
          case NoClient =>
            return Reject(503);
          case Failure(status) =>
            return Reject(if status == Some(401) then 401 else 503);
          case Found(found) =>
            cache.SetCached(u, found, ttl, answered);
            assert (old(cache.store) - {u})[u := Entry(found, answered + ttl)] == old(cache.store)[u := Entry(found, answered + ttl)];
            state := Some(found);
        }
      }
      decision := Evaluate(v.payload, state.value);
    }
  }
}
