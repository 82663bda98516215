/**
  The installation-token cache shared by all providers of one worker process. A call looks at
  the key file, serves from the cache or mints a JWT and asks GitHub; while it waits for the
  answer, other calls may run. `mintedUnder` remembers which key file a token came from.
*/
module TokenCache {
  import opened Wrappers

  const REFRESH_SKEW: real := 300.0

  /** Modification time and size of the private key file. */
  datatype Fingerprint = Fingerprint(mtime: real, size: nat)

  datatype CachedToken = CachedToken(token: string, expiresAt: real, mintedUnder: Fingerprint)

  datatype Cache = Cache(tokens: map<nat, CachedToken>, keyFingerprint: Option<Fingerprint>)

  /** Seeing another fingerprint than the recorded one discards every token. */
  function Checked(cache: Cache, disk: Fingerprint): Cache {
    Cache(if cache.keyFingerprint.Some? && cache.keyFingerprint.value != disk then map[] else cache.tokens, Some(disk))
  }

  /** What a call serves without asking GitHub. */
  function Served(cache: Cache, disk: Fingerprint, now: real, installationId: nat,
                  forceRefresh: bool): Option<CachedToken> {
    var tokens := Checked(cache, disk).tokens;
    if !forceRefresh && installationId in tokens && tokens[installationId].expiresAt - REFRESH_SKEW > now
    then Some(tokens[installationId]) else None
  }

  /** Every cached token was minted under the recorded fingerprint. */
  predicate Consistent(cache: Cache) {
    forall id | id in cache.tokens :: cache.keyFingerprint == Some(cache.tokens[id].mintedUnder)
  }

  /** From a consistent cache a token is served iff it is of the key now on disk and lives more than five minutes. */
  lemma ServedIff(cache: Cache, disk: Fingerprint, now: real, installationId: nat, forceRefresh: bool)
    requires Consistent(cache)
    ensures Served(cache, disk, now, installationId, forceRefresh).Some?
       <==> && !forceRefresh && installationId in cache.tokens
            && cache.tokens[installationId].mintedUnder == disk && cache.tokens[installationId].expiresAt > now + 300.0
  {
  }

  // ------------------------------------------------------------------ the provider

  class KeyFile {
    var fingerprint: Fingerprint

    constructor (fingerprint: Fingerprint)
      ensures this.fingerprint == fingerprint
    {
      this.fingerprint := fingerprint;
    }
  }

  class AppTokenCache {
    var tokens: map<nat, CachedToken>
    var keyFingerprint: Option<Fingerprint>

    constructor ()
      ensures State() == Cache(map[], None)
    {
      tokens := map[];
      keyFingerprint := None;
    }

    function State(): Cache
      reads this
    {
      Cache(tokens, keyFingerprint)
    }

    method CheckKeyRotation(key: KeyFile)
      modifies this
      ensures State() == Checked(old(State()), key.fingerprint)
      ensures old(Consistent(State())) ==>
                && Consistent(State())
                && (forall id :: id in tokens <==> id in old(tokens) && old(tokens)[id].mintedUnder == key.fingerprint)
                && (forall id | id in tokens :: tokens[id] == old(tokens)[id])
    {
      if keyFingerprint.Some? && key.fingerprint != keyFingerprint.value { tokens := map[]; }
      keyFingerprint := Some(key.fingerprint);
    }

    /** The JWT stands for the key it was signed with: the file is read right after the check. */
    method MintAppJwt(key: KeyFile) returns (jwt: Fingerprint)
      modifies this
      ensures State() == Checked(old(State()), key.fingerprint) && jwt == key.fingerprint
    {
      CheckKeyRotation(key);
      jwt := key.fingerprint;
    }

    /** Up to the request to GitHub: either a token from the cache, or a JWT to ask with. */
    method BeginCall(key: KeyFile, now: real, installationId: nat, forceRefresh: bool)
      returns (served: Option<string>, jwt: Option<Fingerprint>)
      modifies this
      ensures State() == Checked(old(State()), key.fingerprint)
      ensures var hit := Served(old(State()), key.fingerprint, now, installationId, forceRefresh);
              served == (if hit.Some? then Some(hit.value.token) else None)
      ensures jwt == if served.Some? then None else Some(key.fingerprint)
      ensures old(Consistent(State())) ==>
                && Consistent(State()) && keyFingerprint == Some(key.fingerprint)
                && (served.Some? <==> && !forceRefresh && installationId in old(tokens)
                                      && old(tokens)[installationId].mintedUnder == key.fingerprint
                                      && old(tokens)[installationId].expiresAt > now + 300.0)
                && (served.Some? ==> served.value == old(tokens)[installationId].token)
    {
      CheckKeyRotation(key);
      if !forceRefresh && installationId in tokens && tokens[installationId].expiresAt - REFRESH_SKEW > now {
        return Some(tokens[installationId].token), None;
      }
      var minted := MintAppJwt(key);
      return None, Some(minted);
    }

    /** The answer to the request; an error status stores nothing. */
    method EndCall(installationId: nat, jwt: Fingerprint, response: Option<(string, real)>)
      returns (token: Option<string>)
      modifies this
      ensures token == if response.Some? then Some(response.value.0) else None
      ensures State() == if response.None? then old(State())
                         else var fetched := CachedToken(response.value.0, response.value.1, jwt);
                              old(State()).(tokens := old(tokens)[installationId := fetched])
    {
      if response.None? { return None; }
      tokens := tokens[installationId := CachedToken(response.value.0, response.value.1, jwt)];
      return Some(response.value.0);
    }
  }

  /**
    A whole call with nothing else running: the cache stays consistent, and a token served from
    it was minted under the key now on disk and is good for more than five minutes.
  */
  method GetInstallationToken(cache: AppTokenCache, key: KeyFile, now: real, installationId: nat, forceRefresh: bool,
                              response: Option<(string, real)>) returns (token: Option<string>)
    requires Consistent(cache.State())
    modifies cache
    ensures Consistent(cache.State()) && cache.keyFingerprint == Some(key.fingerprint)
    ensures var hit := Served(old(cache.State()), key.fingerprint, now, installationId, forceRefresh);
            && token == (if hit.Some? then Some(hit.value.token)
                         else if response.Some? then Some(response.value.0) else None)
            && (hit.Some? ==> hit.value.mintedUnder == key.fingerprint && hit.value.expiresAt > now + 300.0)
            && (hit.None? && response.Some? ==>
                  installationId in cache.tokens
                  && cache.tokens[installationId] == CachedToken(response.value.0, response.value.1, key.fingerprint))
  {
    var served, jwt := cache.BeginCall(key, now, installationId, forceRefresh);
    if served.Some? { return served; }
    token := cache.EndCall(installationId, jwt.value, response);
  }

  // ------------------------------------------------------------------ calls that overlap

  datatype Fetch = Fetch(installationId: nat, jwt: Fingerprint)

  datatype State = State(cache: Cache, disk: Fingerprint, now: real, fetching: map<nat, Fetch>)

  datatype Event =
    | Rotate(disk: Fingerprint)
    | Tick(elapsed: real)
    | Call(id: nat, installationId: nat, forceRefresh: bool)
    | Answer(id: nat, response: Option<(string, real)>)

  predicate Enabled(s: State, e: Event) {
    match e
    case Tick(elapsed) => elapsed >= 0.0
    case Call(id, _, _) => id !in s.fetching
    case Answer(id, _) => id in s.fetching
    case _ => true
  }

  function Step(s: State, e: Event): State
    requires Enabled(s, e)
  {
    match e
    case Rotate(disk) => s.(disk := disk)
    case Tick(elapsed) => s.(now := s.now + elapsed)
    case Call(id, installationId, forceRefresh) =>
      s.(cache := Checked(s.cache, s.disk),
         fetching := if Served(s.cache, s.disk, s.now, installationId, forceRefresh).Some? then s.fetching
                     else s.fetching[id := Fetch(installationId, s.disk)])
    case Answer(id, response) =>
      var fetch := s.fetching[id];
      State(if response.None? then s.cache
            else var fetched := CachedToken(response.value.0, response.value.1, fetch.jwt);
                 s.cache.(tokens := s.cache.tokens[fetch.installationId := fetched]),
            s.disk, s.now, s.fetching - {id})
  }

  predicate Initial(s: State) { s.cache == Cache(map[], None) && s.fetching == map[] }

  predicate IsTrace(states: seq<State>, events: seq<Event>) {
    && |states| == |events| + 1 && Initial(states[0])
    && forall i | 0 <= i < |events| :: Enabled(states[i], events[i]) && states[i + 1] == Step(states[i], events[i])
  }

  /** A token arrives although, since its JWT was minted, another call saw the key rotated. */
  predicate StoresStale(s: State, e: Event) {
    && e.Answer? && e.id in s.fetching && e.response.Some?
    && s.cache.keyFingerprint != Some(s.fetching[e.id].jwt)
  }

  lemma StepKeepsConsistentIff(s: State, e: Event)
    requires Consistent(s.cache) && Enabled(s, e)
    ensures Consistent(Step(s, e).cache) <==> !StoresStale(s, e)
  {
    if e.Answer? && e.response.Some? {
      var id := s.fetching[e.id].installationId;
      assert Step(s, e).cache.tokens[id].mintedUnder == s.fetching[e.id].jwt;
    }
  }

  lemma {:induction false} ConsistentUntilStale(states: seq<State>, events: seq<Event>, n: nat)
    requires IsTrace(states, events) && n < |states|
    requires forall k | 0 <= k < n :: !StoresStale(states[k], events[k])
    ensures Consistent(states[n].cache)
  {
    if n > 0 {
      ConsistentUntilStale(states, events, n - 1);
      StepKeepsConsistentIff(states[n - 1], events[n - 1]);
    }
  }

  /**
    The cache is consistent throughout a run exactly when no answer arrives across a rotation
    that another call has already seen.
  */
  lemma ConsistentIffNoStaleStore(states: seq<State>, events: seq<Event>)
    requires IsTrace(states, events)
    ensures (forall n | 0 <= n < |states| :: Consistent(states[n].cache))
       <==> (forall k | 0 <= k < |events| :: !StoresStale(states[k], events[k]))
  {
    if forall n | 0 <= n < |states| :: Consistent(states[n].cache) {
      forall k | 0 <= k < |events| ensures !StoresStale(states[k], events[k]) {
        assert Consistent(states[k].cache) && Consistent(states[k + 1].cache);
        StepKeepsConsistentIff(states[k], events[k]);
      }
    }
    if forall k | 0 <= k < |events| :: !StoresStale(states[k], events[k]) {
      forall n | 0 <= n < |states| ensures Consistent(states[n].cache) { ConsistentUntilStale(states, events, n); }
    }
  }

  /** One call at a time: the next begins only when the previous has been answered. */
  predicate OneAtATime(states: seq<State>, events: seq<Event>)
    requires |states| == |events| + 1
  {
    forall i | 0 <= i < |events| && events[i].Call? :: states[i].fetching == map[]
  }

  lemma {:induction false} SoleFetchIsRecorded(states: seq<State>, events: seq<Event>, n: nat)
    requires IsTrace(states, events) && OneAtATime(states, events) && n < |states|
    ensures forall id | id in states[n].fetching :: states[n].cache.keyFingerprint == Some(states[n].fetching[id].jwt)
  {
    if n > 0 {
      SoleFetchIsRecorded(states, events, n - 1);
      var s, e := states[n - 1], events[n - 1];
      assert Enabled(s, e) && states[n] == Step(s, e);
      if e.Call? { assert s.fetching == map[]; }
    }
  }

  /**
    Across any sequence of rotations and calls made one at a time, every cached token was minted
    under the recorded fingerprint, and one served matches the key file at that moment.
  */
  lemma SequentialCallsServeCurrentKey(states: seq<State>, events: seq<Event>, n: nat, installationId: nat,
                                       forceRefresh: bool)
    requires IsTrace(states, events) && OneAtATime(states, events) && n < |states|
    ensures Consistent(states[n].cache)
    ensures var s := states[n];
            var hit := Served(s.cache, s.disk, s.now, installationId, forceRefresh);
            hit.Some? ==> hit.value.mintedUnder == s.disk && hit.value.expiresAt > s.now + 300.0
  {
    forall k | 0 <= k < |events| ensures !StoresStale(states[k], events[k]) {
      SoleFetchIsRecorded(states, events, k);
    }
    ConsistentIffNoStaleStore(states, events);
  }

  /** Two overlapping calls can leave a token of the old key behind, which is then served. */
  lemma OverlapCanServeOldKey(a: Fingerprint, b: Fingerprint, token: string)
    returns (states: seq<State>, events: seq<Event>)
    requires a != b
    ensures IsTrace(states, events)
    ensures var s := states[|states| - 1];
            var hit := Served(s.cache, s.disk, s.now, 7, false);
            hit.Some? && hit.value.mintedUnder == a && s.disk == b
  {
    events := [Call(1, 7, false), Rotate(b), Call(2, 8, false), Answer(1, Some((token, 3600.0)))];
    var s0 := State(Cache(map[], None), a, 0.0, map[]);
    var s1 := Step(s0, events[0]);
    var s2 := Step(s1, events[1]);
    var s3 := Step(s2, events[2]);
    var s4 := Step(s3, events[3]);
    states := [s0, s1, s2, s3, s4];
    assert s4.cache.tokens[7] == CachedToken(token, 3600.0, a);
  }
}
