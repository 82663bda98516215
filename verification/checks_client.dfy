/**
  The Check Run server as one client sees it, and the client that looks a run up by its
  external id before creating one. A request can be refused, applied and acknowledged, or
  applied without the acknowledgement ever arriving.
*/
module ChecksClient {
  import opened Wrappers
  import opened PublishRetry

  const CHECK_RUNS_PAGE_SIZE: nat := 100

  datatype Conclusion = Success | Failure

  datatype CheckRun = CheckRun(
    repo: string, headSha: string, name: string, externalId: Option<string>,
    conclusion: Conclusion, summary: string)

  /** What identifies one logical Check Run: where a lookup looks and what it looks for. */
  datatype CheckKey = CheckKey(repo: string, headSha: string, name: string, externalId: string)

  datatype Report = Report(conclusion: Conclusion, summary: string)

  datatype Server = Server(runs: map<nat, CheckRun>, nextId: nat)

  datatype PublishedCheck = PublishedCheck(checkRunId: nat, externalId: string)

  predicate ValidServer(s: Server) {
    forall id | id in s.runs :: id < s.nextId
  }

  predicate Listable(run: CheckRun, key: CheckKey) {
    run.repo == key.repo && run.headSha == key.headSha && run.name == key.name
  }

  predicate Matching(run: CheckRun, key: CheckKey) {
    Listable(run, key) && run.externalId == Some(key.externalId)
  }

  function Matches(s: Server, key: CheckKey): set<nat> {
    set id | id in s.runs && Matching(s.runs[id], key)
  }

  /** The run every later delivery must converge to: the one created first. */
  predicate IsCanonical(s: Server, key: CheckKey, id: nat) {
    id in Matches(s, key) && forall other | other in Matches(s, key) :: id <= other
  }

  function Requested(key: CheckKey, report: Report): CheckRun {
    CheckRun(key.repo, key.headSha, key.name, Some(key.externalId), report.conclusion, report.summary)
  }

  function Posted(s: Server, key: CheckKey, report: Report): Server {
    Server(s.runs[s.nextId := Requested(key, report)], s.nextId + 1)
  }

  /** An update keeps the repository and commit the run was created for. */
  function Patched(s: Server, id: nat, key: CheckKey, report: Report): Server
    requires id in s.runs
  {
    var run := s.runs[id];
    s.(runs := s.runs[id := run.(name := key.name, externalId := Some(key.externalId),
                                 conclusion := report.conclusion, summary := report.summary)])
  }

  // ------------------------------------------------------------------ facts about the server

  lemma PostedMatches(s: Server, key: CheckKey, report: Report, other: CheckKey)
    requires ValidServer(s)
    ensures ValidServer(Posted(s, key, report))
    ensures Matches(Posted(s, key, report), other)
         == if other == key then Matches(s, key) + {s.nextId} else Matches(s, other)
  {
    var t := Posted(s, key, report);
    forall id ensures id in Matches(t, other) <==>
        id in if other == key then Matches(s, key) + {s.nextId} else Matches(s, other)
    {
      assert id != s.nextId ==> (id in t.runs <==> id in s.runs);
    }
  }

  lemma PatchedMatches(s: Server, id: nat, key: CheckKey, report: Report, other: CheckKey)
    requires ValidServer(s) && id in Matches(s, key)
    ensures ValidServer(Patched(s, id, key, report))
    ensures Matches(Patched(s, id, key, report), other) == Matches(s, other)
    ensures Patched(s, id, key, report).runs[id] == Requested(key, report)
  {
    var t := Patched(s, id, key, report);
    assert t.runs.Keys == s.runs.Keys;
  }

  /** Creating a run never displaces an existing canonical run. */
  lemma CanonicalSurvivesPost(s: Server, key: CheckKey, report: Report, other: CheckKey, id: nat)
    requires ValidServer(s) && IsCanonical(s, other, id)
    ensures IsCanonical(Posted(s, key, report), other, id)
  {
    PostedMatches(s, key, report, other);
  }

  // ------------------------------------------------------------------ the paged lookup

  datatype Listed = Listed(id: nat, run: CheckRun)

  /** All runs of one commit and name, each once, in an order the server chooses. */
  ghost predicate IsListing(s: Server, key: CheckKey, listing: seq<Listed>) {
    && (forall i | 0 <= i < |listing| ::
          listing[i].id in s.runs && s.runs[listing[i].id] == listing[i].run
          && Listable(listing[i].run, key))
    && (forall i, j | 0 <= i < j < |listing| :: listing[i].id != listing[j].id)
    && (forall id | id in s.runs && Listable(s.runs[id], key) ::
          exists i :: 0 <= i < |listing| && listing[i].id == id)
  }

  function Page(listing: seq<Listed>, page: nat): (r: seq<Listed>)
    requires page >= 1
    ensures |r| <= CHECK_RUNS_PAGE_SIZE
  {
    var from := (page - 1) * CHECK_RUNS_PAGE_SIZE;
    var upTo := page * CHECK_RUNS_PAGE_SIZE;
    if from >= |listing| then [] else if upTo >= |listing| then listing[from..] else listing[from..upTo]
  }

  /** `id` is the smallest id among the listed runs that carry the external id. */
  predicate LowestListed(listing: seq<Listed>, externalId: string, id: nat) {
    && (exists i :: 0 <= i < |listing| && listing[i].id == id && listing[i].run.externalId == Some(externalId))
    && forall i | 0 <= i < |listing| && listing[i].run.externalId == Some(externalId) :: id <= listing[i].id
  }

  predicate NoneListed(listing: seq<Listed>, externalId: string) {
    forall i | 0 <= i < |listing| :: listing[i].run.externalId != Some(externalId)
  }

  /** One page's ids: the comprehension inside the loop. */
  function MatchingIds(runs: seq<Listed>, externalId: string): seq<nat> {
    if runs == [] then []
    else
      var rest := MatchingIds(runs[..|runs| - 1], externalId);
      var last := runs[|runs| - 1];
      if last.run.externalId == Some(externalId) then rest + [last.id] else rest
  }

  lemma {:induction false} MatchingIdsAppend(a: seq<Listed>, b: seq<Listed>, externalId: string)
    ensures MatchingIds(a + b, externalId) == MatchingIds(a, externalId) + MatchingIds(b, externalId)
  {
    if b == [] {
      assert a + b == a;
    } else {
      var n := |b| - 1;
      MatchingIdsAppend(a, b[..n], externalId);
      assert (a + b)[..|a + b| - 1] == a + b[..n];
    }
  }

  lemma {:induction false} MatchingIdsExact(runs: seq<Listed>, externalId: string, id: nat)
    ensures id in MatchingIds(runs, externalId) <==>
            exists i :: 0 <= i < |runs| && runs[i].id == id && runs[i].run.externalId == Some(externalId)
  {
    if runs != [] {
      var n := |runs| - 1;
      MatchingIdsExact(runs[..n], externalId, id);
      if runs[n].id == id && runs[n].run.externalId == Some(externalId) {
        assert id in MatchingIds(runs, externalId);
      }
      if i :| 0 <= i < |runs| && runs[i].id == id && runs[i].run.externalId == Some(externalId) {
        if i < n { assert runs[..n][i] == runs[i]; }
      }
    }
  }

  method Minimum(ids: seq<nat>) returns (m: nat)
    requires ids != []
    ensures m in ids && forall i | 0 <= i < |ids| :: m <= ids[i]
  {
    m := ids[0];
    for k := 1 to |ids|
      invariant m in ids && forall i | 0 <= i < k :: m <= ids[i]
    {
      if ids[k] < m { m := ids[k]; }
    }
  }

  /** Whatever order the server lists in, the lookup names the canonical run or there is none. */
  lemma LookupNamesCanonical(s: Server, key: CheckKey, listing: seq<Listed>)
    requires IsListing(s, key, listing)
    ensures forall id: nat :: LowestListed(listing, key.externalId, id) <==> IsCanonical(s, key, id)
    ensures NoneListed(listing, key.externalId) <==> Matches(s, key) == {}
  {
    forall id: nat
      ensures id in Matches(s, key) <==>
        exists i :: 0 <= i < |listing| && listing[i].id == id && listing[i].run.externalId == Some(key.externalId)
    {
      if id in Matches(s, key) {
        var i :| 0 <= i < |listing| && listing[i].id == id;
        assert listing[i].run == s.runs[id];
      }
    }
    if NoneListed(listing, key.externalId) {
      assert forall id :: id !in Matches(s, key);
    }
    if Matches(s, key) == {} {
      forall i | 0 <= i < |listing| ensures listing[i].run.externalId != Some(key.externalId) {
        assert listing[i].id !in Matches(s, key);
      }
    }
    forall id: nat ensures LowestListed(listing, key.externalId, id) <==> IsCanonical(s, key, id) {
      if IsCanonical(s, key, id) {
        forall i | 0 <= i < |listing| && listing[i].run.externalId == Some(key.externalId)
          ensures id <= listing[i].id
        {
          assert listing[i].id in Matches(s, key);
        }
      }
      if LowestListed(listing, key.externalId, id) {
        forall other | other in Matches(s, key) ensures id <= other {
          var i :| 0 <= i < |listing| && listing[i].id == other
                   && listing[i].run.externalId == Some(key.externalId);
        }
      }
    }
  }

  // ------------------------------------------------------------------ publishing

  /** A request was refused, acknowledged, or applied with the acknowledgement lost. */
  datatype Reply = Acknowledged(id: nat) | AppliedUnacknowledged(error: PublishError) | Refused(error: PublishError)

  /** A 4xx answer means the server did not apply the request. */
  predicate MayFollowApplication(error: PublishError) {
    error.HttpStatus? ==> error.code >= 500
  }

  /** One request of the client and its answer; only the sends change the server. */
  datatype Exchange =
    | TokenAsked(forced: bool, error: Option<PublishError>)
    | InstallationAsked(repository: string, answer: Result<nat, PublishError>)
    | PageRead(page: nat, error: Option<PublishError>)
    | RunPosted(key: CheckKey, report: Report, reply: Reply)
    | RunPatched(id: nat, key: CheckKey, report: Report, reply: Reply)

  /** `log` is everything asked so far. */
  class GitHub {
    var state: Server
    var log: seq<Exchange>

    constructor ()
      ensures state == Server(map[], 1) && log == []
    {
      state := Server(map[], 1);
      log := [];
    }

    method AskToken(forced: bool) returns (r: Result<(), PublishError>)
      modifies this`log
      ensures log == old(log) + [TokenAsked(forced, if r.Ok? then None else Some(r.error))]
    {
      var error: PublishError, fails: bool := *, *;
      r := if fails then Err(error) else Ok(());
      log := log + [TokenAsked(forced, if fails then Some(error) else None)];
    }

    method AskInstallation(repository: string) returns (r: Result<nat, PublishError>)
      modifies this`log
      ensures log == old(log) + [InstallationAsked(repository, r)]
    {
      var error: PublishError, fails: bool, id: nat := *, *, *;
      r := if fails then Err(error) else Ok(id);
      log := log + [InstallationAsked(repository, r)];
    }

    /** One page of what the server lists for a lookup. */
    method ReadPage(listing: seq<Listed>, page: nat) returns (r: Result<seq<Listed>, PublishError>)
      requires page >= 1
      modifies this`log
      ensures r.Ok? ==> r.value == Page(listing, page)
      ensures log == old(log) + [PageRead(page, if r.Ok? then None else Some(r.error))]
    {
      var error: PublishError, fails: bool := *, *;
      r := if fails then Err(error) else Ok(Page(listing, page));
      log := log + [PageRead(page, if fails then Some(error) else None)];
    }

    method List(key: CheckKey) returns (listing: seq<Listed>)
      ensures IsListing(state, key, listing)
    {
      var todo := set id | id in state.runs && Listable(state.runs[id], key);
      ghost var all := todo;
      listing := [];
      while todo != {}
        invariant todo <= all
        invariant forall i | 0 <= i < |listing| ::
            listing[i].id in all - todo && listing[i].run == state.runs[listing[i].id]
        invariant forall i, j | 0 <= i < j < |listing| :: listing[i].id != listing[j].id
        invariant forall id | id in all - todo :: exists i :: 0 <= i < |listing| && listing[i].id == id
        decreases todo
      {
        var id :| id in todo;
        ghost var before := listing;
        listing := listing + [Listed(id, state.runs[id])];
        forall other | other in all - (todo - {id})
          ensures exists i :: 0 <= i < |listing| && listing[i].id == other
        {
          if other == id {
            assert listing[|listing| - 1].id == other;
          } else {
            assert other in all - todo;
            var i :| 0 <= i < |before| && before[i].id == other;
            assert listing[i].id == other;
          }
        }
        todo := todo - {id};
      }
      forall id | id in state.runs && Listable(state.runs[id], key)
        ensures exists i :: 0 <= i < |listing| && listing[i].id == id
      {
        assert id in all - todo;
      }
    }

    method Post(key: CheckKey, report: Report) returns (reply: Reply)
      modifies this
      ensures reply.Acknowledged? ==> reply.id == old(state.nextId) && state == Posted(old(state), key, report)
      ensures reply.AppliedUnacknowledged? ==>
                state == Posted(old(state), key, report) && MayFollowApplication(reply.error)
      ensures reply.Refused? ==> state == old(state)
      ensures log == old(log) + [RunPosted(key, report, reply)]
    {
      var error: PublishError, refused: bool, acknowledged: bool := *, *, *;
      if refused {
        reply := Refused(error);
      } else if acknowledged || !MayFollowApplication(error) {
        reply := Acknowledged(state.nextId);
        state := Posted(state, key, report);
      } else {
        reply := AppliedUnacknowledged(error);
        state := Posted(state, key, report);
      }
      log := log + [RunPosted(key, report, reply)];
    }

    method Patch(id: nat, key: CheckKey, report: Report) returns (reply: Reply)
      modifies this
      ensures !reply.Refused? ==> id in old(state).runs && state == Patched(old(state), id, key, report)
      ensures reply.Acknowledged? ==> reply.id == id
      ensures reply.AppliedUnacknowledged? ==> MayFollowApplication(reply.error)
      ensures reply.Refused? ==> state == old(state)
      ensures log == old(log) + [RunPatched(id, key, report, reply)]
    {
      var error: PublishError, refused: bool, acknowledged: bool := *, *, *;
      if id !in state.runs {
        reply := Refused(HttpStatus(404, None, None));
      } else if refused {
        reply := Refused(error);
      } else if acknowledged || !MayFollowApplication(error) {
        reply := Acknowledged(id);
        state := Patched(state, id, key, report);
      } else {
        reply := AppliedUnacknowledged(error);
        state := Patched(state, id, key, report);
      }
      log := log + [RunPatched(id, key, report, reply)];
    }
  }

  /** The pages of one lookup up to the one that failed, or all of them. */
  function PageReads(n: nat, error: Option<PublishError>): seq<Exchange> {
    seq(n, i requires 0 <= i < n => PageRead(i + 1, if i == n - 1 then error else None))
  }

  /**
    Reads every page before choosing. The answer depends only on which runs are listed, not on
    their order, and a failing page is never mistaken for an empty one.
  */
  method FindExistingCheckRunId(github: GitHub, listing: seq<Listed>, externalId: string)
    returns (r: Result<Option<nat>, PublishError>, ghost pagesRead: nat)
    modifies github`log
    ensures r.Ok? && r.value.Some? ==> LowestListed(listing, externalId, r.value.value)
    ensures r.Ok? && r.value.None? ==> NoneListed(listing, externalId)
    ensures 1 <= pagesRead <= |listing| / CHECK_RUNS_PAGE_SIZE + 1
    ensures r.Ok? ==> pagesRead == |listing| / CHECK_RUNS_PAGE_SIZE + 1
    ensures github.log == old(github.log) + PageReads(pagesRead, if r.Ok? then None else Some(r.error))
  {
    var matchingIds: seq<nat> := [];
    var page := 1;
    pagesRead := 0;
    while true
      invariant page >= 1 && pagesRead == page - 1
      invariant (page - 1) * CHECK_RUNS_PAGE_SIZE <= |listing|
      invariant matchingIds == MatchingIds(listing[..(page - 1) * CHECK_RUNS_PAGE_SIZE], externalId)
      invariant github.log == old(github.log) + PageReads(page - 1, None)
      decreases |listing| - (page - 1) * CHECK_RUNS_PAGE_SIZE
    {
      pagesRead := page;
      var lookup := github.ReadPage(listing, page);
      if lookup.Err? {
        assert PageReads(page, Some(lookup.error)) == PageReads(page - 1, None) + [PageRead(page, Some(lookup.error))];
        return Err(lookup.error), pagesRead;
      }
      assert PageReads(page, None) == PageReads(page - 1, None) + [PageRead(page, None)];
      var checkRuns := lookup.value;
      ghost var from := (page - 1) * CHECK_RUNS_PAGE_SIZE;
      MatchingIdsAppend(listing[..from], checkRuns, externalId);
      assert listing[..from] + checkRuns == listing[..from + |checkRuns|];
      matchingIds := matchingIds + MatchingIds(checkRuns, externalId);
      if |checkRuns| < CHECK_RUNS_PAGE_SIZE {
        assert listing[..from + |checkRuns|] == listing;
        break;
      }
      page := page + 1;
    }
    forall id: nat ensures id in matchingIds <==>
        exists i :: 0 <= i < |listing| && listing[i].id == id && listing[i].run.externalId == Some(externalId)
    {
      MatchingIdsExact(listing, externalId, id);
    }
    if matchingIds == [] {
      forall i | 0 <= i < |listing| ensures listing[i].run.externalId != Some(externalId) {
        assert listing[i].id !in matchingIds;
      }
      return Ok(None), pagesRead;
    }
    var lowest := Minimum(matchingIds);
    forall i | 0 <= i < |listing| && listing[i].run.externalId == Some(externalId)
      ensures lowest <= listing[i].id
    {
      assert listing[i].id in matchingIds;
    }
    return Ok(Some(lowest)), pagesRead;
  }

  /** What one publish may have done to the server, whether or not it was acknowledged. */
  ghost predicate AtMostOneWrite(before: Server, after: Server, key: CheckKey, report: Report) {
    || after == before
    || (Matches(before, key) == {} && after == Posted(before, key, report))
    || (exists id :: IsCanonical(before, key, id) && after == Patched(before, id, key, report))
  }

  /** The run of that id carries the external id, name, conclusion and summary asked for; no other run changed. */
  predicate UpdatedRun(before: Server, after: Server, id: nat, key: CheckKey, report: Report) {
    id in before.runs && after == Patched(before, id, key, report)
  }

  /**
    What a publish leaves on the server: with an id that run updated or nothing changed, without
    one at most one write; and a success names the run that now says what was asked for.
  */
  ghost predicate Effects(before: Server, after: Server, key: CheckKey, report: Report, checkRunId: Option<nat>,
                          r: Result<PublishedCheck, PublishError>) {
    && ValidServer(after)
    && (r.Ok? ==> r.value.externalId == key.externalId)
    && if checkRunId.None? then
         && AtMostOneWrite(before, after, key, report)
         && (r.Ok? ==>
               && IsCanonical(after, key, r.value.checkRunId)
               && after.runs[r.value.checkRunId] == Requested(key, report))
       else
         && (after != before ==> UpdatedRun(before, after, checkRunId.value, key, report))
         && (r.Ok? ==>
               r.value.checkRunId == checkRunId.value && UpdatedRun(before, after, checkRunId.value, key, report))
  }

  lemma NoEffect(server: Server, key: CheckKey, report: Report, checkRunId: Option<nat>, error: PublishError)
    requires ValidServer(server)
    ensures Effects(server, server, key, report, checkRunId, Err(error))
  {
  }

  /** A request that does not depend on the server's runs failed, so nothing was sent. */
  ghost predicate LookupFailed(asked: seq<Exchange>, checkRunId: Option<nat>, error: PublishError) {
    || asked == [TokenAsked(false, Some(error))]
    || (checkRunId.None? && exists n: nat :: n >= 1 && asked == [TokenAsked(false, None)] + PageReads(n, Some(error)))
  }

  /** Before a send there was a token, and, unless the id is known, every page of the lookup. */
  ghost predicate ReadyToSend(asked: seq<Exchange>, checkRunId: Option<nat>) {
    if checkRunId.Some? then asked == [TokenAsked(false, None)]
    else exists n: nat :: n >= 1 && asked == [TokenAsked(false, None)] + PageReads(n, None)
  }

  /** Without an id and without a match a run is created; else the run of that id, or the lowest match, is updated. */
  predicate SendFits(send: Exchange, server: Server, key: CheckKey, report: Report, checkRunId: Option<nat>) {
    if checkRunId.None? && Matches(server, key) == {} then send.RunPosted? && send.key == key && send.report == report
    else && send.RunPatched? && send.key == key && send.report == report
         && if checkRunId.Some? then send.id == checkRunId.value else IsCanonical(server, key, send.id)
  }

  /** The answer that a send's reply means. */
  predicate Answers(send: Exchange, key: CheckKey, r: Result<PublishedCheck, PublishError>)
    requires send.RunPosted? || send.RunPatched?
  {
    match send.reply
    case Acknowledged(id) => r == Ok(PublishedCheck(id, key.externalId))
    case AppliedUnacknowledged(error) => r == Err(error)
    case Refused(error) => r == Err(error)
  }

  /** One attempt: the error of the token or page that failed, or exactly one send and what it answered. */
  ghost predicate AskedOnce(asked: seq<Exchange>, server: Server, key: CheckKey, report: Report,
                            checkRunId: Option<nat>, r: Result<PublishedCheck, PublishError>) {
    || (r.Err? && LookupFailed(asked, checkRunId, r.error))
    || (var n := |asked| - 1;
        && n >= 0 && ReadyToSend(asked[..n], checkRunId)
        && SendFits(asked[n], server, key, report, checkRunId) && Answers(asked[n], key, r))
  }

  /** The exchanges of one publish: two attempts with a resolution before and a refresh between. */
  datatype Trail = Trail(resolve: seq<Exchange>, first: seq<Exchange>, answer: Result<PublishedCheck, PublishError>,
                         refresh: seq<Exchange>, second: seq<Exchange>) {
    function All(): seq<Exchange> { resolve + first + refresh + second }
  }

  /** The installation is asked for exactly when it is not stored. */
  predicate Resolved(resolve: seq<Exchange>, installations: map<string, nat>, repository: string) {
    if repository in installations then resolve == []
    else |resolve| == 1 && resolve[0].InstallationAsked? && resolve[0].repository == repository
  }

  /** A 401 is answered by a forced token, a 403 or 404 by asking for the installation again. */
  predicate Refreshed(refresh: seq<Exchange>, error: PublishError, repository: string) {
    && |refresh| == 1 && error.HttpStatus?
    && if error.code == 401 then refresh[0].TokenAsked? && refresh[0].forced
       else refresh[0].InstallationAsked? && refresh[0].repository == repository
  }

  predicate RetriedStatus(r: Result<PublishedCheck, PublishError>) {
    r.Err? && r.error.HttpStatus? && r.error.code in {401, 403, 404}
  }

  function Failure(exchange: Exchange): Option<PublishError> {
    match exchange
    case TokenAsked(_, error) => error
    case InstallationAsked(_, answer) => if answer.Ok? then None else Some(answer.error)
    case PageRead(_, error) => error
    case RunPosted(_, _, reply) => if reply.Acknowledged? then None else Some(reply.error)
    case RunPatched(_, _, _, reply) => if reply.Acknowledged? then None else Some(reply.error)
  }

  /** The second attempt is made exactly when the refresh succeeded, and then its answer stands. */
  ghost predicate RefreshedThenAsked(refresh: seq<Exchange>, second: seq<Exchange>, error: PublishError,
                                     repository: string, server: Server, key: CheckKey, report: Report,
                                     checkRunId: Option<nat>, r: Result<PublishedCheck, PublishError>) {
    && Refreshed(refresh, error, repository)
    && if Failure(refresh[0]).Some? then r == Err(Failure(refresh[0]).value) && second == []
       else AskedOnce(second, server, key, report, checkRunId, r)
  }

  /**
    A publish whose installation cannot be resolved makes no attempt. The second attempt is made
    exactly after a 401, 403 or 404 whose refresh succeeded, and then its answer stands.
  */
  ghost predicate RetriedOnce(trail: Trail, installations: map<string, nat>, repository: string, server: Server,
                              key: CheckKey, report: Report, checkRunId: Option<nat>,
                              r: Result<PublishedCheck, PublishError>) {
    && Resolved(trail.resolve, installations, repository)
    && if trail.resolve != [] && Failure(trail.resolve[0]).Some? then
         r == Err(Failure(trail.resolve[0]).value) && trail.first == [] && trail.refresh == [] && trail.second == []
       else
         && AskedOnce(trail.first, server, key, report, checkRunId, trail.answer)
         && if !RetriedStatus(trail.answer) then r == trail.answer && trail.refresh == [] && trail.second == []
            else
              RefreshedThenAsked(trail.refresh, trail.second, trail.answer.error, repository, server, key, report,
                                 checkRunId, r)
  }

  lemma AllInOrder(start: seq<Exchange>, trail: Trail)
    ensures start + trail.All() == start + trail.resolve + trail.first + (trail.refresh + trail.second)
    ensures trail.refresh + trail.second == [] ==> start + trail.All() == start + trail.resolve + trail.first
    ensures trail.first + trail.refresh + trail.second == [] ==> start + trail.All() == start + trail.resolve
  {
  }

  /** The three ways a publish can go. */
  lemma Followed(trail: Trail, installations: map<string, nat>, repository: string, server: Server, key: CheckKey,
                 report: Report, checkRunId: Option<nat>, r: Result<PublishedCheck, PublishError>)
    requires Resolved(trail.resolve, installations, repository)
    requires if trail.resolve != [] && Failure(trail.resolve[0]).Some? then
               && r == Err(Failure(trail.resolve[0]).value)
               && trail.first == [] && trail.refresh == [] && trail.second == []
             else
               && AskedOnce(trail.first, server, key, report, checkRunId, trail.answer)
               && if RetriedStatus(trail.answer)
                  then RefreshedThenAsked(trail.refresh, trail.second, trail.answer.error, repository, server, key,
                                          report, checkRunId, r)
                  else r == trail.answer && trail.refresh == [] && trail.second == []
    ensures RetriedOnce(trail, installations, repository, server, key, report, checkRunId, r)
  {
  }

  class GitHubChecksHttpClient {
    /** Repository to installation id. */
    var installations: map<string, nat>
    /** What every publish so far has come to. */
    var answers: seq<Result<PublishedCheck, PublishError>>

    constructor ()
      ensures installations == map[] && answers == []
    {
      installations := map[];
      answers := [];
    }

    /** A stored installation is used unless a refresh is forced; otherwise GitHub is asked. */
    method ResolveInstallationId(github: GitHub, repository: string, forceRefresh: bool)
      returns (r: Result<nat, PublishError>)
      modifies this`installations, github`log
      ensures !forceRefresh && repository in old(installations) ==>
                && r == Ok(old(installations)[repository]) && installations == old(installations)
                && github.log == old(github.log)
      ensures forceRefresh || repository !in old(installations) ==>
                github.log == old(github.log) + [InstallationAsked(repository, r)]
      ensures r.Ok? ==> installations == old(installations)[repository := r.value]
      ensures r.Err? ==> installations == old(installations)
    {
      if !forceRefresh && repository in installations {
        assert installations == installations[repository := installations[repository]];
        return Ok(installations[repository]);
      }
      r := github.AskInstallation(repository);
      if r.Ok? { installations := installations[repository := r.value]; }
    }

    /** A token, the lookup unless an id is given, and one send; the last exchange decides the answer. */
    method PublishOnce(github: GitHub, key: CheckKey, report: Report, checkRunId: Option<nat>)
      returns (r: Result<PublishedCheck, PublishError>, ghost asked: seq<Exchange>)
      requires ValidServer(github.state)
      modifies github
      ensures github.log == old(github.log) + asked
      ensures AskedOnce(asked, old(github.state), key, report, checkRunId, r)
      ensures Effects(old(github.state), github.state, key, report, checkRunId, r)
      ensures r.Err? && !MayFollowApplication(r.error) ==> github.state == old(github.state)
    {
      hide LowestListed, NoneListed, IsListing, Listable, Matching, PageReads;
      ghost var before := github.state;
      var token := github.AskToken(false);
      asked := [TokenAsked(false, if token.Ok? then None else Some(token.error))];
      if token.Err? { return Err(token.error), asked; }
      var resolvedId := checkRunId;
      if resolvedId.None? {
        var listing := github.List(key);
        var found, pagesRead := FindExistingCheckRunId(github, listing, key.externalId);
        asked := asked + PageReads(pagesRead, if found.Ok? then None else Some(found.error));
        if found.Err? { return Err(found.error), asked; }
        LookupNamesCanonical(github.state, key, listing);
        resolvedId := found.value;
      }
      ghost var front := asked;
      var reply: Reply;
      if resolvedId.Some? {
        reply := github.Patch(resolvedId.value, key, report);
        asked := asked + [RunPatched(resolvedId.value, key, report, reply)];
        if checkRunId.None? { PatchedMatches(before, resolvedId.value, key, report, key); }
      } else {
        reply := github.Post(key, report);
        asked := asked + [RunPosted(key, report, reply)];
        PostedMatches(before, key, report, key);
      }
      assert asked[..|asked| - 1] == front;
      match reply
      case Acknowledged(id) => r := Ok(PublishedCheck(id, key.externalId));
      case AppliedUnacknowledged(error) => r := Err(error);
      case Refused(error) => r := Err(error);
    }

    /** The refresh that a 401, 403 or 404 asks for, and the second attempt if it succeeds. */
    method Retry(github: GitHub, repository: string, key: CheckKey, report: Report, checkRunId: Option<nat>,
                 error: PublishError)
      returns (r: Result<PublishedCheck, PublishError>, ghost refresh: seq<Exchange>, ghost second: seq<Exchange>)
      requires ValidServer(github.state) && error.HttpStatus? && error.code in {401, 403, 404}
      modifies this`installations, github
      ensures github.log == old(github.log) + (refresh + second)
      ensures RefreshedThenAsked(refresh, second, error, repository, old(github.state), key, report, checkRunId, r)
      ensures Effects(old(github.state), github.state, key, report, checkRunId, r)
    {
      hide AskedOnce, AtMostOneWrite, IsCanonical, UpdatedRun, ValidServer, Matches, Requested, Effects;
      second := [];
      if error.code == 401 {
        var token := github.AskToken(true);
        refresh := [TokenAsked(true, if token.Ok? then None else Some(token.error))];
        if token.Err? {
          NoEffect(github.state, key, report, checkRunId, token.error);
          return Err(token.error), refresh, second;
        }
      } else {
        var installation := ResolveInstallationId(github, repository, true);
        refresh := [InstallationAsked(repository, installation)];
        if installation.Err? {
          NoEffect(github.state, key, report, checkRunId, installation.error);
          return Err(installation.error), refresh, second;
        }
      }
      r, second := PublishOnce(github, key, report, checkRunId);
    }

    /** The installation, an attempt, and at most one retry. */
    method TryPublish(github: GitHub, repository: string, key: CheckKey, report: Report, checkRunId: Option<nat>)
      returns (r: Result<PublishedCheck, PublishError>, ghost trail: Trail)
      requires ValidServer(github.state)
      modifies this`installations, github
      ensures github.log == old(github.log) + trail.All()
      ensures RetriedOnce(trail, old(installations), repository, old(github.state), key, report, checkRunId, r)
      ensures Effects(old(github.state), github.state, key, report, checkRunId, r)
    {
      hide AskedOnce, AtMostOneWrite, IsCanonical, UpdatedRun, ValidServer, Matches, Requested, Effects,
           RefreshedThenAsked, RetriedOnce;
      ghost var known, start, server := installations, github.log, github.state;
      var installation := ResolveInstallationId(github, repository, false);
      ghost var resolve := if repository in known then [] else [InstallationAsked(repository, installation)];
      assert github.log == start + resolve;
      if installation.Err? {
        NoEffect(github.state, key, report, checkRunId, installation.error);
        trail := Trail(resolve, [], Err(Unrecognised), [], []);
        Followed(trail, known, repository, server, key, report, checkRunId, Err(installation.error));
        AllInOrder(start, trail);
        return Err(installation.error), trail;
      }
      ghost var first, refresh, second;
      r, first := PublishOnce(github, key, report, checkRunId);
      if r.Ok? || !r.error.HttpStatus? || r.error.code !in {401, 403, 404} {
        trail := Trail(resolve, first, r, [], []);
        Followed(trail, known, repository, server, key, report, checkRunId, r);
        AllInOrder(start, trail);
        return r, trail;
      }
      assert github.state == server;
      ghost var answer := r;
      r, refresh, second := Retry(github, repository, key, report, checkRunId, r.error);
      trail := Trail(resolve, first, answer, refresh, second);
      Followed(trail, known, repository, server, key, report, checkRunId, r);
      AllInOrder(start, trail);
    }

    /**
      One retry after a 401, or after a 403 or 404, and never both. Undisturbed by others, a
      whole publish writes to the server at most once, creates a run only when no matching one
      exists, and reports the canonical run carrying exactly what was asked for. Its answer is kept.
    */
    method Publish(github: GitHub, repository: string, key: CheckKey, report: Report, checkRunId: Option<nat>)
      returns (r: Result<PublishedCheck, PublishError>, ghost trail: Trail)
      requires ValidServer(github.state)
      modifies this, github
      ensures answers == old(answers) + [r] && github.log == old(github.log) + trail.All()
      ensures RetriedOnce(trail, old(installations), repository, old(github.state), key, report, checkRunId, r)
      ensures ValidServer(github.state)
      ensures checkRunId.None? ==> AtMostOneWrite(old(github.state), github.state, key, report)
      ensures checkRunId.None? && Matches(old(github.state), key) != {} ==>
                github.state.runs.Keys == old(github.state).runs.Keys
      ensures r.Ok? ==> r.value.externalId == key.externalId
      ensures r.Ok? && checkRunId.None? ==>
                && IsCanonical(github.state, key, r.value.checkRunId)
                && github.state.runs[r.value.checkRunId] == Requested(key, report)
      ensures r.Ok? && checkRunId.Some? ==>
                && r.value.checkRunId == checkRunId.value
                && UpdatedRun(old(github.state), github.state, checkRunId.value, key, report)
      ensures checkRunId.Some? && github.state != old(github.state) ==>
                UpdatedRun(old(github.state), github.state, checkRunId.value, key, report)
    {
      r, trail := TryPublish(github, repository, key, report, checkRunId);
      answers := answers + [r];
    }
  }
}
