/** The unified GitHub and Port client (`ApiClient` in api_client.py).

    Every request the client sends is left to the remote service: what the
    service answers is a parameter of the operation (a `Reply`, or a function
    from the request's argument to a `Reply`). What is modelled is what the
    client does with those answers: the sentinels it returns, the exceptions
    it lets through, the sorting and filtering of committers, the prefix strip
    of repository names, the bounded retry and the cached access token. */
module Api {
  import opened Outcomes
  import opened JsonValues

  /** The configuration values the client reads; config.py loads them from
      the environment (`TOP_COMMITTERS_COUNT` defaults to 5,
      `PORT_USER_TEAM_PROPERTY` and `PORT_REPO_TEAM_RELATION` to "team",
      `PORT_BLUEPRINT_IDENTIFIER` to "service"). */
  datatype Config = Config(
    githubOrg: string,
    topCommittersCount: int,
    userTeamProperty: string,
    repoTeamRelation: string,
    blueprintIdentifier: string)

  /** A GitHub repository, identified by its full name `org/repo`. */
  datatype Repo = Repo(fullName: string)

  /** A GitHub user as seen through contributor statistics. */
  datatype Author = Author(login: string, email: Option<string>)

  /** One entry of `repo.get_stats_contributors()`; `author` may be absent. */
  datatype Contributor = Contributor(author: Option<Author>, total: int)

  /** The `{"email": ..., "login": ...}` record a caller receives. */
  datatype Committer = Committer(email: Option<string>, login: string)

  /** Python's truthiness of an optional e-mail address (`None` and `""` are falsy). */
  predicate HasEmail(email: Option<string>)
  {
    email.Some? && email.value != ""
  }

  // ---------------------------------------------------------------------------
  // Sorting contributors: sorted(stats, key=lambda s: s.total, reverse=True)
  // ---------------------------------------------------------------------------

  ghost predicate SortedByTotalDesc(s: seq<Contributor>)
  {
    forall i, j :: 0 <= i < j < |s| ==> s[i].total >= s[j].total
  }

  /** Inserts `x`, which comes before every element of `s` in the input,
      ahead of the first element whose total does not exceed its own; so
      among equal totals the input order is kept, as Python's stable sort
      with `reverse=True` does. */
  function InsertByTotal(x: Contributor, s: seq<Contributor>): seq<Contributor>
  {
    if s == [] || s[0].total <= x.total then [x] + s
    else [s[0]] + InsertByTotal(x, s[1..])
  }

  function SortByTotal(s: seq<Contributor>): seq<Contributor>
  {
    if s == [] then [] else InsertByTotal(s[0], SortByTotal(s[1..]))
  }

  lemma InsertByTotalSorted(x: Contributor, s: seq<Contributor>)
    requires SortedByTotalDesc(s)
    ensures SortedByTotalDesc(InsertByTotal(x, s))
    ensures multiset(InsertByTotal(x, s)) == multiset(s) + multiset{x}
  {
    InsertByTotalOrder(x, s);
    InsertByTotalPermutes(x, s);
  }

  /** Insertion keeps a descending sequence descending; its first element is
      `x` or the old first element. */
  lemma {:induction false} InsertByTotalOrder(x: Contributor, s: seq<Contributor>)
    requires SortedByTotalDesc(s)
    ensures SortedByTotalDesc(InsertByTotal(x, s))
    ensures InsertByTotal(x, s)[0] == x || (s != [] && InsertByTotal(x, s)[0] == s[0])
  {
    if s != [] && s[0].total > x.total {
      var tail := s[1..];
      InsertByTotalOrder(x, tail);
      var r := InsertByTotal(x, tail);
      assert InsertByTotal(x, s) == [s[0]] + r;
      assert s[0].total >= r[0].total;
      forall i, j | 0 <= i < j < |r| + 1
        ensures ([s[0]] + r)[i].total >= ([s[0]] + r)[j].total
      {
        assert ([s[0]] + r)[j] == r[j - 1];
        if i > 0 {
          assert ([s[0]] + r)[i] == r[i - 1];
        }
      }
    }
  }

  /** Insertion adds `x` and keeps every other element. */
  lemma {:induction false} InsertByTotalPermutes(x: Contributor, s: seq<Contributor>)
    ensures multiset(InsertByTotal(x, s)) == multiset(s) + multiset{x}
  {
    if s != [] && s[0].total > x.total {
      InsertByTotalPermutes(x, s[1..]);
      assert s == [s[0]] + s[1..];
      assert InsertByTotal(x, s) == [s[0]] + InsertByTotal(x, s[1..]);
    }
  }

  /** The sort yields a descending order and a permutation of its input. */
  lemma {:induction false} SortByTotalSorted(s: seq<Contributor>)
    ensures SortedByTotalDesc(SortByTotal(s))
    ensures multiset(SortByTotal(s)) == multiset(s)
  {
    if s != [] {
      SortByTotalSorted(s[1..]);
      InsertByTotalSorted(s[0], SortByTotal(s[1..]));
      assert s == [s[0]] + s[1..];
    }
  }

  /** The contributors of `s` whose total is `v`, in the order of `s`. */
  function WithTotal(s: seq<Contributor>, v: int): seq<Contributor>
  {
    if s == [] then []
    else (if s[0].total == v then [s[0]] else []) + WithTotal(s[1..], v)
  }

  lemma {:induction false} InsertByTotalStable(x: Contributor, s: seq<Contributor>, v: int)
    ensures WithTotal(InsertByTotal(x, s), v) == (if x.total == v then [x] else []) + WithTotal(s, v)
  {
    var r := InsertByTotal(x, s);
    if s == [] || s[0].total <= x.total {
      assert r[0] == x && r[1..] == s;
    } else {
      InsertByTotalStable(x, s[1..], v);
      assert r[0] == s[0] && r[1..] == InsertByTotal(x, s[1..]);
      var rest := WithTotal(s[1..], v);
      assert WithTotal(s, v) == (if s[0].total == v then [s[0]] else []) + rest;
      if x.total == v {
        assert WithTotal(r, v) == [x] + rest;
      } else {
        assert WithTotal(r, v) == (if s[0].total == v then [s[0]] else []) + rest;
      }
    }
  }

  /** The sort is stable: contributors with equal totals keep their input order. */
  lemma {:induction false} SortByTotalStable(s: seq<Contributor>, v: int)
    ensures WithTotal(SortByTotal(s), v) == WithTotal(s, v)
  {
    if s != [] {
      SortByTotalStable(s[1..], v);
      InsertByTotalStable(s[0], SortByTotal(s[1..]), v);
    }
  }

  // ---------------------------------------------------------------------------
  // Python slicing s[:k], which counts from the end when k is negative
  // ---------------------------------------------------------------------------

  function PrefixSlice<T>(s: seq<T>, k: int): (r: seq<T>)
    ensures |r| <= |s| && r == s[..|r|]
    ensures k >= 0 ==> |r| == if k < |s| then k else |s|
    ensures k < 0 ==> |r| == if |s| + k > 0 then |s| + k else 0
  {
    if k >= 0 then (if k < |s| then s[..k] else s)
    else (if |s| + k > 0 then s[..|s| + k] else [])
  }

  // ---------------------------------------------------------------------------
  // Committer records: the loop over the top contributors
  // ---------------------------------------------------------------------------

  /** `user and user.email`: the contributor has an author with a public e-mail. */
  predicate Usable(c: Contributor)
  {
    c.author.Some? && HasEmail(c.author.value.email)
  }

  ghost predicate AllAuthored(top: seq<Contributor>)
  {
    forall i :: 0 <= i < |top| ==> top[i].author.Some?
  }

  function AsCommitter(c: Contributor): Committer
    requires c.author.Some?
  {
    Committer(c.author.value.email, c.author.value.login)
  }

  /** The records the loop appends, one per usable contributor, in order. */
  function Committers(top: seq<Contributor>): seq<Committer>
  {
    if top == [] then []
    else
      var last := top[|top| - 1];
      Committers(top[..|top| - 1]) + (if Usable(last) then [AsCommitter(last)] else [])
  }

  /** The positions in `top` of the usable contributors, in increasing order. */
  function UsableIndices(top: seq<Contributor>): seq<nat>
  {
    if top == [] then []
    else UsableIndices(top[..|top| - 1]) + (if Usable(top[|top| - 1]) then [|top| - 1] else [])
  }

  /** The j-th record comes from the j-th usable contributor of `top`, the
      positions increase strictly, and every usable contributor is kept. */
  lemma CommittersFromUsable(top: seq<Contributor>)
    ensures |Committers(top)| == |UsableIndices(top)|
    ensures forall j :: 0 <= j < |UsableIndices(top)| ==>
      UsableIndices(top)[j] < |top| && Usable(top[UsableIndices(top)[j]]) &&
      Committers(top)[j] == AsCommitter(top[UsableIndices(top)[j]])
    ensures forall j1, j2 :: 0 <= j1 < j2 < |UsableIndices(top)| ==>
      UsableIndices(top)[j1] < UsableIndices(top)[j2]
    ensures forall i :: 0 <= i < |top| && Usable(top[i]) ==> i in UsableIndices(top)
  {
    CommittersAtUsable(top);
    UsableIndicesIncrease(top);
    UsableIndicesComplete(top);
  }

  lemma {:induction false} CommittersAtUsable(top: seq<Contributor>)
    ensures |Committers(top)| == |UsableIndices(top)|
    ensures forall j :: 0 <= j < |UsableIndices(top)| ==>
      UsableIndices(top)[j] < |top| && Usable(top[UsableIndices(top)[j]]) &&
      Committers(top)[j] == AsCommitter(top[UsableIndices(top)[j]])
  {
    if top != [] {
      var init, last := top[..|top| - 1], top[|top| - 1];
      CommittersAtUsable(init);
      var cs, idx := Committers(init), UsableIndices(init);
      var extra := if Usable(last) then [AsCommitter(last)] else [];
      var extraIdx := if Usable(last) then [|top| - 1] else [];
      assert Committers(top) == cs + extra;
      assert UsableIndices(top) == idx + extraIdx;
      forall j | 0 <= j < |idx + extraIdx|
        ensures (idx + extraIdx)[j] < |top| && Usable(top[(idx + extraIdx)[j]])
        ensures (cs + extra)[j] == AsCommitter(top[(idx + extraIdx)[j]])
      {
        if j < |idx| {
          assert (idx + extraIdx)[j] == idx[j] && (cs + extra)[j] == cs[j];
          assert top[idx[j]] == init[idx[j]];
        }
      }
    }
  }

  lemma {:induction false} UsableIndicesIncrease(top: seq<Contributor>)
    ensures forall j :: 0 <= j < |UsableIndices(top)| ==> UsableIndices(top)[j] < |top|
    ensures forall j1, j2 :: 0 <= j1 < j2 < |UsableIndices(top)| ==>
      UsableIndices(top)[j1] < UsableIndices(top)[j2]
  {
    if top != [] {
      var init := top[..|top| - 1];
      UsableIndicesIncrease(init);
      var idx := UsableIndices(init);
      var extraIdx := if Usable(top[|top| - 1]) then [|top| - 1] else [];
      assert UsableIndices(top) == idx + extraIdx;
      forall j | 0 <= j < |idx + extraIdx|
        ensures (idx + extraIdx)[j] < |top|
      {
        if j < |idx| {
          assert (idx + extraIdx)[j] == idx[j];
        }
      }
      forall j1, j2 | 0 <= j1 < j2 < |idx + extraIdx|
        ensures (idx + extraIdx)[j1] < (idx + extraIdx)[j2]
      {
        assert (idx + extraIdx)[j1] == idx[j1];
        if j2 < |idx| {
          assert (idx + extraIdx)[j2] == idx[j2];
        }
      }
    }
  }

  lemma {:induction false} UsableIndicesComplete(top: seq<Contributor>)
    ensures forall i :: 0 <= i < |top| && Usable(top[i]) ==> i in UsableIndices(top)
  {
    if top != [] {
      var init := top[..|top| - 1];
      UsableIndicesComplete(init);
      var idx := UsableIndices(init);
      var extraIdx := if Usable(top[|top| - 1]) then [|top| - 1] else [];
      assert UsableIndices(top) == idx + extraIdx;
      forall i | 0 <= i < |top| && Usable(top[i])
        ensures i in idx + extraIdx
      {
        if i < |init| {
          assert init[i] == top[i];
        }
      }
    }
  }

  /** The contributors considered: the sorted statistics cut to the configured count. */
  function TopContributors(count: int, stats: seq<Contributor>): seq<Contributor>
  {
    PrefixSlice(SortByTotal(stats), count)
  }

  /** What get_top_committers promises of a list it returns: at most
      `TOP_COMMITTERS_COUNT` records when the count is not negative (none
      when it is 0; a negative count keeps all the sorted contributors but
      the last |count|), each with a non-empty e-mail, each built from a
      distinct contributor of the top-K slice, in the slice's order, which
      is descending by total. */
  lemma TopCommittersShape(count: int, stats: seq<Contributor>)
    ensures var top := TopContributors(count, stats);
      var r := Committers(top);
      var idx := UsableIndices(top);
      && |r| <= |top| <= |stats|
      && (count >= 0 ==> |r| <= count)
      && (forall j :: 0 <= j < |r| ==> HasEmail(r[j].email))
      && |idx| == |r|
      && (forall j :: 0 <= j < |r| ==> idx[j] < |top| && Usable(top[idx[j]]) && r[j] == AsCommitter(top[idx[j]]))
      && (forall j1, j2 :: 0 <= j1 < j2 < |r| ==> idx[j1] < idx[j2])
      && (forall j1, j2 :: 0 <= j1 < j2 < |r| ==> top[idx[j1]].total >= top[idx[j2]].total)
  {
    var sorted := SortByTotal(stats);
    var top := TopContributors(count, stats);
    SortByTotalSorted(stats);
    assert |sorted| == |stats| by {
      assert |multiset(sorted)| == |multiset(stats)|;
    }
    assert top == sorted[..|top|];
    assert SortedByTotalDesc(top);
    CommittersFromUsable(top);
    assert |UsableIndices(top)| <= |top| by {
      UsableIndicesBounded(top);
    }
  }

  lemma {:induction false} UsableIndicesBounded(top: seq<Contributor>)
    ensures |UsableIndices(top)| <= |top|
  {
    if top != [] {
      UsableIndicesBounded(top[..|top| - 1]);
    }
  }

  // ---------------------------------------------------------------------------
  // Sentinel results of the catching client operations
  // ---------------------------------------------------------------------------

  /** get_repo catches only `GithubException`, answering `None`. */
  function RepoOrNone(reply: Reply<Repo>): (r: Outcome<Option<Repo>>)
    ensures r == Returned(None) <==> reply == Fail(GithubError)
    ensures reply.Ok? ==> r == Returned(Some(reply.value))
    ensures r.Raised? <==> reply.Fail? && reply.kind != GithubError
    ensures r.Raised? ==> reply.Fail? && r.kind == reply.kind
  {
    match reply
    case Ok(repo) => Returned(Some(repo))
    case Fail(kind) => if kind == GithubError then Returned(None) else Raised(kind)
  }

  /** get_entity catches `RequestException`, answering `None`. */
  function EntityOrNone(reply: Reply<map<string, Json>>): (r: Outcome<Option<map<string, Json>>>)
    ensures r == Returned(None) <==> reply == Fail(RequestError)
    ensures reply.Ok? ==> r == Returned(Some(reply.value))
    ensures r.Raised? <==> reply.Fail? && reply.kind != RequestError
    ensures r.Raised? ==> reply.Fail? && r.kind == reply.kind
  {
    match reply
    case Ok(entity) => Returned(Some(entity))
    case Fail(kind) => if kind == RequestError then Returned(None) else Raised(kind)
  }

  /** update_entity answers `True` on success and `False` on a `RequestException`. */
  function UpdateSucceeded(reply: Reply<()>): (r: Outcome<bool>)
    ensures r == Returned(true) <==> reply.Ok?
    ensures r == Returned(false) <==> reply == Fail(RequestError)
    ensures r.Raised? <==> reply.Fail? && reply.kind != RequestError
    ensures r.Raised? ==> reply.Fail? && r.kind == reply.kind
  {
    match reply
    case Ok(_) => Returned(true)
    case Fail(kind) => if kind == RequestError then Returned(false) else Raised(kind)
  }

  /** get_all_entities_for_blueprint answers `[]` on a `RequestException`. */
  function EntitiesOrEmpty(reply: Reply<seq<map<string, Json>>>): (r: Outcome<seq<map<string, Json>>>)
    ensures reply == Fail(RequestError) ==> r == Returned([])
    ensures reply.Ok? ==> r == Returned(reply.value)
    ensures r.Raised? <==> reply.Fail? && reply.kind != RequestError
    ensures r.Raised? ==> reply.Fail? && r.kind == reply.kind
  {
    match reply
    case Ok(entities) => Returned(entities)
    case Fail(kind) => if kind == RequestError then Returned([]) else Raised(kind)
  }

  // ---------------------------------------------------------------------------
  // The two-step user-team lookup of get_port_user_team
  // ---------------------------------------------------------------------------

  /** The Port requests get_port_user_team sends after the token step. */
  datatype PortCall = SearchUser(email: string) | FetchUser(identifier: string)

  datatype TeamLookup = TeamLookup(calls: seq<PortCall>, teams: Outcome<Option<Json>>)

  /** `search` is the answer to the user search (the `identifier` of each
      entity found, in the order Port returns them; a missing `entities` key
      reads as no entity); `fetchUser` gives, for an identifier, the answer to
      the entity fetch (the fields of its `entity` object, `{}` when missing).
      The team property is returned as it is, or `None` when it is missing or
      JSON `null`. */
  function LookupUserTeams(
    teamProperty: string,
    email: string,
    search: Reply<seq<string>>,
    fetchUser: string -> Reply<map<string, Json>>): (r: TeamLookup)
    ensures |r.calls| >= 1 && r.calls[0] == SearchUser(email)
    ensures |r.calls| == 2 <==> search.Ok? && search.value != []
    ensures |r.calls| == 2 ==> r.calls[1] == FetchUser(search.value[0])
    ensures |r.calls| <= 2
  {
    match search
    case Fail(kind) =>
      TeamLookup([SearchUser(email)], if kind == RequestError then Returned(None) else Raised(kind))
    case Ok(hits) =>
      if hits == [] then TeamLookup([SearchUser(email)], Returned(None))
      else
        var calls := [SearchUser(email), FetchUser(hits[0])];
        match fetchUser(hits[0])
        case Fail(kind) =>
          TeamLookup(calls, if kind == RequestError then Returned(None) else Raised(kind))
        case Ok(entity) =>
          var teams := Get(entity, teamProperty, Null);
          TeamLookup(calls, if teams != Null then Returned(Some(teams)) else Returned(None))
  }

  /** An empty search answers `None` and fetches no entity. */
  lemma LookupNoUser(teamProperty: string, email: string, fetchUser: string -> Reply<map<string, Json>>)
    ensures LookupUserTeams(teamProperty, email, Ok([]), fetchUser) == TeamLookup([SearchUser(email)], Returned(None))
  {
  }

  /** Only the first search hit matters: two searches with the same first hit
      give the same lookup. */
  lemma LookupUsesFirstHit(
    teamProperty: string, email: string,
    hits1: seq<string>, hits2: seq<string>,
    fetchUser: string -> Reply<map<string, Json>>)
    requires hits1 != [] && hits2 != [] && hits1[0] == hits2[0]
    ensures LookupUserTeams(teamProperty, email, Ok(hits1), fetchUser)
         == LookupUserTeams(teamProperty, email, Ok(hits2), fetchUser)
  {
  }

  /** When the lookup answers a value, it is the team property of the first
      hit's entity, unchanged (so `[]` stays `[]`, distinct from `None`). */
  lemma LookupReturnsPropertyUnchanged(
    teamProperty: string, email: string,
    search: Reply<seq<string>>, fetchUser: string -> Reply<map<string, Json>>)
    ensures var r := LookupUserTeams(teamProperty, email, search, fetchUser);
      r.teams.Returned? && r.teams.value.Some? <==>
        search.Ok? && search.value != [] && fetchUser(search.value[0]).Ok? &&
        teamProperty in fetchUser(search.value[0]).value &&
        fetchUser(search.value[0]).value[teamProperty] != Null
    ensures var r := LookupUserTeams(teamProperty, email, search, fetchUser);
      r.teams.Returned? && r.teams.value.Some? ==>
        r.teams.value.value == fetchUser(search.value[0]).value[teamProperty]
  {
  }

  /** The lookup raises only when a step fails with an exception other than
      `RequestException`; a `RequestException` at either step answers `None`. */
  lemma LookupRaisesOnlyOnForeignErrors(
    teamProperty: string, email: string,
    search: Reply<seq<string>>, fetchUser: string -> Reply<map<string, Json>>)
    ensures var r := LookupUserTeams(teamProperty, email, search, fetchUser);
      r.teams.Raised? <==>
        (search.Fail? && search.kind != RequestError) ||
        (search.Ok? && search.value != [] && fetchUser(search.value[0]).Fail? &&
         fetchUser(search.value[0]).kind != RequestError)
    ensures search == Fail(RequestError) ==>
      LookupUserTeams(teamProperty, email, search, fetchUser).teams == Returned(None)
    ensures search.Ok? && search.value != [] && fetchUser(search.value[0]) == Fail(RequestError) ==>
      LookupUserTeams(teamProperty, email, search, fetchUser).teams == Returned(None)
    ensures var r := LookupUserTeams(teamProperty, email, search, fetchUser);
      r.teams.Raised? && search.Fail? ==> r.teams.kind == search.kind
    ensures var r := LookupUserTeams(teamProperty, email, search, fetchUser);
      r.teams.Raised? && search.Ok? && search.value != [] ==>
        fetchUser(search.value[0]).Fail? && r.teams.kind == fetchUser(search.value[0]).kind
  {
  }

  // ---------------------------------------------------------------------------
  // The upsert request of update_port_repository_team
  // ---------------------------------------------------------------------------

  /** The catalog key: the repository name without the leading `GITHUB_ORG + "/"`. */
  function CleanRepoName(org: string, repoName: string): (clean: string)
    ensures org + "/" <= repoName ==> org + "/" + clean == repoName
    ensures !(org + "/" <= repoName) ==> clean == repoName
  {
    var prefix := org + "/";
    if prefix <= repoName then repoName[|prefix|..] else repoName
  }

  /** Stripping undoes qualification by the organisation. */
  lemma CleanRepoNameOfQualified(org: string, name: string)
    ensures CleanRepoName(org, org + "/" + name) == name
  {
    var prefix := org + "/";
    assert prefix <= prefix + name;
    assert org + "/" + name == prefix + name;
  }

  /** The entity body posted with `upsert=true&merge=true`. */
  function UpsertPayload(config: Config, repoName: string, team: Json): (payload: Json)
    ensures payload.Object? && payload.fields.Keys == {"identifier", "relations"}
    ensures payload.fields["identifier"] == Str(CleanRepoName(config.githubOrg, repoName))
    ensures payload.fields["relations"] == Object(map[config.repoTeamRelation := List([team])])
  {
    Object(map[
      "identifier" := Str(CleanRepoName(config.githubOrg, repoName)),
      "relations" := Object(map[config.repoTeamRelation := List([team])])])
  }

  // ---------------------------------------------------------------------------
  // The client object
  // ---------------------------------------------------------------------------

  /** The Port entity requests of the generic entity calls: a `GET` of one
      entity, a `PATCH` of one entity with a body, and a `GET` of every entity
      of a blueprint. */
  datatype EntityRequest =
    | GetEntityAt(blueprint: string, identifier: Json)
    | PatchEntityAt(blueprint: string, identifier: Json, payload: Json)
    | ListEntitiesOf(blueprint: string)

  class ApiClient {
    const config: Config
    /** `_port_access_token`: `None` until a token endpoint answer is cached. */
    var portAccessToken: Option<string>
    /** How many times the token endpoint has been asked. */
    ghost var tokenRequests: nat

    constructor (config: Config)
      ensures this.config == config
      ensures portAccessToken == None && tokenRequests == 0
    {
      this.config := config;
      portAccessToken := None;
      tokenRequests := 0;
    }

    /** `if self._port_access_token:` (an empty token is falsy and is asked for again). */
    predicate HasToken()
      reads this
    {
      portAccessToken.Some? && portAccessToken.value != ""
    }

    /** The token cache after a call that runs `_get_port_token` with the
        token endpoint answering `endpoint`: a cached token is kept and nothing
        is asked; otherwise the endpoint is asked once, and its answer is
        cached on success while a failure leaves the cache as it was. */
    twostate predicate TokenStep(endpoint: Reply<string>)
      reads this
    {
      && (old(HasToken()) ==>
            portAccessToken == old(portAccessToken) && tokenRequests == old(tokenRequests))
      && (!old(HasToken()) ==> tokenRequests == old(tokenRequests) + 1)
      && (!old(HasToken()) && endpoint.Ok? ==> portAccessToken == Some(endpoint.value))
      && (!old(HasToken()) && endpoint.Fail? ==> portAccessToken == old(portAccessToken))
    }

    /** `_get_port_token`. `endpoint` is what the token endpoint answers if it
        is asked; a failure is re-raised to the caller. */
    method GetPortToken(endpoint: Reply<string>) returns (r: Outcome<string>)
      modifies this
      ensures TokenStep(endpoint)
      ensures old(HasToken()) ==>
        r == Returned(old(portAccessToken).value) && unchanged(this)
      ensures !old(HasToken()) && endpoint.Ok? ==> r == Returned(endpoint.value)
      ensures !old(HasToken()) && endpoint.Fail? ==> r == Raised(endpoint.kind)
    {
      if HasToken() {
        r := Returned(portAccessToken.value);
        return;
      }
      tokenRequests := tokenRequests + 1;
      match endpoint
      case Ok(token) =>
        portAccessToken := Some(token);
        r := Returned(token);
      case Fail(kind) =>
        r := Raised(kind);
    }

    /** `get_all_organization_repos`: at most three attempts; `attempt(k)` is
        the answer to attempt k; any exception is caught and retried. */
    method GetAllOrganizationRepos(attempt: nat -> Reply<seq<Repo>>) returns (repos: seq<Repo>, tries: nat)
      ensures 1 <= tries <= 3
      ensures forall k :: 0 <= k < tries - 1 ==> attempt(k).Fail?
      ensures attempt(tries - 1).Ok? ==> repos == attempt(tries - 1).value
      ensures attempt(tries - 1).Fail? ==> tries == 3 && repos == []
    {
      for k := 0 to 3
        invariant forall j :: 0 <= j < k ==> attempt(j).Fail?
      {
        var reply := attempt(k);
        if reply.Ok? {
          repos, tries := reply.value, k + 1;
          return;
        }
      }
      repos, tries := [], 3;
    }

    /** `get_repo`. `reply` is what GitHub answers for the requested full name. */
    method GetRepo(reply: Reply<Repo>) returns (r: Outcome<Option<Repo>>)
      ensures r == RepoOrNone(reply)
    {
      r := RepoOrNone(reply);
    }

    /** `get_top_committers`. `stats` is the answer to the repository's
        `get_stats_contributors()` request (`None` while GitHub has none). A contributor without an author makes
        the loop dereference `None` and raise an `AttributeError`, which the
        method does not catch. */
    method GetTopCommitters(stats: Reply<Option<seq<Contributor>>>) returns (r: Outcome<seq<Committer>>)
      ensures stats.Fail? ==>
        r == if stats.kind == OtherError then Raised(OtherError) else Returned([])
      ensures stats.Ok? && (stats.value.None? || stats.value.value == []) ==> r == Returned([])
      ensures stats.Ok? && stats.value.Some? && stats.value.value != [] ==>
        var top := TopContributors(config.topCommittersCount, stats.value.value);
        r == if AllAuthored(top) then Returned(Committers(top)) else Raised(OtherError)
    {
      match stats
      case Fail(kind) =>
        r := if kind == OtherError then Raised(OtherError) else Returned([]);
      case Ok(found) =>
        if found.None? || found.value == [] {
          r := Returned([]);
          return;
        }
        var top := PrefixSlice(SortByTotal(found.value), config.topCommittersCount);
        var details: seq<Committer> := [];
        for i := 0 to |top|
          invariant details == Committers(top[..i])
          invariant AllAuthored(top[..i])
        {
          assert top[..i + 1][..i] == top[..i];
          var user := top[i].author;
          if user.Some? && HasEmail(user.value.email) {
            details := details + [Committer(user.value.email, user.value.login)];
          } else if user.None? {
            r := Raised(OtherError);
            return;
          }
        }
        assert top[..|top|] == top;
        r := Returned(details);
    }

    /** `get_port_user_team`: the token step runs outside the `try`, so a
        token failure propagates; then the two-step lookup. */
    method GetPortUserTeam(
      tokenEndpoint: Reply<string>,
      email: string,
      search: Reply<seq<string>>,
      fetchUser: string -> Reply<map<string, Json>>) returns (calls: seq<PortCall>, teams: Outcome<Option<Json>>)
      modifies this
      ensures old(HasToken()) || tokenEndpoint.Ok? ==>
        TeamLookup(calls, teams) == LookupUserTeams(config.userTeamProperty, email, search, fetchUser)
      ensures !old(HasToken()) && tokenEndpoint.Fail? ==>
        calls == [] && teams == Raised(tokenEndpoint.kind)
      ensures TokenStep(tokenEndpoint)
    {
      var token := GetPortToken(tokenEndpoint);
      if token.Raised? {
        calls, teams := [], Raised(token.kind);
        return;
      }
      var lookup := LookupUserTeams(config.userTeamProperty, email, search, fetchUser);
      calls, teams := lookup.calls, lookup.teams;
    }

    /** `update_port_repository_team`: `sent` is the body posted, if any; a
        `RequestException` from the post is logged and swallowed. */
    method UpdatePortRepositoryTeam(
      tokenEndpoint: Reply<string>,
      repoName: string,
      team: Json,
      post: Reply<()>) returns (sent: Option<Json>, r: Outcome<()>)
      modifies this
      ensures old(HasToken()) || tokenEndpoint.Ok? ==>
        sent == Some(UpsertPayload(config, repoName, team)) &&
        r == (if post.Fail? && post.kind != RequestError then Raised(post.kind) else Returned(()))
      ensures !old(HasToken()) && tokenEndpoint.Fail? ==>
        sent == None && r == Raised(tokenEndpoint.kind)
      ensures TokenStep(tokenEndpoint)
    {
      var token := GetPortToken(tokenEndpoint);
      if token.Raised? {
        sent, r := None, Raised(token.kind);
        return;
      }
      sent := Some(UpsertPayload(config, repoName, team));
      r := if post.Fail? && post.kind != RequestError then Raised(post.kind) else Returned(());
    }

    /** `get_entity`: `sent` is the request issued, if any. */
    method GetEntity(
      tokenEndpoint: Reply<string>,
      blueprint: string,
      identifier: Json,
      reply: Reply<map<string, Json>>) returns (sent: Option<EntityRequest>, r: Outcome<Option<map<string, Json>>>)
      modifies this
      ensures old(HasToken()) || tokenEndpoint.Ok? ==>
        sent == Some(GetEntityAt(blueprint, identifier)) && r == EntityOrNone(reply)
      ensures !old(HasToken()) && tokenEndpoint.Fail? ==> sent == None && r == Raised(tokenEndpoint.kind)
      ensures TokenStep(tokenEndpoint)
    {
      var token := GetPortToken(tokenEndpoint);
      if token.Raised? {
        sent, r := None, Raised(token.kind);
        return;
      }
      sent, r := Some(GetEntityAt(blueprint, identifier)), EntityOrNone(reply);
    }

    /** `update_entity`: `sent` is the request issued, if any. */
    method UpdateEntity(
      tokenEndpoint: Reply<string>,
      blueprint: string,
      identifier: Json,
      payload: Json,
      reply: Reply<()>) returns (sent: Option<EntityRequest>, r: Outcome<bool>)
      modifies this
      ensures old(HasToken()) || tokenEndpoint.Ok? ==>
        sent == Some(PatchEntityAt(blueprint, identifier, payload)) && r == UpdateSucceeded(reply)
      ensures !old(HasToken()) && tokenEndpoint.Fail? ==> sent == None && r == Raised(tokenEndpoint.kind)
      ensures TokenStep(tokenEndpoint)
    {
      var token := GetPortToken(tokenEndpoint);
      if token.Raised? {
        sent, r := None, Raised(token.kind);
        return;
      }
      sent, r := Some(PatchEntityAt(blueprint, identifier, payload)), UpdateSucceeded(reply);
    }

    /** `get_all_entities_for_blueprint`: `sent` is the request issued, if any. */
    method GetAllEntitiesForBlueprint(
      tokenEndpoint: Reply<string>,
      blueprint: string,
      reply: Reply<seq<map<string, Json>>>) returns (sent: Option<EntityRequest>, r: Outcome<seq<map<string, Json>>>)
      modifies this
      ensures old(HasToken()) || tokenEndpoint.Ok? ==>
        sent == Some(ListEntitiesOf(blueprint)) && r == EntitiesOrEmpty(reply)
      ensures !old(HasToken()) && tokenEndpoint.Fail? ==> sent == None && r == Raised(tokenEndpoint.kind)
      ensures TokenStep(tokenEndpoint)
    {
      var token := GetPortToken(tokenEndpoint);
      if token.Raised? {
        sent, r := None, Raised(token.kind);
        return;
      }
      sent, r := Some(ListEntitiesOf(blueprint)), EntitiesOrEmpty(reply);
    }
  }
}
