/** The per-repository ownership decision (`RepoProcessor.process_repo` in
    processor.py).

    The four client calls the processor makes are oracles bundled in
    `Services`: each says how the `ApiClient` call completes for a given
    argument. `ProcessRepo` runs the source's loop and returns the trace of
    effects it caused (client calls issued and lines written to the unmapped
    log); `Process` is the same decision written as a function, and the lemmas
    below state the ranked first-match policy about it. */
module Processor {
  import opened Outcomes
  import opened JsonValues
  import opened Api

  datatype Services = Services(
    getRepo: string -> Outcome<Option<Repo>>,
    topCommitters: Repo -> Outcome<seq<Committer>>,
    userTeams: string -> Outcome<Option<Json>>,
    upsert: (string, Json) -> Outcome<()>)

  /** The two lines the unmapped-repositories log receives. */
  datatype UnmappedReason = NoCommitters | NoTeamFound

  datatype Effect =
    | RepoRequested(name: string)
    | CommittersRequested(repo: Repo)
    | TeamsRequested(email: string)
    | UpsertRequested(repoName: string, team: Json)
    | UnmappedLogged(repoName: string, reason: UnmappedReason)

  /** Effects that record the processor's verdict rather than a question it asks. */
  predicate IsVerdict(e: Effect)
  {
    e.UpsertRequested? || e.UnmappedLogged?
  }

  /** `if teams:` on the answer of a team lookup. */
  predicate HasTeams(teams: Option<Json>)
  {
    teams.Some? && Truthy(teams.value)
  }

  /** `teams[0]` on a truthy decoded value: a list gives its first element, a
      string its first character; indexing an object (its keys are strings)
      raises `KeyError` and a number or `True` raises `TypeError`. */
  function FirstTeam(teams: Json): (r: Outcome<Json>)
    requires Truthy(teams)
    ensures teams.List? ==> r == Returned(teams.items[0])
    ensures teams.Str? ==> r == Returned(Str([teams.s[0]]))
    ensures r.Raised? <==> !teams.List? && !teams.Str?
  {
    match teams
    case List(items) => Returned(items[0])
    case Str(s) => Returned(Str([s[0]]))
    case _ => Raised(OtherError)
  }

  /** A committer the scan passes over: one without an e-mail, or one whose
      lookup completes with no team (`None` or an empty value). */
  ghost predicate PassesOver(c: Committer, svc: Services)
  {
    Decide(c, svc).None?
  }

  /** A committer whose lookup answers teams whose first element is `team`. */
  ghost predicate MatchesWith(c: Committer, svc: Services, team: Json)
  {
    Decide(c, svc) == Some(Matched(team))
  }

  /** The lookups issued for `cs` when none of them stops the scan. */
  function Lookups(cs: seq<Committer>): seq<Effect>
  {
    if cs == [] then [] else Asked(cs[0]) + Lookups(cs[1..])
  }

  /** The lookup sent for one committer, if it has an e-mail. */
  function Asked(c: Committer): seq<Effect>
  {
    if HasEmail(c.email) then [TeamsRequested(c.email.value)] else []
  }

  datatype ScanResult = Matched(team: Json) | Exhausted | Aborted(kind: ErrorKind)

  datatype Scan = Scan(effects: seq<Effect>, result: ScanResult)

  /** What the answer to one committer's lookup decides: `None` to go on with
      the next committer, otherwise how the scan ends. */
  function Ask(teams: Outcome<Option<Json>>): (r: Option<ScanResult>)
    ensures r.None? <==> teams.Returned? && !HasTeams(teams.value)
    ensures teams.Raised? ==> r == Some(Aborted(teams.kind))
    ensures r.Some? && r.value.Matched? ==>
      teams.Returned? && HasTeams(teams.value) && FirstTeam(teams.value.value) == Returned(r.value.team)
    ensures teams.Returned? && HasTeams(teams.value) && FirstTeam(teams.value.value).Returned? ==>
      r == Some(Matched(FirstTeam(teams.value.value).value))
    ensures teams.Returned? && HasTeams(teams.value) && FirstTeam(teams.value.value).Raised? ==>
      r == Some(Aborted(FirstTeam(teams.value.value).kind))
  {
    match teams
    case Raised(kind) => Some(Aborted(kind))
    case Returned(t) =>
      if !HasTeams(t) then None
      else
        match FirstTeam(t.value)
        case Raised(kind) => Some(Aborted(kind))
        case Returned(team) => Some(Matched(team))
  }

  /** What one committer decides: a committer without an e-mail is skipped
      unasked, one with an e-mail decides what its lookup's answer decides. */
  function Decide(c: Committer, svc: Services): (r: Option<ScanResult>)
    ensures !HasEmail(c.email) ==> r.None?
    ensures HasEmail(c.email) ==> r == Ask(svc.userTeams(c.email.value))
  {
    if HasEmail(c.email) then Ask(svc.userTeams(c.email.value)) else None
  }

  /** The decision of every committer against the given services. */
  function Decisions(svc: Services): Committer -> Option<ScanResult>
  {
    c => Decide(c, svc)
  }

  /** The `for committer in committers` loop, for any per-committer decision:
      committers are taken in list order, each one's lookup (if any) is
      recorded, and the first decision that is not `None` ends the scan. */
  function ScanCommitters(cs: seq<Committer>, decide: Committer -> Option<ScanResult>): Scan
  {
    if cs == [] then Scan([], Exhausted)
    else
      match decide(cs[0])
      case Some(result) => Scan(Asked(cs[0]), result)
      case None =>
        var rest := ScanCommitters(cs[1..], decide);
        Scan(Asked(cs[0]) + rest.effects, rest.result)
  }

  datatype Processing = Processing(effects: seq<Effect>, outcome: Outcome<()>)

  /** The whole decision for one repository name. */
  function Process(repoName: string, svc: Services): Processing
  {
    var fetched := svc.getRepo(repoName);
    if fetched.Raised? then Processing([RepoRequested(repoName)], Raised(fetched.kind))
    else if fetched.value.None? then Processing([RepoRequested(repoName)], Returned(()))
    else
      var repo := fetched.value.value;
      var head := [RepoRequested(repoName), CommittersRequested(repo)];
      var committers := svc.topCommitters(repo);
      if committers.Raised? then Processing(head, Raised(committers.kind))
      else if committers.value == [] then
        Processing(head + [UnmappedLogged(repoName, NoCommitters)], Returned(()))
      else
        var scan := ScanCommitters(committers.value, Decisions(svc));
        match scan.result
        case Matched(team) =>
          Processing(head + scan.effects + [UpsertRequested(repoName, team)], svc.upsert(repoName, team))
        case Exhausted =>
          Processing(head + scan.effects + [UnmappedLogged(repoName, NoTeamFound)], Returned(()))
        case Aborted(kind) =>
          Processing(head + scan.effects, Raised(kind))
  }

  /** Committers the scan passes over contribute their lookups and nothing else. */
  lemma {:induction false} ScanPassesPrefix(cs: seq<Committer>, decide: Committer -> Option<ScanResult>, i: nat)
    requires i <= |cs|
    requires forall j :: 0 <= j < i ==> decide(cs[j]).None?
    ensures ScanCommitters(cs, decide) ==
      Scan(Lookups(cs[..i]) + ScanCommitters(cs[i..], decide).effects, ScanCommitters(cs[i..], decide).result)
  {
    if i == 0 {
      assert cs[..0] == [] && cs[0..] == cs;
    } else {
      ScanPassesPrefix(cs, decide, i - 1);
      ScanPassesAt(cs, decide, i - 1);
      LookupsSnoc(cs, i - 1);
      AppendAssoc(Lookups(cs[..i - 1]), Asked(cs[i - 1]), ScanCommitters(cs[i..], decide).effects);
    }
  }

  /** One committer passed over, seen from its position in the list. */
  lemma ScanPassesAt(cs: seq<Committer>, decide: Committer -> Option<ScanResult>, k: nat)
    requires k < |cs| && decide(cs[k]).None?
    ensures ScanCommitters(cs[k..], decide) ==
      Scan(Asked(cs[k]) + ScanCommitters(cs[k + 1..], decide).effects, ScanCommitters(cs[k + 1..], decide).result)
  {
    assert cs[k..][0] == cs[k] && cs[k..][1..] == cs[k + 1..];
  }

  lemma AppendAssoc(a: seq<Effect>, b: seq<Effect>, c: seq<Effect>)
    ensures a + (b + c) == (a + b) + c
  {
  }

  /** The first committer whose decision is not `None` ends the scan. */
  lemma ScanStopsAt(cs: seq<Committer>, decide: Committer -> Option<ScanResult>, i: nat)
    requires i < |cs|
    requires forall j :: 0 <= j < i ==> decide(cs[j]).None?
    requires decide(cs[i]).Some?
    ensures ScanCommitters(cs, decide) == Scan(Lookups(cs[..i + 1]), decide(cs[i]).value)
  {
    ScanPassesPrefix(cs, decide, i);
    LookupsSnoc(cs, i);
    assert cs[i..][0] == cs[i];
  }

  /** A scan whose every committer is passed over asks them all and finds nothing. */
  lemma ScanPassesAll(cs: seq<Committer>, decide: Committer -> Option<ScanResult>)
    requires forall j :: 0 <= j < |cs| ==> decide(cs[j]).None?
    ensures ScanCommitters(cs, decide) == Scan(Lookups(cs), Exhausted)
  {
    ScanPassesPrefix(cs, decide, |cs|);
    assert cs[..|cs|] == cs;
    assert cs[|cs|..] == [];
  }

  /** The loop of `process_repo` over the committers: `continue` skips a
      committer without an e-mail, the first lookup that answers teams ends
      it by returning from `process_repo` after the upsert, an exception
      leaves it, and at the end of the list control falls through to the
      unmapped logging after the loop. */
  method ScanForTeam(committers: seq<Committer>, svc: Services) returns (asked: seq<Effect>, result: ScanResult)
    ensures Scan(asked, result) == ScanCommitters(committers, Decisions(svc))
  {
    asked := [];
    ghost var decide := Decisions(svc);
    assert committers[0..] == committers;
    for i := 0 to |committers|
      invariant ScanCommitters(committers, decide) ==
        Scan(asked + ScanCommitters(committers[i..], decide).effects, ScanCommitters(committers[i..], decide).result)
    {
      var committer := committers[i];
      ghost var rest := committers[i..];
      assert rest[0] == committer && rest[1..] == committers[i + 1..];
      if !HasEmail(committer.email) {
        assert decide(committer).None?;
        continue;
      }
      var email := committer.email.value;
      asked := asked + [TeamsRequested(email)];
      var teams := svc.userTeams(email);
      assert decide(committer) == Ask(teams);
      if teams.Raised? {
        result := Aborted(teams.kind);
        return;
      }
      if HasTeams(teams.value) {
        var first := FirstTeam(teams.value.value);
        result := if first.Raised? then Aborted(first.kind) else Matched(first.value);
        return;
      }
    }
    assert committers[|committers|..] == [];
    result := Exhausted;
  }

  /** `process_repo`. */
  method ProcessRepo(repoName: string, svc: Services) returns (effects: seq<Effect>, outcome: Outcome<()>)
    ensures Processing(effects, outcome) == Process(repoName, svc)
  {
    effects := [RepoRequested(repoName)];
    var fetched := svc.getRepo(repoName);
    if fetched.Raised? {
      outcome := Raised(fetched.kind);
      return;
    }
    if fetched.value.None? {
      outcome := Returned(());
      return;
    }
    var repo := fetched.value.value;
    effects := effects + [CommittersRequested(repo)];
    var answer := svc.topCommitters(repo);
    if answer.Raised? {
      outcome := Raised(answer.kind);
      return;
    }
    var committers := answer.value;
    if committers == [] {
      effects := effects + [UnmappedLogged(repoName, NoCommitters)];
      outcome := Returned(());
      return;
    }
    var asked, result := ScanForTeam(committers, svc);
    effects := effects + asked;
    match result
    case Matched(team) =>
      effects := effects + [UpsertRequested(repoName, team)];
      outcome := svc.upsert(repoName, team);
    case Aborted(kind) =>
      outcome := Raised(kind);
    case Exhausted =>
      effects := effects + [UnmappedLogged(repoName, NoTeamFound)];
      outcome := Returned(());
  }

  lemma {:induction false} LookupsSnoc(cs: seq<Committer>, i: nat)
    requires i < |cs|
    ensures Lookups(cs[..i + 1]) == Lookups(cs[..i]) + Asked(cs[i])
  {
    LookupsAppend(cs[..i], [cs[i]]);
    assert cs[..i + 1] == cs[..i] + [cs[i]];
    assert [cs[i]][1..] == [];
  }

  lemma {:induction false} LookupsAppend(a: seq<Committer>, b: seq<Committer>)
    ensures Lookups(a + b) == Lookups(a) + Lookups(b)
  {
    if a == [] {
      assert a + b == b;
    } else {
      assert (a + b)[0] == a[0] && (a + b)[1..] == a[1..] + b;
      LookupsAppend(a[1..], b);
      calc {
        Lookups(a + b);
        Asked(a[0]) + Lookups(a[1..] + b);
        Asked(a[0]) + (Lookups(a[1..]) + Lookups(b));
        (Asked(a[0]) + Lookups(a[1..])) + Lookups(b);
      }
    }
  }

  // ---------------------------------------------------------------------------
  // Properties of the decision
  // ---------------------------------------------------------------------------

  /** An unresolved repository stops the run silently: nothing is asked after
      the repository fetch and nothing is logged as unmapped. */
  lemma UnresolvedRepoStops(repoName: string, svc: Services)
    requires svc.getRepo(repoName) == Returned(None)
    ensures Process(repoName, svc) == Processing([RepoRequested(repoName)], Returned(()))
  {
  }

  /** No committers: one unmapped line, no lookup, no upsert. */
  lemma NoCommittersLogsUnmapped(repoName: string, svc: Services, repo: Repo)
    requires svc.getRepo(repoName) == Returned(Some(repo))
    requires svc.topCommitters(repo) == Returned([])
    ensures Process(repoName, svc) == Processing(
      [RepoRequested(repoName), CommittersRequested(repo), UnmappedLogged(repoName, NoCommitters)],
      Returned(()))
  {
  }

  /** The scan asks exactly the committers with an e-mail among a prefix of
      the list, in list order; a committer without one is never asked. */
  lemma {:induction false} ScanAsksPrefix(cs: seq<Committer>, decide: Committer -> Option<ScanResult>)
    ensures exists n :: 0 <= n <= |cs| && ScanCommitters(cs, decide).effects == Lookups(cs[..n])
  {
    if cs == [] {
      assert cs[..0] == [];
    } else {
      ScanAsksPrefix(cs[1..], decide);
      var n :| 0 <= n <= |cs| - 1 && ScanCommitters(cs[1..], decide).effects == Lookups(cs[1..][..n]);
      if decide(cs[0]).None? {
        assert cs[..n + 1][0] == cs[0] && cs[..n + 1][1..] == cs[1..][..n];
        assert ScanCommitters(cs, decide).effects == Lookups(cs[..n + 1]);
      } else {
        assert cs[..1][0] == cs[0] && cs[..1][1..] == [];
        assert ScanCommitters(cs, decide).effects == Lookups(cs[..1]);
      }
    }
  }

  /** The first committer in list order whose lookup answers teams decides:
      its first team is upserted, the lookups are exactly those of the
      committers up to it, and no later committer is asked. */
  lemma FirstMatchUpserts(
    repoName: string, svc: Services, repo: Repo, cs: seq<Committer>, i: nat, team: Json)
    requires svc.getRepo(repoName) == Returned(Some(repo))
    requires svc.topCommitters(repo) == Returned(cs)
    requires i < |cs|
    requires forall j :: 0 <= j < i ==> PassesOver(cs[j], svc)
    requires MatchesWith(cs[i], svc, team)
    ensures Process(repoName, svc) == Processing(
      [RepoRequested(repoName), CommittersRequested(repo)] + Lookups(cs[..i + 1]) + [UpsertRequested(repoName, team)],
      svc.upsert(repoName, team))
  {
    var decide := Decisions(svc);
    assert forall j :: 0 <= j < i ==> decide(cs[j]).None?;
    ScanStopsAt(cs, decide, i);
  }

  /** Conversely, an upsert is issued only for the repository at hand and
      only with the first team of the first matching committer. */
  lemma UpsertOnlyOnFirstMatch(repoName: string, svc: Services, name: string, team: Json)
    requires UpsertRequested(name, team) in Process(repoName, svc).effects
    ensures name == repoName
    ensures exists repo, cs, i ::
      && svc.getRepo(repoName) == Returned(Some(repo))
      && svc.topCommitters(repo) == Returned(cs)
      && 0 <= i < |cs|
      && (forall j :: 0 <= j < i ==> PassesOver(cs[j], svc))
      && MatchesWith(cs[i], svc, team)
  {
    var fetched := svc.getRepo(repoName);
    if fetched.Returned? && fetched.value.Some? {
      var repo := fetched.value.value;
      var committers := svc.topCommitters(repo);
      if committers.Returned? && committers.value != [] {
        var cs := committers.value;
        var decide := Decisions(svc);
        ScanOnlyLooksUp(cs, decide);
        var scan := ScanCommitters(cs, decide);
        if scan.result == Matched(team) && name == repoName {
          var i := ScanMatchIndex(cs, decide, team);
          assert forall j :: 0 <= j < i ==> PassesOver(cs[j], svc);
        }
      }
    }
  }

  /** The position of the committer a matched scan stopped at. */
  lemma {:induction false} ScanMatchIndex(cs: seq<Committer>, decide: Committer -> Option<ScanResult>, team: Json)
    returns (i: nat)
    requires ScanCommitters(cs, decide).result == Matched(team)
    ensures i < |cs|
    ensures forall j :: 0 <= j < i ==> decide(cs[j]).None?
    ensures decide(cs[i]) == Some(Matched(team))
  {
    if decide(cs[0]).None? {
      var k := ScanMatchIndex(cs[1..], decide, team);
      i := k + 1;
    } else {
      i := 0;
    }
  }

  /** Every scan effect is a lookup, so the verdict, if any, is the last effect:
      at most one upsert, and never both an upsert and an unmapped line. */
  lemma {:induction false} ScanOnlyLooksUp(cs: seq<Committer>, decide: Committer -> Option<ScanResult>)
    ensures forall k :: 0 <= k < |ScanCommitters(cs, decide).effects| ==>
      ScanCommitters(cs, decide).effects[k].TeamsRequested?
  {
    if cs != [] {
      ScanOnlyLooksUp(cs[1..], decide);
    }
  }

  lemma AtMostOneVerdict(repoName: string, svc: Services)
    ensures var effects := Process(repoName, svc).effects;
      forall k :: 0 <= k < |effects| - 1 ==> !IsVerdict(effects[k])
    ensures var p := Process(repoName, svc);
      p.outcome.Returned? && svc.getRepo(repoName).value.Some? ==> IsVerdict(p.effects[|p.effects| - 1])
  {
    var fetched := svc.getRepo(repoName);
    if fetched.Returned? && fetched.value.Some? {
      var committers := svc.topCommitters(fetched.value.value);
      if committers.Returned? && committers.value != [] {
        ScanOnlyLooksUp(committers.value, Decisions(svc));
      }
    }
  }

  /** A lookup answering `None` and one answering an empty value are alike:
      two services that differ only in that respect make the same decision. */
  ghost predicate NoTeamAlike(a: Outcome<Option<Json>>, b: Outcome<Option<Json>>)
  {
    a == b || (a.Returned? && b.Returned? && !HasTeams(a.value) && !HasTeams(b.value))
  }

  /** The scan depends on the decisions only. */
  lemma {:induction false} ScanSameDecisions(
    cs: seq<Committer>, decide1: Committer -> Option<ScanResult>, decide2: Committer -> Option<ScanResult>)
    requires forall j :: 0 <= j < |cs| ==> decide1(cs[j]) == decide2(cs[j])
    ensures ScanCommitters(cs, decide1) == ScanCommitters(cs, decide2)
  {
    if cs != [] {
      ScanSameDecisions(cs[1..], decide1, decide2);
    }
  }

  lemma NoneAndEmptyAlike(repoName: string, svc1: Services, svc2: Services)
    requires forall name :: svc1.getRepo(name) == svc2.getRepo(name)
    requires forall repo :: svc1.topCommitters(repo) == svc2.topCommitters(repo)
    requires forall name, team :: svc1.upsert(name, team) == svc2.upsert(name, team)
    requires forall email :: NoTeamAlike(svc1.userTeams(email), svc2.userTeams(email))
    ensures Process(repoName, svc1) == Process(repoName, svc2)
  {
    var fetched := svc1.getRepo(repoName);
    if fetched.Returned? && fetched.value.Some? {
      var committers := svc1.topCommitters(fetched.value.value);
      if committers.Returned? {
        var cs := committers.value;
        forall j | 0 <= j < |cs|
          ensures Decisions(svc1)(cs[j]) == Decisions(svc2)(cs[j])
        {
          var c := cs[j];
          if HasEmail(c.email) {
            assert NoTeamAlike(svc1.userTeams(c.email.value), svc2.userTeams(c.email.value));
          }
        }
        ScanSameDecisions(cs, Decisions(svc1), Decisions(svc2));
      }
    }
  }

  /** A scan over a non-empty list that finds no team writes exactly one
      unmapped line after asking every committer that has an e-mail. */
  lemma NoMatchLogsUnmapped(repoName: string, svc: Services, repo: Repo, cs: seq<Committer>)
    requires svc.getRepo(repoName) == Returned(Some(repo))
    requires svc.topCommitters(repo) == Returned(cs)
    requires cs != []
    requires forall j :: 0 <= j < |cs| ==> PassesOver(cs[j], svc)
    ensures Process(repoName, svc) == Processing(
      [RepoRequested(repoName), CommittersRequested(repo)] + Lookups(cs) + [UnmappedLogged(repoName, NoTeamFound)],
      Returned(()))
  {
    var decide := Decisions(svc);
    assert forall j :: 0 <= j < |cs| ==> decide(cs[j]).None?;
    ScanPassesAll(cs, decide);
  }
}
