# repo-team-mapper, modelled in Dafny

repo-team-mapper gives each repository of a GitHub organisation an owning team
in the Port software catalog. For every repository it ranks the top
committers, asks Port for the teams of each committer by e-mail, and upserts
the repository's catalog entity with the first team found. Repositories with
no usable answer go to an "unmapped" log. A state file holds the worklist so
that an interrupted run can resume. A separate utility copies a team relation
into a team property on every entity of a blueprint.

The model treats every GitHub and Port request as an oracle: its answer is a
parameter (`Reply`: `Ok(value)` or `Fail(kind)`, where the kind says whether it
was a `GithubException`, a `RequestException` or any other exception). How a
Python call completes is an `Outcome`: `Returned(value)` or `Raised(kind)`.

- `outcomes.dfy` (`Outcomes`): `Option`, `ErrorKind`, `Reply` and `Outcome`.
- `json.dfy` (`JsonValues`): decoded JSON values, Python truthiness and `dict.get`.
- `api_client.dfy` (`Api`): the client's result shaping.
  - The top-K committer selection: a stable descending sort, Python's `s[:k]` for any `k`, and the e-mail filter loop.
  - The three-way user-team lookup.
  - The catalog-key prefix strip and the upsert payload.
  - The sentinel answers of the generic entity calls.
  - The bounded retry loop.
  - `ApiClient`, a class whose lazily cached token is a field.
- `processor.dfy` (`Processor`): `process_repo`. It is a method that returns the trace of effects it caused: client calls and unmapped-log lines. A function states the same decision, and lemmas about that function state the first-match policy. The committer scan is written for any per-committer decision; `Decide` is the one `process_repo` makes.
- `main.dfy` (`Driver`): the state file's text format.
  - Line splitting, `str.strip` and newline translation, as Python does them.
  - A `FileSystem` class.
  - The loader, the catch-all wrapper and the load / dispatch / delete run. `Run` follows the code as written; `RunChecked` is the same run with the corrected loader of "## Findings".
- `entity_processor.dfy` (`EntityProcessor`): the migration loop, with its function and lemmas.

Configuration values (`GITHUB_ORG`, `TOP_COMMITTERS_COUNT`,
`PORT_USER_TEAM_PROPERTY`, `PORT_REPO_TEAM_RELATION`, ...) are fields of
`Api.Config`, given to the client's constructor.

## Model

| member | source | states |
|---|---|---|
| Api.SortByTotalSorted | src/repo_team_mapper/api_client.py:107 | the sort orders contributors by descending total and is a permutation of the statistics |
| Api.SortByTotalStable | src/repo_team_mapper/api_client.py:107 | contributors with equal totals keep their input order, as `sorted` does |
| Api.PrefixSlice | src/repo_team_mapper/api_client.py:108 | `s[:k]` is a prefix of `s` of length `min(k, len(s))` for `k >= 0` and `max(len(s) + k, 0)` for negative `k` |
| Api.TopCommittersShape | src/repo_team_mapper/api_client.py:107-121 | the returned committers number at most the configured count (when it is not negative) and at most the statistics. Each has an e-mail and is built from the contributor at its position of the top-K slice. The positions strictly increase, so no contributor is used twice and slice order is kept. Their totals are non-increasing. |
| Api.CommittersFromUsable | src/repo_team_mapper/api_client.py:111-121 | the j-th record is built from the j-th contributor with an author and an e-mail; every such contributor of the slice is kept |
| Api.ApiClient.GetTopCommitters | src/repo_team_mapper/api_client.py:90-126 | no statistics, an empty list, a `GithubException` or a `RequestException` gives `[]`; any other failure, or a contributor of the top-K slice without an author, raises. Otherwise the result is the filtered top-K list. |
| Api.ApiClient.GetPortToken | src/repo_team_mapper/api_client.py:27-51 | a cached, non-empty token is returned with no request and no state change. Otherwise one request is made; a success is cached and returned; a failure is re-raised and the cache is left as it was (`TokenStep`). |
| Api.ApiClient.GetAllOrganizationRepos | src/repo_team_mapper/api_client.py:53-76 | one to three attempts; every attempt before the last one failed; the first successful answer is returned, and `[]` after three failures |
| Api.RepoOrNone | src/repo_team_mapper/api_client.py:78-88 | `None` exactly on a `GithubException`, the repository on success, and any other exception propagates with its own kind |
| Api.ApiClient.GetRepo | src/repo_team_mapper/api_client.py:78-88 | the repository on success, `None` on a `GithubException`, and any other exception propagates (`RepoOrNone`) |
| Api.LookupUserTeams | src/repo_team_mapper/api_client.py:138-192 | the search is always sent; the entity fetch is sent exactly when the search has a hit, and only for the first hit |
| Api.LookupNoUser | src/repo_team_mapper/api_client.py:155-157 | an empty search answers `None` after one request |
| Api.LookupUsesFirstHit | src/repo_team_mapper/api_client.py:159 | two searches with the same first hit give the same calls and answer |
| Api.LookupReturnsPropertyUnchanged | src/repo_team_mapper/api_client.py:174-188 | a value is answered exactly when the first hit's entity has a non-null team property, and it is that property unchanged, so `[]` stays `[]` |
| Api.LookupRaisesOnlyOnForeignErrors | src/repo_team_mapper/api_client.py:190-192 | a `RequestException` at either request answers `None`; the lookup raises exactly when a request fails otherwise, and with the kind of the exception of the request that failed |
| Api.ApiClient.GetPortUserTeam | src/repo_team_mapper/api_client.py:128-192 | a token failure propagates before any request; otherwise the calls and answer are those of `LookupUserTeams` with the configured team property. The token cache is left as after `GetPortToken` (`TokenStep`): a cached token is kept with no request; otherwise one token request is made, its token is cached on success, and on failure the cache stays as it was. |
| Api.CleanRepoName | src/repo_team_mapper/api_client.py:209-214 | when the name starts with `GITHUB_ORG + "/"`, that prefix followed by the result gives back the name; otherwise the name is unchanged |
| Api.CleanRepoNameOfQualified | src/repo_team_mapper/api_client.py:209-214 | stripping undoes qualification by the organisation |
| Api.UpsertPayload | src/repo_team_mapper/api_client.py:221-224 | the body has exactly the keys `identifier` and `relations`; the identifier is the clean name and the relation is the one-element list `[team]` |
| Api.ApiClient.UpdatePortRepositoryTeam | src/repo_team_mapper/api_client.py:203-246 | after a token, the posted body is `UpsertPayload`; a `RequestException` is swallowed and other failures raise; a token failure sends nothing. The token cache is left as after `GetPortToken` (`TokenStep`): a cached token is kept with no request; otherwise one token request is made, its token is cached on success, and on failure the cache stays as it was. |
| Api.EntityOrNone | src/repo_team_mapper/api_client.py:263-271 | `None` exactly on a `RequestException`; the entity on success; any other exception propagates with its own kind |
| Api.ApiClient.GetEntity | src/repo_team_mapper/api_client.py:248-271 | a token failure propagates and sends nothing. Otherwise it sends a `GET` for the given blueprint and identifier, and the answer is `EntityOrNone` of the reply. The token cache is left as after `GetPortToken` (`TokenStep`): a cached token is kept with no request; otherwise one token request is made, its token is cached on success, and on failure the cache stays as it was. |
| Api.UpdateSucceeded | src/repo_team_mapper/api_client.py:289-298 | `True` exactly on success, `False` exactly on a `RequestException`; any other exception propagates with its own kind |
| Api.ApiClient.UpdateEntity | src/repo_team_mapper/api_client.py:273-298 | a token failure propagates and sends nothing. Otherwise it sends a `PATCH` of the given blueprint and identifier with the payload, and the answer is `UpdateSucceeded` of the reply. The token cache is left as after `GetPortToken` (`TokenStep`): a cached token is kept with no request; otherwise one token request is made, its token is cached on success, and on failure the cache stays as it was. |
| Api.EntitiesOrEmpty | src/repo_team_mapper/api_client.py:312-322 | `[]` on a `RequestException`, the entities on success, and any other exception propagates with its own kind |
| Api.ApiClient.GetAllEntitiesForBlueprint | src/repo_team_mapper/api_client.py:300-322 | a token failure propagates and sends nothing. Otherwise it sends a `GET` of the blueprint's entities, and the answer is `EntitiesOrEmpty` of the reply. The token cache is left as after `GetPortToken` (`TokenStep`): a cached token is kept with no request; otherwise one token request is made, its token is cached on success, and on failure the cache stays as it was. |
| Processor.FirstTeam | src/repo_team_mapper/processor.py:54 | `teams[0]` of a truthy list is its first element and of a truthy string its first character, as a one-character string; it raises exactly for a value that is neither a list nor a string |
| Processor.Ask | src/repo_team_mapper/processor.py:51-54 | a lookup that raises aborts the scan with its exception; a lookup with no team (`None` or a falsy value) lets the scan go on, and only then. For a truthy answer, the scan matches `teams[0]` when indexing succeeds and aborts with the indexing exception otherwise; a match always carries `teams[0]` of a truthy answer. |
| Processor.Decide | src/repo_team_mapper/processor.py:44-54 | a committer without an e-mail lets the scan go on unasked; one with an e-mail decides what the answer to its lookup decides |
| Processor.ScanForTeam | src/repo_team_mapper/processor.py:43-62 | the lookups sent and the way the loop ends (match, exception or end of the list) equal those of `ScanCommitters` with each committer's `Decide` |
| Processor.ScanPassesPrefix | src/repo_team_mapper/processor.py:43-46 | committers that let the scan go on contribute their lookups, in order, and leave the outcome to the rest of the list |
| Processor.ScanStopsAt | src/repo_team_mapper/processor.py:43-62 | the first committer that does not let the scan go on ends it with its decision, after exactly the lookups up to it |
| Processor.ScanMatchIndex | src/repo_team_mapper/processor.py:53-62 | a scan that matched stopped at a committer whose decision is that match, and every earlier committer let it go on |
| Processor.ProcessRepo | src/repo_team_mapper/processor.py:20-72 | the effects and completion of the loop equal those of `Process` |
| Processor.UnresolvedRepoStops | src/repo_team_mapper/processor.py:27-30 | an unresolved repository causes the repository fetch and nothing else |
| Processor.NoCommittersLogsUnmapped | src/repo_team_mapper/processor.py:32-40 | an empty committer list gives exactly one unmapped line and no lookup or upsert |
| Processor.ScanAsksPrefix | src/repo_team_mapper/processor.py:43-51 | the lookups are those of the committers with an e-mail among a prefix of the list, in order; none is sent for a committer without one |
| Processor.FirstMatchUpserts | src/repo_team_mapper/processor.py:51-62 | when the first committer with teams is at position i, the lookups are exactly those up to i, followed by one upsert of `(repo_name, teams[0])` |
| Processor.UpsertOnlyOnFirstMatch | src/repo_team_mapper/processor.py:51-62 | any upsert in the trace names this repository and the first team of a committer that every earlier committer passed over |
| Processor.ScanOnlyLooksUp | src/repo_team_mapper/processor.py:42-62 | every effect of the scan is a team lookup |
| Processor.AtMostOneVerdict | src/repo_team_mapper/processor.py:61-72 | no upsert or unmapped line occurs before the last effect, so there is at most one of them; a resolved repository that completes normally ends with one |
| Processor.NoneAndEmptyAlike | src/repo_team_mapper/processor.py:53 | lookups answering `None` and lookups answering an empty value lead to the same decision |
| Processor.NoMatchLogsUnmapped | src/repo_team_mapper/processor.py:64-72 | a non-empty list with no match asks every committer with an e-mail and writes exactly one unmapped line |
| Driver.Strip | src/repo_team_mapper/main.py:48 | `str.strip` returns a contiguous piece of the line with only whitespace around it and no whitespace at either end |
| Driver.FileLines | src/repo_team_mapper/main.py:46-48 | the lines concatenate back to the text; each is non-empty, each but the last ends in `"\n"`, and none has a `"\n"` before its end |
| Driver.TranslateNewlines | src/repo_team_mapper/main.py:46 | text read in text mode holds no `"\r"`, and text without one is read unchanged |
| Driver.TranslateCarriageReturn | src/repo_team_mapper/main.py:46 | the first `"\r"` of a text reads as `"\n"` and absorbs a `"\n"` right after it, so `"\r\n"` and a lone `"\r"` both become one `"\n"`; the text before it is kept |
| Driver.StateFileRoundTrip | src/repo_team_mapper/main.py:48-57 | writing clean names one per line and reading the file back gives the same list |
| Driver.ParsedNamesAreClean | src/repo_team_mapper/main.py:48 | every name read from any state file is non-empty, has no surrounding whitespace and no line break |
| Driver.ReparseIsIdentity | src/repo_team_mapper/main.py:48-57 | writing a list read from a state file and reading it again gives the same list |
| Driver.WriteStateFile | src/repo_team_mapper/main.py:55-57 | the state file holds exactly the serialised names afterwards, and no other file changes |
| Driver.LoadRepositoriesToProcess | src/repo_team_mapper/main.py:38-64 | the returned list and the new files are `LoadedNames` and `FilesAfterLoad` of the old files and the listing |
| Driver.ResumeIgnoresListing | src/repo_team_mapper/main.py:44-48 | with a state file present, the list comes from the file whatever the listing, and no file changes |
| Driver.FreshLoadResumesSameWorklist | src/repo_team_mapper/main.py:50-61 | a fresh load returns the fetched names, and a later run resuming from the file it wrote reads the same list |
| Driver.EmptyListingBlocksLaterRuns | src/repo_team_mapper/main.py:52-61 | see Findings: an empty listing leaves an empty state file. Every later load returns `[]` from it whatever its listing, and leaves the files as they are. |
| Driver.LoadRepositoriesChecked | src/repo_team_mapper/main.py:38-64 | the corrected loader: same list, files as `FilesAfterCheckedLoad` |
| Driver.CheckedLoadWritesOnlyWork | src/repo_team_mapper/main.py:50-61 | without a state file, the corrected loader creates one exactly when it returns a non-empty list |
| Driver.CheckedLoadRecovers | src/repo_team_mapper/main.py:50-61 | after an empty listing the corrected loader leaves the files unchanged, so the next load fetches again |
| Driver.ProcessRepoWrapper | src/repo_team_mapper/main.py:22-35 | never raises; it returns the processor's effects, and a failure exactly when `process_repo` raised, with that exception's kind |
| Driver.DispatchesEachOnce | src/repo_team_mapper/main.py:86-92 | one dispatch per worklist name, in worklist order, each with that name's processing effects |
| Driver.DispatchAll | src/repo_team_mapper/main.py:86-92 | the log is `Dispatches` of the worklist: one dispatch per name, in order |
| Driver.Run | src/repo_team_mapper/main.py:67-100 | uses the loader as written. An empty worklist exits with status 1 and no dispatch, and the files are as the loader left them (`FilesAfterLoad`), so an empty state file may stay behind. Otherwise every name is dispatched once, in order. The state file is removed after the last dispatch, and no other file changes. |
| Driver.RunChecked | src/repo_team_mapper/main.py:67-100 | `main` with the corrected loader: an empty worklist exits with status 1, with no dispatch and no file change; otherwise as `Run` |
| Driver.RunAfterEmptyListing | src/repo_team_mapper/main.py:52-80 | see Findings: with no state file, a run whose listing yields nothing and any run after it both exit with status 1 and dispatch nothing, and an empty state file stays behind |
| Driver.RunCheckedAfterEmptyListing | src/repo_team_mapper/main.py:52-80 | with the corrected loader, the run after an empty listing does what a first run with its own listing does |
| EntityProcessor.TeamRelation | src/repo_team_mapper/entity_processor.py:57-59 | a relation held in an object `relations` is returned, and a relation absent from it reads as `None`; a missing `relations` reads as no relation, and a `relations` value that is not an object raises |
| EntityProcessor.TeamIdentifiers | src/repo_team_mapper/entity_processor.py:69-73 | a list is kept as it is and any other value becomes a one-element list |
| EntityProcessor.TeamIdentifiersIdempotent | src/repo_team_mapper/entity_processor.py:69-73 | normalising twice is normalising once, and the relation is kept |
| EntityProcessor.MigrationPayload | src/repo_team_mapper/entity_processor.py:82 | the payload has the one key `properties`, mapping the team property to the identifiers |
| EntityProcessor.MigrateTeamRelations | src/repo_team_mapper/entity_processor.py:21-98 | the effects and completion of the loop equal those of `Migrate` |
| EntityProcessor.MigrateAllCompletes | src/repo_team_mapper/entity_processor.py:40-95 | when no iteration lets an exception escape, the loop completes normally with every entity's effects in list order |
| EntityProcessor.NoEntitiesNoCalls | src/repo_team_mapper/entity_processor.py:29-38 | no entities, or a failed listing, means no fetch and no update |
| EntityProcessor.OneEntityShape | src/repo_team_mapper/entity_processor.py:40-85 | each entity is fetched once. One update follows exactly when the fetched entity is non-empty and its relation is readable and truthy, and it carries the normalised relation. Only a raising fetch ends the migration. |
| EntityProcessor.SkippedEntityNotUpdated | src/repo_team_mapper/entity_processor.py:45-66 | a failed or empty fetch, or a missing, falsy or unreadable relation, gives the fetch and nothing else |
| EntityProcessor.AtMostOneUpdateEach | src/repo_team_mapper/entity_processor.py:40-95 | no more updates are issued than there are entities |
| EntityProcessor.CaughtFailuresDoNotStop | src/repo_team_mapper/entity_processor.py:55-95 | when every entity has an identifier and every fetch completes, every entity is processed, in list order, and the migration completes normally |

## Left out

- HTTP transport, PyGithub and the Port API are not modelled. Each request is an oracle answer. Server-side upsert and merge behaviour is not modelled.
- Response shapes other than the ones documented are not modelled: the lookup takes the identifiers of the search hits and the fields of the fetched entity as given.
- The thread pool in `main` is modelled as a sequential loop; interleavings and the pool size are not modelled.
- `time.sleep`, the request timeout and all logging text are not modelled. Each unmapped-log line is an effect naming the repository and which of the two messages it is.
- config.py is not part of this model: its values are fields of `Api.Config`.
- map_relation_to_team.py is not part of this model. It is only an argument check around the migrator.
- `get_port_team_identifier` is not modelled: it is deprecated and only logs a warning and returns `None`.
- `GetAllOrganizationRepos` treats the lazily paginated result of `get_repos()` as a finished list. An exception raised while it is iterated is the `Raised` listing the loader receives.
- `LoadRepositoriesToProcess` does not model a failure to open or write the state file. It also does not model the encoding or a platform that writes `"\r\n"`.
- `ProcessRepoWrapper` keeps the kind of the exception it logs; the message and traceback are not modelled.
- `MigrateTeamRelations`: the answer of `update_entity` is not an input, because the migrator neither reads it nor lets its exception escape.
- JSON numbers are modelled as integers (`JsonValues.Json.Num`); floating-point values in Port's answers are not modelled.
- Each field of `Processor.Services` and `EntityProcessor.MigrationServices` answers as a function of its argument alone, the same answer on every call. The model cannot express answers that depend on history: the token cached inside `get_port_user_team`, a transient failure for one repository followed by a success for the next, or a duplicate e-mail within one scan answered differently.
- `Processor.FirstTeam`: a truthy team property that is a string gives its first character, as `teams[0]` does; the model does not judge whether such data occurs.

## Findings

| source | as written | input that shows it | evidently intended | confidence | as-written member | corrected member |
|---|---|---|---|---|---|---|
| src/repo_team_mapper/main.py:52-61, 78-80 | a missing state file is created from any listing, an empty one included; `main` then exits with status 1 and does not delete it | no state file, and `get_all_organization_repos` returns `[]` after three failed attempts; the empty file then makes every later run read `[]` and exit without fetching again | write the state file only when there is work, so the next run fetches again | medium, not executed | Driver.RunAfterEmptyListing | Driver.RunCheckedAfterEmptyListing |
