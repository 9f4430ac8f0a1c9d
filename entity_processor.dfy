/** The relation-to-property migration (`EntityTeamMigrator.migrate_team_relations`
    in entity_processor.py): every entity of a blueprint whose team relation
    is set gets that relation copied into the team property.

    The client calls are oracles in `MigrationServices`. The answer of
    `update_entity` is never looked at by the migrator (a `False` is ignored
    and an exception is caught by the per-entity `except`), so the model only
    records that the update was issued. */
module EntityProcessor {
  import opened Outcomes
  import opened JsonValues
  import opened Api

  datatype MigrationServices = MigrationServices(
    /** How `get_all_entities_for_blueprint` completes. */
    listEntities: Outcome<seq<map<string, Json>>>,
    /** How `get_entity` completes for an entity identifier. */
    getEntity: Json -> Outcome<Option<map<string, Json>>>)

  datatype MigrationEffect =
    | EntityRequested(identifier: Json)
    | UpdateRequested(identifier: Json, payload: Json)

  /** `if not full_entity:` fails on `None` and on an empty object. */
  predicate FetchedSomething(full: Option<map<string, Json>>)
  {
    full.Some? && full.value != map[]
  }

  /** `full_entity.get("relations", {}).get(relation)`: a `relations` value
      that is not an object has no `get` and raises `AttributeError`. */
  function TeamRelation(entity: map<string, Json>, relation: string): (r: Outcome<Option<Json>>)
    ensures r.Raised? <==> "relations" in entity && !entity["relations"].Object?
    ensures "relations" !in entity ==> r == Returned(None)
    ensures r.Returned? && r.value.Some? ==>
      "relations" in entity && relation in entity["relations"].fields
      && r.value.value == entity["relations"].fields[relation]
    ensures "relations" in entity && entity["relations"].Object? && relation in entity["relations"].fields ==>
      r == Returned(Some(entity["relations"].fields[relation]))
    ensures "relations" in entity && entity["relations"].Object? && relation !in entity["relations"].fields ==>
      r == Returned(None)
  {
    match Get(entity, "relations", Object(map[]))
    case Object(fields) => Returned(if relation in fields then Some(fields[relation]) else None)
    case _ => Raised(OtherError)
  }

  /** The team identifiers are the relation itself when it is a list and a
      one-element list holding it otherwise. */
  function TeamIdentifiers(data: Json): (r: Json)
    ensures r.List?
    ensures data.List? ==> r == data
    ensures !data.List? ==> r.items == [data]
  {
    if data.List? then data else List([data])
  }

  /** `{"properties": {property: team_identifiers}}`. */
  function MigrationPayload(property: string, identifiers: Json): (payload: Json)
    ensures payload.Object? && payload.fields.Keys == {"properties"}
    ensures payload.fields["properties"] == Object(map[property := identifiers])
  {
    Object(map["properties" := Object(map[property := identifiers])])
  }

  /** What one iteration of the loop does, and the exception that escapes it. */
  datatype Step = Step(effects: seq<MigrationEffect>, escaped: Option<ErrorKind>)

  /** One iteration of `for entity in entities`. Reading a missing
      `"identifier"` and a raising `get_entity` sit outside the `try` and end
      the migration; everything inside it is caught. */
  function MigrateOne(entity: map<string, Json>, config: Config, svc: MigrationServices): Step
  {
    if "identifier" !in entity then Step([], Some(OtherError))
    else
      var id := entity["identifier"];
      var asked := [EntityRequested(id)];
      match svc.getEntity(id)
      case Raised(kind) => Step(asked, Some(kind))
      case Returned(full) =>
        if !FetchedSomething(full) then Step(asked, None)
        else
          match TeamRelation(full.value, config.repoTeamRelation)
          case Raised(_) => Step(asked, None)
          case Returned(data) =>
            if data.None? || !Truthy(data.value) then Step(asked, None)
            else
              var payload := MigrationPayload(config.userTeamProperty, TeamIdentifiers(data.value));
              Step(asked + [UpdateRequested(id, payload)], None)
  }

  /** What one iteration does to each entity, against the given configuration
      and services. */
  function Migrator(config: Config, svc: MigrationServices): map<string, Json> -> Step
  {
    entity => MigrateOne(entity, config, svc)
  }

  datatype Migration = Migration(effects: seq<MigrationEffect>, outcome: Outcome<()>)

  /** The loop over `entities`, for any iteration body `run`: entities are
      taken in list order and the first exception that escapes an iteration
      ends the loop. */
  function MigrateAll(entities: seq<map<string, Json>>, run: map<string, Json> -> Step): Migration
  {
    if entities == [] then Migration([], Returned(()))
    else
      var step := run(entities[0]);
      if step.escaped.Some? then Migration(step.effects, Raised(step.escaped.value))
      else
        var rest := MigrateAll(entities[1..], run);
        Migration(step.effects + rest.effects, rest.outcome)
  }

  /** The whole migration for one blueprint. */
  function Migrate(config: Config, svc: MigrationServices): Migration
  {
    match svc.listEntities
    case Raised(kind) => Migration([], Raised(kind))
    case Returned(entities) =>
      if entities == [] then Migration([], Returned(())) else MigrateAll(entities, Migrator(config, svc))
  }

  /** The effects of every iteration, in order, when none of them ends the loop. */
  function Steps(entities: seq<map<string, Json>>, run: map<string, Json> -> Step): seq<MigrationEffect>
  {
    if entities == [] then [] else run(entities[0]).effects + Steps(entities[1..], run)
  }

  /** The loop seen from position `k`: the entity there either ends it or
      hands over to the rest of the list. */
  lemma MigrateAllAt(entities: seq<map<string, Json>>, run: map<string, Json> -> Step, k: nat)
    requires k < |entities|
    ensures var step := run(entities[k]);
      step.escaped.Some? ==> MigrateAll(entities[k..], run) == Migration(step.effects, Raised(step.escaped.value))
    ensures var step, rest := run(entities[k]), MigrateAll(entities[k + 1..], run);
      step.escaped.None? ==> MigrateAll(entities[k..], run) == Migration(step.effects + rest.effects, rest.outcome)
  {
    assert entities[k..][0] == entities[k] && entities[k..][1..] == entities[k + 1..];
  }

  /** When no iteration ends the loop, it completes normally with every
      iteration's effects in list order. */
  lemma {:induction false} MigrateAllCompletes(entities: seq<map<string, Json>>, run: map<string, Json> -> Step)
    requires forall j :: 0 <= j < |entities| ==> run(entities[j]).escaped.None?
    ensures MigrateAll(entities, run) == Migration(Steps(entities, run), Returned(()))
  {
    if entities != [] {
      MigrateAllCompletes(entities[1..], run);
    }
  }

  /** An iteration that does not end the loop moves the loop's remaining
      work one entity further. */
  lemma MigrateAllContinue(
    entities: seq<map<string, Json>>, run: map<string, Json> -> Step, k: nat, before: seq<MigrationEffect>)
    requires k < |entities| && run(entities[k]).escaped.None?
    requires MigrateAll(entities, run) ==
      Migration(before + MigrateAll(entities[k..], run).effects, MigrateAll(entities[k..], run).outcome)
    ensures MigrateAll(entities, run) ==
      Migration((before + run(entities[k]).effects) + MigrateAll(entities[k + 1..], run).effects,
                MigrateAll(entities[k + 1..], run).outcome)
  {
    MigrateAllAt(entities, run, k);
    var step, rest := run(entities[k]), MigrateAll(entities[k + 1..], run);
    assert before + (step.effects + rest.effects) == (before + step.effects) + rest.effects;
  }

  /** An iteration that raises ends the loop with its exception. */
  lemma MigrateAllStop(
    entities: seq<map<string, Json>>, run: map<string, Json> -> Step, k: nat, before: seq<MigrationEffect>)
    requires k < |entities| && run(entities[k]).escaped.Some?
    requires MigrateAll(entities, run) ==
      Migration(before + MigrateAll(entities[k..], run).effects, MigrateAll(entities[k..], run).outcome)
    ensures MigrateAll(entities, run) ==
      Migration(before + run(entities[k]).effects, Raised(run(entities[k]).escaped.value))
  {
    MigrateAllAt(entities, run, k);
  }

  /** `migrate_team_relations`. */
  method MigrateTeamRelations(config: Config, svc: MigrationServices)
    returns (effects: seq<MigrationEffect>, outcome: Outcome<()>)
    ensures Migration(effects, outcome) == Migrate(config, svc)
  {
    effects := [];
    if svc.listEntities.Raised? {
      outcome := Raised(svc.listEntities.kind);
      return;
    }
    var entities := svc.listEntities.value;
    if entities == [] {
      outcome := Returned(());
      return;
    }
    ghost var run := Migrator(config, svc);
    assert entities[0..] == entities;
    for i := 0 to |entities|
      invariant MigrateAll(entities, run) ==
        Migration(effects + MigrateAll(entities[i..], run).effects, MigrateAll(entities[i..], run).outcome)
    {
      var entity := entities[i];
      ghost var before := effects;
      if "identifier" !in entity {
        assert run(entity) == Step([], Some(OtherError));
        MigrateAllStop(entities, run, i, before);
        assert effects + [] == effects;
        outcome := Raised(OtherError);
        return;
      }
      var id := entity["identifier"];
      effects := effects + [EntityRequested(id)];
      var full := svc.getEntity(id);
      if full.Raised? {
        assert run(entity) == Step([EntityRequested(id)], Some(full.kind));
        MigrateAllStop(entities, run, i, before);
        outcome := Raised(full.kind);
        return;
      }
      if !FetchedSomething(full.value) {
        assert run(entity) == Step([EntityRequested(id)], None);
        MigrateAllContinue(entities, run, i, before);
        assert effects == before + run(entity).effects;
        continue;
      }
      var data := TeamRelation(full.value.value, config.repoTeamRelation);
      if data.Raised? {
        assert run(entity) == Step([EntityRequested(id)], None);
        MigrateAllContinue(entities, run, i, before);
        assert effects == before + run(entity).effects;
        continue;
      }
      if data.value.None? || !Truthy(data.value.value) {
        assert run(entity) == Step([EntityRequested(id)], None);
        MigrateAllContinue(entities, run, i, before);
        assert effects == before + run(entity).effects;
        continue;
      }
      var identifiers := TeamIdentifiers(data.value.value);
      var payload := MigrationPayload(config.userTeamProperty, identifiers);
      effects := effects + [UpdateRequested(id, payload)];
      assert run(entity) == Step([EntityRequested(id), UpdateRequested(id, payload)], None);
      MigrateAllContinue(entities, run, i, before);
      assert effects == before + run(entity).effects;
    }
    assert entities[|entities|..] == [];
    outcome := Returned(());
  }

  /** With no entities, or a failed listing, nothing is fetched or updated. */
  lemma NoEntitiesNoCalls(config: Config, svc: MigrationServices)
    requires svc.listEntities == Returned([]) || svc.listEntities.Raised?
    ensures Migrate(config, svc).effects == []
    ensures svc.listEntities.Returned? ==> Migrate(config, svc).outcome == Returned(())
  {
  }

  /** One entity: a fetch, then an update exactly when the full entity is
      non-empty and its team relation is set and truthy; the update carries the
      relation normalised to a list under the team property. */
  lemma OneEntityShape(entity: map<string, Json>, config: Config, svc: MigrationServices)
    requires "identifier" in entity
    ensures var step := MigrateOne(entity, config, svc);
      var id := entity["identifier"];
      var full := svc.getEntity(id);
      && 1 <= |step.effects| <= 2
      && step.effects[0] == EntityRequested(id)
      && (|step.effects| == 2 <==>
            && full.Returned? && FetchedSomething(full.value)
            && TeamRelation(full.value.value, config.repoTeamRelation).Returned?
            && TeamRelation(full.value.value, config.repoTeamRelation).value.Some?
            && Truthy(TeamRelation(full.value.value, config.repoTeamRelation).value.value))
      && (|step.effects| == 2 ==>
            step.effects[1] == UpdateRequested(id, MigrationPayload(config.userTeamProperty,
              TeamIdentifiers(TeamRelation(full.value.value, config.repoTeamRelation).value.value))))
      && (step.escaped.Some? <==> full.Raised?)
  {
  }

  /** A skipped entity (failed or empty fetch, missing, falsy or unreadable
      relation) is fetched and not updated. */
  lemma SkippedEntityNotUpdated(entity: map<string, Json>, config: Config, svc: MigrationServices)
    requires "identifier" in entity
    requires svc.getEntity(entity["identifier"]).Returned?
    requires var full := svc.getEntity(entity["identifier"]).value;
      !FetchedSomething(full) ||
      TeamRelation(full.value, config.repoTeamRelation).Raised? ||
      TeamRelation(full.value, config.repoTeamRelation).value.None? ||
      !Truthy(TeamRelation(full.value, config.repoTeamRelation).value.value)
    ensures MigrateOne(entity, config, svc) == Step([EntityRequested(entity["identifier"])], None)
  {
  }

  function UpdateCount(effects: seq<MigrationEffect>): nat
  {
    if effects == [] then 0 else (if effects[0].UpdateRequested? then 1 else 0) + UpdateCount(effects[1..])
  }

  lemma {:induction false} UpdateCountAppend(a: seq<MigrationEffect>, b: seq<MigrationEffect>)
    ensures UpdateCount(a + b) == UpdateCount(a) + UpdateCount(b)
  {
    if a == [] {
      assert a + b == b;
    } else {
      assert (a + b)[1..] == a[1..] + b;
      UpdateCountAppend(a[1..], b);
    }
  }

  lemma OneEntityAtMostOneUpdate(entity: map<string, Json>, config: Config, svc: MigrationServices)
    ensures UpdateCount(MigrateOne(entity, config, svc).effects) <= 1
  {
    var effects := MigrateOne(entity, config, svc).effects;
    if "identifier" in entity {
      OneEntityShape(entity, config, svc);
      assert !effects[0].UpdateRequested?;
      if |effects| == 2 {
        assert effects[1..][1..] == [];
        assert UpdateCount(effects[1..]) <= 1;
      } else {
        assert effects[1..] == [];
      }
    }
  }

  /** At most one update is issued per listed entity. */
  lemma AtMostOneUpdateEach(config: Config, svc: MigrationServices)
    ensures svc.listEntities.Returned? ==> UpdateCount(Migrate(config, svc).effects) <= |svc.listEntities.value|
    ensures svc.listEntities.Raised? ==> UpdateCount(Migrate(config, svc).effects) == 0
  {
    if svc.listEntities.Returned? {
      var entities := svc.listEntities.value;
      forall j | 0 <= j < |entities|
        ensures UpdateCount(Migrator(config, svc)(entities[j]).effects) <= 1
      {
        OneEntityAtMostOneUpdate(entities[j], config, svc);
      }
      UpdatesBounded(entities, Migrator(config, svc));
    }
  }

  /** A loop whose iterations each issue at most one update issues at most
      one per entity. */
  lemma {:induction false} UpdatesBounded(entities: seq<map<string, Json>>, run: map<string, Json> -> Step)
    requires forall j :: 0 <= j < |entities| ==> UpdateCount(run(entities[j]).effects) <= 1
    ensures UpdateCount(MigrateAll(entities, run).effects) <= |entities|
  {
    if entities != [] {
      var step := run(entities[0]);
      if step.escaped.None? {
        UpdatesBounded(entities[1..], run);
        UpdateCountAppend(step.effects, MigrateAll(entities[1..], run).effects);
      }
    }
  }

  /** Failures inside the per-entity `try` do not stop the migration: when
      every entity has an identifier and every fetch completes, every entity is
      processed, in listed order, and the migration completes normally. */
  lemma CaughtFailuresDoNotStop(entities: seq<map<string, Json>>, config: Config, svc: MigrationServices)
    requires svc.listEntities == Returned(entities)
    requires forall j :: 0 <= j < |entities| ==>
      "identifier" in entities[j] && svc.getEntity(entities[j]["identifier"]).Returned?
    ensures Migrate(config, svc) == Migration(Steps(entities, Migrator(config, svc)), Returned(()))
  {
    var run := Migrator(config, svc);
    forall j | 0 <= j < |entities|
      ensures run(entities[j]).escaped.None?
    {
      OneEntityShape(entities[j], config, svc);
    }
    MigrateAllCompletes(entities, run);
  }

  /** Normalising an already normalised relation changes nothing. */
  lemma TeamIdentifiersIdempotent(data: Json)
    ensures TeamIdentifiers(TeamIdentifiers(data)) == TeamIdentifiers(data)
    ensures data in TeamIdentifiers(data).items || data.List?
  {
  }
}
