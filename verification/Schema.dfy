/**
 Schema validation of a compiled plan (eventweave/compiler/schema_validator.py): the entity
 references of events and the types of events and entities.
 */
module Schema {
  import opened Events
  import opened Scenarios
  import opened PlannerProps
  import opened Noise
  import opened Compile

  /** What a pack declares about an event type: its entity roles and their types. */
  datatype EventSchema = EventSchema(refs: map<string, string>)

  datatype Issue =
    | UnknownEventType(kind: string)
    | MissingRef(role: string)
    | NoSuchEntity(role: string, id: string)
    | WrongType(role: string, expected: string, got: string)
    | UnknownRole(role: string)
    | UnknownEntityType(kind: string)

  datatype Message = Message(subject: string, issue: Issue)

  /** `{entity.id: entity for entity in plan.entities}`: of entities sharing an id the last one wins. */
  function IdTable(entities: seq<Entity>): (t: map<string, Entity>)
    ensures forall id :: id in t <==> id in EntityIds(entities)
    ensures forall id :: id in t ==> t[id].id == id
  {
    if entities == [] then map[]
    else
      var n := |entities| - 1;
      assert entities == entities[..n] + [entities[n]];
      IdTable(entities[..n])[entities[n].id := entities[n]]
  }

  /** An event's reference for a role, "" when it has none. */
  function RefOf(e: Event, role: string): string { if role in e.refs then e.refs[role] else "" }

  /** The reported issues of an event, each with the exact condition that raises it. */
  predicate EventIssue(schemas: map<string, EventSchema>, e: Event, table: map<string, Entity>, issue: Issue) {
    match issue
    case UnknownEventType(kind) => e.kind !in schemas && kind == e.kind
    case MissingRef(role) => e.kind in schemas && role in schemas[e.kind].refs && RefOf(e, role) == ""
    case NoSuchEntity(role, id) =>
      e.kind in schemas && role in schemas[e.kind].refs && id == RefOf(e, role) && id != "" && id !in table
    case WrongType(role, expected, got) =>
      e.kind in schemas && role in schemas[e.kind].refs && RefOf(e, role) != "" && RefOf(e, role) in table
      && expected == schemas[e.kind].refs[role] && got == table[RefOf(e, role)].kind && got != expected
    case UnknownRole(role) =>
      e.kind in schemas && role in e.refs && role != "flow" && role !in schemas[e.kind].refs
    case UnknownEntityType(_) => false
  }

  predicate EntityIssue(entityTypes: set<string>, e: Entity, issue: Issue) {
    e.kind !in entityTypes && issue == UnknownEntityType(e.kind)
  }

  /** A message is due: some event or entity of the plan has that issue. */
  ghost predicate Due(v: SchemaValidator, events: seq<Event>, entities: seq<Entity>, m: Message) {
    (exists i :: 0 <= i < |events|
                 && m.subject == events[i].id && EventIssue(v.eventSchemas, events[i], IdTable(entities), m.issue))
    || exists i :: 0 <= i < |entities|
                   && m.subject == entities[i].id && EntityIssue(v.entityTypes, entities[i], m.issue)
  }

  class SchemaValidator {
    const eventSchemas: map<string, EventSchema>
    const entityTypes: set<string>
    const strict: bool

    constructor (eventSchemas: map<string, EventSchema>, entityTypes: set<string>, strict: bool)
      ensures this.eventSchemas == eventSchemas && this.entityTypes == entityTypes && this.strict == strict
    {
      this.eventSchemas := eventSchemas;
      this.entityTypes := entityTypes;
      this.strict := strict;
    }

    /** Reports exactly the messages that are due, as errors when strict and as warnings otherwise. */
    method Validate(events: seq<Event>, entities: seq<Entity>) returns (warnings: seq<Message>, errors: seq<Message>)
      ensures if strict then warnings == [] else errors == []
      ensures forall m :: m in warnings + errors <==> Due(this, events, entities, m)
    {
      hide IdTable, EventIssue;
      var table := BuildTable(entities);
      warnings, errors := [], [];
      for i := 0 to |events|
        invariant if strict then warnings == [] else errors == []
        invariant forall m :: m in warnings + errors <==>
          exists j :: 0 <= j < i && m.subject == events[j].id && EventIssue(eventSchemas, events[j], table, m.issue)
      {
        var issues := ValidateEvent(events[i], table);
        warnings, errors := AddIssues(events[i].id, issues, warnings, errors);
      }
      for i := 0 to |entities|
        invariant if strict then warnings == [] else errors == []
        invariant forall m :: m in warnings + errors <==>
          (exists j :: 0 <= j < |events| && m.subject == events[j].id
            && EventIssue(eventSchemas, events[j], table, m.issue))
          || (exists j :: 0 <= j < i && m.subject == entities[j].id && EntityIssue(entityTypes, entities[j], m.issue))
      {
        var issues := if entities[i].kind in entityTypes then [] else [UnknownEntityType(entities[i].kind)];
        warnings, errors := AddIssues(entities[i].id, issues, warnings, errors);
      }
    }

    method AddIssues(subject: string, issues: seq<Issue>, warnings: seq<Message>, errors: seq<Message>)
      returns (warnings': seq<Message>, errors': seq<Message>)
      requires if strict then warnings == [] else errors == []
      ensures if strict then warnings' == [] else errors' == []
      ensures forall m ::
        m in warnings' + errors' <==> m in warnings + errors || (m.subject == subject && m.issue in issues)
    {
      warnings', errors' := warnings, errors;
      for i := 0 to |issues|
        invariant if strict then warnings' == [] else errors' == []
        invariant forall m ::
          m in warnings' + errors' <==> m in warnings + errors || (m.subject == subject && m.issue in issues[..i])
      {
        if strict {
          errors' := errors' + [Message(subject, issues[i])];
        } else {
          warnings' := warnings' + [Message(subject, issues[i])];
        }
      }
    }

    /** Declared roles first, then the event's own roles; the order inside each group is that of the dictionaries. */
    method ValidateEvent(e: Event, table: map<string, Entity>) returns (issues: seq<Issue>)
      ensures forall issue :: issue in issues <==> EventIssue(eventSchemas, e, table, issue)
    {
      if e.kind !in eventSchemas {
        return [UnknownEventType(e.kind)];
      }
      var schema := eventSchemas[e.kind];
      var declared := CheckDeclared(schema, e, table);
      var unknown := CheckUnknown(schema, e);
      issues := declared + unknown;
    }

    method CheckDeclared(schema: EventSchema, e: Event, table: map<string, Entity>) returns (issues: seq<Issue>)
      requires e.kind in eventSchemas && schema == eventSchemas[e.kind]
      ensures forall issue :: issue in issues <==> !issue.UnknownRole? && EventIssue(eventSchemas, e, table, issue)
    {
      issues := [];
      var roles := schema.refs.Keys;
      while roles != {}
        invariant roles <= schema.refs.Keys
        invariant forall issue :: issue in issues <==>
          !issue.UnknownRole? && EventIssue(eventSchemas, e, table, issue) && issue.role !in roles
        decreases |roles|
      {
        var role :| role in roles;
        var id := RefOf(e, role);
        if id == "" {
          issues := issues + [MissingRef(role)];
        } else if id !in table {
          issues := issues + [NoSuchEntity(role, id)];
        } else if table[id].kind != schema.refs[role] {
          issues := issues + [WrongType(role, schema.refs[role], table[id].kind)];
        }
        roles := roles - {role};
      }
    }

    method CheckUnknown(schema: EventSchema, e: Event) returns (issues: seq<Issue>)
      requires e.kind in eventSchemas && schema == eventSchemas[e.kind]
      ensures forall issue :: issue in issues <==>
        issue.UnknownRole? && issue.role in e.refs && issue.role != "flow" && issue.role !in schema.refs
    {
      issues := [];
      var roles := e.refs.Keys;
      while roles != {}
        invariant roles <= e.refs.Keys
        invariant forall issue :: issue in issues <==>
          issue.UnknownRole? && issue.role in e.refs && issue.role !in roles && issue.role != "flow"
          && issue.role !in schema.refs
        decreases |roles|
      {
        var role :| role in roles;
        if role != "flow" && role !in schema.refs {
          issues := issues + [UnknownRole(role)];
        }
        roles := roles - {role};
      }
    }

    method BuildTable(entities: seq<Entity>) returns (table: map<string, Entity>)
      ensures table == IdTable(entities)
    {
      table := map[];
      for i := 0 to |entities|
        invariant table == IdTable(entities[..i])
      {
        assert entities[..i + 1][..i] == entities[..i];
        table := table[entities[i].id := entities[i]];
      }
      assert entities[..|entities|] == entities;
    }
  }

  /** An event as its pack declares it: each declared role names an entity of the declared type. */
  ghost predicate WellFormed(schemas: map<string, EventSchema>, e: Event, entities: seq<Entity>) {
    e.kind in schemas
    && (forall role :: role in schemas[e.kind].refs ==>
          role in e.refs && e.refs[role] != "" && NamesA(entities, e.refs[role], schemas[e.kind].refs[role]))
    && forall role :: role in e.refs ==> role == "flow" || role in schemas[e.kind].refs
  }

  /** The last entity of this id has this type. */
  ghost predicate NamesA(entities: seq<Entity>, id: string, kind: string) {
    exists i :: LastAt(entities, id, kind, i)
  }

  predicate LastAt(entities: seq<Entity>, id: string, kind: string, i: int) {
    0 <= i < |entities| && entities[i] == Entity(id, kind)
    && forall j :: i < j < |entities| ==> entities[j].id != id
  }

  lemma {:induction false} TableNames(entities: seq<Entity>, id: string, kind: string)
    ensures id in IdTable(entities) && IdTable(entities)[id].kind == kind <==> NamesA(entities, id, kind)
  {
    hide LastAt;
    if entities == [] {
      NotEmpty(entities, id, kind);
    } else {
      var n := |entities| - 1;
      TableNames(entities[..n], id, kind);
      LastOf(entities, id, kind);
    }
  }

  lemma {:induction false} NotEmpty(entities: seq<Entity>, id: string, kind: string)
    requires entities == []
    ensures !NamesA(entities, id, kind)
  {
  }

  lemma {:induction false} LastOf(entities: seq<Entity>, id: string, kind: string)
    requires entities != []
    ensures var last := entities[|entities| - 1];
      NamesA(entities, id, kind)
      <==> if last.id == id then last.kind == kind else NamesA(entities[..|entities| - 1], id, kind)
  {
    var n := |entities| - 1;
    if entities[n].id == id {
      assert entities[n].kind == kind ==> LastAt(entities, id, kind, n);
    } else {
      forall i ensures LastAt(entities, id, kind, i) <==> LastAt(entities[..n], id, kind, i) {
      }
    }
  }

  /** Silence means a plan in order: every event well formed, every entity of a declared type. */
  lemma {:induction false} SilentIff(v: SchemaValidator, events: seq<Event>, entities: seq<Entity>)
    ensures (forall m :: !Due(v, events, entities, m))
      <==> (forall i :: 0 <= i < |events| ==> WellFormed(v.eventSchemas, events[i], entities))
           && forall i :: 0 <= i < |entities| ==> entities[i].kind in v.entityTypes
  {
    hide IdTable, NamesA;
    forall i | 0 <= i < |events|
      ensures WellFormed(v.eventSchemas, events[i], entities) || exists m :: Due(v, events, entities, m)
    {
      if !WellFormed(v.eventSchemas, events[i], entities) {
        var issue := Fault(v.eventSchemas, events[i], entities);
        assert Due(v, events, entities, Message(events[i].id, issue));
      }
    }
    forall i | 0 <= i < |entities|
      ensures entities[i].kind in v.entityTypes || exists m :: Due(v, events, entities, m)
    {
      if entities[i].kind !in v.entityTypes {
        assert Due(v, events, entities, Message(entities[i].id, UnknownEntityType(entities[i].kind)));
      }
    }
    forall m: Message, i | 0 <= i < |events| && EventIssue(v.eventSchemas, events[i], IdTable(entities), m.issue)
      ensures !WellFormed(v.eventSchemas, events[i], entities)
    {
      NoFault(v.eventSchemas, events[i], entities, m.issue);
    }
  }

  /** A malformed event has an issue. */
  lemma {:induction false} Fault(schemas: map<string, EventSchema>, e: Event, entities: seq<Entity>)
    returns (issue: Issue)
    requires !WellFormed(schemas, e, entities)
    ensures EventIssue(schemas, e, IdTable(entities), issue)
  {
    hide IdTable, NamesA;
    if e.kind !in schemas {
      issue := UnknownEventType(e.kind);
    } else if role :| role in e.refs && role != "flow" && role !in schemas[e.kind].refs {
      issue := UnknownRole(role);
    } else {
      var role, kinds := "", schemas[e.kind].refs;
      role :| role in kinds
        && !(role in e.refs && e.refs[role] != "" && NamesA(entities, e.refs[role], kinds[role]));
      var id := RefOf(e, role);
      TableNames(entities, id, kinds[role]);
      issue := if id == "" then MissingRef(role)
               else if id !in IdTable(entities) then NoSuchEntity(role, id)
               else WrongType(role, kinds[role], IdTable(entities)[id].kind);
    }
  }

  /** And a well-formed one has none. */
  lemma {:induction false} NoFault(schemas: map<string, EventSchema>, e: Event, entities: seq<Entity>, issue: Issue)
    requires EventIssue(schemas, e, IdTable(entities), issue)
    ensures !WellFormed(schemas, e, entities)
  {
    hide IdTable, NamesA;
    if WellFormed(schemas, e, entities) && (issue.NoSuchEntity? || issue.WrongType?) {
      TableNames(entities, RefOf(e, issue.role), schemas[e.kind].refs[issue.role]);
    }
  }

  /** The scenario spells out no entity ids: every reference is `$flow`, `$entity`, `$new` or `$ref`. */
  predicate NoLiterals(scn: Scenario) { Literals(scn) == {} && NoiseLiterals(scn) == {} }

  /**
   Referential integrity from planner to validator: "does not exist" is reported only for an id
   the scenario itself spells out, so never when all references are symbolic.
   */
  lemma {:induction false} NeverDangling(v: SchemaValidator, scn: Scenario, start: int, rngs: Streams, n: nat)
    ensures var plan, entities := Plan(scn, start, rngs, n), PlanEntities(scn, start, rngs, n);
      forall m :: Due(v, plan, entities, m) && m.issue.NoSuchEntity? ==>
        m.issue.id in Literals(scn) + NoiseLiterals(scn) && m.issue.id !in EntityIds(entities) && !NoLiterals(scn)
  {
    hide Plan, PlanEntities, Literals, NoiseLiterals;
    var plan, entities := Plan(scn, start, rngs, n), PlanEntities(scn, start, rngs, n);
    PlanReferences(scn, start, rngs, n);
    forall m | Due(v, plan, entities, m) && m.issue.NoSuchEntity?
      ensures m.issue.id in Literals(scn) + NoiseLiterals(scn) && m.issue.id !in EntityIds(entities) && !NoLiterals(scn)
    {
      var i :| 0 <= i < |plan| && m.subject == plan[i].id
        && EventIssue(v.eventSchemas, plan[i], IdTable(entities), m.issue);
      assert plan[i] in plan && RefOk(plan[i].refs[m.issue.role], entities, Literals(scn) + NoiseLiterals(scn));
    }
  }
}
