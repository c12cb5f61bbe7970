/** Nodes, facts and relationships of the temporal knowledge graph, as the in-memory store keeps them. */
module GraphModel {
  import opened Common

  type Id = nat  // UUIDs under the total order localeCompare gives them
  type Tenant = nat
  type Time = int  // milliseconds

  /** A nullable ISO date string as `Date.parse` reads it. */
  datatype Stamp = Absent | Unparseable | At(ms: Time)

  /** `Date.getTime()`: a number of milliseconds, or NaN for text that is no date. */
  datatype Moment = NotANumber | Millis(ms: Time)

  function MomentOf(stamp: Stamp, absent: Time): Moment {
    match stamp
    case Absent => Millis(absent)
    case Unparseable => NotANumber
    case At(ms) => Millis(ms)
  }

  predicate IsAfter(a: Moment, b: Moment) {
    a.Millis? && b.Millis? && a.ms > b.ms
  }

  predicate IsSame(a: Moment, b: Moment) {
    a.Millis? && b.Millis? && a.ms == b.ms
  }

  datatype Status =
    | Current | Historical | Superseded | Contradicted | Invalidated | Uncertain | Draft | Stale

  datatype NodeType = FactNode | SourceNode | EntityNode(kind: string)

  datatype RelType =
    | ProjectHasDocument
    | FactSupportedBySource
    | FactSupersedesFact
    | FactContradictsFact
    | EntityAliasOf
    | EntityMergedInto
    | OtherRelType(kind: string)

  /** The JSON value of a fact; `rendering` is what JSON.stringify or String makes of a non-string. */
  datatype Value = Text(text: string) | Json(rendering: string) {
    function Rendered(): string {
      if Text? then text else rendering
    }
  }

  /** `details` stands for the remaining columns, which no operation here reads or changes. */
  datatype Node = Node(
    id: Id, tenant: Tenant, typ: NodeType, name: string, aliases: seq<string>, status: Status,
    createdAt: Stamp, updatedAt: Time, lastSeenAt: Time, sourceId: Id, details: string)

  datatype Fact = Fact(
    id: Id, tenant: Tenant, entity: Id, attribute: string, value: Value, status: Status,
    validFrom: Stamp, validTo: Stamp, recordedFrom: Stamp, recordedTo: Stamp,
    source: Id, lastSeenAt: Time, details: string)

  /** Relationship ids: the two synthetic families the store derives from facts, and all others. */
  datatype RelId = Plain(id: Id) | FactEdge(entity: Id, fact: Id) | SourceEdge(fact: Id, source: Id)

  datatype Rel = Rel(
    tenant: Tenant, typ: RelType, src: Id, dst: Id, confidence: real, status: Status,
    validFrom: Stamp, validTo: Stamp, recordedFrom: Stamp, recordedTo: Stamp, details: string)

  datatype Graph = Graph(nodes: map<Id, Node>, rels: map<RelId, Rel>, facts: map<Id, Fact>) {
    /** Rows are stored under their own ids, and synthetic edges carry their endpoints in their id. */
    ghost predicate Keyed() {
      && (forall n :: n in nodes ==> nodes[n].id == n)
      && (forall f :: f in facts ==> facts[f].id == f)
      && (forall e, f :: FactEdge(e, f) in rels ==> rels[FactEdge(e, f)].src == e && rels[FactEdge(e, f)].dst == f)
      && (forall f, s :: SourceEdge(f, s) in rels ==>
          rels[SourceEdge(f, s)].src == f && rels[SourceEdge(f, s)].dst == s)
    }
  }

  /** The HAS_FACT edge the store synthesizes for a fact that belongs to `entity`. */
  function FactRel(f: Fact, entity: Id): Rel {
    Rel(f.tenant, ProjectHasDocument, entity, f.id, 1.0, f.status,
        f.validFrom, f.validTo, f.recordedFrom, f.recordedTo, "system")
  }

  function SourceRel(f: Fact): Rel {
    Rel(f.tenant, FactSupportedBySource, f.id, f.source, 1.0, f.status,
        f.validFrom, f.validTo, f.recordedFrom, f.recordedTo, "system")
  }

  function PlainIds(rels: map<RelId, Rel>): set<Id> {
    set r | r in rels && r.Plain? :: r.id
  }
}
