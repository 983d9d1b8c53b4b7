/** The in-memory session graph of the category-D benchmark and its one-hop traversal. */
module GraphStore {

  const PRECEDED_BY := "PRECEDED_BY"

  datatype Entity = Entity(id: string, name: string, project: string)

  datatype Edge = Edge(id: string, source: string, target: string, relationship: string)

  datatype EntityDef = EntityDef(sessionId: string, project: string)

  datatype EdgeDef = EdgeDef(source: string, target: string, relationship: string)

  /** A dict keyed by edge id: an update keeps the old position. */
  function Upsert(edges: seq<Edge>, e: Edge): seq<Edge> {
    if edges == [] then [e]
    else if edges[0].id == e.id then [e] + edges[1..]
    else [edges[0]] + Upsert(edges[1..], e)
  }

  ghost predicate IdsDiffer(edges: seq<Edge>) {
    forall i, j | 0 <= i < j < |edges| :: edges[i].id != edges[j].id
  }

  lemma {:induction false} UpsertMembers(edges: seq<Edge>, e: Edge)
    requires IdsDiffer(edges)
    ensures IdsDiffer(Upsert(edges, e))
    ensures forall x :: x in Upsert(edges, e) <==> x == e || (x in edges && x.id != e.id)
  {
    if edges != [] {
      assert edges == [edges[0]] + edges[1..];
      if edges[0].id != e.id {
        UpsertMembers(edges[1..], e);
        var rest := Upsert(edges[1..], e);
        forall j | 0 <= j < |rest| ensures rest[j].id != edges[0].id {
          assert rest[j] in rest;
        }
      }
    }
  }

  /** The first edge with this id. */
  ghost predicate FirstAt(edges: seq<Edge>, id: string, i: nat) {
    i < |edges| && edges[i].id == id && forall j | 0 <= j < i :: edges[j].id != id
  }

  /** An edge whose id is there takes the place of the one that has it. */
  lemma {:induction false} UpsertInPlace(edges: seq<Edge>, e: Edge, i: nat)
    requires FirstAt(edges, e.id, i)
    ensures Upsert(edges, e) == edges[i := e]
  {
    if i > 0 {
      UpsertInPlace(edges[1..], e, i - 1);
      assert edges[i := e] == [edges[0]] + edges[1..][i - 1 := e];
    }
  }

  /** Any other goes last. */
  lemma {:induction false} UpsertAtEnd(edges: seq<Edge>, e: Edge)
    requires forall i | 0 <= i < |edges| :: edges[i].id != e.id
    ensures Upsert(edges, e) == edges + [e]
  {
    if edges != [] {
      UpsertAtEnd(edges[1..], e);
    }
  }

  predicate Touches(e: Edge, id: string) {
    e.source == id || e.target == id
  }

  function OtherEnd(e: Edge, id: string): string {
    if e.source == id then e.target else e.source
  }

  class InMemoryGraphStore {
    var entities: map<string, Entity>
    var edges: seq<Edge>

    ghost predicate Valid()
      reads this
    {
      IdsDiffer(edges) && forall id | id in entities :: entities[id].id == id
    }

    constructor ()
      ensures Valid() && entities == map[] && edges == []
    {
      entities, edges := map[], [];
    }

    method UpsertEntity(e: Entity)
      requires Valid()
      modifies this`entities
      ensures Valid() && entities == old(entities)[e.id := e]
    {
      entities := entities[e.id := e];
    }

    method UpsertEdge(e: Edge)
      requires Valid()
      modifies this`edges
      ensures Valid() && edges == Upsert(old(edges), e)
      ensures forall x :: x in edges <==> x == e || (x in old(edges) && x.id != e.id)
    {
      UpsertMembers(edges, e);
      edges := Upsert(edges, e);
    }

    /** All edges at an entity, either end, optionally of some relationships only. */
    method GetEdges(id: string, relationships: set<string>) returns (result: seq<Edge>)
      ensures forall e :: e in result <==> e in edges && Touches(e, id) && e.relationship in relationships
    {
      result := [];
      for i := 0 to |edges|
        invariant forall e :: e in result <==> e in edges[..i] && Touches(e, id) && e.relationship in relationships
      {
        assert edges[..i + 1] == edges[..i] + [edges[i]];
        if (edges[i].source == id || edges[i].target == id) && edges[i].relationship in relationships {
          result := result + [edges[i]];
        }
      }
      assert edges[..|edges|] == edges;
    }

    /** The known entities one PRECEDED_BY edge away, in either direction. */
    ghost function Linked(id: string): set<string>
      reads this
    {
      if id !in entities then {} else
      set e | e in edges && Touches(e, id) && e.relationship == PRECEDED_BY
              && OtherEnd(e, id) != id && OtherEnd(e, id) in entities :: OtherEnd(e, id)
    }

    /** `traverse(id, store, depth=1, relationship_filter=["PRECEDED_BY"])`: each linked entity once. */
    method Traverse(id: string) returns (connected: seq<Entity>)
      requires Valid()
      ensures forall i | 0 <= i < |connected| :: connected[i].id in Linked(id)
      ensures forall n | n in Linked(id) :: exists i :: 0 <= i < |connected| && connected[i].id == n
      ensures forall i, j | 0 <= i < j < |connected| :: connected[i].id != connected[j].id
    {
      connected := [];
      if id !in entities {
        return;
      }
      var visited := {id};
      var around := GetEdges(id, {PRECEDED_BY});
      for k := 0 to |around|
        invariant id in visited
        invariant forall i | 0 <= i < |connected| :: connected[i].id in Linked(id) && connected[i].id in visited
        invariant forall n | n in visited && n != id :: exists i :: 0 <= i < |connected| && connected[i].id == n
        invariant forall i, j | 0 <= i < j < |connected| :: connected[i].id != connected[j].id
        invariant forall i | 0 <= i < k ::
                    OtherEnd(around[i], id) in entities ==> OtherEnd(around[i], id) in visited
      {
        assert around[k] in around;
        var neighbor := if around[k].source == id then around[k].target else around[k].source;
        if neighbor !in visited && neighbor in entities {
          ghost var before := connected;
          connected := connected + [entities[neighbor]];
          visited := visited + {neighbor};
          assert connected[|before|].id == neighbor;
          forall n | n in visited && n != id ensures exists i :: 0 <= i < |connected| && connected[i].id == n {
            if n != neighbor {
              var i :| 0 <= i < |before| && before[i].id == n;
              assert connected[i].id == n;
            }
          }
        }
      }
      forall n | n in Linked(id) ensures exists i :: 0 <= i < |connected| && connected[i].id == n {
        var e :| e in edges && Touches(e, id) && e.relationship == PRECEDED_BY && OtherEnd(e, id) == n;
        assert e in around;
      }
    }
  }

  /** `_build_graph`: with edges off the store has the sessions and nothing that links them. */
  method BuildGraph(entityDefs: seq<EntityDef>, edgeDefs: seq<EdgeDef>, includeEdges: bool)
    returns (store: InMemoryGraphStore)
    ensures fresh(store) && store.Valid()
    ensures store.entities.Keys == set d | d in entityDefs :: d.sessionId
    ensures !includeEdges ==> store.edges == []
    ensures forall e | e in store.edges ::
              && e.relationship == PRECEDED_BY && EdgeDef(e.source, e.target, PRECEDED_BY) in edgeDefs
              && e.id == e.source + "-" + e.target + "-PRECEDED_BY"
    ensures includeEdges ==> forall d | d in edgeDefs && d.relationship == PRECEDED_BY ::
              exists e :: e in store.edges && e.id == d.source + "-" + d.target + "-PRECEDED_BY"
  {
    store := new InMemoryGraphStore();
    for i := 0 to |entityDefs|
      invariant fresh(store) && store.Valid() && store.edges == []
      invariant store.entities.Keys == set d | d in entityDefs[..i] :: d.sessionId
    {
      assert entityDefs[..i + 1] == entityDefs[..i] + [entityDefs[i]];
      var d := entityDefs[i];
      store.UpsertEntity(Entity(d.sessionId, d.sessionId, d.project));
    }
    assert entityDefs[..|entityDefs|] == entityDefs;
    if includeEdges {
      for i := 0 to |edgeDefs|
        invariant fresh(store) && store.Valid()
        invariant store.entities.Keys == set d | d in entityDefs :: d.sessionId
        invariant forall e | e in store.edges ::
                    && e.relationship == PRECEDED_BY && EdgeDef(e.source, e.target, PRECEDED_BY) in edgeDefs
                    && e.id == EdgeId(EdgeDef(e.source, e.target, PRECEDED_BY))
        invariant forall k | 0 <= k < i && edgeDefs[k].relationship == PRECEDED_BY ::
                    exists e :: e in store.edges && e.id == EdgeId(edgeDefs[k])
      {
        var d := edgeDefs[i];
        if d.relationship == PRECEDED_BY {
          ghost var before := store.edges;
          var edge := Edge(EdgeId(d), d.source, d.target, PRECEDED_BY);
          store.UpsertEdge(edge);
          forall k | 0 <= k <= i && edgeDefs[k].relationship == PRECEDED_BY
            ensures exists e :: e in store.edges && e.id == EdgeId(edgeDefs[k])
          {
            if EdgeId(edgeDefs[k]) == EdgeId(d) {
              assert edge in store.edges;
            } else {
              var e :| e in before && e.id == EdgeId(edgeDefs[k]);
              assert e in store.edges;
            }
          }
        }
      }
    }
  }

  function EdgeId(d: EdgeDef): string {
    d.source + "-" + d.target + "-PRECEDED_BY"
  }
}
