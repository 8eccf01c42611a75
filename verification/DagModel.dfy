/** The compiled steps of a pipeline, as far as the graph algorithms look at them. */
module DagModel {
  type Name = string

  /** A compiled step: its dependencies (the keys of `deps`), and whether its output is
      materialised and iterable.  A dependency that is not a step is a parameter or a resource. */
  datatype Node = Node(deps: seq<Name>, materialized: bool, iterable: bool)

  predicate Unique(xs: seq<Name>) {
    forall i, j :: 0 <= i < j < |xs| ==> xs[i] != xs[j]
  }

  /** The steps in declaration order. */
  datatype Graph = Graph(names: seq<Name>, nodes: map<Name, Node>) {
    ghost predicate Valid() {
      && Unique(names)
      && (forall n :: n in names <==> n in nodes)
      && forall n | n in nodes :: Unique(nodes[n].deps)
    }

    predicate Edge(u: Name, v: Name) {
      u in nodes && v in nodes && u in nodes[v].deps
    }

    predicate Barrier(n: Name)
      requires n in nodes
    {
      nodes[n].materialized || !nodes[n].iterable
    }
  }
}
