/** The graph under construction: the part of the rendering library's
    graph object that the translator writes and queries. */
module Graphs {
  import opened OrderedMaps

  /** A box-shaped node: its name (`workflow.task`) and its label (`caption`). */
  datatype Node = Node(name: string, caption: string)

  /** A dashed cluster: its sanitised name, its label (`caption`) and its nodes. */
  datatype Cluster = Cluster(name: string, caption: string, nodes: seq<Node>)

  /** An edge without arrowhead; `color` is `None` for an edge drawn in the
      default colour. Endpoints are node names, unquoted. */
  datatype Edge = Edge(parent: string, child: string, color: Option<string>)

  /** Some node of some cluster is named `name`. */
  predicate HasNode(clusters: seq<Cluster>, name: string)
  {
    exists i, j :: 0 <= i < |clusters| && 0 <= j < |clusters[i].nodes| &&
                   clusters[i].nodes[j].name == name
  }

  /** An edge endpoint: the qualified name when such a node exists, else the
      bare name. */
  function Resolve(clusters: seq<Cluster>, qualified: string, bare: string): string
  {
    if HasNode(clusters, qualified) then qualified else bare
  }

  class Graph {
    var clusters: seq<Cluster>
    var edges: seq<Edge>

    constructor ()
      ensures clusters == [] && edges == []
    {
      clusters := [];
      edges := [];
    }

    /** `graph.add_subgraph(cluster)`. */
    method AddSubgraph(c: Cluster)
      modifies this
      ensures clusters == old(clusters) + [c] && edges == old(edges)
    {
      clusters := clusters + [c];
    }

    /** `graph.add_edge(edge)`: an edge adds no node. */
    method AddEdge(e: Edge)
      modifies this
      ensures edges == old(edges) + [e] && clusters == old(clusters)
    {
      edges := edges + [e];
    }

    /** The scan of `generate_task_edges` over every node of every cluster,
        raising a flag for each of the two names it meets. */
    method FindNodes(childName: string, parentName: string)
      returns (childFound: bool, parentFound: bool)
      ensures childFound <==> HasNode(clusters, childName)
      ensures parentFound <==> HasNode(clusters, parentName)
    {
      childFound, parentFound := false, false;
      var i := 0;
      while i < |clusters|
        invariant 0 <= i <= |clusters|
        invariant childFound <==> HasNode(clusters[..i], childName)
        invariant parentFound <==> HasNode(clusters[..i], parentName)
      {
        var nodes := clusters[i].nodes;
        var j := 0;
        while j < |nodes|
          invariant 0 <= j <= |nodes|
          invariant childFound <==> HasNode(clusters[..i], childName) ||
                                    exists m :: 0 <= m < j && nodes[m].name == childName
          invariant parentFound <==> HasNode(clusters[..i], parentName) ||
                                     exists m :: 0 <= m < j && nodes[m].name == parentName
        {
          if nodes[j].name == childName {
            childFound := true;
          }
          if nodes[j].name == parentName {
            parentFound := true;
          }
          j := j + 1;
        }
        HasNodeSnoc(clusters[..i], clusters[i], childName);
        HasNodeSnoc(clusters[..i], clusters[i], parentName);
        assert clusters[..i + 1] == clusters[..i] + [clusters[i]];
        i := i + 1;
      }
      assert clusters[..i] == clusters;
    }
  }

  /** The node at a known position is a node of the graph. */
  lemma HasNodeAt(clusters: seq<Cluster>, i: nat, j: nat, name: string)
    requires i < |clusters| && j < |clusters[i].nodes| && clusters[i].nodes[j].name == name
    ensures HasNode(clusters, name)
  {
  }

  lemma HasNodeSnoc(cs: seq<Cluster>, c: Cluster, name: string)
    ensures HasNode(cs + [c], name) <==>
            HasNode(cs, name) || exists m :: 0 <= m < |c.nodes| && c.nodes[m].name == name
  {
    var all := cs + [c];
    if HasNode(all, name) {
      var i, j :| 0 <= i < |all| && 0 <= j < |all[i].nodes| && all[i].nodes[j].name == name;
      if i < |cs| {
        assert cs[i].nodes[j].name == name;
      } else {
        assert c.nodes[j].name == name;
      }
    }
    if HasNode(cs, name) {
      var i, j :| 0 <= i < |cs| && 0 <= j < |cs[i].nodes| && cs[i].nodes[j].name == name;
      assert all[i].nodes[j].name == name;
    }
    if exists m :: 0 <= m < |c.nodes| && c.nodes[m].name == name {
      var m :| 0 <= m < |c.nodes| && c.nodes[m].name == name;
      assert all[|cs|].nodes[m].name == name;
    }
  }
}
