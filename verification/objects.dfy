/**
 Objects on the Go heap. An `*ObjResource` is an index into `objs`; several of them may
 share one `*Unstructured`, an index into `trees`, and then see each other's rewrites.
 */
module Objects {
  import opened Json
  import opened ApiTypes

  datatype ObjResource = ObjResource(unstructured: nat, gvr: GroupVersionResource, namespaced: bool,
      action: ObjectAction)

  type Ref = nat

  datatype Heap = Heap(objs: seq<ObjResource>, trees: seq<Document>) {

    ghost predicate Valid() {
      forall i | 0 <= i < |objs| :: objs[i].unstructured < |trees|
    }

    function Tree(ref: Ref): Document
      requires Valid() && ref < |objs|
    {
      trees[objs[ref].unstructured]
    }

    function Uid(ref: Ref): string
      requires Valid() && ref < |objs|
    {
      GetUID(Tree(ref))
    }

    /** The object's tree rewritten in place. */
    function Rewrite(ref: Ref, d: Document): (h: Heap)
      requires Valid() && ref < |objs|
      ensures h.Valid() && h.objs == objs && h.Tree(ref) == d
    {
      this.(trees := trees[objs[ref].unstructured := d])
    }

    /** Objects allocated later leave the older ones alone. */
    ghost predicate Extends(h: Heap) {
      h.objs <= objs && h.trees <= trees
    }
  }

  class Store {
    var heap: Heap

    constructor ()
      ensures heap == Heap([], [])
    {
      heap := Heap([], []);
    }
  }

  /** `getObjectNamesapce`: cluster-scoped objects count as kube-system. */
  function GetObjectNamespace(d: Document): string {
    if GetNamespace(d) == "" then CLUSTER_RESOURCE_DELEGATOR else GetNamespace(d)
  }
}
