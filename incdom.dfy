/**
  The include-dominator analysis's "add" transfer function: the element after a node is the
  element before it with that node added. The input element is never changed; the new
  element is built on a copy and then recycled (replaced by a canonical element with the
  same value).
*/
module IncDom {

  /** A control-flow-graph node, as an integer handle. */
  type CfgNode = int

  /** An `IncDomLatticeElement`: the include dominators seen so far. */
  class IncDomElement {
    var dominators: set<CfgNode>

    /** `new IncDomLatticeElement(in)`: a copy with the same dominators. */
    constructor Copy(other: IncDomElement)
      ensures dominators == other.dominators
    {
      dominators := other.dominators;
    }

    /** `add(cfgNode)`. */
    method Add(cfgNode: CfgNode)
      modifies this
      ensures dominators == old(dominators) + {cfgNode}
    {
      dominators := dominators + {cfgNode};
    }
  }

  /** The analysis's `recycle`: returns an element with the same value (the canonicalisation
      cache itself is not part of this model). */
  method Recycle(e: IncDomElement) returns (r: IncDomElement)
    ensures r.dominators == e.dominators
  {
    r := e;
  }

  class IncDomTfAdd {
    const cfgNode: CfgNode

    constructor (cfgNode: CfgNode)
      ensures this.cfgNode == cfgNode
    {
      this.cfgNode := cfgNode;
    }

    /** `transfer(inX)`: the result holds `cfgNode` and every dominator of the input, and
        nothing else; the input is left as it was. */
    method Transfer(inX: IncDomElement) returns (out: IncDomElement)
      ensures cfgNode in out.dominators
      ensures inX.dominators <= out.dominators
      ensures out.dominators - {cfgNode} <= inX.dominators
      ensures inX.dominators == old(inX.dominators)
    {
      var copy := new IncDomElement.Copy(inX);
      copy.Add(cfgNode);
      out := Recycle(copy);
    }
  }
}
