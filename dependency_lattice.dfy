/**
  The dependency (taint) lattice as the call/return transfer function uses it.

  A place of the program model is an integer handle. For every place an element records a
  dependency set and an array label, both sets of taint labels; the least upper bound of
  two such entries is the component-wise union, and the bottom entry holds two empty sets.
  An element is a total mapping: a place without an explicit mapping reads as bottom.
*/
module DependencyLattice {

  /** A place (variable, constant, temporary) of the program model. */
  type Var = int

  /** A taint label: one untrusted source, or the distinguished "untainted" label. */
  type Label = int

  type DepSet = set<Label>

  /** The dependency set (`getDep`) and array label (`getArrayLabel`) of one place. */
  datatype Entry = Entry(dep: DepSet, arrayLabel: DepSet)

  const Bottom: Entry := Entry({}, {})

  /** The lattice order on entries. */
  predicate Below(a: Entry, b: Entry) {
    a.dep <= b.dep && a.arrayLabel <= b.arrayLabel
  }

  /** `DependencyLatticeElement.lub`, applied to both components of an entry. */
  function Lub(a: Entry, b: Entry): (r: Entry)
    ensures Below(a, r) && Below(b, r)
  {
    Entry(a.dep + b.dep, a.arrayLabel + b.arrayLabel)
  }

  lemma LubIsLeast(a: Entry, b: Entry, c: Entry)
    requires Below(a, c) && Below(b, c)
    ensures Below(Lub(a, b), c)
  {
  }

  lemma LubCommutative(a: Entry, b: Entry)
    ensures Lub(a, b) == Lub(b, a)
  {
  }

  lemma LubAssociative(a: Entry, b: Entry, c: Entry)
    ensures Lub(Lub(a, b), c) == Lub(a, Lub(b, c))
  {
  }

  lemma LubIdempotent(a: Entry)
    ensures Lub(a, a) == a
  {
  }

  lemma LubBottom(a: Entry)
    ensures Lub(a, Bottom) == a && Lub(Bottom, a) == a
  {
  }

  /** A non-empty set of places has a member (what a Java iterator's `next()` relies on). */
  lemma NonEmptyHasMember(s: set<Var>)
    requires s != {}
    ensures exists x :: x in s
  {
    if forall y :: y !in s {
      assert false;
    }
  }

  /** A `DependencyLatticeElement`: explicit mappings; every other place reads as Bottom. */
  type Element = map<Var, Entry>

  /** `new DependencyLatticeElement()`: only default mappings. */
  const Empty: Element := map[]

  /** `getDep(v)` and `getArrayLabel(v)` together. */
  function Get(e: Element, v: Var): Entry {
    if v in e then e[v] else Bottom
  }

  /** `setLocal(v, dep, arrayLabel)`: v now maps to the given entry, every other place is unchanged. */
  function SetLocal(e: Element, v: Var, x: Entry): (r: Element)
    ensures Get(r, v) == x
    ensures forall u :: u != v ==> Get(r, u) == Get(e, u)
  {
    e[v := x]
  }

  /** Overwrites the mappings of the given places with those of `from` (`copyGlobalLike(calleeIn)`,
      `copyMainTemporaries(origInfo)`). */
  function CopyPlaces(e: Element, from: Element, places: set<Var>): (r: Element)
    ensures forall v :: Get(r, v) == if v in places then Get(from, v) else Get(e, v)
  {
    map v | v in e.Keys + places :: if v in places then Get(from, v) else e[v]
  }

  /** `copyGlobalLike(calleeIn, origInfo, calleeMod)`: a global-like place the callee may modify
      takes its value from `calleeIn`, every other global-like place from `origInfo`. */
  function CopyGlobalLikeRestricted(e: Element, calleeIn: Element, origInfo: Element,
                                    calleeMod: set<Var>, globalLike: set<Var>): (r: Element)
    ensures forall v :: Get(r, v) == (if v !in globalLike then Get(e, v)
                                      else if v in calleeMod then Get(calleeIn, v)
                                      else Get(origInfo, v))
  {
    CopyPlaces(CopyPlaces(e, origInfo, globalLike), calleeIn, globalLike * calleeMod)
  }

  /** `copyLocals(origInfo)`: every place that is not global-like takes its value from `from`. */
  function CopyLocals(e: Element, from: Element, globalLike: set<Var>): (r: Element)
    ensures forall v :: Get(r, v) == if v in globalLike then Get(e, v) else Get(from, v)
  {
    map v | v in e.Keys + from.Keys :: if v in globalLike then Get(e, v) else Get(from, v)
  }
}
