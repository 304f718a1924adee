/**
  `MyTransducerRelation`: an immutable (input label, output label) pair, either of which may
  be null, with structural `equals`, a `hashCode` consistent with it and a printed form.

  The labels are arbitrary Java objects; what their own `equals`, `hashCode` and `toString`
  compute is not part of this model and is given as `LabelOps`. A null label is `None`.
*/
module TransducerRelation {
  import opened Wrappers

  /** Java's `int`. */
  type Int32 = x: int | -0x8000_0000 <= x < 0x8000_0000

  const Modulus: int := 0x1_0000_0000

  /** Java's wrap-around: the `int` congruent to `x` modulo 2^32. */
  function Wrap32(x: int): (r: Int32)
    ensures (x - r) % Modulus == 0
  {
    var r := (x + 0x8000_0000) % Modulus - 0x8000_0000;
    assert x - r == Modulus * ((x + 0x8000_0000) / Modulus);
    r
  }

  /** The labels' own `equals`, `hashCode` and `toString`. */
  datatype LabelOps<!T> = LabelOps(equals: (T, T) -> bool, hashCode: T -> Int32, toString: T -> string)

  datatype Relation<T> = Relation(inLabel: Option<T>, outLabel: Option<T>)
  {
    function GetIn(): Option<T> { inLabel }
    function GetOut(): Option<T> { outLabel }
  }

  /** The argument of `equals(Object)`: a relation, or anything else (including null). */
  datatype JavaObject<T> = RelationObject(relation: Relation<T>) | OtherObject

  /** One label test of `equals`: a non-null label compares with the label's `equals` (which,
      by the contract of `Object.equals`, is false against null); a null label equals only null. */
  function LabelEquals<T>(ops: LabelOps<T>, mine: Option<T>, theirs: Option<T>): (r: bool)
    ensures mine.None? ==> (r <==> theirs.None?)
    ensures mine.Some? && theirs.None? ==> !r
    ensures mine.Some? && theirs.Some? ==> (r <==> ops.equals(mine.value, theirs.value))
  {
    match mine
    case Some(x) => theirs.Some? && ops.equals(x, theirs.value)
    case None => theirs.None?
  }

  /** `equals(compX)`. The identity test `compX == this` is modelled as equality of values. */
  function Equals<T(==)>(ops: LabelOps<T>, self: Relation<T>, compX: JavaObject<T>): (r: bool)
    ensures compX == RelationObject(self) ==> r
    ensures compX.OtherObject? ==> !r
    ensures compX.RelationObject? && compX.relation != self ==>
              (r <==> LabelEquals(ops, self.inLabel, compX.relation.inLabel)
                      && LabelEquals(ops, self.outLabel, compX.relation.outLabel))
  {
    if compX == RelationObject(self) then true
    else
      match compX
      case OtherObject => false
      case RelationObject(comp) =>
        LabelEquals(ops, self.inLabel, comp.inLabel) && LabelEquals(ops, self.outLabel, comp.outLabel)
  }

  /** The value `hashCode` would compute with unbounded integers. */
  function UnboundedHash<T>(ops: LabelOps<T>, r: Relation<T>): int {
    var h := 17;
    var h := if r.inLabel.Some? then 37 * h + ops.hashCode(r.inLabel.value) else h;
    if r.outLabel.Some? then 37 * h + ops.hashCode(r.outLabel.value) else h
  }

  /** `hashCode()`: starts at 17 and folds in `37 * h + label.hashCode()` for each non-null
      label, the input label first, in 32-bit arithmetic. */
  function HashCode<T>(ops: LabelOps<T>, r: Relation<T>): (h: Int32)
    ensures (h - UnboundedHash(ops, r)) % Modulus == 0
  {
    var h: Int32 := 17;
    var h1 := if r.inLabel.Some? then Wrap32(37 * h + ops.hashCode(r.inLabel.value)) else h;
    var h2 := if r.outLabel.Some? then Wrap32(37 * h1 + ops.hashCode(r.outLabel.value)) else h1;
    HashStepCongruent(h1, if r.inLabel.Some? then 37 * h + ops.hashCode(r.inLabel.value) else h,
                      if r.outLabel.Some? then ops.hashCode(r.outLabel.value) else 0);
    h2
  }

  /** Folding a label into two congruent hashes gives congruent hashes. */
  lemma HashStepCongruent(a: int, b: int, c: int)
    requires (a - b) % Modulus == 0
    ensures ((37 * a + c) - (37 * b + c)) % Modulus == 0
  {
    var k := (a - b) / Modulus;
    assert a - b == Modulus * k;
    assert (37 * a + c) - (37 * b + c) == Modulus * (37 * k);
  }

  /** How `toString` prints one label: a null label prints as "1". */
  function Render<T>(ops: LabelOps<T>, l: Option<T>): string {
    match l
    case None => "1"
    case Some(x) => ops.toString(x)
  }

  /** `toString()`: the input label, a slash, the output label. */
  function ToString<T>(ops: LabelOps<T>, r: Relation<T>): (s: string)
    ensures |s| == |Render(ops, r.inLabel)| + 1 + |Render(ops, r.outLabel)|
    ensures s[..|Render(ops, r.inLabel)|] == Render(ops, r.inLabel)
    ensures s[|Render(ops, r.inLabel)|] == '/'
    ensures s[|Render(ops, r.inLabel)| + 1..] == Render(ops, r.outLabel)
  {
    Render(ops, r.inLabel) + "/" + Render(ops, r.outLabel)
  }

  /** Splits a string at its first slash. */
  function SplitAtFirstSlash(s: string): (r: Option<(string, string)>)
    ensures r.Some? ==> s == r.value.0 + "/" + r.value.1 && '/' !in r.value.0
    ensures r.None? ==> '/' !in s
  {
    if |s| == 0 then None
    else if s[0] == '/' then Some(("", s[1..]))
    else
      match SplitAtFirstSlash(s[1..])
      case None => None
      case Some((a, b)) => Some(([s[0]] + a, b))
  }

  // ---------------------------------------------------------------------------------------
  // Properties
  // ---------------------------------------------------------------------------------------

  /** `getIn()` and `getOut()` return the labels the constructor was given. */
  lemma GettersReturnConstructorArguments<T>(inLabel: Option<T>, outLabel: Option<T>)
    ensures Relation(inLabel, outLabel).GetIn() == inLabel
    ensures Relation(inLabel, outLabel).GetOut() == outLabel
  {
  }

  /** When the labels' `equals` is reflexive (as `Object.equals` promises), two relations are
      equal exactly when their input labels are equal and their output labels are equal, a
      null label being equal only to a null label. */
  lemma EqualsIffLabelsEqual<T>(ops: LabelOps<T>, a: Relation<T>, b: Relation<T>)
    requires forall x :: ops.equals(x, x)
    ensures Equals(ops, a, RelationObject(b)) <==>
              LabelEquals(ops, a.inLabel, b.inLabel) && LabelEquals(ops, a.outLabel, b.outLabel)
    ensures a.inLabel.None? ==> (LabelEquals(ops, a.inLabel, b.inLabel) <==> b.inLabel.None?)
    ensures a.outLabel.None? ==> (LabelEquals(ops, a.outLabel, b.outLabel) <==> b.outLabel.None?)
  {
    if a == b {
      if a.inLabel.Some? { assert ops.equals(a.inLabel.value, a.inLabel.value); }
      if a.outLabel.Some? { assert ops.equals(a.outLabel.value, a.outLabel.value); }
    }
  }

  /** With labels compared by value, `equals` is structural equality of the pairs. */
  lemma EqualsIsStructural<T>(ops: LabelOps<T>, a: Relation<T>, b: Relation<T>)
    requires forall x, y :: ops.equals(x, y) <==> x == y
    ensures Equals(ops, a, RelationObject(b)) <==> a == b
  {
  }

  /** `equals` is reflexive, and false for anything that is not a relation. */
  lemma EqualsReflexiveAndTyped<T>(ops: LabelOps<T>, a: Relation<T>)
    ensures Equals(ops, a, RelationObject(a))
    ensures !Equals(ops, a, OtherObject)
  {
  }

  /** When the labels' `equals` is symmetric, so is the relation's. */
  lemma EqualsSymmetric<T>(ops: LabelOps<T>, a: Relation<T>, b: Relation<T>)
    requires forall x, y :: ops.equals(x, y) ==> ops.equals(y, x)
    ensures Equals(ops, a, RelationObject(b)) ==> Equals(ops, b, RelationObject(a))
  {
    if Equals(ops, a, RelationObject(b)) && a != b {
      if a.inLabel.Some? { assert ops.equals(a.inLabel.value, b.inLabel.value); }
      if a.outLabel.Some? { assert ops.equals(a.outLabel.value, b.outLabel.value); }
    }
  }

  /** When equal labels have equal hash codes, equal relations have equal hash codes. */
  lemma HashCodeConsistentWithEquals<T>(ops: LabelOps<T>, a: Relation<T>, b: Relation<T>)
    requires forall x, y :: ops.equals(x, y) ==> ops.hashCode(x) == ops.hashCode(y)
    requires Equals(ops, a, RelationObject(b))
    ensures HashCode(ops, a) == HashCode(ops, b)
  {
    if a != b {
      if a.inLabel.Some? { assert ops.hashCode(a.inLabel.value) == ops.hashCode(b.inLabel.value); }
      if a.outLabel.Some? { assert ops.hashCode(a.outLabel.value) == ops.hashCode(b.outLabel.value); }
    }
  }

  /** A pair of null labels hashes to 17; a null label adds nothing to the hash. */
  lemma HashCodeOfNullLabels<T>(ops: LabelOps<T>, x: T)
    ensures HashCode(ops, Relation(None, None)) == 17
    ensures HashCode(ops, Relation(Some(x), None)) == HashCode(ops, Relation(None, Some(x)))
  {
  }

  /** The printed form of a pair of null labels is "1/1". */
  lemma ToStringOfNullLabels<T>(ops: LabelOps<T>)
    ensures ToString(ops, Relation(None, None)) == "1/1"
  {
  }

  /** When the input label prints without a slash, the printed form splits back at its first
      slash into the two printed labels. */
  lemma {:induction false} ToStringSplits<T>(ops: LabelOps<T>, r: Relation<T>)
    requires '/' !in Render(ops, r.inLabel)
    ensures SplitAtFirstSlash(ToString(ops, r)) == Some((Render(ops, r.inLabel), Render(ops, r.outLabel)))
  {
    SplitPrefix(Render(ops, r.inLabel), Render(ops, r.outLabel));
  }

  lemma {:induction false} SplitPrefix(a: string, b: string)
    requires '/' !in a
    ensures SplitAtFirstSlash(a + "/" + b) == Some((a, b))
  {
    if |a| > 0 {
      assert (a + "/" + b)[1..] == a[1..] + "/" + b;
      SplitPrefix(a[1..], b);
      assert [a[0]] + a[1..] == a;
    } else {
      assert a + "/" + b == "/" + b;
    }
  }
}
