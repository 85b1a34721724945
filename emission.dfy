/** Emission over a whole protocol: the ordered (type name, descriptor) pairs
    are handed to the emitter one at a time and the declarations it returns are
    concatenated in the same order. */
module Emission {
  import opened Syntax
  import opened RTrait
  import opened RTraitProperties

  /** One declaration per pair, in the order of the pairs. */
  function EmitAll(pairs: seq<(string, Trait)>): (r: seq<Item>)
    ensures |r| == |pairs|
    ensures forall i :: 0 <= i < |pairs| ==> r[i] == ToSynItem(pairs[i].1, pairs[i].0)[0]
  {
    if pairs == [] then [] else ToSynItem(pairs[0].1, pairs[0].0) + EmitAll(pairs[1..])
  }

  /** Every declaration of the output is read back as the pair it came from. */
  lemma EmitAllRecognized(pairs: seq<(string, Trait)>)
    ensures forall i :: 0 <= i < |pairs| ==>
              Recognize(EmitAll(pairs)[i]) == Some((pairs[i].1, pairs[i].0))
  {
    forall i | 0 <= i < |pairs|
      ensures Recognize(EmitAll(pairs)[i]) == Some((pairs[i].1, pairs[i].0))
    {
      RecognizeEmitted(pairs[i].1, pairs[i].0);
    }
  }

  /** No type is given two implementations of the same trait. */
  predicate Coherent(items: seq<Item>)
  {
    forall i, j :: 0 <= i < j < |items| && items[i].selfTy == items[j].selfTy ==>
      items[i].traitPath != items[j].traitPath
  }

  /** No type is given two descriptors that fill the same role. */
  predicate DistinctRoles(pairs: seq<(string, Trait)>)
  {
    forall i, j :: 0 <= i < j < |pairs| && pairs[i].0 == pairs[j].0 ==>
      !SameRole(pairs[i].1, pairs[j].1)
  }

  /** The output is coherent exactly when no type fills one role twice. */
  lemma EmitAllCoherentIff(pairs: seq<(string, Trait)>)
    ensures Coherent(EmitAll(pairs)) <==> DistinctRoles(pairs)
  {
    var items := EmitAll(pairs);
    forall i, j | 0 <= i < j < |pairs|
      ensures (items[i].selfTy == items[j].selfTy <==> pairs[i].0 == pairs[j].0)
      ensures (items[i].traitPath == items[j].traitPath <==> SameRole(pairs[i].1, pairs[j].1))
    {
      SameTraitIff(pairs[i].1, pairs[j].1, pairs[i].0);
    }
  }
}
