/** Facts about concatenation that several proofs need. */
module Sequences {
  lemma Regroup<T>(before: seq<T>, waiting: seq<T>, late: seq<T>)
    ensures before + (waiting + late) == before + waiting + late
    ensures waiting == [] || late == [] ==> before + late + waiting == before + waiting + late
  {
  }
}
