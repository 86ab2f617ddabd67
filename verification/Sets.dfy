/** A fact about sets of numbers that the solver needs spelling out. */
module Sets {
  lemma Inhabited(numbers: set<int>)
    ensures numbers == {} || exists k :: k in numbers
  {
    if forall k :: k !in numbers { assert numbers == {}; }
  }
}
