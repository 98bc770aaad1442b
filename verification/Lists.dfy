// Facts about sequences that several models use.
module Lists {

  lemma Regroup<T>(a: seq<T>, b: seq<T>, c: seq<T>)
    ensures a + (b + c) == (a + b) + c
  {
  }

  lemma DropEmpty<T>(s: seq<T>)
    ensures [] + s == s
  {
  }
}
