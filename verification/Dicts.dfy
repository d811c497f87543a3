/** Insertion-ordered dicts, and a fact about finite sets. */
module Dicts {
  /** Assignment to a key: in place if present, else at the end. */
  function Put<V>(d: seq<(string, V)>, key: string, value: V): seq<(string, V)> {
    if d == [] then [(key, value)]
    else if d[0].0 == key then [(key, value)] + d[1..]
    else [d[0]] + Put(d[1..], key, value)
  }

  lemma {:induction false} Subset(a: set<string>, b: set<string>)
    requires a <= b
    ensures |a| <= |b|
  {
    if a != {} {
      var x :| x in a;
      Subset(a - {x}, b - {x});
    }
  }
}
