module Options {
  datatype Option<+T> = None | Some(value: T)

  /** `m[k]`, or None when `k` is missing. */
  function Find<K, V>(m: map<K, V>, k: K): Option<V> {
    if k in m then Some(m[k]) else None
  }

  predicate NoDuplicates<T(==)>(s: seq<T>) {
    forall i, j | 0 <= i < j < |s| :: s[i] != s[j]
  }

  /** `order` lists the elements of `s`, each once. */
  predicate Enumerates<T(==)>(order: seq<T>, s: set<T>) {
    NoDuplicates(order) && (forall x | x in order :: x in s) && (forall x | x in s :: x in order)
  }

  ghost function SomeOrder<T>(s: set<T>): (order: seq<T>)
    ensures Enumerates(order, s)
  {
    if s == {} then []
    else
      var x :| x in s;
      SomeOrder(s - {x}) + [x]
  }
}
