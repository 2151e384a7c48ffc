/** Picking and listing the elements of finite sets. */
module Collections {

  lemma {:induction false} SomeIn<T>(s: set<T>) returns (x: T)
    requires s != {}
    ensures x in s
  {
    x :| x in s;
  }

  /** The elements of a set, in some order. */
  method Listed<T(==)>(s: set<T>) returns (keys: seq<T>)
    ensures (forall i, j :: 0 <= i < j < |keys| ==> keys[i] != keys[j]) && forall x :: x in keys <==> x in s
    ensures forall i :: 0 <= i < |keys| ==> keys[i] in s
  {
    keys := [];
    var todo := s;
    while todo != {}
      invariant (forall i, j :: 0 <= i < j < |keys| ==> keys[i] != keys[j]) && forall x :: x in keys <==> x in s - todo
      invariant todo <= s && forall i :: 0 <= i < |keys| ==> keys[i] !in todo
      decreases |todo|
    {
      ghost var some := SomeIn(todo);
      var x :| x in todo;
      keys := keys + [x];
      todo := todo - {x};
    }
  }
}
