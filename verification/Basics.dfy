/** Small notions that several components share. */
module Basics {

  datatype Option<+T> = None | Some(value: T)

  function Max(a: int, b: int): int {
    if a > b then a else b
  }

  ghost predicate Increasing(s: seq<nat>) {
    forall i, j :: 0 <= i < j < |s| ==> s[i] < s[j]
  }

  /** m has the least key, and is the least id with that key. */
  ghost predicate Foremost(S: set<nat>, key: nat -> int, m: nat) {
    m in S && forall k :: k in S && k != m ==> key(m) < key(k) || (key(m) == key(k) && m < k)
  }

  lemma {:induction false} ForemostExists(S: set<nat>, key: nat -> int)
    requires S != {}
    ensures exists m :: Foremost(S, key, m)
  {
    var x :| x in S;
    var T := S - {x};
    assert forall k :: k in S ==> k == x || k in T;
    if T == {} {
      assert Foremost(S, key, x);
    } else {
      ForemostExists(T, key);
      var m :| Foremost(T, key, m);
      assert Foremost(S, key, if key(x) < key(m) || (key(x) == key(m) && x < m) then x else m);
    }
  }

  lemma {:induction false} SubsetSize<T>(a: set<T>, b: set<T>)
    requires a <= b
    ensures |a| <= |b|
  {
    assert b == a + (b - a);
  }
}
