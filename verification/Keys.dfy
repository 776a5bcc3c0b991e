/** The keys of a dictionary in ascending order, as `sorted(d)` lists them. */
module Keys {

  lemma EmptyOrInhabited(s: set<int>)
    ensures s == {} || exists x :: x in s
  {
    if forall x :: x !in s {
      assert s == {};
    }
  }

  lemma {:induction false} SmallestExists(s: set<int>)
    requires s != {}
    ensures exists m :: m in s && forall k :: k in s ==> m <= k
  {
    EmptyOrInhabited(s);
    var x :| x in s;
    var rest := s - {x};
    var least := x;
    if rest != {} {
      SmallestExists(rest);
      var m :| m in rest && forall k :: k in rest ==> m <= k;
      least := if x < m then x else m;
    }
    forall k | k in s ensures least <= k {
      assert k == x || k in rest;
    }
    assert least in s;
  }

  function Smallest(s: set<int>): (m: int)
    requires s != {}
    ensures m in s && forall k :: k in s ==> m <= k
  {
    SmallestExists(s);
    var m :| m in s && forall k :: k in s ==> m <= k;
    m
  }

  /** `sorted(d)` for a dictionary with these keys. */
  function AscendingKeys(s: set<int>): (keys: seq<int>)
    ensures forall k :: k in keys <==> k in s
    ensures forall i, j :: 0 <= i < j < |keys| ==> keys[i] < keys[j]
  {
    if s == {} then [] else [Smallest(s)] + AscendingKeys(s - {Smallest(s)})
  }

  ghost predicate StrictlyAscending(keys: seq<int>) {
    forall i, j :: 0 <= i < j < |keys| ==> keys[i] < keys[j]
  }

  lemma FirstIsMember(a: seq<int>)
    requires a != []
    ensures a[0] in a
  {
  }

  /** There is only one ascending listing of a set. */
  lemma {:induction false} AscendingIsUnique(a: seq<int>, b: seq<int>)
    requires StrictlyAscending(a) && StrictlyAscending(b) && forall k :: k in a <==> k in b
    ensures a == b
  {
    if a == [] {
      if b != [] {
        FirstIsMember(b);
      }
    } else {
      assert a[0] in a && a[0] in b;
      var (x, y) := (a[|a| - 1], b[|b| - 1]);
      LastIsMember(a);
      LastIsMember(b);
      LastIsGreatest(a, y);
      LastIsGreatest(b, x);
      var (front, back) := (a[..|a| - 1], b[..|b| - 1]);
      FrontAscends(a);
      FrontAscends(b);
      hide StrictlyAscending;
      forall k ensures k in front <==> k in back {
        FrontMembers(a, k);
        FrontMembers(b, k);
      }
      AscendingIsUnique(front, back);
      assert a == front + [x] && b == back + [y];
    }
  }

  lemma FrontAscends(a: seq<int>)
    requires StrictlyAscending(a) && a != []
    ensures StrictlyAscending(a[..|a| - 1])
  {
  }

  lemma FrontMembers(a: seq<int>, k: int)
    requires StrictlyAscending(a) && a != []
    ensures k in a[..|a| - 1] <==> k in a && k != a[|a| - 1]
  {
    if k in a && k != a[|a| - 1] {
      var i :| 0 <= i < |a| && a[i] == k;
      assert a[..|a| - 1][i] == k;
    }
  }

  lemma LastIsMember(a: seq<int>)
    requires a != []
    ensures a[|a| - 1] in a
  {
  }

  lemma LastIsGreatest(a: seq<int>, k: int)
    requires StrictlyAscending(a) && k in a
    ensures a != [] && k <= a[|a| - 1]
  {
    var i :| 0 <= i < |a| && a[i] == k;
  }
}
