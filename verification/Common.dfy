/** What several modules share. */
module Common {

  datatype Option<T> = None | Some(value: T)

  /** A coroutine, by address. */
  type Co = nat

  ghost predicate Distinct<T>(s: seq<T>) {
    forall i, j | 0 <= i < j < |s| :: s[i] != s[j]
  }

  function Elements<T(==, !new)>(s: seq<T>): (e: set<T>)
    ensures forall x :: x in e <==> x in s
  {
    set x | x in s
  }

  lemma {:induction false} DistinctLength<T(!new)>(s: seq<T>)
    requires Distinct(s)
    ensures |Elements(s)| == |s|
  {
    hide Distinct;
    if s != [] {
      DistinctTail(s);
      DistinctLength(s[1..]);
    } else {
      assert Elements(s) == {};
    }
  }

  lemma DistinctTail<T(!new)>(s: seq<T>)
    requires Distinct(s) && s != []
    ensures Distinct(s[1..]) && s[0] !in Elements(s[1..]) && Elements(s) == Elements(s[1..]) + {s[0]}
  {
    assert s == [s[0]] + s[1..];
    assert forall i | 0 <= i < |s| - 1 :: s[1..][i] == s[i + 1];
  }

  /** A sequence without its k-th element. */
  ghost function Without<T>(s: seq<T>, k: nat): seq<T>
    requires k < |s|
  {
    s[..k] + s[k + 1..]
  }

  lemma Alone<T>(s: seq<T>, k: int)
    requires Distinct(s)
    ensures 0 <= k < |s| ==> forall i | 0 <= i < |s| && i != k :: s[i] != s[k]
  {
  }

  /** How the places shift when one goes. */
  lemma Removed<T>(s: seq<T>, k: nat)
    requires Distinct(s) && k < |s|
    ensures var r := Without(s, k);
            && Distinct(r) && |r| == |s| - 1 && s[k] !in r
            && forall i | 0 <= i < |r| :: r[i] == s[if i < k then i else i + 1]
  {
  }
}
