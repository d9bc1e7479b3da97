/**
 * The two mutating operations of JavaScript's built-in `Set` that the relay
 * uses, on a set represented as the duplicate-free sequence of its members
 * in insertion order (the order in which `for ... of` and `Array.from`
 * visit them). A `Map`'s key list behaves the same way: `Map.prototype.set`
 * on a new key appends it, on an existing key keeps its position, and
 * `Map.prototype.delete` removes it.
 */
module JsCollections {

  /** The members of a sequence, as a set. */
  ghost function Elems<T>(s: seq<T>): set<T>
  {
    set x | x in s
  }

  /** A sequence has no members exactly when it is empty. */
  lemma ElemsEmpty<T>(s: seq<T>)
    ensures Elems(s) == {} <==> s == []
  {
    if s != [] {
      assert s[0] in Elems(s);
    }
  }

  /** No member occurs twice: what makes a sequence a faithful `Set`. */
  ghost predicate NoDup<T>(s: seq<T>)
  {
    forall i, j :: 0 <= i < j < |s| ==> s[i] != s[j]
  }

  /**
   * `Set.prototype.add`: the members grow by exactly `x`, the existing
   * members keep their order, and at most one element is appended.
   */
  function Add<T(==)>(s: seq<T>, x: T): (r: seq<T>)
    ensures Elems(r) == Elems(s) + {x}
    ensures |s| <= |r| <= |s| + 1 && r[..|s|] == s
    ensures NoDup(s) ==> NoDup(r)
  {
    if x in s then s else s + [x]
  }

  /**
   * `Set.prototype.delete`: the members shrink by exactly `x`; a set
   * without `x` is returned unchanged, and a duplicate-free one loses
   * exactly one element.
   */
  function Delete<T(==)>(s: seq<T>, x: T): (r: seq<T>)
    ensures Elems(r) == Elems(s) - {x}
    ensures x !in s ==> r == s
    ensures NoDup(s) ==> NoDup(r) && (x in s ==> |r| == |s| - 1)
  {
    if s == [] then []
    else if s[0] == x then Delete(s[1..], x)
    else
      var rest := Delete(s[1..], x);
      ConsFacts(s[0], s[1..]);
      ConsFacts(s[0], rest);
      assert s == [s[0]] + s[1..];
      [s[0]] + rest
  }

  /** What putting one element in front of a sequence does to its members and to duplicate-freedom. */
  lemma ConsFacts<T>(a: T, t: seq<T>)
    ensures Elems([a] + t) == {a} + Elems(t)
    ensures NoDup([a] + t) <==> a !in t && NoDup(t)
  {
    var c := [a] + t;
    assert forall i :: 0 <= i < |t| ==> c[i + 1] == t[i];
    if a !in t && NoDup(t) {
      forall i, j | 0 <= i < j < |c| ensures c[i] != c[j] {
        if i > 0 { assert c[i] == t[i - 1] && c[j] == t[j - 1]; } else { assert c[j] == t[j - 1]; }
      }
    }
    if NoDup(c) {
      forall i, j | 0 <= i < j < |t| ensures t[i] != t[j] {
        assert c[i + 1] == t[i] && c[j + 1] == t[j];
      }
      forall k | 0 <= k < |t| ensures t[k] != a {
        assert c[0] == a && c[k + 1] == t[k];
      }
    }
  }

  /** Deleting a member of a duplicate-free sequence cuts out its one position and keeps the others in order. */
  lemma {:induction false} DeleteAt<T>(s: seq<T>, k: nat)
    requires NoDup(s) && k < |s|
    ensures Delete(s, s[k]) == s[..k] + s[k + 1..]
  {
    if k == 0 {
      assert s[0] !in s[1..];
    } else {
      assert NoDup(s[1..]);
      DeleteAt(s[1..], k - 1);
      assert s[1..][k - 1] == s[k];
      assert s[1..][..k - 1] + s[1..][k..] == s[1..k] + s[k + 1..];
      assert [s[0]] + (s[1..k] + s[k + 1..]) == s[..k] + s[k + 1..];
    }
  }

  /** Deleting what was just added restores the original set, order included. */
  lemma DeleteAdd<T>(s: seq<T>, x: T)
    requires NoDup(s) && x !in s
    ensures Delete(Add(s, x), x) == s
  {
    var t := s + [x];
    assert Add(s, x) == t && t[|s|] == x;
    DeleteAt(t, |s|);
    assert t[..|s|] + t[|s| + 1..] == s;
  }
}
