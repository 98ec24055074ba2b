/** Small wrappers shared by the ranking engine and the case routes. */
module Common {

  datatype Option<T> = None | Some(value: T)

  datatype Result<T, E> = Success(value: T) | Failure(error: E)

  function Min(a: int, b: int): int {
    if a < b then a else b
  }

  function Max(a: int, b: int): int {
    if a < b then b else a
  }

  /** The index of the first element satisfying `p`, as JavaScript's
      `Array.prototype.findIndex` computes it (None stands for -1);
      `Array.prototype.find` is the element at that index. */
  function FirstWhere<T>(s: seq<T>, p: T -> bool): (r: Option<nat>)
    ensures r.None? <==> forall i :: 0 <= i < |s| ==> !p(s[i])
    ensures r.Some? ==> r.value < |s| && p(s[r.value])
    ensures r.Some? ==> forall j :: 0 <= j < r.value ==> !p(s[j])
  {
    if s == [] then None
    else if p(s[0]) then Some(0)
    else match FirstWhere(s[1..], p)
      case None => None
      case Some(i) => Some(i + 1)
  }

  /** Replacing one element by another that `p` judges the same way does not
      move the first match. */
  lemma {:induction false} FirstWhereUpdate<T>(s: seq<T>, p: T -> bool, k: nat, x: T)
    requires k < |s|
    requires p(x) == p(s[k])
    ensures FirstWhere(s[k := x], p) == FirstWhere(s, p)
  {
    if k > 0 {
      assert s[k := x][1..] == s[1..][k - 1 := x];
      FirstWhereUpdate(s[1..], p, k - 1, x);
    }
  }

  lemma SplitAt<T>(s: seq<T>, n: nat)
    requires n <= |s|
    ensures s[..n] + s[n..] == s
  {
  }

  lemma SplitLast<T>(s: seq<T>)
    requires s != []
    ensures s[..|s| - 1] + [s[|s| - 1]] == s
  {
  }

  /** The first `q + 1` elements are the head and the tail's first `q`. */
  lemma ConsSplit<T>(s: seq<T>, q: nat)
    requires q < |s|
    ensures s[..q + 1] == [s[0]] + s[1..][..q]
    ensures s[q + 1..] == s[1..][q..]
  {
  }

  lemma AppendAssoc<T>(a: seq<T>, b: seq<T>, c: seq<T>)
    ensures a + (b + c) == (a + b) + c
  {
  }
}
