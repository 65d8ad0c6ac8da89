/**
  The array operations the component's handlers use on `lines`:
  `Array.prototype.find` (in its index form, the element found being
  `lines[i]`), removal of the found element, and the reference filter
  `filter(line => line !== found)`.
 */
module Sequences {
  import opened Options

  /**
    `find` in its index form (`findIndex`): the index of the first element
    that satisfies `hit`, or None when no element does. The element
    `find` itself returns is `s[r.value]`; a segment object is never
    falsy, so None stands for `undefined`.
   */
  function FindFirst<T>(s: seq<T>, hit: T -> bool): (r: Option<nat>)
    ensures r.Some? ==> r.value < |s| && hit(s[r.value])
    ensures r.Some? ==> forall j :: 0 <= j < r.value ==> !hit(s[j])
    ensures r.None? <==> forall j :: 0 <= j < |s| ==> !hit(s[j])
  {
    if s == [] then None
    else if hit(s[0]) then Some(0)
    else match FindFirst(s[1..], hit)
      case None => None
      case Some(k) => Some(k + 1)
  }

  /** The sequence without its element at index `i`, the rest in order. */
  function RemoveAt<T>(s: seq<T>, i: nat): (r: seq<T>)
    requires i < |s|
    ensures |r| == |s| - 1
    ensures forall j :: 0 <= j < i ==> r[j] == s[j]
    ensures forall j :: i <= j < |r| ==> r[j] == s[j + 1]
  {
    s[..i] + s[i + 1..]
  }

  /** Removing the element at `i` takes exactly one copy of it out of the multiset. */
  lemma RemoveAtMultiset<T>(s: seq<T>, i: nat)
    requires i < |s|
    ensures multiset(RemoveAt(s, i)) == multiset(s) - multiset{s[i]}
  {
    assert s == s[..i] + [s[i]] + s[i + 1..];
  }

  /** No identity occurs twice. */
  predicate Distinct(ids: seq<nat>) {
    forall j, k :: 0 <= j < k < |ids| ==> ids[j] != ids[k]
  }

  /**
    The reference filter: the elements of `s` whose identity, given
    position by position in `ids`, differs from `id`.
   */
  function Without<T>(s: seq<T>, ids: seq<nat>, id: nat): (r: seq<T>)
    requires |s| == |ids|
    ensures |r| == |s| - multiset(ids)[id]
    ensures forall x :: x in r ==> x in s
  {
    if s == [] then []
    else
      assert ids == [ids[0]] + ids[1..];
      assert s == [s[0]] + s[1..];
      (if ids[0] == id then [] else [s[0]]) + Without(s[1..], ids[1..], id)
  }

  /** Every element whose identity differs from `id` survives the filter. */
  lemma {:induction false} WithoutKeeps<T>(s: seq<T>, ids: seq<nat>, id: nat, k: nat)
    requires |s| == |ids| && k < |s| && ids[k] != id
    ensures s[k] in Without(s, ids, id)
  {
    WithoutStep(s, ids, id);
    if k > 0 {
      WithoutKeeps(s[1..], ids[1..], id, k - 1);
    }
  }

  /** Filtering out an identity that does not occur changes nothing. */
  lemma {:induction false} WithoutAbsent<T>(s: seq<T>, ids: seq<nat>, id: nat)
    requires |s| == |ids|
    requires forall k :: 0 <= k < |ids| ==> ids[k] != id
    ensures Without(s, ids, id) == s
  {
    if s != [] {
      WithoutAbsent(s[1..], ids[1..], id);
    }
  }

  /** One step of the reference filter: the head is kept or dropped. */
  lemma WithoutStep<T>(s: seq<T>, ids: seq<nat>, id: nat)
    requires |s| == |ids| && s != []
    ensures Without(s, ids, id) == (if ids[0] == id then [] else [s[0]]) + Without(s[1..], ids[1..], id)
  {
  }

  /** The tail of distinct identities is distinct, and none of it is the head. */
  lemma DistinctTail(ids: seq<nat>)
    requires ids != [] && Distinct(ids)
    ensures Distinct(ids[1..])
    ensures forall k :: 0 < k < |ids| ==> ids[k] != ids[0]
  {
  }

  /**
    When identities are distinct, the reference filter removes exactly
    the one element at the position of that identity.
   */
  lemma {:induction false} WithoutUnique<T>(s: seq<T>, ids: seq<nat>, i: nat)
    requires |s| == |ids| && i < |s|
    requires Distinct(ids)
    ensures Without(s, ids, ids[i]) == RemoveAt(s, i)
  {
    var id := ids[i];
    DistinctTail(ids);
    WithoutStep(s, ids, id);
    if i == 0 {
      WithoutAbsent(s[1..], ids[1..], id);
      assert RemoveAt(s, 0) == s[1..];
    } else {
      assert ids[1..][i - 1] == id;
      WithoutUnique(s[1..], ids[1..], i - 1);
      assert RemoveAt(s, i) == [s[0]] + RemoveAt(s[1..], i - 1);
    }
  }

  /** Removing one element keeps identities distinct and below any bound they had. */
  lemma RemoveAtDistinct(ids: seq<nat>, i: nat, bound: nat)
    requires i < |ids| && Distinct(ids)
    requires forall k :: 0 <= k < |ids| ==> ids[k] < bound
    ensures Distinct(RemoveAt(ids, i))
    ensures forall k :: 0 <= k < |ids| - 1 ==> RemoveAt(ids, i)[k] != ids[i]
    ensures forall k :: 0 <= k < |ids| - 1 ==> RemoveAt(ids, i)[k] < bound
  {
    var r := RemoveAt(ids, i);
    forall j, k | 0 <= j < k < |r| ensures r[j] != r[k] {
      var j' := if j < i then j else j + 1;
      var k' := if k < i then k else k + 1;
      assert r[j] == ids[j'] && r[k] == ids[k'] && j' < k';
    }
  }
}
