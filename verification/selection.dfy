/** Picking the first element of least key among the accepted elements of a sequence. */
module Selection {
  import opened Wrappers

  /** `k` is an accepted position of least key, and no earlier accepted position ties with it. */
  ghost predicate FirstLeast<T>(s: seq<T>, ok: T -> bool, key: T -> int, k: int)
  {
    && 0 <= k < |s|
    && ok(s[k])
    && (forall j :: 0 <= j < |s| && ok(s[j]) ==> key(s[k]) <= key(s[j]))
    && (forall j :: 0 <= j < k && ok(s[j]) ==> key(s[k]) < key(s[j]))
  }

  /** A left-to-right scan that replaces the best so far only on a strictly smaller key. */
  function ScanFrom<T>(s: seq<T>, ok: T -> bool, key: T -> int, i: nat, best: Option<nat>): (r: Option<nat>)
    requires i <= |s|
    requires best.None? <==> forall j :: 0 <= j < i ==> !ok(s[j])
    requires best.Some? ==> FirstLeast(s[..i], ok, key, best.value)
    ensures r.None? <==> forall j :: 0 <= j < |s| ==> !ok(s[j])
    ensures r.Some? ==> FirstLeast(s, ok, key, r.value)
    decreases |s| - i
  {
    if i == |s| then
      assert s[..i] == s;
      best
    else
      var take := ok(s[i]) && (best.None? || key(s[i]) < key(s[best.value]));
      var best' := if take then Some(i) else best;
      ExtendBest(s, ok, key, i, best);
      ScanFrom(s, ok, key, i + 1, best')
  }

  /** One scan step keeps the scan's invariant: the new best is first-least in the longer prefix. */
  lemma ExtendBest<T>(s: seq<T>, ok: T -> bool, key: T -> int, i: nat, best: Option<nat>)
    requires i < |s|
    requires best.None? <==> forall j :: 0 <= j < i ==> !ok(s[j])
    requires best.Some? ==> FirstLeast(s[..i], ok, key, best.value)
    ensures var take := ok(s[i]) && (best.None? || key(s[i]) < key(s[best.value]));
            var best' := if take then Some(i) else best;
            && (best'.None? <==> forall j :: 0 <= j < i + 1 ==> !ok(s[j]))
            && (best'.Some? ==> FirstLeast(s[..i + 1], ok, key, best'.value))
  {

  }

  /** The position the scan keeps, or None when no element is accepted. */
  function FirstLeastIndex<T>(s: seq<T>, ok: T -> bool, key: T -> int): (r: Option<nat>)
    ensures r.None? <==> forall j :: 0 <= j < |s| ==> !ok(s[j])
    ensures r.Some? ==> FirstLeast(s, ok, key, r.value)
  {
    ScanFrom(s, ok, key, 0, None)
  }

  /** The first-least position is unique, so the scan's contract fixes its answer. */
  lemma FirstLeastUnique<T>(s: seq<T>, ok: T -> bool, key: T -> int, k1: int, k2: int)
    requires FirstLeast(s, ok, key, k1) && FirstLeast(s, ok, key, k2)
    ensures k1 == k2
  {
  }
}
