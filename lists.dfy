/**
 Order-preserving selection from a sequence: the model of JavaScript's
 `Array.prototype.filter` as the tracker uses it for the filtered view, for
 deletion and for the per-status counts.
 */
module Lists {

  /** `s.filter(p)`: the elements of `s` that satisfy `p`, in their order. */
  function Keep<T>(s: seq<T>, p: T -> bool): (r: seq<T>)
    ensures |r| <= |s|
    ensures forall k :: 0 <= k < |r| ==> r[k] in s && p(r[k])
    ensures forall i :: 0 <= i < |s| && p(s[i]) ==> s[i] in r
  {
    if s == [] then []
    else (if p(s[0]) then [s[0]] else []) + Keep(s[1..], p)
  }

  /** The positions `i` of `s`, from `from` upwards, at which `p(s[i])` holds. */
  ghost function KeptFrom<T>(s: seq<T>, p: T -> bool, from: nat): seq<nat>
    requires from <= |s|
    decreases |s| - from
  {
    if from == |s| then []
    else (if p(s[from]) then [from] else []) + KeptFrom(s, p, from + 1)
  }

  /** The positions of `s` that `Keep(s, p)` retains. */
  ghost function KeptIndices<T>(s: seq<T>, p: T -> bool): seq<nat>
  {
    KeptFrom(s, p, 0)
  }

  /**
   `r` is `s` read at the strictly increasing positions `idx`: `r` is an
   order-preserving subsequence of `s`.
   */
  ghost predicate Selects<T>(idx: seq<nat>, r: seq<T>, s: seq<T>)
  {
    && |idx| == |r|
    && (forall k :: 0 <= k < |idx| ==> idx[k] < |s| && r[k] == s[idx[k]])
    && (forall a, b :: 0 <= a < b < |idx| ==> idx[a] < idx[b])
  }

  /** Putting an earlier position in front of a selection keeps it a selection. */
  lemma SelectsCons<T>(i: nat, idx: seq<nat>, r: seq<T>, s: seq<T>)
    requires i < |s| && Selects(idx, r, s)
    requires forall k :: 0 <= k < |idx| ==> i < idx[k]
    ensures Selects([i] + idx, [s[i]] + r, s)
  {
    var idx', r' := [i] + idx, [s[i]] + r;
    forall k | 0 < k < |idx'| ensures idx'[k] < |s| && r'[k] == s[idx'[k]] {
      assert idx'[k] == idx[k - 1] && r'[k] == r[k - 1];
    }
    forall a, b | 0 <= a < b < |idx'| ensures idx'[a] < idx'[b] {
      assert idx'[b] == idx[b - 1];
      if a > 0 {
        assert idx'[a] == idx[a - 1];
      }
    }
  }

  lemma {:induction false} KeptFromSelects<T>(s: seq<T>, p: T -> bool, from: nat)
    requires from <= |s|
    ensures Selects(KeptFrom(s, p, from), Keep(s[from..], p), s)
    ensures forall k :: 0 <= k < |KeptFrom(s, p, from)| ==> from <= KeptFrom(s, p, from)[k]
    ensures forall i :: from <= i < |s| ==> (i in KeptFrom(s, p, from) <==> p(s[i]))
    decreases |s| - from
  {
    if from < |s| {
      KeptFromSelects(s, p, from + 1);
      var rest, kept := KeptFrom(s, p, from + 1), Keep(s[from + 1..], p);
      assert s[from..][1..] == s[from + 1..];
      assert Keep(s[from..], p) == (if p(s[from]) then [s[from]] else []) + kept;
      if p(s[from]) {
        SelectsCons(from, rest, kept, s);
      }
    } else {
      assert s[from..] == [];
    }
  }

  /**
   The full meaning of `Keep`: it reads `s` at increasing positions, and the
   positions it reads are exactly those whose element satisfies `p`.
   */
  lemma KeepSelects<T>(s: seq<T>, p: T -> bool)
    ensures Selects(KeptIndices(s, p), Keep(s, p), s)
    ensures forall i :: 0 <= i < |s| ==> (i in KeptIndices(s, p) <==> p(s[i]))
  {
    KeptFromSelects(s, p, 0);
    assert s[0..] == s;
  }

  /**
   One instance of the ordering `Selects` promises, taken at `int` positions
   so that a caller can draw it in a branch it then closes with `assert false`.
   */
  lemma SelectsIncreasing<T>(idx: seq<nat>, r: seq<T>, s: seq<T>, a: int, b: int)
    requires Selects(idx, r, s) && 0 <= a < b < |idx|
    ensures idx[a] < idx[b]
  {
  }

  /** A selection that reads one position only is that one element. */
  lemma SelectsSingle<T>(idx: seq<nat>, r: seq<T>, s: seq<T>, i: nat)
    requires Selects(idx, r, s) && i < |s|
    requires forall j :: 0 <= j < |s| ==> (j in idx <==> j == i)
    ensures r == [s[i]]
  {
    forall k | 0 <= k < |idx| ensures idx[k] == i {
      assert idx[k] in idx;
    }
    if |idx| > 1 {
      SelectsIncreasing(idx, r, s, 0, 1);
      assert false;
    }
    assert i in idx;
  }

  /** Keeping by a predicate every element satisfies changes nothing. */
  lemma {:induction false} KeepAll<T>(s: seq<T>, p: T -> bool)
    requires forall i :: 0 <= i < |s| ==> p(s[i])
    ensures Keep(s, p) == s
  {
    if s != [] {
      KeepAll(s[1..], p);
    }
  }

  /** Keeping is idempotent: filtering an already filtered list again keeps it. */
  lemma KeepIdempotent<T>(s: seq<T>, p: T -> bool)
    ensures Keep(Keep(s, p), p) == Keep(s, p)
  {
    KeepAll(Keep(s, p), p);
  }
}
