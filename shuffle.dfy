/** The in-place Fisher-Yates shuffle used for both the combined question list
    and the answer options (Knuth, TAOCP vol. 2, section 3.4.2, Algorithm P).

    The random draw `Math.floor(Math.random() * (i + 1))` is replaced by an
    injected oracle: `picks[i]` is the index drawn at the step that handles
    position `i`, and it must lie in `[0, i]`. */
module Shuffle {

  /** The oracle can drive a shuffle of `n` elements: it has a draw for every
      position below `n`, and the draw for position `i` lies in `[0, i]`. */
  predicate Fits(picks: seq<nat>, n: nat) {
    n <= |picks| && forall i :: 0 <= i < n ==> picks[i] <= i
  }

  /** Exchanging the elements at `i` and `j`, as the destructuring assignment
      does (for `i == j` nothing changes). */
  function Swap<T>(s: seq<T>, i: nat, j: nat): (r: seq<T>)
    requires i < |s| && j < |s|
    ensures |r| == |s|
    ensures multiset(r) == multiset(s)
  {
    s[i := s[j]][j := s[i]]
  }

  /** The two positions are exchanged and every other element stays put. */
  lemma SwapElements<T>(s: seq<T>, i: nat, j: nat)
    requires i < |s| && j < |s|
    ensures Swap(s, i, j)[i] == s[j] && Swap(s, i, j)[j] == s[i]
    ensures forall k :: 0 <= k < |s| && k != i && k != j ==> Swap(s, i, j)[k] == s[k]
  {
  }

  /** The swaps the loop performs, in the order it performs them, when its
      counter starts at `i`: `(i, picks[i])`, `(i-1, picks[i-1])`, ..., `(1, picks[1])`. */
  function Trace(picks: seq<nat>, i: int): (r: seq<(nat, nat)>)
    requires i < |picks| || i <= 0
    ensures |r| == if i > 0 then i else 0
    ensures forall k :: 0 <= k < |r| ==> r[k].0 == i - k >= 1 && r[k].1 == picks[i - k]
    decreases i
  {
    if i <= 0 then [] else [(i, picks[i])] + Trace(picks, i - 1)
  }

  /** Every pair of `t` names two positions of a sequence of length `n`. */
  predicate InBounds(t: seq<(nat, nat)>, n: nat) {
    forall k :: 0 <= k < |t| ==> t[k].0 < n && t[k].1 < n
  }

  /** The sequence obtained by performing the swaps of `t` in order. */
  function ApplySwaps<T>(s: seq<T>, t: seq<(nat, nat)>): (r: seq<T>)
    requires InBounds(t, |s|)
    ensures |r| == |s|
    ensures multiset(r) == multiset(s)
    decreases |t|
  {
    if t == [] then s else ApplySwaps(Swap(s, t[0].0, t[0].1), t[1..])
  }

  /** The swaps of a whole shuffle of `n` elements stay inside the array. */
  lemma TraceInBounds(picks: seq<nat>, n: nat)
    requires Fits(picks, n)
    ensures InBounds(Trace(picks, n - 1), n)
  {
    var t := Trace(picks, n - 1);
    forall k | 0 <= k < |t| ensures t[k].0 < n && t[k].1 < n {
      assert picks[n - 1 - k] <= n - 1 - k;
    }
  }

  /** What `shuffleArray` leaves in an array whose contents were `s`. */
  function Shuffled<T>(s: seq<T>, picks: seq<nat>): (r: seq<T>)
    requires Fits(picks, |s|)
    ensures |r| == |s|
    ensures multiset(r) == multiset(s)
  {
    TraceInBounds(picks, |s|);
    ApplySwaps(s, Trace(picks, |s| - 1))
  }

  /** A shuffle of `n` elements makes exactly `n - 1` swaps (none when `n <= 1`),
      visits the positions `n-1` down to `1` once each, and every swap it makes
      exchanges two in-bounds positions `j <= i`. */
  lemma ShuffleSwaps(picks: seq<nat>, n: nat)
    requires Fits(picks, n)
    ensures var t := Trace(picks, n - 1);
      && |t| == (if n <= 1 then 0 else n - 1)
      && forall k :: 0 <= k < |t| ==> t[k].0 == n - 1 - k && t[k].1 <= t[k].0 < n
  {
    var t := Trace(picks, n - 1);
    forall k | 0 <= k < |t| ensures t[k].0 == n - 1 - k && t[k].1 <= t[k].0 < n {
      assert picks[n - 1 - k] <= n - 1 - k;
    }
  }

  /** Swaps that exchange a position with itself change nothing. */
  lemma {:induction false} ApplyIdleSwaps<T>(s: seq<T>, t: seq<(nat, nat)>)
    requires InBounds(t, |s|)
    requires forall k :: 0 <= k < |t| ==> t[k].0 == t[k].1
    ensures ApplySwaps(s, t) == s
    decreases |t|
  {
    if t != [] {
      assert Swap(s, t[0].0, t[0].1) == s;
      ApplyIdleSwaps(s, t[1..]);
    }
  }

  /** The oracle alone decides the order: an oracle that always draws the
      position itself leaves the input exactly as it was. */
  lemma ShuffleIdentityPicks<T>(s: seq<T>, picks: seq<nat>)
    requires |s| <= |picks|
    requires forall i :: 0 <= i < |s| ==> picks[i] == i
    ensures Fits(picks, |s|) && Shuffled(s, picks) == s
  {
    TraceInBounds(picks, |s|);
    ApplyIdleSwaps(s, Trace(picks, |s| - 1));
  }

  /** `shuffleArray`: shuffles `a` in place and returns the same array. */
  method ShuffleArray<T>(a: array<T>, picks: seq<nat>) returns (r: array<T>)
    requires Fits(picks, a.Length)
    modifies a
    ensures r == a
    ensures a[..] == Shuffled(old(a[..]), picks)
    ensures multiset(a[..]) == multiset(old(a[..]))
  {
    var i := a.Length - 1;
    TraceInBounds(picks, a.Length);
    while i > 0
      invariant -1 <= i < a.Length
      invariant InBounds(Trace(picks, i), a.Length)
      invariant ApplySwaps(a[..], Trace(picks, i)) == Shuffled(old(a[..]), picks)
    {
      var j := picks[i];
      ghost var before := a[..];
      a[i], a[j] := a[j], a[i];
      SwapElements(before, i, j);
      assert a[..] == Swap(before, i, j);
      i := i - 1;
    }
    r := a;
  }
}
