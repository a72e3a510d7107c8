/**
 The circular list of buffers kept by bio.c: buffers 0..NBUF-1 and one
 sentinel node HEAD, linked in both directions.  `ring` is the abstract
 order, most recently released buffer first.
 */
module Ring {
  const NBUF := 30
  const HEAD := NBUF

  /** The node at position k of the cycle; positions -1 and |ring| are the sentinel. */
  function At(ring: seq<nat>, k: int): nat {
    if 0 <= k < |ring| then ring[k] else HEAD
  }

  predicate Distinct(s: seq<nat>) {
    forall i, j :: 0 <= i < j < |s| ==> s[i] != s[j]
  }

  /** `ring` lists every buffer exactly once. */
  predicate Permutation(ring: seq<nat>) {
    && |ring| == NBUF
    && (forall i :: 0 <= i < |ring| ==> ring[i] < NBUF)
    && Distinct(ring)
    && (forall b :: 0 <= b < NBUF ==> b in ring)
  }

  /** The link fields walk `ring` forwards and backwards, through the sentinel. */
  predicate Threaded(ring: seq<nat>, next: seq<nat>, prev: seq<nat>) {
    && |next| == NBUF + 1 && |prev| == NBUF + 1
    && (forall i :: 0 <= i < |ring| ==> ring[i] < NBUF)
    && (forall k :: -1 <= k < |ring| ==> next[At(ring, k)] == At(ring, k + 1))
    && (forall k :: 0 <= k <= |ring| ==> prev[At(ring, k)] == At(ring, k - 1))
  }

  predicate Linked(ring: seq<nat>, next: seq<nat>, prev: seq<nat>) {
    Permutation(ring) && Threaded(ring, next, prev)
  }

  /** binit's step: a new buffer becomes the first of the ring. */
  lemma PushFront(ring: seq<nat>, b: nat, next: seq<nat>, prev: seq<nat>)
    requires Threaded(ring, next, prev) && b < NBUF && b !in ring && Distinct(ring)
    ensures next[HEAD] <= NBUF
    ensures Threaded([b] + ring, next[b := next[HEAD]][HEAD := b], prev[b := HEAD][next[HEAD] := b])
    ensures Distinct([b] + ring)
  {
    var r := [b] + ring;
    var n, q := next[b := next[HEAD]][HEAD := b], prev[b := HEAD][At(ring, 0) := b];
    assert next[At(ring, -1)] == At(ring, 0);
    forall k | -1 <= k < |r| ensures n[At(r, k)] == At(r, k + 1) {
      if k > 0 {
        assert At(r, k) == At(ring, k - 1) == ring[k - 1];
        assert next[At(ring, k - 1)] == At(ring, k);
      }
    }
    forall k | 0 <= k <= |r| ensures q[At(r, k)] == At(r, k - 1) {
      if k > 0 {
        assert At(r, k) == At(ring, k - 1);
        assert prev[At(ring, k - 1)] == At(ring, k - 2);
      }
    }
  }

  function MoveToFront(ring: seq<nat>, p: nat): (r: seq<nat>)
    requires p < |ring|
    ensures |r| == |ring| && r[0] == ring[p]
    ensures forall k :: 0 < k <= p ==> r[k] == ring[k - 1]
    ensures forall k :: p < k < |ring| ==> r[k] == ring[k]
  {
    [ring[p]] + ring[..p] + ring[p + 1..]
  }

  /** Where the buffer at position k of the old order sits after the move. */
  function MovedTo(p: nat, k: nat): nat {
    if k == p then 0 else if k < p then k + 1 else k
  }

  lemma MoveKeepsPermutation(ring: seq<nat>, p: nat)
    requires Permutation(ring) && p < NBUF
    ensures Permutation(MoveToFront(ring, p))
  {
    var r := MoveToFront(ring, p);
    forall b | 0 <= b < NBUF ensures b in r {
      assert b in ring;
      var k :| 0 <= k < |ring| && ring[k] == b;
      assert r[MovedTo(p, k)] == b;
    }
  }

  /** brelse's six pointer writes, in the order the source makes them. */
  function RelinkNext(b: nat, next: seq<nat>, prev: seq<nat>): seq<nat>
    requires |next| == |prev| == NBUF + 1 && b <= NBUF && prev[b] <= NBUF
  {
    var unlinked := next[prev[b] := next[b]];
    unlinked[b := unlinked[HEAD]][HEAD := b]
  }

  function RelinkPrev(b: nat, next: seq<nat>, prev: seq<nat>): seq<nat>
    requires |next| == |prev| == NBUF + 1 && b <= NBUF && prev[b] <= NBUF && next[b] <= NBUF
    requires next[prev[b] := next[b]][HEAD] <= NBUF
  {
    prev[next[b] := prev[b]][b := HEAD][next[prev[b] := next[b]][HEAD] := b]
  }

  lemma RelinkMovesToFront(ring: seq<nat>, p: nat, next: seq<nat>, prev: seq<nat>)
    requires Linked(ring, next, prev) && p < NBUF
    ensures prev[ring[p]] <= NBUF && next[ring[p]] <= NBUF
    ensures next[prev[ring[p]] := next[ring[p]]][HEAD] <= NBUF
    ensures next[ring[p]] != ring[p] && next[prev[ring[p]] := next[ring[p]]][HEAD] != ring[p]
    ensures Linked(MoveToFront(ring, p), RelinkNext(ring[p], next, prev), RelinkPrev(ring[p], next, prev))
  {
    var b := ring[p];
    assert b == At(ring, p);
    assert prev[b] == At(ring, p - 1) && next[b] == At(ring, p + 1);
    assert next[At(ring, -1)] == At(ring, 0);
    var r := MoveToFront(ring, p);
    MoveKeepsPermutation(ring, p);
    RelinkForwards(ring, p, next, prev);
    RelinkBackwards(ring, p, next, prev);
  }

  ghost function PositionOf(ring: seq<nat>, b: nat): (p: nat)
    requires Permutation(ring) && b < NBUF
    ensures p < NBUF && ring[p] == b
  {
    assert b in ring;
    var p :| 0 <= p < |ring| && ring[p] == b; p
  }

  lemma RelinkForwards(ring: seq<nat>, p: nat, next: seq<nat>, prev: seq<nat>)
    requires Linked(ring, next, prev) && p < NBUF && prev[ring[p]] <= NBUF
    ensures forall k :: -1 <= k < NBUF ==>
      RelinkNext(ring[p], next, prev)[At(MoveToFront(ring, p), k)] == At(MoveToFront(ring, p), k + 1)
  {
    var b := ring[p];
    var r := MoveToFront(ring, p);
    var n := RelinkNext(b, next, prev);
    assert b == At(ring, p) && prev[b] == At(ring, p - 1);
    assert next[At(ring, -1)] == At(ring, 0);
    forall k | -1 <= k < NBUF ensures n[At(r, k)] == At(r, k + 1) {
      if 0 < k < p {
        assert next[At(ring, k - 1)] == At(ring, k);
      } else if k == p && p > 0 {
        assert At(r, k) == At(ring, p - 1);
        assert next[At(ring, p)] == At(ring, p + 1);
      } else if k > p {
        assert next[At(ring, k)] == At(ring, k + 1);
      }
    }
  }

  lemma RelinkBackwards(ring: seq<nat>, p: nat, next: seq<nat>, prev: seq<nat>)
    requires Linked(ring, next, prev) && p < NBUF && prev[ring[p]] <= NBUF && next[ring[p]] <= NBUF
    requires next[prev[ring[p]] := next[ring[p]]][HEAD] <= NBUF
    ensures forall k :: 0 <= k <= NBUF ==>
      RelinkPrev(ring[p], next, prev)[At(MoveToFront(ring, p), k)] == At(MoveToFront(ring, p), k - 1)
  {
    var b := ring[p];
    var r := MoveToFront(ring, p);
    var q := RelinkPrev(b, next, prev);
    assert b == At(ring, p) && prev[b] == At(ring, p - 1) && next[b] == At(ring, p + 1);
    assert next[At(ring, -1)] == At(ring, 0);
    forall k | 0 <= k <= NBUF ensures q[At(r, k)] == At(r, k - 1) {
      if k == 0 {
      } else if k <= p {
        assert At(r, k) == At(ring, k - 1);
        assert prev[At(ring, k - 1)] == At(ring, k - 2);
      } else {
        assert At(r, k) == At(ring, k);
        assert prev[At(ring, k)] == At(ring, k - 1);
      }
    }
  }
}
