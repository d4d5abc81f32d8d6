/**
 Which request to serve next, by where the disk head is: the choice the anticipatory and the
 CFQ schedulers make between two requests, and the shortcut of looking only at the two
 neighbours of the request just dispatched.
 */
module SeekChoice {
  import opened Lists

  /** Where the head is, how far back it may go, and what a seek back costs. */
  datatype Head = Head(last: nat, maxBack: nat, penalty: nat)

  /** Behind the head and too far back. */
  predicate Wraps(h: Head, s: nat) {
    s < h.last && s + h.maxBack < h.last
  }

  function Distance(h: Head, s: nat): (d: nat) {
    if s >= h.last then s - h.last else (h.last - s) * h.penalty
  }

  /** as_choose_req on two requests of one direction, known by their sectors. */
  function Choose(h: Head, rq1: Option<nat>, rq2: Option<nat>): (r: Option<nat>) {
    if rq1 == None || rq1 == rq2 then rq2
    else if rq2 == None then rq1
    else
      var s1, s2 := rq1.value, rq2.value;
      if !Wraps(h, s1) && Wraps(h, s2) then rq1
      else if !Wraps(h, s2) && Wraps(h, s1) then rq2
      else if Wraps(h, s1) && Wraps(h, s2) then (if s1 <= s2 then rq1 else rq2)
      else if Distance(h, s1) < Distance(h, s2) then rq1
      else if Distance(h, s2) < Distance(h, s1) then rq2
      else if s1 >= s2 then rq1 else rq2
  }

  /** s1 is served before s2. */
  predicate Prefers(h: Head, s1: nat, s2: nat) {
    Choose(h, Some(s1), Some(s2)) == Some(s1)
  }

  /** A total order on distinct sectors: one of two is preferred, whichever comes first. */
  lemma Total(h: Head, s1: nat, s2: nat)
    requires s1 != s2
    ensures Prefers(h, s1, s2) <==> !Prefers(h, s2, s1)
    ensures Choose(h, Some(s1), Some(s2)) == Choose(h, Some(s2), Some(s1))
  {
  }

  lemma Transitive(h: Head, s1: nat, s2: nat, s3: nat)
    requires s1 != s2 && s2 != s3 && s1 != s3 && Prefers(h, s1, s2) && Prefers(h, s2, s3)
    ensures Prefers(h, s1, s3)
  {
  }

  // ---- scanning ----

  /** The choice among all of them, one after another. */
  function Best(h: Head, queued: seq<nat>): (r: Option<nat>) {
    if queued == [] then None
    else Choose(h, Best(h, queued[..|queued| - 1]), Some(queued[|queued| - 1]))
  }

  predicate Beats(h: Head, s: nat, queued: seq<nat>) {
    s in queued && forall x :: x in queued && x != s ==> Prefers(h, s, x)
  }

  /** The scan finds the one preferred to every other, whatever the order. */
  lemma {:induction false} BestBeats(h: Head, queued: seq<nat>)
    requires queued != []
    ensures Best(h, queued).Some? && Beats(h, Best(h, queued).value, queued)
  {
    var n := |queued| - 1;
    var rest, x := queued[..n], queued[n];
    assert queued == rest + [x];
    if rest == [] {
      assert Best(h, rest) == None;
    } else {
      BestBeats(h, rest);
      var b := Best(h, rest).value;
      var r := Best(h, queued).value;
      if b != x {
        Total(h, b, x);
        forall y | y in queued && y != r ensures Prefers(h, r, y) {
          if r == x && y != b { Transitive(h, x, b, y); }
        }
      }
    }
  }

  lemma BeatsUnique(h: Head, a: nat, b: nat, queued: seq<nat>)
    requires Beats(h, a, queued) && Beats(h, b, queued)
    ensures a == b
  {
    if a != b { Total(h, a, b); }
  }

  // ---- the two neighbours ----

  /** The tree: sectors in order. */
  predicate Sorted(tree: seq<nat>) {
    forall i, j :: 0 <= i < j < |tree| ==> tree[i] < tree[j]
  }

  function Others(tree: seq<nat>, k: nat): (r: seq<nat>)
    requires k < |tree|
  {
    tree[..k] + tree[k + 1..]
  }

  /** as_find_next_rq after request k: its successor, or else the first, and its predecessor. */
  function FindNext(h: Head, tree: seq<nat>, k: nat): (r: Option<nat>)
    requires k < |tree|
  {
    var prev := if k > 0 then Some(tree[k - 1]) else None;
    var next := if k + 1 < |tree| then Some(tree[k + 1]) else if k > 0 then Some(tree[0]) else None;
    Choose(h, next, prev)
  }

  /** How many requests start behind the head. */
  function Behind(h: Head, tree: seq<nat>): (n: nat)
    ensures n <= |tree|
    ensures forall i :: 0 <= i < n ==> tree[i] < h.last
    ensures n < |tree| ==> tree[n] >= h.last
  {
    if tree == [] || tree[0] >= h.last then 0 else 1 + Behind(h, tree[1..])
  }

  /** Behind the head: the nearest is preferred, unless even it is too far back. */
  lemma BehindNearest(h: Head, near: nat, far: nat)
    requires far < near < h.last && !Wraps(h, near)
    ensures Prefers(h, near, far)
  {
    MoreFar(h.last - near, h.last - far, h.penalty);
  }

  lemma MoreFar(a: nat, b: nat, p: nat)
    requires a <= b
    ensures a * p <= b * p
  {
  }

  lemma TooFar(h: Head, first: nat, s: nat)
    requires first < s < h.last && Wraps(h, s)
    ensures Wraps(h, first) && Prefers(h, first, s)
  {
  }

  /** In front of the head the nearest is preferred. */
  lemma AheadNearest(h: Head, near: nat, far: nat)
    requires h.last <= near < far
    ensures Prefers(h, near, far)
  {
  }

  lemma AheadBeatsWrapped(h: Head, ahead: nat, behind: nat)
    requires h.last <= ahead && behind < h.last && Wraps(h, behind)
    ensures Prefers(h, ahead, behind)
  {
  }

  lemma OthersHas(tree: seq<nat>, k: nat, x: nat)
    requires k < |tree| && Sorted(tree)
    ensures x in Others(tree, k) <==> exists i :: 0 <= i < |tree| && i != k && tree[i] == x
  {
    if x in Others(tree, k) {
      var j :| 0 <= j < |Others(tree, k)| && Others(tree, k)[j] == x;
      assert tree[if j < k then j else j + 1] == x;
    }
    if i :| 0 <= i < |tree| && i != k && tree[i] == x {
      assert Others(tree, k)[if i < k then i else i - 1] == x;
    }
  }

  /** Where the best of the requests other than k is: the nearest behind the head or the
      nearest in front of it, and the first one if all are too far back. */
  function Nearest(h: Head, tree: seq<nat>, k: nat): (p: nat)
    requires k < |tree| && |tree| > 1
    ensures p < |tree| && p != k
  {
    var n: int := Behind(h, tree);
    var b, a := if k + 1 == n then n - 2 else n - 1, if k == n then n + 1 else n;
    if b >= 0 && !Wraps(h, tree[b]) then (if a < |tree| && Prefers(h, tree[a], tree[b]) then a else b)
    else if a < |tree| then a
    else if k == 0 then 1 else 0
  }

  lemma NearestBehind(h: Head, tree: seq<nat>, b: nat, i: nat)
    requires Sorted(tree) && i < b < |tree| && tree[b] < h.last
    ensures !Wraps(h, tree[b]) ==> Prefers(h, tree[b], tree[i])
    ensures Wraps(h, tree[b]) ==> Wraps(h, tree[i])
  {
    if Wraps(h, tree[b]) { TooFar(h, tree[i], tree[b]); } else { BehindNearest(h, tree[b], tree[i]); }
  }

  /** The one too far back that is served first is the first. */
  lemma AllTooFar(h: Head, tree: seq<nat>, k: nat, i: nat)
    requires Sorted(tree) && |tree| > 1 && k < |tree| && i < |tree| && i != k
    requires forall j :: 0 <= j < |tree| && j != k ==> Wraps(h, tree[j])
    ensures var p := if k == 0 then 1 else 0; i == p || Prefers(h, tree[p], tree[i])
  {
    var p := if k == 0 then 1 else 0;
    if i != p { TooFar(h, tree[p], tree[i]); }
  }

  /** The nearest behind the head is within reach. */
  lemma PreferredInReach(h: Head, tree: seq<nat>, b: nat, a: nat, i: nat)
    requires Sorted(tree) && b < a && b < |tree| && tree[b] < h.last && !Wraps(h, tree[b])
    requires a < |tree| ==> tree[a] >= h.last
    requires i < |tree| && (i <= b || i >= a)
    ensures var p := if a < |tree| && Prefers(h, tree[a], tree[b]) then a else b;
            i == p || Prefers(h, tree[p], tree[i])
  {
    hide Distance;
    if i < b { NearestBehind(h, tree, b, i); }
    if a < |tree| {
      Total(h, tree[a], tree[b]);
      if i > a { AheadNearest(h, tree[a], tree[i]); }
      if Prefers(h, tree[a], tree[b]) {
        if i < b { Transitive(h, tree[a], tree[b], tree[i]); }
      } else if i > a {
        Transitive(h, tree[b], tree[a], tree[i]);
      }
    }
  }

  lemma AheadFrom(h: Head, tree: seq<nat>, n: nat, a: nat)
    requires Sorted(tree) && n <= a < |tree| && tree[n] >= h.last
    ensures tree[a] >= h.last
  {
  }

  lemma BehindTooFar(h: Head, tree: seq<nat>, k: nat, n: nat, b: int)
    requires Sorted(tree) && n <= |tree| && b == (if k + 1 == n then n - 2 else n - 1)
    requires b >= 0 ==> tree[b] < h.last && Wraps(h, tree[b])
    ensures forall j :: 0 <= j < n && j != k ==> Wraps(h, tree[j])
  {
    forall j | 0 <= j < n && j != k ensures Wraps(h, tree[j]) {
      if j < b { NearestBehind(h, tree, b, j); }
    }
  }

  /** Everything behind the head is out of reach. */
  lemma PreferredAhead(h: Head, tree: seq<nat>, a: nat, i: nat)
    requires Sorted(tree) && a < |tree| && tree[a] >= h.last && i < |tree|
    requires i < a ==> tree[i] < h.last && Wraps(h, tree[i])
    ensures i == a || Prefers(h, tree[a], tree[i])
  {
    if i < a { AheadBeatsWrapped(h, tree[a], tree[i]); }
    if i > a { AheadNearest(h, tree[a], tree[i]); }
  }

  /** It is preferred to all the others. */
  lemma NearestPreferred(h: Head, tree: seq<nat>, k: nat, i: nat)
    requires Sorted(tree) && |tree| > 1 && k < |tree| && i < |tree| && i != k
    ensures i == Nearest(h, tree, k) || Prefers(h, tree[Nearest(h, tree, k)], tree[i])
  {
    hide Prefers, Sorted, Wraps;
    var n: int := Behind(h, tree);
    var b, a := if k + 1 == n then n - 2 else n - 1, if k == n then n + 1 else n;
    if a < |tree| { AheadFrom(h, tree, n, a); }
    if b >= 0 && !Wraps(h, tree[b]) {
      PreferredInReach(h, tree, b, a, i);
    } else {
      BehindTooFar(h, tree, k, n, b);
      if a < |tree| { PreferredAhead(h, tree, a, i); } else { AllTooFar(h, tree, k, i); }
    }
  }

  /** It is what scanning all of them finds. */
  lemma NearestIsBest(h: Head, tree: seq<nat>, k: nat)
    requires Sorted(tree) && |tree| > 1 && k < |tree|
    ensures Best(h, Others(tree, k)) == Some(tree[Nearest(h, tree, k)])
  {
    var rest, r := Others(tree, k), tree[Nearest(h, tree, k)];
    OthersHas(tree, k, r);
    assert rest != [];
    forall x | x in rest && x != r ensures Prefers(h, r, x) {
      OthersHas(tree, k, x);
      var i :| 0 <= i < |tree| && i != k && tree[i] == x;
      NearestPreferred(h, tree, k, i);
    }
    BestBeats(h, rest);
    BeatsUnique(h, r, Best(h, rest).value, rest);
  }

  /** Where the shortcut looks. */
  function Looked(h: Head, tree: seq<nat>, k: nat): (p: nat)
    requires k < |tree| && |tree| > 1
    ensures p < |tree|
  {
    var next := if k + 1 < |tree| then k + 1 else 0;
    if k == 0 || Prefers(h, tree[next], tree[k - 1]) then next else k - 1
  }

  lemma LookedIs(h: Head, tree: seq<nat>, k: nat)
    requires k < |tree| && |tree| > 1
    ensures FindNext(h, tree, k) == Some(tree[Looked(h, tree, k)])
  {
  }

  /** When looking at the two neighbours is enough; n requests start behind the head.  Always
      if the head is right behind or right in front of the request dispatched.  If other
      requests start between it and the head: there is just one of those, within reach, and
      nothing in front of the head is preferred to it; or all are out of reach and the request
      dispatched was the first or the second.  If other requests start between the head and
      it: there is just one of those, and nothing behind the head is preferred to it; or it
      was the last one, so that the first is looked at, and that is the one to serve. */
  predicate NeighboursSuffice(h: Head, tree: seq<nat>, k: nat)
    requires k < |tree|
  {
    var n := Behind(h, tree);
    if k == n || k + 1 == n then true
    else if k < n then
      if Wraps(h, tree[n - 1]) then n == |tree| && k <= 1
      else n == k + 2 && (n == |tree| || Prefers(h, tree[n - 1], tree[n]))
    else
      || (k == n + 1 && (n == 0 || Prefers(h, tree[n], tree[n - 1])))
      || (k + 1 == |tree| && (n == 0 || (n == 1 && Prefers(h, tree[0], tree[1]))))
  }

  lemma LookedWithin(h: Head, tree: seq<nat>, k: nat)
    requires Sorted(tree) && |tree| > 1 && k < |tree| && k + 1 < Behind(h, tree)
    ensures Looked(h, tree, k) == Nearest(h, tree, k) <==> NeighboursSuffice(h, tree, k)
  {
    var n := Behind(h, tree);
    if k > 0 {
      NearestBehind(h, tree, k + 1, k - 1);
      if Wraps(h, tree[k + 1]) { TooFar(h, tree[k - 1], tree[k + 1]); Total(h, tree[k - 1], tree[k + 1]); }
    }
    if k + 1 < n - 1 {
      NearestBehind(h, tree, n - 1, k + 1);
    }
    if n < |tree| { Total(h, tree[n], tree[n - 1]); }
  }

  lemma LookedBeyond(h: Head, tree: seq<nat>, k: nat)
    requires Sorted(tree) && |tree| > 1 && k < |tree| && k > Behind(h, tree)
    ensures Looked(h, tree, k) == Nearest(h, tree, k) <==> NeighboursSuffice(h, tree, k)
  {
    var n := Behind(h, tree);
    var p := Nearest(h, tree, k);
    if k + 1 < |tree| {
      AheadNearest(h, tree[k - 1], tree[k + 1]);
      Total(h, tree[k - 1], tree[k + 1]);
    } else {
      if p != 0 { PreferredOver(h, tree, k, 0); }
      if p != k - 1 { PreferredOver(h, tree, k, k - 1); }
    }
    if n > 0 { Total(h, tree[n], tree[n - 1]); }
    if n > 0 && Wraps(h, tree[n - 1]) { AheadBeatsWrapped(h, tree[n], tree[n - 1]); }
  }

  lemma PreferredOver(h: Head, tree: seq<nat>, k: nat, i: nat)
    requires Sorted(tree) && |tree| > 1 && k < |tree| && i < |tree| && i != k && i != Nearest(h, tree, k)
    ensures var p := Nearest(h, tree, k); Prefers(h, tree[p], tree[i]) && !Prefers(h, tree[i], tree[p])
  {
    NearestPreferred(h, tree, k, i);
    Total(h, tree[Nearest(h, tree, k)], tree[i]);
  }

  lemma LookedAround(h: Head, tree: seq<nat>, k: nat)
    requires Sorted(tree) && |tree| > 1 && k < |tree| && (k == Behind(h, tree) || k + 1 == Behind(h, tree))
    ensures Looked(h, tree, k) == Nearest(h, tree, k)
  {
    hide Sorted, Choose, Wraps;
    var p := Nearest(h, tree, k);
    var next := if k + 1 < |tree| then k + 1 else 0;
    if p != next { PreferredOver(h, tree, k, next); }
    if k > 0 && p != k - 1 { PreferredOver(h, tree, k, k - 1); }
  }

  /** After a request has left the tree, wherever the head is, looking at its two neighbours
      finds what scanning all the requests that are left would find in exactly these cases. */
  lemma NeighboursExactlyWhen(h: Head, tree: seq<nat>, k: nat)
    requires k < |tree| && Sorted(tree)
    ensures FindNext(h, tree, k) == Best(h, Others(tree, k)) <==> NeighboursSuffice(h, tree, k)
  {
    var n := Behind(h, tree);
    if |tree| > 1 {
      NearestIsBest(h, tree, k);
      LookedIs(h, tree, k);
      if k == n || k + 1 == n { LookedAround(h, tree, k); }
      else if k < n { LookedWithin(h, tree, k); }
      else { LookedBeyond(h, tree, k); }
    }
  }

  /** In particular when no other request starts within the one dispatched, which ends at
      the head. */
  lemma TwoNeighbours(h: Head, tree: seq<nat>, k: nat)
    requires k < |tree| && Sorted(tree)
    requires tree[k] <= h.last && forall i :: k < i < |tree| ==> tree[i] >= h.last
    ensures FindNext(h, tree, k) == Best(h, Others(tree, k))
  {
    NeighboursExactlyWhen(h, tree, k);
  }

  /** With a request that starts inside the one dispatched the shortcut can miss the best one:
      the head is at 20, after a request from 10 to 20; the neighbour is 11, but 21 is nearer. */
  lemma OverlapMisses()
    ensures var h, tree := Head(20, 1048576, 2), [10, 11, 21];
            Sorted(tree) && FindNext(h, tree, 0) == Some(11) && Best(h, Others(tree, 0)) == Some(21)
  {
    var h, tree := Head(20, 1048576, 2), [10, 11, 21];
    assert Others(tree, 0) == [11, 21];
    assert [11, 21][..1] == [11] && [11][..0] == [];
    assert Best(h, [11]) == Some(11);
  }

  // ---- CFQ ----

  datatype Request = Request(sector: nat, sync: bool, meta: bool)

  /** cfq_choose_req: synchronous first, then metadata, then by the head. */
  function CfqChoose(h: Head, rq1: Request, rq2: Request): (r: Request) {
    if rq1.sync != rq2.sync then (if rq1.sync then rq1 else rq2)
    else if rq1.meta != rq2.meta then (if rq1.meta then rq1 else rq2)
    else if Prefers(h, rq1.sector, rq2.sector) then rq1 else rq2
  }

  /** CFQ's choice too is an order on requests with distinct sectors. */
  lemma CfqOrder(h: Head, a: Request, b: Request, c: Request)
    requires a.sector != b.sector && b.sector != c.sector && a.sector != c.sector
    ensures CfqChoose(h, a, b) == CfqChoose(h, b, a)
    ensures CfqChoose(h, a, b) == a && CfqChoose(h, b, c) == b ==> CfqChoose(h, a, c) == a
  {
    Total(h, a.sector, b.sector);
    if Prefers(h, a.sector, b.sector) && Prefers(h, b.sector, c.sector) { Transitive(h, a.sector, b.sector, c.sector); }
  }
}
