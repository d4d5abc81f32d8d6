/**
 The tree of requests sorted by sector that the elevator offers to the I/O schedulers, as the
 sequence of its nodes in order.
 */
module SectorTree {
  import opened Lists

  type Id = int

  datatype Request = Request(write: bool, sector: nat, len: nat, expire: int)

  type Requests = map<Id, Request>

  function Of(rqs: Requests, id: Id): (rq: Request) {
    if id in rqs then rqs[id] else Request(false, 0, 0, 0)
  }

  /** How many requests of the tree start before a sector. */
  function Below(rqs: Requests, tree: seq<Id>, sector: nat): (i: nat)
    ensures i <= |tree|
    ensures forall k :: 0 <= k < i ==> Of(rqs, tree[k]).sector < sector
    ensures i < |tree| ==> Of(rqs, tree[i]).sector >= sector
  {
    if tree == [] || Of(rqs, tree[0]).sector >= sector then 0 else 1 + Below(rqs, tree[1..], sector)
  }

  /** rb_next. */
  function After(tree: seq<Id>, id: Id): (next: Option<Id>) {
    if tree == [] then None
    else if tree[0] == id then (if |tree| > 1 then Some(tree[1]) else None)
    else After(tree[1..], id)
  }

  /** elv_rb_add's search: a request that starts at the same sector. */
  function AliasOf(rqs: Requests, tree: seq<Id>, sector: nat): (alias: Option<Id>)
    ensures alias.Some? ==> alias.value in tree && Of(rqs, alias.value).sector == sector
  {
    var i := Below(rqs, tree, sector);
    if i < |tree| && Of(rqs, tree[i]).sector == sector then Some(tree[i]) else None
  }

  function Insert(rqs: Requests, tree: seq<Id>, id: Id): (r: seq<Id>) {
    var i := Below(rqs, tree, Of(rqs, id).sector);
    tree[..i] + [id] + tree[i..]
  }

  predicate Sorted(rqs: Requests, tree: seq<Id>) {
    || tree == []
    || ((forall x :: x in tree[1..] ==> Of(rqs, tree[0]).sector < Of(rqs, x).sector) && Sorted(rqs, tree[1..]))
  }

  lemma {:induction false} WithoutSorted(rqs: Requests, tree: seq<Id>, id: Id)
    requires Sorted(rqs, tree)
    ensures Sorted(rqs, Without(tree, id))
  {
    if tree != [] {
      WithoutSorted(rqs, tree[1..], id);
      WithoutAll(tree[1..], id);
      assert tree[0] != id ==> Without(tree, id)[1..] == Without(tree[1..], id);
    }
  }

  lemma {:induction false} AfterOther(rqs: Requests, tree: seq<Id>, id: Id)
    requires Sorted(rqs, tree)
    ensures After(tree, id).Some? ==> After(tree, id).value in tree && After(tree, id).value != id
  {
    if tree != [] {
      AfterOther(rqs, tree[1..], id);
    }
  }

  lemma InsertedHas(rqs: Requests, tree: seq<Id>, id: Id)
    ensures forall x :: x in Insert(rqs, tree, id) <==> x in tree || x == id
  {
    InsertHas(tree, Below(rqs, tree, Of(rqs, id).sector), id);
  }

  lemma {:induction false} InsertSorted(rqs: Requests, tree: seq<Id>, id: Id)
    requires Sorted(rqs, tree) && AliasOf(rqs, tree, Of(rqs, id).sector) == None
    ensures Sorted(rqs, Insert(rqs, tree, id))
  {
    if tree == [] || Of(rqs, tree[0]).sector >= Of(rqs, id).sector {
      InsertFirst(rqs, tree, id);
    } else {
      InsertLater(rqs, tree, id);
      InsertSorted(rqs, tree[1..], id);
      InsertedHas(rqs, tree[1..], id);
    }
  }

  lemma InsertFirst(rqs: Requests, tree: seq<Id>, id: Id)
    requires Sorted(rqs, tree) && AliasOf(rqs, tree, Of(rqs, id).sector) == None
    requires tree == [] || Of(rqs, tree[0]).sector >= Of(rqs, id).sector
    ensures Insert(rqs, tree, id) == [id] + tree && Insert(rqs, tree, id)[1..] == tree
    ensures forall x :: x in tree ==> Of(rqs, id).sector < Of(rqs, x).sector
  {
    assert Below(rqs, tree, Of(rqs, id).sector) == 0;
    forall x | x in tree ensures Of(rqs, id).sector < Of(rqs, x).sector {
      assert x == tree[0] || x in tree[1..];
    }
  }

  lemma InsertLater(rqs: Requests, tree: seq<Id>, id: Id)
    requires tree != [] && Of(rqs, tree[0]).sector < Of(rqs, id).sector
    ensures Insert(rqs, tree, id)[0] == tree[0] && Insert(rqs, tree, id)[1..] == Insert(rqs, tree[1..], id)
    ensures AliasOf(rqs, tree[1..], Of(rqs, id).sector) == AliasOf(rqs, tree, Of(rqs, id).sector)
  {
    var i := Below(rqs, tree[1..], Of(rqs, id).sector);
    assert Below(rqs, tree, Of(rqs, id).sector) == 1 + i;
    assert tree[..1 + i][1..] == tree[1..][..i] && tree[1 + i..] == tree[1..][i..];
  }

  lemma AliasFirst(rqs: Requests, tree: seq<Id>)
    requires Sorted(rqs, tree) && tree != []
    ensures Without(tree[1..], tree[0]) == tree[1..]
    ensures tree[1..] != [] ==> Of(rqs, tree[1]).sector > Of(rqs, tree[0]).sector
  {
    assert tree[0] !in tree[1..];
    WithoutAbsent(tree[1..], tree[0]);
    if tree[1..] != [] {
      var x := tree[1..][0];
      assert x in tree[1..];
    }
  }

  /** No two requests of a sorted tree start at the same sector: one retry is enough. */
  lemma {:induction false} OneAlias(rqs: Requests, tree: seq<Id>, sector: nat)
    requires Sorted(rqs, tree) && AliasOf(rqs, tree, sector).Some?
    ensures AliasOf(rqs, Without(tree, AliasOf(rqs, tree, sector).value), sector) == None
  {
    var alias := AliasOf(rqs, tree, sector).value;
    if Of(rqs, tree[0]).sector >= sector {
      assert alias == tree[0];
      AliasFirst(rqs, tree);
      assert Without(tree, alias) == tree[1..];
    } else {
      var tail := tree[1..];
      assert AliasOf(rqs, tail, sector) == Some(alias);
      OneAlias(rqs, tail, sector);
      assert Without(tree, alias) == [tree[0]] + Without(tail, alias);
      assert Without(tree, alias)[1..] == Without(tail, alias);
    }
  }

  lemma {:induction false} SortedFrame(rqs: Requests, rqs': Requests, tree: seq<Id>)
    requires Sorted(rqs, tree) && forall x :: x in tree ==> Of(rqs', x).sector == Of(rqs, x).sector
    ensures Sorted(rqs', tree)
  {
    if tree != [] { SortedFrame(rqs, rqs', tree[1..]); }
  }
}
