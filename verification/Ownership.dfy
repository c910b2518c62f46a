/** The tool that lists endpoints by owner. */
module Ownership {
  import opened Results
  import opened Paging

  datatype Owned = Owned(owner: string, bindCount: real)

  type Endpoint = Item<Owned>

  type Owners = map<string, seq<Endpoint>>

  /** The endpoints of one owner, in arrival order. */
  function OwnedBy(xs: seq<Endpoint>, owner: string): seq<Endpoint> {
    if xs == [] then []
    else
      var rest := OwnedBy(xs[..|xs| - 1], owner);
      if xs[|xs| - 1].payload.owner == owner then rest + [xs[|xs| - 1]] else rest
  }

  /** Every list is that of its owner, and every endpoint's owner has one. */
  ghost predicate Partitions(owners: Owners, xs: seq<Endpoint>) {
    && (forall o :: o in owners ==> owners[o] == OwnedBy(xs, o))
    && (forall o :: o in owners <==> OwnedBy(xs, o) != [])
  }

  lemma OwnedBySnoc(xs: seq<Endpoint>, x: Endpoint, owner: string)
    ensures OwnedBy(xs + [x], owner) == OwnedBy(xs, owner) + (if x.payload.owner == owner then [x] else [])
  {
    assert (xs + [x])[..|xs|] == xs;
  }

  /** How many endpoints have an owner in the set. */
  function CountOwned(xs: seq<Endpoint>, owners: set<string>): nat {
    if xs == [] then 0
    else CountOwned(xs[..|xs| - 1], owners) + (if xs[|xs| - 1].payload.owner in owners then 1 else 0)
  }

  lemma {:induction false} CountOneMore(xs: seq<Endpoint>, owners: set<string>, owner: string)
    requires owner !in owners
    ensures CountOwned(xs, owners + {owner}) == CountOwned(xs, owners) + |OwnedBy(xs, owner)|
  {
    if xs != [] {
      CountOneMore(xs[..|xs| - 1], owners, owner);
    }
  }

  lemma {:induction false} CountNone(xs: seq<Endpoint>)
    ensures CountOwned(xs, {}) == 0
  {
    if xs != [] {
      CountNone(xs[..|xs| - 1]);
    }
  }

  lemma {:induction false} CountAll(xs: seq<Endpoint>, owners: set<string>)
    requires forall i :: 0 <= i < |xs| ==> xs[i].payload.owner in owners
    ensures CountOwned(xs, owners) == |xs|
  {
    if xs != [] {
      CountAll(xs[..|xs| - 1], owners);
    }
  }

  lemma {:induction false} OwnersList(xs: seq<Endpoint>, i: nat)
    requires i < |xs|
    ensures xs[i] in OwnedBy(xs, xs[i].payload.owner)
  {
    var n := |xs| - 1;
    if i < n {
      OwnersList(xs[..n], i);
    }
  }

  /** Each endpoint stands in its owner's list at the place given by the number of that owner's endpoints before it. */
  lemma {:induction false} OwnedInPlace(xs: seq<Endpoint>, i: nat)
    requires i < |xs|
    ensures var o := xs[i].payload.owner; var p := |OwnedBy(xs[..i], o)|;
      p < |OwnedBy(xs, o)| && OwnedBy(xs, o)[p] == xs[i]
  {
    var n := |xs| - 1;
    if i < n {
      OwnedInPlace(xs[..n], i);
      assert xs[..n][..i] == xs[..i];
    }
  }

  /** And every place of the list is that of one of the owner's endpoints. */
  lemma {:induction false} OwnedOnly(xs: seq<Endpoint>, owner: string, p: nat) returns (i: nat)
    requires p < |OwnedBy(xs, owner)|
    ensures i < |xs| && xs[i].payload.owner == owner && |OwnedBy(xs[..i], owner)| == p
  {
    var n := |xs| - 1;
    if p < |OwnedBy(xs[..n], owner)| {
      i := OwnedOnly(xs[..n], owner, p);
      assert xs[..n][..i] == xs[..i];
    } else {
      i := n;
    }
  }

  function Append(owners: Owners, x: Endpoint): Owners {
    var o := x.payload.owner;
    owners[o := (if o in owners then owners[o] else []) + [x]]
  }

  lemma AppendPartitions(owners: Owners, xs: seq<Endpoint>, x: Endpoint)
    requires Partitions(owners, xs)
    ensures Partitions(Append(owners, x), xs + [x])
  {
    forall o
      ensures OwnedBy(xs + [x], o) == OwnedBy(xs, o) + (if x.payload.owner == o then [x] else [])
    {
      OwnedBySnoc(xs, x, o);
    }
  }

  /** The loop over one page, appending each endpoint that is new to its owner's list. */
  method AddPage(owners: Owners, page: seq<Endpoint>, last: string, ghost kept: seq<Endpoint>)
    returns (queueMap: Owners, lastQueueName: string)
    requires Partitions(owners, kept)
    ensures Partitions(queueMap, kept + KeptAfter(last, page))
    ensures lastQueueName == LastKey(page, last)
  {
    queueMap, lastQueueName := owners, last;
    ghost var now := kept;
    for i := 0 to |page|
      invariant now == kept + KeptAfter(last, page[..i])
      invariant Partitions(queueMap, now)
      invariant lastQueueName == LastKey(page[..i], last)
    {
      var x := page[i];
      assert page[..i + 1] == page[..i] + [x];
      KeptAfterSnoc(last, page[..i], x);
      if KeyOf(x.vpn, x.name) == lastQueueName {
        continue;
      }
      lastQueueName := KeyOf(x.vpn, x.name);
      AppendPartitions(queueMap, now, x);
      var o := x.payload.owner;
      queueMap := queueMap[o := (if o in queueMap then queueMap[o] else []) + [x]];
      now := now + [x];
    }
    assert page[..|page|] == page;
  }

  /** The paging loop; `None` is the early return on a failure. */
  method CollectEndpoints(conv: Conversation<Owned>) returns (collected: Option<Owners>)
    ensures collected.Some? <==> End(conv).Page?
    ensures collected.Some? ==> Partitions(collected.value, Kept(Items(conv)))
  {
    var queueMap: Owners := map[];
    var lastQueueName := "";
    ghost var seen: seq<Endpoint> := [];
    var nextRequest := Some(conv);
    while nextRequest.Some?
      invariant Taken(conv, seen, nextRequest)
      invariant lastQueueName == LastKey(seen, "")
      invariant Partitions(queueMap, KeptAfter("", seen))
      decreases nextRequest
    {
      var target := nextRequest.value;
      TakePage(conv, seen, target);
      if !target.Page? {
        return None;
      }
      nextRequest := target.next;
      ghost var kept := KeptAfter("", seen);
      KeptAfterConcat("", seen, target.items);
      queueMap, lastQueueName := AddPage(queueMap, target.items, lastQueueName, kept);
      seen := seen + target.items;
    }
    KeptIsKeptAfter(seen);
    return Some(queueMap);
  }

  /** `queueStats` and `topicEndpointStats`: a failure prints nothing; otherwise the lists partition the endpoints kept,
      in arrival order, and the printed total, summed over the owners in any order, is their number. */
  method EndpointStats(conv: Conversation<Owned>) returns (printed: Option<(Owners, nat)>)
    ensures printed.Some? <==> End(conv).Page?
    ensures printed.Some? ==> Partitions(printed.value.0, Kept(Items(conv)))
    ensures printed.Some? ==> printed.value.1 == |Kept(Items(conv))|
  {
    var queueMap := CollectEndpoints(conv);
    if queueMap.None? {
      return None;
    }
    var total := Total(queueMap.value, Kept(Items(conv)));
    return Some((queueMap.value, total));
  }

  method Total(queueMap: Owners, ghost kept: seq<Endpoint>) returns (total: nat)
    requires Partitions(queueMap, kept)
    ensures total == |kept|
  {
    total := 0;
    var todo := queueMap.Keys;
    ghost var done: set<string> := {};
    CountNone(kept);
    while todo != {}
      invariant todo <= queueMap.Keys && done == queueMap.Keys - todo
      invariant total == CountOwned(kept, done)
      decreases |todo|
    {
      var key :| key in todo;
      CountOneMore(kept, done, key);
      total := total + |queueMap[key]|;
      todo := todo - {key};
      done := done + {key};
    }
    forall i | 0 <= i < |kept|
      ensures kept[i].payload.owner in done
    {
      OwnersList(kept, i);
    }
    CountAll(kept, done);
  }
}
