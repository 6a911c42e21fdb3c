/**
 Requests and the lists that link them (`tRequest` and `tRequestList`). A
 request is an object with a `next` link, whose counters change in place; a
 list caches the access totals of the requests linked into it.
 */
module RequestLists {
  import opened AccessModel
  import opened NestingWord

  // ---------------------------------------------------------------- what a request holds

  /** The fields of a request, apart from its link. */
  datatype Row = Row(tid: Tid, shared: nat, exclusive: nat, nesting: Word, signalled: bool)

  /** The fields stand for the entry: counters and nesting word agree with the history. */
  ghost predicate Stands(f: Row, e: Entry) {
    && f.tid == e.tid && f.signalled == e.signalled
    && f.shared == e.Count(Shared) && f.exclusive == e.Count(Exclusive)
    && |e.history| <= MAX_NEST && Encodes(f.nesting, e.history)
  }

  lemma AddAppends(f: Row, e: Entry, a: Access)
    requires Stands(f, e) && |e.history| < MAX_NEST
    ensures var n := if a == Shared then f.(shared := f.shared + 1) else f.(exclusive := f.exclusive + 1);
            Stands(n.(nesting := Push(f.nesting, a)), e.(history := e.history + [a]))
  {
    PushAppends(f.nesting, e.history, a);
  }

  lemma RemoveLastPops(f: Row, e: Entry)
    requires Stands(f, e) && e.history != []
    ensures Top(f.nesting) == e.history[|e.history| - 1]
    ensures if Top(f.nesting) == Shared then f.shared > 0 else f.exclusive > 0
    ensures var n := if Top(f.nesting) == Shared then f.(shared := f.shared - 1)
                     else f.(exclusive := f.exclusive - 1);
            Stands(n.(nesting := Pop(f.nesting)), e.(history := e.history[..|e.history| - 1]))
  {
    var h := e.history;
    assert h == h[..|h| - 1] + [h[|h| - 1]];
    assert multiset(h) == multiset(h[..|h| - 1]) + multiset{h[|h| - 1]};
  }

  class Request {
    var tid: Tid
    var shared: nat
    var exclusive: nat
    var nesting: Word
    var signalled: bool
    var next: Request?

    ghost function Fields(): Row
      reads this
    {
      Row(tid, shared, exclusive, nesting, signalled)
    }

    /** Memory for a request: its event is reset, its nesting word holds arbitrary bits. */
    constructor (garbage: Word)
      ensures Fields() == Row(0, 0, 0, garbage, false)
    {
      tid, shared, exclusive, nesting, signalled, next := 0, 0, 0, garbage, false, null;
    }

    /** Building a request in unused memory: event and nesting word keep what they held. */
    method Begin(t: Tid, a: Access)
      modifies this
      ensures Stands(Fields(), Entry(t, [a], old(signalled)))
    {
      tid, shared, exclusive, next := t, 0, 0, null;
      Add(a, Entry(t, [], signalled));
      assert [] + [a] == [a];
    }

    /** `tRequest::Add`; the source asserts that the depth stays within 32. */
    method Add(a: Access, ghost e: Entry)
      requires Stands(Fields(), e) && |e.history| < MAX_NEST
      modifies `shared, `exclusive, `nesting
      ensures Stands(Fields(), e.(history := e.history + [a]))
    {
      AddAppends(Fields(), e, a);
      if a == Shared {
        shared := shared + 1;
      } else {
        exclusive := exclusive + 1;
      }
      nesting := Push(nesting, a);
    }

    method Signal(ghost e: Entry)
      requires Stands(Fields(), e)
      modifies `signalled
      ensures Stands(Fields(), e.(signalled := true))
    {
      signalled := true;
    }

    /** `tRequest::RemoveLast`: the nesting word says which counter goes down. */
    method RemoveLast(ghost e: Entry) returns (isExclusive: bool)
      requires Stands(Fields(), e) && e.history != []
      modifies `shared, `exclusive, `nesting
      ensures Stands(Fields(), e.(history := e.history[..|e.history| - 1]))
      ensures isExclusive <==> e.history[|e.history| - 1] == Exclusive
    {
      RemoveLastPops(Fields(), e);
      isExclusive := Top(nesting) == Exclusive;
      if isExclusive {
        exclusive := exclusive - 1;
      } else {
        shared := shared - 1;
      }
      nesting := Pop(nesting);
    }
  }

  // ---------------------------------------------------------------- chains

  /** The i-th link of a chain. */
  ghost function Link(nodes: seq<Request>, i: nat): Request? {
    if i < |nodes| then nodes[i] else null
  }

  /** What the nodes hold, in order. */
  ghost predicate Hold(nodes: seq<Request>, rows: seq<Row>)
    reads nodes
  {
    |rows| == |nodes| && forall i :: 0 <= i < |nodes| ==> nodes[i].Fields() == rows[i]
  }

  lemma HoldCut(nodes: seq<Request>, rows: seq<Row>, k: nat)
    requires Hold(nodes, rows) && k < |nodes|
    ensures Hold(Cut(nodes, k), Cut(rows, k))
  {
  }

  lemma HoldTail(nodes: seq<Request>, rows: seq<Row>)
    requires Hold(nodes, rows) && nodes != []
    ensures Hold(nodes[1..], rows[1..])
  {
  }

  lemma HoldSnoc(nodes: seq<Request>, rows: seq<Row>, r: Request)
    requires Hold(nodes, rows)
    ensures Hold(nodes + [r], rows + [r.Fields()])
  {
  }

  /** The node whose link is the i-th one; none for the link in `head`. */
  ghost function Before(nodes: seq<Request>, i: nat): Request? {
    if 0 < i <= |nodes| then nodes[i - 1] else null
  }

  /** No node occurs twice, and the set holds them all. */
  ghost predicate Shape(nodes: seq<Request>, repr: set<Request>) {
    && (forall i, j :: 0 <= i < j < |nodes| ==> nodes[i] != nodes[j])
    && (forall i :: 0 <= i < |nodes| ==> nodes[i] in repr)
  }

  lemma ShapeCons(r: Request, nodes: seq<Request>, repr: set<Request>)
    requires Shape(nodes, repr) && r !in repr
    ensures Shape([r] + nodes, repr + {r})
  {
  }

  lemma ShapeTail(nodes: seq<Request>, repr: set<Request>)
    requires Shape(nodes, repr) && nodes != []
    ensures Shape(nodes[1..], repr - {nodes[0]})
  {
  }

  lemma ShapeCut(nodes: seq<Request>, repr: set<Request>, k: nat)
    requires Shape(nodes, repr) && k < |nodes|
    ensures Shape(Cut(nodes, k), repr - {nodes[k]})
  {
  }

  lemma ShapeSnoc(nodes: seq<Request>, repr: set<Request>, r: Request)
    requires Shape(nodes, repr) && r !in repr
    ensures Shape(nodes + [r], repr + {r})
  {
  }

  function Cut<T>(s: seq<T>, k: nat): seq<T>
    requires k < |s|
  {
    s[..k] + s[k + 1..]
  }

  /** Every node but r stays. */
  ghost predicate Left(nodes: seq<Request>, nodes': seq<Request>, r: Request?) {
    forall x :: x in nodes ==> x in nodes' || x == r
  }

  lemma LeftTail(nodes: seq<Request>)
    requires nodes != []
    ensures Left(nodes, nodes[1..], nodes[0])
  {
  }

  lemma LeftCut(nodes: seq<Request>, k: nat)
    requires k < |nodes|
    ensures Left(nodes, Cut(nodes, k), nodes[k])
  {
    forall x | x in nodes
      ensures x in Cut(nodes, k) || x == nodes[k]
    {
      var i :| 0 <= i < |nodes| && nodes[i] == x;
      assert i < k ==> Cut(nodes, k)[i] == x;
      assert i > k ==> Cut(nodes, k)[i - 1] == x;
    }
  }

  // ---------------------------------------------------------------- totals

  ghost function SharedSum(rows: seq<Row>): nat {
    if rows == [] then 0 else rows[0].shared + SharedSum(rows[1..])
  }

  ghost function ExclusiveSum(rows: seq<Row>): nat {
    if rows == [] then 0 else rows[0].exclusive + ExclusiveSum(rows[1..])
  }

  lemma SumCons(f: Row, rows: seq<Row>)
    ensures SharedSum([f] + rows) == f.shared + SharedSum(rows)
    ensures ExclusiveSum([f] + rows) == f.exclusive + ExclusiveSum(rows)
  {
    assert ([f] + rows)[1..] == rows;
  }

  lemma {:induction false} SumCut(rows: seq<Row>, k: nat)
    requires k < |rows|
    ensures SharedSum(rows) == rows[k].shared + SharedSum(Cut(rows, k))
    ensures ExclusiveSum(rows) == rows[k].exclusive + ExclusiveSum(Cut(rows, k))
  {
    if k == 0 {
      assert Cut(rows, 0) == rows[1..];
    } else {
      SumCut(rows[1..], k - 1);
      assert Cut(rows, k) == [rows[0]] + Cut(rows[1..], k - 1);
      SumCons(rows[0], Cut(rows[1..], k - 1));
    }
  }

  lemma SameSums(rows: seq<Row>, k: nat, f: Row)
    requires k < |rows| && f.shared == rows[k].shared && f.exclusive == rows[k].exclusive
    ensures SharedSum(rows[k := f]) == SharedSum(rows) && ExclusiveSum(rows[k := f]) == ExclusiveSum(rows)
  {
    SumCut(rows, k);
    SumCut(rows[k := f], k);
    assert Cut(rows[k := f], k) == Cut(rows, k);
  }

  lemma SumSnoc(rows: seq<Row>, f: Row)
    ensures SharedSum(rows + [f]) == SharedSum(rows) + f.shared
    ensures ExclusiveSum(rows + [f]) == ExclusiveSum(rows) + f.exclusive
  {
    SumCut(rows + [f], |rows|);
    assert Cut(rows + [f], |rows|) == rows;
  }

  ghost predicate Stood(rows: seq<Row>, values: seq<Entry>) {
    |values| == |rows| && forall i :: 0 <= i < |rows| ==> Stands(rows[i], values[i])
  }

  lemma {:induction false} SumsAreTotals(rows: seq<Row>, values: seq<Entry>)
    requires Stood(rows, values)
    ensures SharedSum(rows) == Total(values, Shared) && ExclusiveSum(rows) == Total(values, Exclusive)
  {
    if rows != [] {
      assert Stands(rows[0], values[0]);
      SumsAreTotals(rows[1..], values[1..]);
    }
  }

  lemma StoodReset(rows: seq<Row>, values: seq<Entry>, k: nat)
    requires Stood(rows, values) && k < |rows|
    ensures Stood(rows[k := rows[k].(signalled := false)], values[k := values[k].(signalled := false)])
  {
    assert Stands(rows[k], values[k]);
  }

  lemma StoodCut(rows: seq<Row>, values: seq<Entry>, k: nat)
    requires Stood(rows, values) && k < |rows|
    ensures Stood(Cut(rows, k), Cut(values, k))
  {
  }

  /** The first request of a thread, found by position and found by name. */
  lemma {:induction false} FirstFacts(es: seq<Entry>, t: Tid, k: nat)
    requires k <= |es| && (forall i :: 0 <= i < k ==> es[i].tid != t) && (k < |es| ==> es[k].tid == t)
    ensures k == |es| <==> t !in ByTid(es)
    ensures k < |es| ==> ByTid(es)[t] == es[k] && Without(es, t) == Cut(es, k)
  {
    if es != [] {
      if k == 0 {
        assert Cut(es, 0) == es[1..];
      } else {
        FirstFacts(es[1..], t, k - 1);
        if k < |es| {
          assert Cut(es, k) == [es[0]] + Cut(es[1..], k - 1);
        }
      }
    }
  }

  class RequestList {
    var head: Request?
    var shared: nat
    var exclusive: nat
    ghost var nodes: seq<Request>    // the requests reached through `next`
    ghost var repr: set<Request>     // a set that holds them, disjoint from other lists'
    ghost var rows: seq<Row>         // what they hold
    ghost var values: seq<Entry>     // what they stand for

    /** The chain of `next` links from `head` visits every node once. */
    ghost predicate Linked()
      reads `head, `nodes, `repr, repr`next
    {
      && Shape(nodes, repr)
      && head == Link(nodes, 0) && forall i :: 0 <= i < |nodes| ==> nodes[i].next == Link(nodes, i + 1)
    }

    /** The cached totals are the sums over the linked requests. */
    ghost predicate Valid()
      reads `head, `shared, `exclusive, `nodes, `repr, `rows, repr
    {
      && Linked()
      && Hold(nodes, rows)
      && shared == SharedSum(rows) && exclusive == ExclusiveSum(rows)
    }

    /** The requests stand for entries of the model. */
    ghost predicate Standing()
      reads this, repr
    {
      Valid() && Stood(rows, values)
    }

    /** The cached totals are those of the entries. */
    lemma CachedTotals()
      requires Standing()
      ensures shared == Total(values, Shared) && exclusive == Total(values, Exclusive)
    {
      SumsAreTotals(rows, values);
    }

    constructor ()
      ensures Standing() && values == [] && repr == {}
    {
      head, shared, exclusive, nodes, repr, rows, values := null, 0, 0, [], {}, [], [];
    }

    method RemoveHead() returns (r: Request?)
      requires Valid()
      modifies `head, `shared, `exclusive, `nodes, `repr, `rows
      ensures Valid()
      ensures old(rows) == [] ==> r == null && rows == [] && repr == old(repr)
      ensures old(rows) != [] ==>
                && r != null && r in old(repr) && repr == old(repr) - {r}
                && r.Fields() == old(rows)[0] && rows == old(rows)[1..]
                && |old(nodes)| > 0 && r == old(nodes)[0] && nodes == old(nodes)[1..]
    {
      r := head;
      if r != null {
        ghost var was := nodes;
        Behead();
        HoldTail(was, rows);
        shared := shared - r.shared;
        exclusive := exclusive - r.exclusive;
        rows := rows[1..];
      }
    }

    method Behead()
      requires Linked() && head != null
      modifies `head, `nodes, `repr
      ensures Linked() && nodes == old(nodes)[1..] && repr == old(repr) - {old(head)}
    {
      ghost var was := nodes;
      ShapeTail(nodes, repr);
      assert was[0].next == Link(was, 1);
      nodes, repr := nodes[1..], repr - {head};
      head := head.next;
      forall i | 0 <= i < |nodes|
        ensures nodes[i].next == Link(nodes, i + 1)
      {
        assert was[i + 1].next == Link(was, i + 2);
      }
    }

    method AddAtHead(r: Request)
      requires Valid() && r !in repr
      modifies `head, `shared, `exclusive, `nodes, `repr, `rows, r`next
      ensures Valid() && rows == [r.Fields()] + old(rows) && repr == old(repr) + {r} && nodes == [r] + old(nodes)
    {
      SumCons(r.Fields(), rows);
      ShapeCons(r, nodes, repr);
      r.next := head;
      head := r;
      shared := shared + r.shared;
      exclusive := exclusive + r.exclusive;
      nodes, repr, rows := [r] + nodes, repr + {r}, [r.Fields()] + rows;
    }

    /** The walk of `Remove`: stops at the first link to a request of thread t, or at the last link. The source keeps a
        pointer to the link; here it is the link of `prev`, or `head` if that is null. */
    method Search(t: Tid) returns (prev: Request?, cur: Request?, ghost k: nat)
      requires Valid()
      ensures k <= |nodes| && prev == Before(nodes, k) && cur == Link(nodes, k)
      ensures (k < |rows| ==> rows[k].tid == t) && forall i :: 0 <= i < k ==> rows[i].tid != t
    {
      prev, cur, k := null, head, 0;
      while cur != null && cur.tid != t
        invariant k <= |nodes| && prev == Before(nodes, k) && cur == Link(nodes, k)
        invariant forall i :: 0 <= i < k ==> rows[i].tid != t
        decreases |nodes| - k
      {
        assert cur.Fields() == rows[k];
        prev, cur, k := cur, cur.next, k + 1;
      }
      assert k < |nodes| ==> nodes[k].Fields() == rows[k];
    }

    /** Takes the k-th node out of the chain. */
    method Splice(prev: Request?, cur: Request, ghost k: nat)
      requires Linked() && k < |nodes| && prev == Before(nodes, k) && cur == nodes[k]
      modifies `head, `nodes, `repr, repr`next
      ensures Linked() && nodes == Cut(old(nodes), k) && repr == old(repr) - {cur}
    {
      ShapeCut(nodes, repr, k);
      if prev == null {
        head := cur.next;
      } else {
        prev.next := cur.next;
      }
      nodes, repr := Cut(nodes, k), repr - {cur};
    }

    /** Puts a node behind the last one. */
    method Append(prev: Request?, r: Request)
      requires Linked() && r !in repr && prev == Before(nodes, |nodes|)
      modifies `head, `nodes, `repr, r`next, repr`next
      ensures Linked() && nodes == old(nodes) + [r] && repr == old(repr) + {r}
    {
      ShapeSnoc(nodes, repr, r);
      if prev == null {
        head := r;
      } else {
        prev.next := r;
      }
      r.next := null;
      nodes, repr := nodes + [r], repr + {r};
    }

    method TakeOut(prev: Request?, r: Request, ghost k: nat)
      requires Valid() && k < |nodes| && prev == Before(nodes, k) && r == nodes[k]
      modifies `head, `shared, `exclusive, `nodes, `repr, `rows, repr`next
      ensures Valid() && rows == Cut(old(rows), k) && repr == old(repr) - {r} && r.Fields() == old(rows)[k]
      ensures nodes == Cut(old(nodes), k)
    {
      ghost var was := nodes;
      SumCut(rows, k);
      Splice(prev, r, k);
      HoldCut(was, rows, k);
      shared := shared - r.shared;
      exclusive := exclusive - r.exclusive;
      rows := Cut(rows, k);
    }

    /** Takes out the first request of thread t. */
    method Remove(t: Tid) returns (r: Request?, ghost k: nat)
      requires Valid()
      modifies `head, `shared, `exclusive, `nodes, `repr, `rows, repr`next
      ensures Valid() && k <= |old(rows)| && forall i :: 0 <= i < k ==> old(rows)[i].tid != t
      ensures k == |old(rows)| ==> r == null && rows == old(rows) && repr == old(repr)
      ensures k < |old(rows)| ==>
                && r != null && r in old(repr) && repr == old(repr) - {r}
                && old(rows)[k].tid == t && r.Fields() == old(rows)[k] && rows == Cut(old(rows), k)
                && k < |old(nodes)| && r == old(nodes)[k] && nodes == Cut(old(nodes), k)
      ensures r == null ==> nodes == old(nodes)
    {
      var prev;
      prev, r, k := Search(t);
      if r != null {
        TakeOut(prev, r, k);
      }
    }

    /** The walk of `AddAtTail`: the node with the last link, if any. */
    method Last() returns (prev: Request?)
      requires Valid()
      ensures prev == Before(nodes, |nodes|)
    {
      prev := null;
      var cur := head;
      ghost var k := 0;
      while cur != null
        invariant k <= |nodes| && prev == Before(nodes, k) && cur == Link(nodes, k)
        decreases |nodes| - k
      {
        prev, cur, k := cur, cur.next, k + 1;
      }
    }

    method AddAtTail(r: Request)
      requires Valid() && r !in repr
      modifies `head, `shared, `exclusive, `nodes, `repr, `rows, r`next, repr`next
      ensures Valid() && rows == old(rows) + [r.Fields()] && repr == old(repr) + {r} && nodes == old(nodes) + [r]
    {
      ghost var was := nodes;
      SumSnoc(rows, r.Fields());
      var prev := Last();
      Append(prev, r);
      HoldSnoc(was, rows, r);
      shared := shared + r.shared;
      exclusive := exclusive + r.exclusive;
      rows := rows + [r.Fields()];
    }

    method ClearSignal(r: Request, ghost k: nat)
      requires Valid() && k < |nodes| && nodes[k] == r
      modifies r`signalled, `rows
      ensures Valid() && rows == old(rows)[k := old(rows)[k].(signalled := false)]
    {
      assert r.Fields() == rows[k];
      SameSums(rows, k, rows[k].(signalled := false));
      r.signalled := false;
      rows := rows[k := rows[k].(signalled := false)];
    }

    // -------------------------------------------------------------- the same, for what the requests stand for

    method TakeHead() returns (r: Request?)
      requires Standing()
      modifies this
      ensures Standing()
      ensures old(values) == [] ==> r == null && values == [] && repr == old(repr)
      ensures old(values) != [] ==>
                && r != null && r in old(repr) && repr == old(repr) - {r}
                && Stands(r.Fields(), old(values)[0]) && values == old(values)[1..]
      ensures Left(old(nodes), nodes, r)
    {
      ghost var was := nodes;
      r := RemoveHead();
      if r != null {
        LeftTail(was);
        values := values[1..];
      }
    }

    method Take(t: Tid) returns (r: Request?)
      requires Standing()
      modifies this, repr`next
      ensures Standing()
      ensures t !in ByTid(old(values)) ==> r == null && values == old(values) && repr == old(repr)
      ensures t in ByTid(old(values)) ==>
                && r != null && r in old(repr) && repr == old(repr) - {r}
                && Stands(r.Fields(), ByTid(old(values))[t]) && values == Without(old(values), t)
      ensures Left(old(nodes), nodes, r)
    {
      ghost var k;
      ghost var was, chain := rows, nodes;
      r, k := Remove(t);
      FirstFacts(values, t, k);
      if r != null {
        LeftCut(chain, k);
        StoodCut(was, values, k);
        values := Cut(values, k);
      }
    }

    method PutFirst(r: Request, ghost e: Entry)
      requires Standing() && r !in repr && Stands(r.Fields(), e)
      modifies this, r`next
      ensures Standing() && values == [e] + old(values) && repr == old(repr) + {r} && nodes == [r] + old(nodes)
    {
      AddAtHead(r);
      values := [e] + values;
    }

    method PutLast(r: Request, ghost e: Entry)
      requires Standing() && r !in repr && Stands(r.Fields(), e)
      modifies this, r`next, repr`next
      ensures Standing() && values == old(values) + [e] && repr == old(repr) + {r} && nodes == old(nodes) + [r]
    {
      AddAtTail(r);
      values := values + [e];
    }

    /** The event of the k-th request lets its thread go and resets itself; the request stays where it is. */
    method ResetEvent(r: Request, ghost k: nat)
      requires Standing() && k < |nodes| && nodes[k] == r
      modifies r`signalled, `rows, `values
      ensures Standing() && values == old(values)[k := old(values)[k].(signalled := false)]
    {
      StoodReset(rows, values, k);
      ClearSignal(r, k);
      values := values[k := values[k].(signalled := false)];
    }
  }
}
