/**
 The access manager object: each method is one critical section of
 `tAccessManager`, and does to the four lists what the value model says.
 */
module AccessManagers {
  import opened AccessModel
  import opened NestingWord
  import opened RequestLists
  import opened AccessRuns

  ghost function Events(values: seq<Entry>): seq<bool> {
    seq(|values|, i requires 0 <= i < |values| => values[i].signalled)
  }

  lemma EventsCons(e: Entry, values: seq<Entry>)
    ensures Events([e] + values) == [e.signalled] + Events(values)
  {
  }

  lemma EventsTail(values: seq<Entry>)
    requires values != []
    ensures Events(values)[1..] == Events(values[1..])
  {
  }

  /** If one leaves b and joins a or b again, the two together are as before. */
  lemma SameRequests(a: set<Request>, b: set<Request>, r: Request, a': set<Request>, b': set<Request>)
    requires r in b && a' + b' == a + (b - {r}) + {r} && b' <= (b - {r}) + {r}
    ensures a' + b' == a + b && b' <= b
  {
  }

  lemma HeadBack(m: Manager)
    requires m.pending != []
    ensures var m' := m.(pending := m.pending[1..]); m'.(pending := [m.pending[0]] + m'.pending) == m
  {
  }

  lemma {:induction false} EntryOf(es: seq<Entry>, k: nat)
    requires Distinct(es) && k < |es|
    ensures es[k].tid in ByTid(es) && ByTid(es)[es[k].tid] == es[k]
  {
    if k > 0 {
      EntryOf(es[1..], k - 1);
    }
  }

  /** In a list in which every thread occurs once, clearing by name is clearing by position. */
  lemma {:induction false} ClearAt(es: seq<Entry>, k: nat)
    requires Distinct(es) && k < |es|
    ensures ClearEvent(es, es[k].tid) == es[k := es[k].(signalled := false)]
  {
    if k > 0 {
      ClearAt(es[1..], k - 1);
      EntryOf(es[1..], k - 1);
    }
  }

  /** In a list without set events, no request has its event set. */
  lemma NotSignalled(list: RequestList, request: Request)
    requires list.Standing() && Distinct(list.values) && request in list.nodes
    requires forall t :: t in ByTid(list.values) ==> !ByTid(list.values)[t].signalled
    ensures !request.signalled
  {
    var k :| 0 <= k < |list.nodes| && list.nodes[k] == request;
    assert list.nodes[k].Fields() == list.rows[k] && Stands(list.rows[k], list.values[k]);
    EntryOf(list.values, k);
  }

  /** The requests linked into the three lists of threads. */
  datatype Chains = Chains(active: seq<Request>, pending: seq<Request>, suspended: seq<Request>)

  ghost predicate Linked(c: Chains, x: Request) {
    x in c.active || x in c.pending || x in c.suspended
  }

  /** Every request that was linked still is, as the same object, except perhaps r. */
  ghost predicate Stay(c: Chains, c': Chains, r: Request?) {
    && (forall x :: x in c.active ==> Linked(c', x) || x == r)
    && (forall x :: x in c.pending ==> Linked(c', x) || x == r)
    && (forall x :: x in c.suspended ==> Linked(c', x) || x == r)
  }

  /** One that leaves and comes back has stayed. */
  lemma ComesBack(c: Chains, c': Chains, c'': Chains, r: Request)
    requires Stay(c, c', r) && Stay(c', c'', null) && Linked(c'', r)
    ensures Stay(c, c'', null)
  {
  }

  lemma StayOn(c: Chains, c': Chains, c'': Chains, r: Request?)
    requires Stay(c, c', r) && Stay(c', c'', null)
    ensures Stay(c, c'', r)
  {
  }

  class AccessManager {
    const active: RequestList
    const pending: RequestList
    const suspended: RequestList
    const empty: RequestList

    ghost function Model(): Manager
      reads active, pending, suspended, empty
    {
      Manager(active.values, pending.values, suspended.values, Events(empty.values))
    }

    ghost function Nodes(): Chains
      reads active, pending, suspended
    {
      Chains(active.nodes, pending.nodes, suspended.nodes)
    }

    /** The four lists share no request. */
    ghost predicate Apart()
      reads active, pending, suspended, empty
    {
      && active != pending && active != suspended && active != empty
      && pending != suspended && pending != empty && suspended != empty
      && active.repr !! pending.repr && active.repr !! suspended.repr && active.repr !! empty.repr
      && pending.repr !! suspended.repr && pending.repr !! empty.repr && suspended.repr !! empty.repr
    }

    ghost predicate Valid()
      reads active, pending, suspended, empty, active.repr, pending.repr, suspended.repr, empty.repr
    {
      Apart() && active.Standing() && pending.Standing() && suspended.Standing() && empty.Standing()
    }

    /** The request is in none of the lists. */
    ghost predicate Loose(r: Request)
      reads active, pending, suspended, empty
    {
      r !in active.repr && r !in pending.repr && r !in suspended.repr && r !in empty.repr
    }

    constructor (garbage: Word)
      ensures Valid() && Model() == Manager([], [], [], Reset(INITIAL_REQUESTS))
      ensures fresh(active) && fresh(pending) && fresh(suspended) && fresh(empty)
    {
      active := new RequestList();
      pending := new RequestList();
      suspended := new RequestList();
      empty := new RequestList();
      new;
      Prepare(garbage);
    }

    /** A new manager prepares its unused requests in memory that holds arbitrary bits. */
    method Prepare(garbage: Word)
      requires Valid() && empty.values == [] && empty.repr == {}
      modifies empty
      ensures Valid() && Events(empty.values) == Reset(INITIAL_REQUESTS)
    {
      for i := 0 to INITIAL_REQUESTS
        invariant empty.Standing() && |empty.values| == i && fresh(empty.repr)
        invariant forall k :: 0 <= k < i ==> !empty.values[k].signalled
      {
        var r := new Request(garbage);
        empty.PutFirst(r, Entry(0, [], false));
      }
    }

    /** Criteria 2 and 3 of `SatisfyRequest`: nobody active excludes the request. */
    method Fits(r: Request, ghost e: Entry) returns (yes: bool)
      requires active.Standing() && Stands(r.Fields(), e)
      ensures yes <==> !Blocked(active.values, e)
    {
      active.CachedTotals();
      yes := active.exclusive == 0 && (r.exclusive == 0 || active.shared + active.exclusive == 0);
    }

    /** Criterion 1: nobody is in the line. */
    method LineIsEmpty() returns (yes: bool)
      requires pending.Standing()
      ensures yes <==> TotalAccesses(pending.values) == 0
    {
      pending.CachedTotals();
      yes := pending.shared + pending.exclusive == 0;
    }

    method JoinActive(r: Request, ghost e: Entry)
      requires Valid() && Loose(r) && Stands(r.Fields(), e)
      modifies active, r`next
      ensures Valid() && active.repr == old(active.repr) + {r} && r in active.nodes
      ensures Model() == old(Model()).(active := [e] + old(Model()).active)
      ensures Stay(old(Nodes()), Nodes(), null)
    {
      active.PutFirst(r, e);
    }

    /** A thread that could not be let in goes back to the head of the line. */
    method RejoinLine(r: Request, ghost e: Entry)
      requires Valid() && Loose(r) && Stands(r.Fields(), e)
      modifies pending, r`next
      ensures Valid() && pending.repr == old(pending.repr) + {r} && r in pending.nodes
      ensures Model() == old(Model()).(pending := [e] + old(Model()).pending)
      ensures Stay(old(Nodes()), Nodes(), null)
    {
      pending.PutFirst(r, e);
    }

    method JoinLine(r: Request, ghost e: Entry)
      requires Valid() && Loose(r) && Stands(r.Fields(), e)
      modifies pending, r`next, pending.repr`next
      ensures Valid() && pending.repr == old(pending.repr) + {r} && r in pending.nodes
      ensures Model() == old(Model()).(pending := old(Model()).pending + [e])
      ensures Stay(old(Nodes()), Nodes(), null)
    {
      pending.PutLast(r, e);
    }

    /** Wakes a waiting thread, whose request becomes active. */
    method LetIn(r: Request, ghost e: Entry)
      requires Valid() && Loose(r) && Stands(r.Fields(), e)
      modifies active, r`next, r`signalled
      ensures Valid() && active.repr == old(active.repr) + {r} && r in active.nodes
      ensures Model() == old(Model()).(active := [e.(signalled := true)] + old(Model()).active)
      ensures Stay(old(Nodes()), Nodes(), null)
    {
      r.Signal(e);
      JoinActive(r, e.(signalled := true));
    }

    /** `SatisfyRequest` with high priority, for a thread that waits already. */
    method OfferTo(r: Request, ghost e: Entry)
      requires Valid() && Loose(r) && Stands(r.Fields(), e)
      modifies active, pending, r`next, r`signalled
      ensures Valid() && Linked(Nodes(), r) && Stay(old(Nodes()), Nodes(), null)
      ensures active.repr + pending.repr == old(active.repr) + old(pending.repr) + {r}
      ensures pending.repr <= old(pending.repr) + {r}
      ensures var m := old(Model());
              Model() == if Blocked(m.active, e) then m.(pending := [e] + m.pending)
                         else m.(active := [e.(signalled := true)] + m.active)
    {
      var fits := Fits(r, e);
      if fits {
        LetIn(r, e);
      } else {
        RejoinLine(r, e);
      }
    }

    /** Serves the head of the line. A thread also does this when it has been let in and is back in the lock. */
    method ServeHead()
      requires Valid()
      modifies active, pending, pending.repr`next, pending.repr`signalled
      ensures Valid() && Model() == SatisfyHead(old(Model())).m
      ensures Stay(old(Nodes()), Nodes(), null)
      ensures active.repr + pending.repr == old(active.repr) + old(pending.repr) && pending.repr <= old(pending.repr)
    {
      ghost var m, theirs, line, c := Model(), active.repr, pending.repr, Nodes();
      var head := LeaveLine();
      ghost var c' := Nodes();
      if head != null {
        HeadBack(m);
        OfferTo(head, m.pending[0]);
        SameRequests(theirs, line, head, active.repr, pending.repr);
        ComesBack(c, c', Nodes(), head);
      }
    }

    /** Takes the head of the line out of it. */
    method LeaveLine() returns (r: Request?)
      requires Valid()
      modifies pending
      ensures Valid()
      ensures old(Model()).pending == [] ==> r == null && Model() == old(Model()) && pending.repr == old(pending.repr)
      ensures old(Model()).pending != [] ==>
                && r != null && r in old(pending.repr) && pending.repr == old(pending.repr) - {r} && Loose(r)
                && Stands(r.Fields(), old(Model()).pending[0])
                && Model() == old(Model()).(pending := old(Model()).pending[1..])
      ensures Stay(old(Nodes()), Nodes(), r)
    {
      r := pending.TakeHead();
    }

    /** Serves the head of the line and then joins its end. */
    method ServeAndLineUp(r: Request, ghost e: Entry)
      requires Valid() && Loose(r) && Stands(r.Fields(), e)
      modifies active, pending, r`next, pending.repr`next, pending.repr`signalled
      ensures Valid() && r in pending.nodes && Stay(old(Nodes()), Nodes(), null)
      ensures var o := SatisfyHead(old(Model())); Model() == o.m.(pending := o.m.pending + [e])
    {
      ghost var c := Nodes();
      ServeHead();
      ghost var c' := Nodes();
      JoinLine(r, e);
      StayOn(c, c', Nodes(), null);
    }

    /** `SatisfyRequest` with low priority, for the calling thread; `waits` says that it must now wait for its event. */
    method SatisfyRequest(r: Request, ghost e: Entry) returns (waits: bool)
      requires Valid() && Loose(r) && Stands(r.Fields(), e)
      modifies active, pending, r`next, pending.repr`next, pending.repr`signalled
      ensures Valid() && r in (if waits then pending.nodes else active.nodes) && Stay(old(Nodes()), Nodes(), null)
      ensures var o := SatisfyOwn(old(Model()), e); Model() == o.m && waits == o.waits
    {
      var first := LineIsEmpty();
      var fits := Fits(r, e);
      waits := !(first && fits);
      if waits {
        ServeAndLineUp(r, e);
      } else {
        JoinActive(r, e);
      }
    }

    /** `tRequest::operator new`: recycles a request, or makes one from fresh memory. */
    method Allocate(garbage: Word) returns (r: Request)
      requires Valid()
      modifies empty
      ensures Valid() && Loose(r) && (fresh(r) || r in old(empty.repr))
      ensures var m := old(Model());
              && r.signalled == (m.spare != [] && m.spare[0])
              && Model() == if m.spare == [] then m else m.(spare := m.spare[1..])
    {
      ghost var unused := empty.values;
      var recycled := empty.TakeHead();
      if recycled == null {
        r := new Request(garbage);
      } else {
        r := recycled;
        EventsTail(unused);
      }
    }

    method NewRequest(t: Tid, a: Access, garbage: Word) returns (r: Request, ghost e: Entry)
      requires Valid()
      modifies empty, empty.repr
      ensures Valid() && Loose(r) && Stands(r.Fields(), e) && (fresh(r) || r in old(empty.repr))
      ensures var m := old(Model());
              && e == Entry(t, [a], m.spare != [] && m.spare[0])
              && Model() == if m.spare == [] then m else m.(spare := m.spare[1..])
    {
      r := Allocate(garbage);
      e := Entry(t, [a], r.signalled);
      r.Begin(t, a);
    }

    /** Takes the calling thread's request off the active list. */
    method LeaveActive(t: Tid) returns (r: Request?)
      requires Valid()
      modifies active, active.repr`next
      ensures Valid()
      ensures t !in ByTid(old(Model()).active) ==>
                r == null && Model() == old(Model()) && active.repr == old(active.repr)
      ensures t in ByTid(old(Model()).active) ==>
                && r != null && r in old(active.repr) && active.repr == old(active.repr) - {r} && Loose(r)
                && Stands(r.Fields(), ByTid(old(Model()).active)[t])
                && Model() == old(Model()).(active := Without(old(Model()).active, t))
      ensures Stay(old(Nodes()), Nodes(), r)
    {
      r := active.Take(t);
    }

    /** Adds an access to the request of an active thread: nested at once, or a promotion that has to be asked for. */
    method Nest(r: Request, ghost e: Entry, a: Access) returns (waits: bool)
      requires Valid() && Loose(r) && Stands(r.Fields(), e) && |e.history| < MAX_NEST
      modifies active, pending, r`shared, r`exclusive, r`nesting, r`next, pending.repr`next, pending.repr`signalled
      ensures Valid() && r in (if waits then pending.nodes else active.nodes) && Stay(old(Nodes()), Nodes(), null)
      ensures var m := old(Model()); var e' := e.(history := e.history + [a]);
              if a == Shared || e.Count(Exclusive) > 0 then Model() == m.(active := [e'] + m.active) && !waits
              else Model() == SatisfyOwn(m, e').m && waits == SatisfyOwn(m, e').waits
    {
      var atOnce := a == Shared || r.exclusive > 0;
      r.Add(a, e);
      if atOnce {
        JoinActive(r, e.(history := e.history + [a]));
        waits := false;
      } else {
        waits := SatisfyRequest(r, e.(history := e.history + [a]));
      }
    }

    /** `GetSharedAccess` and `GetExclusiveAccess` up to the point where the caller goes on or waits on its request,
        to which it keeps a pointer. */
    method GetAccess(t: Tid, a: Access, garbage: Word) returns (request: Request, waits: bool)
      requires Valid()
      requires t in ByTid(Model().active) ==> |ByTid(Model().active)[t].history| < MAX_NEST
      modifies active, pending, empty, active.repr`shared, active.repr`exclusive, active.repr`nesting,
               active.repr`next, pending.repr`next, pending.repr`signalled, empty.repr
      ensures Valid() && request in (if waits then pending.nodes else active.nodes)
      ensures Stay(old(Nodes()), Nodes(), null)
      ensures var o := Acquire(old(Model()), t, a); Model() == o.m && waits == o.waits
    {
      ghost var m, c := Model(), Nodes();
      var ours := LeaveActive(t);
      ghost var c' := Nodes();
      if ours != null {
        request := ours;
        waits := Nest(request, ByTid(m.active)[t], a);
        ComesBack(c, c', Nodes(), request);
      } else {
        ghost var e;
        request, e := NewRequest(t, a, garbage);
        waits := SatisfyRequest(request, e);
        StayOn(c, c', Nodes(), null);
      }
    }

    /** A linked request whose event is set is in the active list: the lists hold what the runs say. */
    lemma SignalledIsActive(request: Request, blocked: set<Tid>, resuming: set<Tid>)
      requires Valid() && Core(Model(), blocked, resuming) && Linked(Nodes(), request) && request.signalled
      ensures request in active.nodes
    {
      if request in pending.nodes {
        NotSignalled(pending, request);
      } else if request in suspended.nodes {
        NotSignalled(suspended, request);
      }
    }

    /** `WaitForSignal`, once the event of the request is set: the thread has kept a pointer to its request, which has
        stayed linked and is now found in the active list. The thread then takes the lock again and calls
        `ServeHead`. */
    method WaitForSignal(request: Request, ghost blocked: set<Tid>, ghost resuming: set<Tid>)
      requires Valid() && Core(Model(), blocked, resuming) && Linked(Nodes(), request) && request.signalled
      modifies request`signalled, active
      ensures Valid() && !request.signalled && request in active.nodes && Nodes() == old(Nodes())
      ensures Model() == old(Model()).(active := ClearEvent(old(Model()).active, request.tid))
    {
      SignalledIsActive(request, blocked, resuming);
      ghost var k :| 0 <= k < |active.nodes| && active.nodes[k] == request;
      assert active.nodes[k].Fields() == active.rows[k] && Stands(active.rows[k], active.values[k]);
      ClearAt(active.values, k);
      active.ResetEvent(request, k);
    }

    /** A request with accesses left goes back to the active list, an empty one to the unused requests. */
    method PutBack(r: Request, ghost e: Entry)
      requires Valid() && Loose(r) && Stands(r.Fields(), e)
      modifies active, empty, r`next
      ensures Valid() && Stay(old(Nodes()), Nodes(), null)
      ensures var m := old(Model());
              Model() == if e.history != [] then m.(active := [e] + m.active) else m.(spare := [e.signalled] + m.spare)
    {
      CountFacts(e);
      if r.shared + r.exclusive > 0 {
        JoinActive(r, e);
      } else {
        Recycle(r, e);
      }
    }

    /** `tRequest::operator delete`. */
    method Recycle(r: Request, ghost e: Entry)
      requires Valid() && Loose(r) && Stands(r.Fields(), e)
      modifies empty, r`next
      ensures Valid() && Model() == old(Model()).(spare := [e.signalled] + old(Model()).spare)
    {
      EventsCons(e, empty.values);
      empty.PutFirst(r, e);
    }

    /** `Release`: gives back the newest access and tells whether it was exclusive. */
    method ReleaseLast(t: Tid) returns (wasExclusive: bool, ghost own: Request)
      requires Valid()
      requires t in ByTid(Model().active) && ByTid(Model().active)[t].history != []
      modifies active, pending, empty, active.repr`shared, active.repr`exclusive, active.repr`nesting,
               active.repr`next, pending.repr`next, pending.repr`signalled
      ensures Valid() && Model() == Release(old(Model()), t).m
      ensures own.tid == t && Stay(old(Nodes()), Nodes(), own)
      ensures var h := ByTid(old(Model()).active)[t].history; wasExclusive <==> h[|h| - 1] == Exclusive
    {
      ghost var m, c := Model(), Nodes();
      wasExclusive, own := GiveBack(t);
      ghost var c' := Nodes();
      assert Model() == GivenBack(m, t);
      ServeHead();
      StayOn(c, c', Nodes(), own);
    }

    /** The first half of `Release`. */
    method GiveBack(t: Tid) returns (wasExclusive: bool, ghost own: Request)
      requires Valid()
      requires t in ByTid(Model().active) && ByTid(Model().active)[t].history != []
      modifies active, empty, active.repr`shared, active.repr`exclusive, active.repr`nesting, active.repr`next
      ensures Valid() && Model() == GivenBack(old(Model()), t)
      ensures own.tid == t && own in old(active.repr) && Stay(old(Nodes()), Nodes(), own)
      ensures var h := ByTid(old(Model()).active)[t].history; wasExclusive <==> h[|h| - 1] == Exclusive
    {
      ghost var e, c := ByTid(Model().active)[t], Nodes();
      var ours;
      ours, wasExclusive := TakeNewest(t);
      ghost var c' := Nodes();
      own := ours;
      PutBack(ours, e.(history := e.history[..|e.history| - 1]));
      StayOn(c, c', Nodes(), own);
    }

    /** Takes the thread's request out of the active list and its newest access off the request. */
    method TakeNewest(t: Tid) returns (r: Request, wasExclusive: bool)
      requires Valid()
      requires t in ByTid(Model().active) && ByTid(Model().active)[t].history != []
      modifies active, active.repr`shared, active.repr`exclusive, active.repr`nesting, active.repr`next
      ensures Valid() && r.tid == t && r in old(active.repr) && Loose(r) && Stay(old(Nodes()), Nodes(), r)
      ensures Model() == old(Model()).(active := Without(old(Model()).active, t))
      ensures var e := ByTid(old(Model()).active)[t]; var n := |e.history| - 1;
              Stands(r.Fields(), e.(history := e.history[..n])) && (wasExclusive <==> e.history[n] == Exclusive)
    {
      ghost var e := ByTid(Model().active)[t];
      KeysFacts(Model().active);
      r := LeaveActive(t);
      wasExclusive := Shorten(r, e);
    }

    /** Takes the newest access off a request that is in no list. */
    method Shorten(r: Request, ghost e: Entry) returns (wasExclusive: bool)
      requires Valid() && Loose(r) && Stands(r.Fields(), e) && e.history != []
      modifies r`shared, r`exclusive, r`nesting
      ensures Valid() && Loose(r) && Stands(r.Fields(), e.(history := e.history[..|e.history| - 1]))
      ensures Model() == old(Model()) && Nodes() == old(Nodes())
      ensures wasExclusive <==> e.history[|e.history| - 1] == Exclusive
    {
      wasExclusive := r.RemoveLast(e);
    }

    /** `SuspendAccess`: the detour through an extra exclusive access leaves counters and history alone. */
    method Detour(r: Request, ghost e: Entry)
      requires Stands(r.Fields(), e) && (e.Count(Exclusive) > 0 ==> |e.history| < MAX_NEST)
      modifies r`shared, r`exclusive, r`nesting
      ensures Stands(r.Fields(), e)
    {
      if r.exclusive > 0 {
        ghost var longer := e.(history := e.history + [Exclusive]);
        r.Add(Exclusive, e);
        var last := r.RemoveLast(longer);
        assert longer.history[..|longer.history| - 1] == e.history;
      }
    }

    method JoinSuspended(r: Request, ghost e: Entry)
      requires Valid() && Loose(r) && Stands(r.Fields(), e)
      modifies suspended, r`next
      ensures Valid() && r in suspended.nodes && Stay(old(Nodes()), Nodes(), null)
      ensures Model() == old(Model()).(suspended := [e] + old(Model()).suspended)
    {
      suspended.PutFirst(r, e);
    }

    method SuspendAccess(t: Tid)
      requires Valid() && t in ByTid(Model().active)
      requires var e := ByTid(Model().active)[t]; e.Count(Exclusive) > 0 ==> |e.history| < MAX_NEST
      modifies active, pending, suspended, active.repr`shared, active.repr`exclusive, active.repr`nesting,
               active.repr`next, pending.repr`next, pending.repr`signalled
      ensures Valid() && Model() == Suspend(old(Model()), t).m
      ensures Stay(old(Nodes()), Nodes(), null)
    {
      ghost var c := Nodes();
      SetAside(t);
      ghost var c' := Nodes();
      ServeHead();
      StayOn(c, c', Nodes(), null);
    }

    /** The first half of `SuspendAccess`. */
    method SetAside(t: Tid)
      requires Valid() && t in ByTid(Model().active)
      requires var e := ByTid(Model().active)[t]; e.Count(Exclusive) > 0 ==> |e.history| < MAX_NEST
      modifies active, suspended, active.repr`shared, active.repr`exclusive, active.repr`nesting, active.repr`next
      ensures Valid() && Stay(old(Nodes()), Nodes(), null)
      ensures var m := old(Model());
              Model() == m.(active := Without(m.active, t), suspended := [ByTid(m.active)[t]] + m.suspended)
    {
      ghost var e, c := ByTid(Model().active)[t], Nodes();
      var ours := LeaveActive(t);
      ghost var c' := Nodes();
      Detour(ours, e);
      JoinSuspended(ours, e);
      ComesBack(c, c', Nodes(), ours);
    }

    method LeaveSuspended(t: Tid) returns (r: Request?)
      requires Valid()
      modifies suspended, suspended.repr`next
      ensures Valid()
      ensures t !in ByTid(old(Model()).suspended) ==> r == null && Model() == old(Model())
      ensures t in ByTid(old(Model()).suspended) ==>
                && r != null && r in old(suspended.repr) && Loose(r)
                && Stands(r.Fields(), ByTid(old(Model()).suspended)[t])
                && Model() == old(Model()).(suspended := Without(old(Model()).suspended, t))
      ensures Stay(old(Nodes()), Nodes(), r)
    {
      r := suspended.Take(t);
    }

    /** `ResumeAccess`. */
    method ResumeAccess(t: Tid) returns (waits: bool)
      requires Valid()
      modifies active, pending, suspended, pending.repr`next, pending.repr`signalled, suspended.repr`next
      ensures Valid() && Stay(old(Nodes()), Nodes(), null)
      ensures var o := Resume(old(Model()), t); Model() == o.m && waits == o.waits
    {
      ghost var m, c := Model(), Nodes();
      waits := false;
      var ours := LeaveSuspended(t);
      ghost var c' := Nodes();
      if ours != null {
        waits := SatisfyRequest(ours, ByTid(m.suspended)[t]);
        ComesBack(c, c', Nodes(), ours);
      }
    }

    /** `ReleaseAndReacquireAtEnd`. */
    method ReleaseAndReacquireAtEnd(t: Tid) returns (waits: bool)
      requires Valid() && t in ByTid(Model().active)
      modifies active, pending, active.repr`next, pending.repr`next, pending.repr`signalled
      ensures Valid() && Stay(old(Nodes()), Nodes(), null)
      ensures var o := ReacquireAtEnd(old(Model()), t); Model() == o.m && waits == o.waits
    {
      ghost var e, c := ByTid(Model().active)[t], Nodes();
      waits := false;
      var first := LineIsEmpty();
      if !first {
        var ours := LeaveActive(t);
        ghost var c' := Nodes();
        waits := SatisfyRequest(ours, e);
        ComesBack(c, c', Nodes(), ours);
      }
    }

    /** Both queries look the caller's request up by taking it out and putting it back at the head. */
    method LookUp(t: Tid) returns (found: bool)
      requires Valid()
      modifies active, active.repr`next
      ensures Valid() && Model() == Touch(old(Model()), t)
      ensures (found <==> t in ByTid(Model().active)) && Stay(old(Nodes()), Nodes(), null)
    {
      ghost var m, c := Model(), Nodes();
      var ours := LeaveActive(t);
      ghost var c' := Nodes();
      found := ours != null;
      if ours != null {
        KeysFacts(m.active);
        ConsFacts(ByTid(m.active)[t], Without(m.active, t));
        JoinActive(ours, ByTid(m.active)[t]);
        ComesBack(c, c', Nodes(), ours);
      }
    }

    /** `HasExclusiveAccess`. */
    method HasExclusiveAccess(t: Tid) returns (yes: bool)
      requires Valid()
      modifies active, active.repr`next
      ensures Valid() && Model() == Touch(old(Model()), t) && yes == HasExclusive(Model(), t)
      ensures Stay(old(Nodes()), Nodes(), null)
    {
      var found := LookUp(t);
      active.CachedTotals();
      yes := found && active.exclusive > 0;
    }

    /** `HasSharedAccess`. */
    method HasSharedAccess(t: Tid) returns (yes: bool)
      requires Valid()
      modifies active, active.repr`next
      ensures Valid() && Model() == Touch(old(Model()), t) && yes == HasShared(Model(), t)
      ensures Stay(old(Nodes()), Nodes(), null)
    {
      var found := LookUp(t);
      active.CachedTotals();
      yes := found && active.exclusive == 0 && active.shared > 0;
    }
  }
}
