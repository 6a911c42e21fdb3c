/**
 The lock bookkeeping of the access manager as values: what each critical
 section of `tAccessManager` does to its request lists.
 */
module AccessModel {

  type Tid = nat

  datatype Access = Shared | Exclusive

  /** The depth to which one thread may nest its accesses. */
  const MAX_NEST: nat := 32

  /** Number of request objects a manager prepares in advance. */
  const INITIAL_REQUESTS: nat := 32

  /** One request: its thread, the accesses it holds in the order they were asked for, and its event. */
  datatype Entry = Entry(tid: Tid, history: seq<Access>, signalled: bool) {
    ghost function Count(a: Access): nat {
      multiset(history)[a]
    }
  }

  /** The four request lists; of an unused request only the event matters. */
  datatype Manager = Manager(active: seq<Entry>, pending: seq<Entry>, suspended: seq<Entry>, spare: seq<bool>)

  /** The events of n requests, none of them set. */
  ghost function Reset(n: nat): seq<bool> {
    seq(n, _ => false)
  }

  /** The result of one critical section: the new lists, whether the caller must wait, and whom it signalled. */
  datatype Outcome = Outcome(m: Manager, waits: bool, woke: seq<Tid>)

  // ---------------------------------------------------------------- lists

  ghost function Total(es: seq<Entry>, a: Access): nat {
    if es == [] then 0 else es[0].Count(a) + Total(es[1..], a)
  }

  ghost function TotalAccesses(es: seq<Entry>): nat {
    Total(es, Shared) + Total(es, Exclusive)
  }

  ghost function ByTid(es: seq<Entry>): map<Tid, Entry> {
    if es == [] then map[] else ByTid(es[1..])[es[0].tid := es[0]]
  }

  ghost predicate Distinct(es: seq<Entry>) {
    es == [] || (es[0].tid !in ByTid(es[1..]) && Distinct(es[1..]))
  }

  ghost function Without(es: seq<Entry>, t: Tid): seq<Entry> {
    if es == [] then []
    else if es[0].tid == t then es[1..]
    else [es[0]] + Without(es[1..], t)
  }

  ghost function Tids(es: seq<Entry>): seq<Tid> {
    seq(|es|, i requires 0 <= i < |es| => es[i].tid)
  }

  // ---------------------------------------------------------------- critical sections

  /** A request cannot join the active list beside an exclusive access, nor an exclusive one beside any. */
  ghost predicate Blocked(active: seq<Entry>, e: Entry) {
    Total(active, Exclusive) > 0 || (e.Count(Exclusive) > 0 && TotalAccesses(active) > 0)
  }

  /** Offers access to the head of the line (`SatisfyRequest` with high priority, for another thread). */
  ghost function SatisfyHead(m: Manager): Outcome {
    if m.pending == [] then Outcome(m, false, [])
    else
      var e := m.pending[0];
      if Blocked(m.active, e) then Outcome(m, false, [])
      else Outcome(m.(active := [e.(signalled := true)] + m.active, pending := m.pending[1..]), false, [e.tid])
  }

  /** Asks for access for the caller's own request (`SatisfyRequest` with low priority). */
  ghost function SatisfyOwn(m: Manager, e: Entry): Outcome {
    if TotalAccesses(m.pending) == 0 && !Blocked(m.active, e) then
      Outcome(m.(active := [e] + m.active), false, [])
    else
      var o := SatisfyHead(m);
      Outcome(o.m.(pending := o.m.pending + [e]), true, o.woke)
  }

  /** `GetSharedAccess` and `GetExclusiveAccess`. */
  ghost function Acquire(m: Manager, t: Tid, a: Access): Outcome {
    if t in ByTid(m.active) then
      var e := ByTid(m.active)[t];
      var e' := e.(history := e.history + [a]);
      var rest := m.(active := Without(m.active, t));
      if a == Shared || e.Count(Exclusive) > 0 then
        Outcome(rest.(active := [e'] + rest.active), false, [])
      else
        SatisfyOwn(rest, e')
    else
      var event := m.spare != [] && m.spare[0];
      var m' := if m.spare == [] then m else m.(spare := m.spare[1..]);
      SatisfyOwn(m', Entry(t, [a], event))
  }

  /** The thread's newest access is gone; a request without accesses goes to the unused ones. */
  ghost function GivenBack(m: Manager, t: Tid): Manager
    requires t in ByTid(m.active) && ByTid(m.active)[t].history != []
  {
    var e := ByTid(m.active)[t];
    var rest := m.(active := Without(m.active, t));
    if |e.history| > 1 then rest.(active := [e.(history := e.history[..|e.history| - 1])] + rest.active)
    else rest.(spare := [e.signalled] + rest.spare)
  }

  /** `Release`, the part under the lock. */
  ghost function Release(m: Manager, t: Tid): Outcome
    requires t in ByTid(m.active) && ByTid(m.active)[t].history != []
  {
    SatisfyHead(GivenBack(m, t))
  }

  /** `SuspendAccess`. */
  ghost function Suspend(m: Manager, t: Tid): Outcome
    requires t in ByTid(m.active)
  {
    SatisfyHead(m.(active := Without(m.active, t), suspended := [ByTid(m.active)[t]] + m.suspended))
  }

  /** `ResumeAccess`; a thread that was not suspended keeps what it has. */
  ghost function Resume(m: Manager, t: Tid): Outcome {
    if t in ByTid(m.suspended) then
      SatisfyOwn(m.(suspended := Without(m.suspended, t)), ByTid(m.suspended)[t])
    else
      Outcome(m, false, [])
  }

  /** `ReleaseAndReacquireAtEnd`. */
  ghost function ReacquireAtEnd(m: Manager, t: Tid): Outcome
    requires t in ByTid(m.active)
  {
    if TotalAccesses(m.pending) == 0 then Outcome(m, false, [])
    else SatisfyOwn(m.(active := Without(m.active, t)), ByTid(m.active)[t])
  }

  /** Looking a thread up removes its request and puts it back at the head. */
  ghost function Touch(m: Manager, t: Tid): Manager {
    if t in ByTid(m.active) then m.(active := [ByTid(m.active)[t]] + Without(m.active, t)) else m
  }

  /** What `HasExclusiveAccess` answers: it reads the totals of the whole active list. */
  ghost predicate HasExclusive(m: Manager, t: Tid) {
    t in ByTid(m.active) && Total(m.active, Exclusive) > 0
  }

  /** What `HasSharedAccess` answers. */
  ghost predicate HasShared(m: Manager, t: Tid) {
    t in ByTid(m.active) && Total(m.active, Exclusive) == 0 && Total(m.active, Shared) > 0
  }

  // ---------------------------------------------------------------- facts about lists

  lemma ConsFacts(e: Entry, es: seq<Entry>)
    ensures ByTid([e] + es) == ByTid(es)[e.tid := e]
    ensures Distinct([e] + es) <==> Distinct(es) && e.tid !in ByTid(es)
    ensures forall a :: Total([e] + es, a) == e.Count(a) + Total(es, a)
  {
    assert ([e] + es)[1..] == es;
  }

  lemma {:induction false} SnocFacts(es: seq<Entry>, e: Entry)
    requires e.tid !in ByTid(es)
    ensures ByTid(es + [e]) == ByTid(es)[e.tid := e]
    ensures Distinct(es) ==> Distinct(es + [e])
    ensures forall a :: Total(es + [e], a) == Total(es, a) + e.Count(a)
  {
    if es == [] {
      assert es + [e] == [e];
    } else {
      SnocFacts(es[1..], e);
      assert (es + [e])[1..] == es[1..] + [e];
    }
  }

  lemma {:induction false} WithoutFacts(es: seq<Entry>, t: Tid)
    requires Distinct(es) && t in ByTid(es)
    ensures Distinct(Without(es, t)) && |Without(es, t)| == |es| - 1
    ensures ByTid(Without(es, t)) == ByTid(es) - {t}
    ensures forall a :: Total(Without(es, t), a) + ByTid(es)[t].Count(a) == Total(es, a)
  {
    if es[0].tid == t {
      assert ByTid(es[1..]) == ByTid(es) - {t};
    } else {
      WithoutFacts(es[1..], t);
      ConsFacts(es[0], Without(es[1..], t));
      assert ByTid(Without(es, t)) == ByTid(es) - {t};
    }
  }

  lemma {:induction false} KeysFacts(es: seq<Entry>)
    ensures forall t :: t in ByTid(es) ==> ByTid(es)[t].tid == t && ByTid(es)[t] in es
    ensures es != [] ==> ByTid(es) != map[] && es[0].tid in ByTid(es) && ByTid(es)[es[0].tid] == es[0]
    ensures forall t, a :: t in ByTid(es) ==> ByTid(es)[t].Count(a) <= Total(es, a)
  {
    if es != [] {
      KeysFacts(es[1..]);
      assert es[0].tid in ByTid(es);
    }
  }

  lemma CountFacts(e: Entry)
    ensures e.Count(Shared) + e.Count(Exclusive) == |e.history|
  {
    CountSplit(e.history);
  }

  lemma {:induction false} CountSplit(h: seq<Access>)
    ensures multiset(h)[Shared] + multiset(h)[Exclusive] == |h|
  {
    if h != [] {
      CountSplit(h[1..]);
      assert h == [h[0]] + h[1..];
      assert multiset(h) == multiset{h[0]} + multiset(h[1..]);
      assert h[0] == Shared || h[0] == Exclusive;
    }
  }

  /** An empty list is told from a non-empty one by its access totals, because no listed request is empty. */
  lemma TotalsDetectEmpty(es: seq<Entry>)
    requires forall t :: t in ByTid(es) ==> |ByTid(es)[t].history| >= 1
    ensures TotalAccesses(es) == 0 <==> es == []
  {
    if es != [] {
      KeysFacts(es);
      CountFacts(es[0]);
    }
  }
}
