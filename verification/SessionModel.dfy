/**
 Handles and their sessions: the table of open sessions, the table of sessions
 whose closing is deferred while the user still holds buffers, and every run
 of API calls on them.
 */
module SessionModel {
  import opened QueueModel
  import Q = QueueRuns

  /** `uintptr_t` on a 64-bit machine. */
  const HANDLES: nat := 0x1_0000_0000_0000_0000

  type Handle = n: nat | n < 0x1_0000_0000_0000_0000

  const INVALID_SESSION: int := -734002
  const INVALID_ARGUMENT: int := -734003

  /** A buffer as the user has been given it: with the session it came from. */
  datatype Region = Region(session: Handle, b: BufferId)

  /** A session has no transfer queue until it is configured. */
  datatype Session = Session(transfer: Option<Q.State>)

  datatype Table = Table(open: map<Handle, Session>, deferred: map<Handle, Session>, next: Handle)

  datatype Outcome = Outcome(t: Table, code: int)

  function Following(h: Handle): Handle {
    (h + 1) % HANDLES
  }

  /** `CheckDeferredDestructionConditionsMet`: the user holds no buffer. */
  predicate NoneOutstanding(s: Session) {
    s.transfer.None? || s.transfer.value.q.user == []
  }

  /** `Cancel`. */
  function Cancelled(s: Session): Session {
    if s.transfer.None? then s else Session(Some(Q.Next(s.transfer.value, Q.DoAbort(OPERATION_CANCELLED))))
  }

  ghost function Register(t: Table, s: Session): Table {
    t.(open := t.open[t.next := s], next := Following(t.next))
  }

  /** `GetSession`; whether the second table counts depends on the call. */
  ghost function Find(t: Table, h: Handle, alsoDeferred: bool): Option<Session> {
    if h in t.open then Some(t.open[h])
    else if alsoDeferred && h in t.deferred then Some(t.deferred[h])
    else None
  }

  ghost function Destroy(t: Table, h: Handle, defer: bool): Outcome {
    if h !in t.open then Outcome(t, INVALID_SESSION)
    else
      var t' := t.(open := t.open - {h});
      if defer && !NoneOutstanding(t.open[h])
      then Outcome(t'.(deferred := t.deferred[h := Cancelled(t.open[h])]), SUCCESS)
      else Outcome(t', SUCCESS)
  }

  function Released(s: Session, b: BufferId): Session {
    if s.transfer.None? then s else Session(Some(Q.Next(s.transfer.value, Q.ReleaseToIdle(b))))
  }

  predicate Holds(s: Session, b: BufferId) {
    s.transfer.Some? && b in s.transfer.value.q.user
  }

  /** `easyrdma_ReleaseUserBufferRegionToIdle`: the region must be given, and belong to the session. */
  ghost function ReleaseRegion(t: Table, h: Handle, region: Option<Region>): Outcome {
    if region.None? || region.value.session != h then Outcome(t, INVALID_ARGUMENT)
    else ReleaseToIdle(t, h, region.value.b)
  }

  ghost function ReleaseToIdle(t: Table, h: Handle, b: BufferId): Outcome {
    match Find(t, h, true)
    case None => Outcome(t, INVALID_SESSION)
    case Some(s) =>
      if !Holds(s, b) then Outcome(t, INVALID_OPERATION)
      else
        var s' := Released(s, b);
        if h in t.open then Outcome(t.(open := t.open[h := s']), SUCCESS)
        else if NoneOutstanding(s') then Outcome(t.(deferred := t.deferred - {h}), SUCCESS)
        else Outcome(t.(deferred := t.deferred[h := s']), SUCCESS)
  }

  // ---------------------------------------------------------------- runs

  /** `issued` lists all handles ever returned. */
  datatype State = State(t: Table, issued: seq<Handle>)

  /** `Work` is any step of an open session's queue, `Background` one that needs no API call. */
  datatype Event =
    | Create
    | Configure(h: Handle, q: Queue)
    | Work(h: Handle, ev: Q.Event)
    | Background(h: Handle, ev: Q.Event)
    | Close(h: Handle, defer: bool)
    | Release(h: Handle, region: Option<Region>)

  ghost predicate OwnSteps(ev: Q.Event) {
    ev.Complete? || ev.DoAbort? || ev.Credit? || ev.CreditPosts? || ev.FailureRecorded? || ev.CallBack?
  }

  ghost predicate Runs(m: map<Handle, Session>, h: Handle, ev: Q.Event) {
    h in m && m[h].transfer.Some? && Q.Enabled(m[h].transfer.value, ev)
  }

  ghost predicate Enabled(s: State, ev: Event) {
    match ev
    case Configure(h, _) => h in s.t.open && s.t.open[h].transfer.None?
    case Work(h, e) => Runs(s.t.open, h, e)
    case Background(h, e) => Runs(s.t.deferred, h, e) && OwnSteps(e)
    case _ => true
  }

  ghost function Stepped(m: map<Handle, Session>, h: Handle, ev: Q.Event): map<Handle, Session>
    requires Runs(m, h, ev)
  {
    m[h := Session(Some(Q.Next(m[h].transfer.value, ev)))]
  }

  ghost function Next(s: State, ev: Event): State
    requires Enabled(s, ev)
  {
    match ev
    case Create => State(Register(s.t, Session(None)), s.issued + [s.t.next])
    case Configure(h, q) => s.(t := s.t.(open := s.t.open[h := Session(Some(Q.Init(q)))]))
    case Work(h, e) => s.(t := s.t.(open := Stepped(s.t.open, h, e)))
    case Background(h, e) => s.(t := s.t.(deferred := Stepped(s.t.deferred, h, e)))
    case Close(h, defer) => s.(t := Destroy(s.t, h, defer).t)
    case Release(h, region) => s.(t := ReleaseRegion(s.t, h, region).t)
  }

  ghost function Init(): State {
    State(Table(map[], map[], 1), [])
  }

  ghost predicate IsRun(s: State, evs: seq<Event>)
    decreases |evs|
  {
    evs == [] || (Enabled(s, evs[0]) && IsRun(Next(s, evs[0]), evs[1..]))
  }

  ghost function After(s: State, evs: seq<Event>): State
    requires IsRun(s, evs)
    decreases |evs|
  {
    if evs == [] then s else After(Next(s, evs[0]), evs[1..])
  }

  // ---------------------------------------------------------------- handles

  /** Handles are handed out in turn. */
  ghost predicate Numbered(s: State) {
    && s.t.next == (|s.issued| + 1) % HANDLES
    && forall i :: 0 <= i < |s.issued| ==> s.issued[i] == (i + 1) % HANDLES
  }

  /** As long as the counter has not wrapped, the next handle is new; after that it never is. */
  lemma NextIsFresh(s: State)
    requires Numbered(s)
    ensures s.t.next !in s.issued <==> |s.issued| < HANDLES
  {
    var n := |s.issued|;
    if n < HANDLES {
      forall i | 0 <= i < n
        ensures s.issued[i] != s.t.next
      {
        Apart(i, n);
      }
    } else {
      var i := n - HANDLES;
      assert (i + 1 + HANDLES) % HANDLES == (i + 1) % HANDLES;
      assert s.issued[i] == s.t.next;
    }
  }

  lemma Apart(i: nat, n: nat)
    requires i < n < HANDLES
    ensures (i + 1) % HANDLES != (n + 1) % HANDLES
  {
  }

  lemma NumberedStep(s: State, ev: Event)
    requires Numbered(s) && Enabled(s, ev)
    ensures Numbered(Next(s, ev))
  {
    if ev.Create? {
      Count(|s.issued| + 1);
    }
  }

  lemma {:induction false} NumberedRun(s: State, evs: seq<Event>)
    requires Numbered(s) && IsRun(s, evs)
    ensures Numbered(After(s, evs))
    decreases |evs|
  {
    if evs != [] {
      NumberedStep(s, evs[0]);
      NumberedRun(Next(s, evs[0]), evs[1..]);
    }
  }

  /** After every run, however long, the next handle is new if and only if the counter has not wrapped. */
  lemma FreshUntilWrapped(evs: seq<Event>)
    requires IsRun(Init(), evs)
    ensures var s := After(Init(), evs); s.t.next !in s.issued <==> |s.issued| < HANDLES
  {
    NumberedRun(Init(), evs);
    NextIsFresh(After(Init(), evs));
  }

  ghost predicate Known(s: State) {
    && (forall h :: h in s.t.open ==> h in s.issued)
    && (forall h :: h in s.t.deferred ==> h in s.issued && h !in s.t.open)
  }

  /** A deferred session waits for the user to release buffers, and its queue has been aborted. */
  ghost predicate Held(s: Session) {
    s.transfer.Some? && s.transfer.value.q.user != [] && s.transfer.value.q.aborted
  }

  ghost predicate AllHeld(m: map<Handle, Session>) {
    forall h :: h in m ==> Held(m[h])
  }

  ghost predicate Inv(s: State) {
    Numbered(s) && Known(s) && AllHeld(s.t.deferred)
  }

  // ---------------------------------------------------------------- every call keeps the invariant

  lemma OwnStepsHold(s: Q.State, ev: Q.Event)
    requires Q.Enabled(s, ev) && OwnSteps(ev) && s.q.aborted
    ensures Q.Next(s, ev).q.user == s.q.user && Q.Next(s, ev).q.aborted
  {
  }

  lemma CancelHolds(s: Session)
    requires !NoneOutstanding(s)
    ensures Held(Cancelled(s)) && Cancelled(s).transfer.value.q.user == s.transfer.value.q.user
  {
  }

  lemma ReleaseHolds(s: Session, b: BufferId)
    requires Held(s) && Holds(s, b)
    ensures NoneOutstanding(Released(s, b)) || Held(Released(s, b))
    ensures NoneOutstanding(Released(s, b)) <==> Unlink(s.transfer.value.q.user, b) == []
  {
  }

  lemma CreateKeeps(s: State)
    requires Inv(s) && |s.issued| < HANDLES
    ensures Inv(Next(s, Create))
  {
    NextIsFresh(s);
    Count(|s.issued| + 1);
  }

  lemma Count(n: nat)
    ensures (n % HANDLES + 1) % HANDLES == (n + 1) % HANDLES
  {
  }

  lemma TablesKeep(s: State, ev: Event)
    requires Inv(s) && Enabled(s, ev) && !ev.Create?
    ensures Inv(Next(s, ev))
  {
    match ev
    case Background(h, e) => OwnStepsHold(s.t.deferred[h].transfer.value, e);
    case Close(h, defer) => if h in s.t.open && !NoneOutstanding(s.t.open[h]) { CancelHolds(s.t.open[h]); }
    case Release(h, region) =>
      if region.Some? && h in s.t.deferred && Holds(s.t.deferred[h], region.value.b) {
        ReleaseHolds(s.t.deferred[h], region.value.b);
      }
    case _ =>
  }

  lemma StepKeeps(s: State, ev: Event)
    requires Inv(s) && Enabled(s, ev) && |Next(s, ev).issued| <= HANDLES
    ensures Inv(Next(s, ev))
  {
    if ev.Create? {
      CreateKeeps(s);
    } else {
      TablesKeep(s, ev);
    }
  }

  lemma {:induction false} IssuedGrows(s: State, evs: seq<Event>)
    requires IsRun(s, evs)
    ensures s.issued <= After(s, evs).issued
    decreases |evs|
  {
    if evs != [] {
      IssuedGrows(Next(s, evs[0]), evs[1..]);
    }
  }

  /** The tables stay consistent as long as no more handles are issued than there are numbers. */
  lemma {:induction false} RunKeeps(s: State, evs: seq<Event>)
    requires Inv(s) && IsRun(s, evs) && |After(s, evs).issued| <= HANDLES
    ensures Inv(After(s, evs))
    decreases |evs|
  {
    if evs != [] {
      IssuedGrows(Next(s, evs[0]), evs[1..]);
      StepKeeps(s, evs[0]);
      RunKeeps(Next(s, evs[0]), evs[1..]);
    }
  }

  // ---------------------------------------------------------------- theorems

  datatype Stage = Unissued | Opened | Deferred | Closed

  ghost function StageOf(s: State, h: Handle): Stage {
    if h in s.t.open then Opened
    else if h in s.t.deferred then Deferred
    else if h in s.issued then Closed
    else Unissued
  }

  ghost predicate Follows(a: Stage, b: Stage) {
    match a
    case Unissued => true
    case Opened => b != Unissued
    case Deferred => b == Deferred || b == Closed
    case Closed => b == Closed
  }

  lemma StepAdvances(s: State, ev: Event, h: Handle)
    requires Inv(s) && Enabled(s, ev) && |Next(s, ev).issued| <= HANDLES
    ensures Follows(StageOf(s, h), StageOf(Next(s, ev), h))
  {
    if ev.Create? {
      NextIsFresh(s);
    }
  }

  /** Over any run a handle moves only from open to deferred to closed, and never back. */
  lemma {:induction false} HandlesOnlyAdvance(s: State, evs: seq<Event>, h: Handle)
    requires Inv(s) && IsRun(s, evs) && |After(s, evs).issued| <= HANDLES
    ensures Follows(StageOf(s, h), StageOf(After(s, evs), h))
    decreases |evs|
  {
    if evs != [] {
      IssuedGrows(Next(s, evs[0]), evs[1..]);
      StepKeeps(s, evs[0]);
      StepAdvances(s, evs[0], h);
      HandlesOnlyAdvance(Next(s, evs[0]), evs[1..], h);
    }
  }

  /** A deferred session leaves its table exactly with the release that takes the user's last buffer. */
  lemma LeavesWithLastRelease(s: State, ev: Event, h: Handle)
    requires Inv(s) && Enabled(s, ev) && h in s.t.deferred
    ensures h !in Next(s, ev).t.deferred <==>
            && ev.Release? && ev.h == h && ev.region.Some? && ev.region.value.session == h
            && Holds(s.t.deferred[h], ev.region.value.b)
            && Unlink(s.t.deferred[h].transfer.value.q.user, ev.region.value.b) == []
  {
    if ev.Release? && ev.h == h && ev.region.Some? && Holds(s.t.deferred[h], ev.region.value.b) {
      ReleaseHolds(s.t.deferred[h], ev.region.value.b);
    }
  }

  /** Closing defers exactly if it was asked to and the user holds a buffer; the session is then aborted and keeps
      those buffers. Otherwise the handle is gone at once. */
  lemma CloseDefers(s: State, h: Handle, defer: bool)
    requires Inv(s) && h in s.t.open
    ensures var t := Destroy(s.t, h, defer).t;
            && h !in t.open
            && (h in t.deferred <==> defer && !NoneOutstanding(s.t.open[h]))
            && (h in t.deferred ==> t.deferred[h].transfer.value.q.user == s.t.open[h].transfer.value.q.user)
  {
    if !NoneOutstanding(s.t.open[h]) {
      CancelHolds(s.t.open[h]);
    }
  }

  /** From the start: the tables are disjoint, every session in the second one has a buffer outstanding, and a handle
      that was issued and is in neither is refused by every call, whatever happens afterwards. */
  lemma DeferredClose(evs: seq<Event>, later: seq<Event>, h: Handle)
    requires IsRun(Init(), evs) && IsRun(After(Init(), evs), later)
    requires |After(After(Init(), evs), later).issued| <= HANDLES
    ensures var t := After(Init(), evs).t;
            && (h in t.deferred ==> h !in t.open && !NoneOutstanding(t.deferred[h]))
            && (h in t.deferred ==> Find(t, h, false) == None)
    ensures StageOf(After(Init(), evs), h) == Closed ==>
            var t := After(After(Init(), evs), later).t;
            && Find(t, h, true) == None
            && forall b: BufferId :: ReleaseRegion(t, h, Some(Region(h, b))) == Outcome(t, INVALID_SESSION)
  {
    var s := After(Init(), evs);
    IssuedGrows(s, later);
    RunKeeps(Init(), evs);
    HandlesOnlyAdvance(s, later, h);
  }

  // ---------------------------------------------------------------- when the counter wraps

  ghost function Creates(n: nat): seq<Event> {
    seq(n, _ => Create)
  }

  lemma {:induction false} CreateMany(s: State, n: nat)
    requires Numbered(s)
    ensures IsRun(s, Creates(n))
    ensures var s' := After(s, Creates(n));
            && Numbered(s') && |s'.issued| == |s.issued| + n
            && forall h :: h in s.t.open ==> h in s'.t.open
    decreases n
  {
    if n > 0 {
      Count(|s.issued| + 1);
      CreateMany(Next(s, Create), n - 1);
      assert Creates(n)[1..] == Creates(n - 1);
    }
  }

  /** The bound on the number of handles is needed: after 2^64 registrations the handle of an open session is issued
      a second time, and the registration replaces that session. */
  lemma WrappedHandleIsReused()
    ensures IsRun(Init(), Creates(HANDLES))
    ensures var s := After(Init(), Creates(HANDLES));
            s.t.next in s.t.open && s.t.next in s.issued && Next(s, Create).t.open.Keys == s.t.open.Keys
  {
    var s1 := Next(Init(), Create);
    CreateMany(Init(), HANDLES);
    CreateMany(s1, HANDLES - 1);
    assert Creates(HANDLES)[0] == Create && Creates(HANDLES)[1..] == Creates(HANDLES - 1);
    var s := After(Init(), Creates(HANDLES));
    NextIsFresh(s);
    assert s.t.next == 1 && 1 in s1.t.open;
  }
}
