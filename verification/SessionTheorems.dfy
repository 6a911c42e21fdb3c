/**
 Each session handle lives its own life: what happens to a session is what the
 calls that name its handle do, whatever is done with other handles.
 */
module SessionTheorems {
  import opened QueueModel
  import opened SessionModel
  import Q = QueueRuns
  import T = QueueTheorems
  import A = QueueAnswers

  /** What the tables know of one handle. */
  datatype View = Absent | Open(session: Session) | Held(session: Session) | Gone

  ghost function ViewOf(s: State, h: Handle): View {
    if h in s.t.open then Open(s.t.open[h])
    else if h in s.t.deferred then Held(s.t.deferred[h])
    else if h in s.issued then Gone
    else Absent
  }

  /** The event concerns the handle. */
  ghost predicate Names(s: State, ev: Event, h: Handle) {
    match ev
    case Create => s.t.next == h
    case _ => ev.h == h
  }

  ghost predicate UserHolds(s: Session, b: BufferId) {
    s.transfer.Some? && b in s.transfer.value.q.user
  }

  ghost predicate UserHoldsNone(s: Session) {
    s.transfer.Some? ==> s.transfer.value.q.user == []
  }

  ghost function Worked(s: Session, e: Q.Event): Session {
    if s.transfer.Some? && Q.Enabled(s.transfer.value, e) then Session(Some(Q.Next(s.transfer.value, e))) else s
  }

  /** What an event that names the handle does to it: a new session is open and not configured; closing ends it, or
      holds it back if asked to while the user holds a buffer, and cancels it; releasing the last buffer ends one that
      is held back. */
  ghost function Own(v: View, ev: Event, h: Handle): View {
    match v
    case Absent => if ev.Create? then Open(Session(None)) else v
    case Open(s) =>
      (match ev
       case Configure(_, q) => Open(Session(Some(Q.Init(q))))
       case Work(_, e) => Open(Worked(s, e))
       case Close(_, defer) =>
         if defer && !UserHoldsNone(s) then Held(Worked(s, Q.DoAbort(OPERATION_CANCELLED))) else Gone
       case Release(_, region) =>
         if region.Some? && region.value.session == h && UserHolds(s, region.value.b)
         then Open(Worked(s, Q.ReleaseToIdle(region.value.b))) else v
       case _ => v)
    case Held(s) =>
      (match ev
       case Background(_, e) => Held(Worked(s, e))
       case Release(_, region) =>
         if region.Some? && region.value.session == h && UserHolds(s, region.value.b) then
           var s' := Worked(s, Q.ReleaseToIdle(region.value.b));
           if UserHoldsNone(s') then Gone else Held(s')
         else v
       case _ => v)
    case Gone => v
  }

  /** The life of one handle over a run. */
  ghost function Life(s: State, evs: seq<Event>, h: Handle, v: View): View
    requires IsRun(s, evs)
    decreases |evs|
  {
    if evs == [] then v
    else Life(Next(s, evs[0]), evs[1..], h, if Names(s, evs[0], h) then Own(v, evs[0], h) else v)
  }

  // ---------------------------------------------------------------- one event

  lemma CreateIsOwn(s: State, h: Handle)
    requires Inv(s) && |s.issued| < HANDLES
    ensures ViewOf(Next(s, Create), h) == if s.t.next == h then Own(ViewOf(s, h), Create, h) else ViewOf(s, h)
  {
    NextIsFresh(s);
  }

  lemma CloseIsOwn(s: State, c: Handle, defer: bool, h: Handle)
    requires Inv(s)
    ensures var ev := Close(c, defer);
            ViewOf(Next(s, ev), h) == if c == h then Own(ViewOf(s, h), ev, h) else ViewOf(s, h)
  {
  }

  lemma OwnRelease(s: State, h: Handle, region: Option<Region>)
    requires Inv(s)
    ensures ViewOf(Next(s, Release(h, region)), h) == Own(ViewOf(s, h), Release(h, region), h)
  {
  }

  lemma OtherRelease(s: State, c: Handle, region: Option<Region>, h: Handle)
    requires Inv(s) && c != h
    ensures ViewOf(Next(s, Release(c, region)), h) == ViewOf(s, h)
  {
  }

  lemma ReleaseIsOwn(s: State, c: Handle, region: Option<Region>, h: Handle)
    requires Inv(s)
    ensures var ev := Release(c, region);
            ViewOf(Next(s, ev), h) == if c == h then Own(ViewOf(s, h), ev, h) else ViewOf(s, h)
  {
    if c == h {
      OwnRelease(s, h, region);
    } else {
      OtherRelease(s, c, region, h);
    }
  }

  lemma WorkIsOwn(s: State, ev: Event, h: Handle)
    requires Inv(s) && Enabled(s, ev) && (ev.Configure? || ev.Work? || ev.Background?)
    ensures ViewOf(Next(s, ev), h) == if ev.h == h then Own(ViewOf(s, h), ev, h) else ViewOf(s, h)
  {
  }

  /** An event does to a handle it names what `Own` says, and nothing to any other handle. */
  lemma EventIsOwn(s: State, ev: Event, h: Handle)
    requires Inv(s) && Enabled(s, ev) && |Next(s, ev).issued| <= HANDLES
    ensures ViewOf(Next(s, ev), h) == if Names(s, ev, h) then Own(ViewOf(s, h), ev, h) else ViewOf(s, h)
  {
    match ev
    case Create => CreateIsOwn(s, h);
    case Close(c, defer) => CloseIsOwn(s, c, defer, h);
    case Release(c, region) => ReleaseIsOwn(s, c, region, h);
    case _ => WorkIsOwn(s, ev, h);
  }

  /** Other handles keep their stage and their session. */
  lemma OthersUntouched(s: State, ev: Event, h: Handle)
    requires Inv(s) && Enabled(s, ev) && |Next(s, ev).issued| <= HANDLES && !Names(s, ev, h)
    ensures StageOf(Next(s, ev), h) == StageOf(s, h)
    ensures h in s.t.open ==> h in Next(s, ev).t.open && Next(s, ev).t.open[h] == s.t.open[h]
    ensures h in s.t.deferred ==> h in Next(s, ev).t.deferred && Next(s, ev).t.deferred[h] == s.t.deferred[h]
  {
    EventIsOwn(s, ev, h);
  }

  /** An open handle stays open until its own Close. */
  lemma OpenUntilClosed(s: State, ev: Event, h: Handle)
    requires Inv(s) && Enabled(s, ev) && |Next(s, ev).issued| <= HANDLES && h in s.t.open
    ensures h in Next(s, ev).t.open <==> !(ev.Close? && ev.h == h)
  {
    EventIsOwn(s, ev, h);
    if ev.Create? {
      NextIsFresh(s);
    }
  }

  // ---------------------------------------------------------------- runs

  lemma {:induction false} LifeIsOwn(s: State, evs: seq<Event>, h: Handle)
    requires Inv(s) && IsRun(s, evs) && |After(s, evs).issued| <= HANDLES
    ensures ViewOf(After(s, evs), h) == Life(s, evs, h, ViewOf(s, h))
    decreases |evs|
  {
    if evs != [] {
      IssuedGrows(Next(s, evs[0]), evs[1..]);
      StepKeeps(s, evs[0]);
      EventIsOwn(s, evs[0], h);
      LifeIsOwn(Next(s, evs[0]), evs[1..], h);
    }
  }

  /** A lookup finds an open session always and a deferred one if asked to, with the state that the handle's own events
      have given it, and nothing else. */
  lemma LookupFindsOwn(evs: seq<Event>, h: Handle)
    requires IsRun(Init(), evs) && |After(Init(), evs).issued| <= HANDLES
    ensures var s := After(Init(), evs); var v := Life(Init(), evs, h, Absent);
            && (Find(s.t, h, false).Some? <==> StageOf(s, h) == Opened)
            && (Find(s.t, h, true).Some? <==> StageOf(s, h) == Opened || StageOf(s, h) == Deferred)
            && Find(s.t, h, false) == (if v.Open? then Some(v.session) else None)
            && Find(s.t, h, true) == if v.Open? || v.Held? then Some(v.session) else None
  {
    LifeIsOwn(Init(), evs, h);
  }

  /** Closing is refused exactly for handles that are not open, and a refusal changes nothing. */
  lemma CloseAnswers(t: Table, h: Handle, defer: bool)
    ensures var o := Destroy(t, h, defer);
            && (o.code == SUCCESS <==> h in t.open)
            && (h !in t.open ==> o.t == t && o.code == INVALID_SESSION)
            && o.t.open.Keys == t.open.Keys - {h} && t.deferred.Keys <= o.t.deferred.Keys <= t.deferred.Keys + {h}
            && forall x :: x != h ==>
                 && (x in t.open ==> o.t.open[x] == t.open[x])
                 && (x in t.deferred ==> o.t.deferred[x] == t.deferred[x])
  {
  }

  /** Releasing is refused for a missing or foreign region, then for a handle that is neither open nor deferred, then
      for a buffer that the user does not hold; a refusal changes nothing. */
  lemma ReleaseRefusals(t: Table, h: Handle, region: Option<Region>)
    ensures var o := ReleaseRegion(t, h, region);
            && (o.code != SUCCESS ==> o.t == t)
            && o.code ==
               if region == None || region.value.session != h then INVALID_ARGUMENT
               else if h !in t.open.Keys + t.deferred.Keys then INVALID_SESSION
               else if !UserHolds(if h in t.open then t.open[h] else t.deferred[h], region.value.b)
               then INVALID_OPERATION
               else SUCCESS
  {
  }

  /** Releasing a buffer on an open session: the user no longer holds it, it becomes the last idle one, and the session
      stays open. */
  lemma ReleaseOnOpen(t: Table, h: Handle, b: BufferId)
    requires h in t.open && UserHolds(t.open[h], b) && Q.Partitioned(t.open[h].transfer.value.q)
    ensures var o := ReleaseRegion(t, h, Some(Region(h, b)));
            && o.code == SUCCESS && h in o.t.open && o.t.open[h].transfer.Some?
            && var q, q' := t.open[h].transfer.value.q, o.t.open[h].transfer.value.q;
               b !in q'.user && q'.idle == q.idle + [b] && |q'.user| == |q.user| - 1
  {
    A.ReleaseAnswers(t.open[h].transfer.value.q, b);
    T.UnlinkLength(t.open[h].transfer.value.q.user, b);
  }
}
