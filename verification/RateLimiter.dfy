/**
The per-host rate limiter of src/turboedge/adapters/base.py (`_HostRateLimiter.wait`,
`HttpClient._limiter_for`) as interleaved steps of any number of threads sharing one client.
Every lock operation, table access, clock reading, sleep and send is a step of its own.
*/
module RateLimiter {
  import opened Reals
  import opened Sequences
  import opened Wrappers

  type Host = string

  type Thread = nat

  // What a thread does next.
  datatype Pc =
    | Idle
    | Asking(host: Host)                          // wants the table lock
    | Looking(host: Host)                         // holds it, about to read the table
    | Looked(host: Host, found: Option<nat>)      // holds it, has read the table
    | Queued(limiter: nat)                        // wants the limiter's lock
    | Reading(limiter: nat)                       // holds it, about to read the clock
    | MustSleep(limiter: nat, remaining: real)
    | Asleep(limiter: nat, until: real)
    | Ready(limiter: nat)                         // about to record the time
    | Releasing(limiter: nat, grant: nat)
    | Granted(grant: nat)                         // `wait` has returned, the request is not sent yet

  datatype Limiter = Limiter(host: Host, last: Option<real>, holder: Option<Thread>)

  datatype Grant = Grant(host: Host, time: real)

  datatype Sent = Sent(grant: nat, time: real)

  datatype World = World(
    now: real,
    table: map<Host, nat>,
    tableHolder: Option<Thread>,
    limiters: seq<Limiter>,
    threads: map<Thread, Pc>,
    grants: seq<Grant>,
    sends: seq<Sent>
  )

  datatype Event = Tick(to: real) | Begin(thread: Thread, host: Host) | Advance(thread: Thread)

  const START := World(0.0, map[], None, [], map[], [], [])

  function PcOf(w: World, t: Thread): Pc {
    if t in w.threads then w.threads[t] else Idle
  }

  function Lookup(table: map<Host, nat>, host: Host): Option<nat> {
    if host in table then Some(table[host]) else None
  }

  // ---- The steps ----

  function At(w: World, t: Thread, pc: Pc): World {
    w.(threads := w.threads[t := pc])
  }

  function WithLimiter(w: World, i: nat, l: Limiter): World
    requires i < |w.limiters|
  {
    w.(limiters := w.limiters[i := l])
  }

  function LookStep(w: World, t: Thread, pc: Pc): World
    requires pc.Asking? || pc.Looking? || pc.Looked?
  {
    match pc
    case Asking(host) => if w.tableHolder.None? then At(w.(tableHolder := Some(t)), t, Looking(host)) else w
    case Looking(host) => At(w, t, Looked(host, Lookup(w.table, host)))
    case Looked(host, Some(i)) => At(w.(tableHolder := None), t, Queued(i))
    case Looked(host, None) =>
      var made := w.(limiters := w.limiters + [Limiter(host, None, None)], table := w.table[host := |w.limiters|]);
      At(made.(tableHolder := None), t, Queued(|w.limiters|))
  }

  function WaitStep(w: World, t: Thread, pc: Pc, interval: real): World
    requires pc.Queued? || pc.Reading? || pc.MustSleep? || pc.Asleep? || pc.Ready? || pc.Releasing?
    requires pc.limiter < |w.limiters|
  {
    var i := pc.limiter;
    var l := w.limiters[i];
    match pc
    case Queued(_) =>
      if interval <= 0.0 then At(w.(grants := w.grants + [Grant(l.host, w.now)]), t, Granted(|w.grants|))
      else if l.holder.None? then At(WithLimiter(w, i, l.(holder := Some(t))), t, Reading(i))
      else w
    case Reading(_) =>
      if l.last.None? then At(w, t, Ready(i))
      else
        var remaining := interval - (w.now - l.last.value);
        At(w, t, if remaining > 0.0 then MustSleep(i, remaining) else Ready(i))
    case MustSleep(_, remaining) => At(w, t, Asleep(i, w.now + remaining))
    case Asleep(_, until) => if w.now >= until then At(w, t, Ready(i)) else w
    case Ready(_) =>
      var recorded := WithLimiter(w, i, l.(last := Some(w.now)));
      At(recorded.(grants := w.grants + [Grant(l.host, w.now)]), t, Releasing(i, |w.grants|))
    case Releasing(_, grant) => At(WithLimiter(w, i, l.(holder := None)), t, Granted(grant))
  }

  // One event; a blocked thread, or one with nothing to do, leaves the world as it is.
  function Step(w: World, e: Event, interval: real): World
    requires IndicesOk(w)
  {
    match e
    case Tick(to) => if to > w.now then w.(now := to) else w
    case Begin(t, host) => if PcOf(w, t).Idle? then At(w, t, Asking(host)) else w
    case Advance(t) =>
      var pc := PcOf(w, t);
      if pc.Granted? then At(w.(sends := w.sends + [Sent(pc.grant, w.now)]), t, Idle)
      else if UsesLimiter(pc) then WaitStep(w, t, pc, interval)
      else if pc.Idle? then w
      else LookStep(w, t, pc)
  }

  // ---- The invariant ----

  predicate UsesLimiter(pc: Pc) {
    pc.Queued? || InCritical(pc)
  }

  predicate InCritical(pc: Pc) {
    pc.Reading? || pc.MustSleep? || pc.Asleep? || pc.Ready? || pc.Releasing?
  }

  predicate HoldsTable(pc: Pc) {
    pc.Looking? || pc.Looked?
  }

  ghost predicate IndicesOk(w: World) {
    forall t: Thread :: UsesLimiter(PcOf(w, t)) ==> PcOf(w, t).limiter < |w.limiters|
  }

  // One limiter per host and one host per limiter.
  ghost predicate TableOk(w: World) {
    && (forall h :: h in w.table ==> w.table[h] < |w.limiters| && w.limiters[w.table[h]].host == h)
    && (forall i :: 0 <= i < |w.limiters| ==> Lookup(w.table, w.limiters[i].host) == Some(i))
  }

  ghost predicate ThreadLooks(w: World, t: Thread) {
    && (HoldsTable(PcOf(w, t)) <==> w.tableHolder == Some(t))
    && (PcOf(w, t).Looked? ==>
          (PcOf(w, t).found == Lookup(w.table, PcOf(w, t).host)
           && (PcOf(w, t).found.Some? ==> PcOf(w, t).found.value < |w.limiters|)))
  }

  // The table lock is held by exactly the thread inside the lookup, whose reading is still current.
  ghost predicate LookupOk(w: World) {
    forall t: Thread :: ThreadLooks(w, t)
  }

  ghost predicate ThreadLocks(w: World, t: Thread) {
    InCritical(PcOf(w, t)) ==>
      (PcOf(w, t).limiter < |w.limiters| && w.limiters[PcOf(w, t).limiter].holder == Some(t))
  }

  ghost predicate LimiterLocked(w: World, i: nat)
    requires i < |w.limiters|
  {
    w.limiters[i].holder.Some? ==>
      (InCritical(PcOf(w, w.limiters[i].holder.value)) && PcOf(w, w.limiters[i].holder.value).limiter == i)
  }

  // A limiter's lock is held by exactly the thread inside its critical section.
  ghost predicate LocksOk(w: World) {
    && (forall t: Thread :: ThreadLocks(w, t))
    && (forall i :: 0 <= i < |w.limiters| ==> LimiterLocked(w, i))
  }

  // A recording at time x would come at least one interval after the limiter's last one.
  predicate Due(l: Limiter, x: real, interval: real) {
    l.last.None? || x >= l.last.value + interval
  }

  ghost predicate WaitOk(w: World, interval: real) {
    forall t: Thread :: WaitingOk(w, PcOf(w, t), interval)
  }

  ghost predicate WaitingOk(w: World, pc: Pc, interval: real) {
    UsesLimiter(pc) && pc.limiter < |w.limiters| ==>
      match pc
      case MustSleep(i, remaining) => Due(w.limiters[i], w.now + remaining, interval)
      case Asleep(i, until) => Due(w.limiters[i], until, interval)
      case Ready(i) => Due(w.limiters[i], w.now, interval)
      case _ => true
  }

  // No grant lies after its limiter's last recording, so a due recording is due after all of them.
  ghost predicate GrantsOk(w: World, interval: real) {
    forall k :: 0 <= k < |w.grants| ==> GrantOk(w, w.grants[k], interval)
  }

  ghost predicate GrantOk(w: World, g: Grant, interval: real) {
    && g.time <= w.now
    && g.host in w.table
    && (interval > 0.0 && w.table[g.host] < |w.limiters| ==>
          (w.limiters[w.table[g.host]].last.Some? && g.time <= w.limiters[w.table[g.host]].last.value))
  }

  ghost predicate Spaced(grants: seq<Grant>, interval: real) {
    forall j, k :: 0 <= j < k < |grants| && grants[j].host == grants[k].host ==>
      grants[k].time - grants[j].time >= interval
  }

  // A request goes out after its own grant.
  ghost predicate SendsOk(w: World) {
    && (forall t: Thread :: PendingOk(w, PcOf(w, t)))
    && (forall s :: 0 <= s < |w.sends| ==>
          (w.sends[s].grant < |w.grants| && w.grants[w.sends[s].grant].time <= w.sends[s].time))
  }

  ghost predicate PendingOk(w: World, pc: Pc) {
    Pending(pc) ==> pc.grant < |w.grants| && w.grants[pc.grant].time <= w.now
  }

  predicate Pending(pc: Pc) {
    pc.Releasing? || pc.Granted?
  }

  ghost predicate Unshared(w: World, t: Thread) {
    Pending(PcOf(w, t)) ==>
      (&& (forall u: Thread :: u != t && Pending(PcOf(w, u)) ==> PcOf(w, u).grant != PcOf(w, t).grant)
       && (forall s :: 0 <= s < |w.sends| ==> w.sends[s].grant != PcOf(w, t).grant))
  }

  // No grant serves two requests.
  ghost predicate OnceOk(w: World) {
    && (forall t: Thread :: Unshared(w, t))
    && (forall a, b :: 0 <= a < b < |w.sends| ==> w.sends[a].grant != w.sends[b].grant)
  }

  ghost predicate Inv(w: World, interval: real) {
    && IndicesOk(w) && TableOk(w) && LookupOk(w) && LocksOk(w)
    && WaitOk(w, interval) && GrantsOk(w, interval) && Spaced(w.grants, interval) && SendsOk(w) && OnceOk(w)
  }

  // ---- Every step keeps it ----

  // A step moves only the thread that takes it.
  lemma OthersStay(w: World, e: Event, interval: real, u: Thread)
    requires IndicesOk(w)
    requires !e.Tick? ==> u != e.thread
    ensures PcOf(Step(w, e, interval), u) == PcOf(w, u)
  {
  }

  // Limiters are only ever added, and keep their host; time only moves forward.
  lemma LimitersStay(w: World, e: Event, interval: real)
    requires IndicesOk(w)
    ensures var w' := Step(w, e, interval);
            && w.now <= w'.now && |w.limiters| <= |w'.limiters|
            && (forall i :: 0 <= i < |w.limiters| ==> w'.limiters[i].host == w.limiters[i].host)
  {
  }

  // The table changes only when a thread that found no limiter adds one.
  predicate Adds(w: World, e: Event) {
    e.Advance? && PcOf(w, e.thread).Looked? && PcOf(w, e.thread).found.None?
  }

  lemma TableStays(w: World, e: Event, interval: real)
    requires IndicesOk(w) && !Adds(w, e)
    ensures Step(w, e, interval).table == w.table && |Step(w, e, interval).limiters| == |w.limiters|
  {
  }

  // A recording changes only by the thread that is ready to record.
  lemma LastStays(w: World, e: Event, interval: real, i: nat)
    requires IndicesOk(w) && i < |w.limiters|
    requires !(e.Advance? && PcOf(w, e.thread) == Ready(i))
    ensures i < |Step(w, e, interval).limiters| && Step(w, e, interval).limiters[i].last == w.limiters[i].last
  {
  }

  lemma StepKeepsTable(w: World, e: Event, interval: real)
    requires IndicesOk(w) && TableOk(w) && LookupOk(w)
    ensures TableOk(Step(w, e, interval))
  {
    assert !e.Tick? ==> ThreadLooks(w, e.thread);
    if Adds(w, e) {
      var host := PcOf(w, e.thread).host;
      assert host !in w.table;
      assert Step(w, e, interval).limiters == w.limiters + [Limiter(host, None, None)];
    } else {
      hide Step;
      LimitersStay(w, e, interval);
      TableStays(w, e, interval);
    }
  }

  lemma StepKeepsIndices(w: World, e: Event, interval: real)
    requires IndicesOk(w) && LookupOk(w)
    ensures IndicesOk(Step(w, e, interval))
  {
    assert !e.Tick? ==> ThreadLooks(w, e.thread);
    LimitersStay(w, e, interval);
    forall u: Thread | UsesLimiter(PcOf(Step(w, e, interval), u))
      ensures PcOf(Step(w, e, interval), u).limiter < |Step(w, e, interval).limiters|
    {
      if e.Tick? || u != e.thread { OthersStay(w, e, interval, u); }
    }
  }

  lemma StepKeepsWaiting(w: World, e: Event, interval: real, u: Thread)
    requires IndicesOk(w) && LocksOk(w) && WaitOk(w, interval)
    requires !e.Tick? ==> u != e.thread
    ensures WaitingOk(Step(w, e, interval), PcOf(Step(w, e, interval), u), interval)
  {
    hide Step;
    assert ThreadLocks(w, u) && (!e.Tick? ==> ThreadLocks(w, e.thread));
    OthersStay(w, e, interval, u);
    LimitersStay(w, e, interval);
    var pc := PcOf(w, u);
    assert WaitingOk(w, pc, interval);
    if InCritical(pc) {
      if e.Advance? { assert PcOf(w, e.thread) != Ready(pc.limiter); }
      LastStays(w, e, interval, pc.limiter);
    }
  }

  lemma StepKeepsWait(w: World, e: Event, interval: real)
    requires IndicesOk(w) && LocksOk(w) && WaitOk(w, interval)
    ensures WaitOk(Step(w, e, interval), interval)
  {
    forall u: Thread ensures WaitingOk(Step(w, e, interval), PcOf(Step(w, e, interval), u), interval) {
      if !e.Tick? && u == e.thread {
        ActorWaits(w, e, interval);
      } else {
        StepKeepsWaiting(w, e, interval, u);
      }
    }
  }

  lemma ActorWaits(w: World, e: Event, interval: real)
    requires IndicesOk(w) && !e.Tick? && WaitingOk(w, PcOf(w, e.thread), interval)
    ensures WaitingOk(Step(w, e, interval), PcOf(Step(w, e, interval), e.thread), interval)
  {
  }

  // A lock changes hands only through the thread that acquires or releases it.
  lemma HolderStays(w: World, e: Event, interval: real, i: nat)
    requires IndicesOk(w) && i < |w.limiters|
    requires e.Advance? && UsesLimiter(PcOf(w, e.thread)) && PcOf(w, e.thread).limiter == i ==>
               (|| (PcOf(w, e.thread).Queued? && w.limiters[i].holder.Some?)
                || (InCritical(PcOf(w, e.thread)) && !PcOf(w, e.thread).Releasing?))
    ensures i < |Step(w, e, interval).limiters| && Step(w, e, interval).limiters[i].holder == w.limiters[i].holder
  {
  }

  lemma NewLimitersFree(w: World, e: Event, interval: real, i: nat)
    requires IndicesOk(w) && |w.limiters| <= i < |Step(w, e, interval).limiters|
    ensures Step(w, e, interval).limiters[i].holder.None?
  {
  }

  lemma ActorLocks(w: World, e: Event, interval: real)
    requires IndicesOk(w) && LocksOk(w) && !e.Tick?
    ensures ThreadLocks(Step(w, e, interval), e.thread)
    ensures UsesLimiter(PcOf(w, e.thread)) ==> LimiterLocked(Step(w, e, interval), PcOf(w, e.thread).limiter)
  {
    assert ThreadLocks(w, e.thread);
    assert UsesLimiter(PcOf(w, e.thread)) ==> LimiterLocked(w, PcOf(w, e.thread).limiter);
  }

  lemma OtherLocks(w: World, e: Event, interval: real, u: Thread)
    requires IndicesOk(w) && LocksOk(w)
    requires !e.Tick? ==> u != e.thread
    ensures ThreadLocks(Step(w, e, interval), u)
  {
    hide Step;
    OthersStay(w, e, interval, u);
    assert ThreadLocks(w, u) && (!e.Tick? ==> ThreadLocks(w, e.thread));
    if InCritical(PcOf(w, u)) {
      HolderStays(w, e, interval, PcOf(w, u).limiter);
    }
  }

  lemma LimiterLocks(w: World, e: Event, interval: real, i: nat)
    requires IndicesOk(w) && LocksOk(w) && i < |Step(w, e, interval).limiters|
    ensures LimiterLocked(Step(w, e, interval), i)
  {
    hide Step;
    assert !e.Tick? ==> ThreadLocks(w, e.thread);
    if i >= |w.limiters| {
      NewLimitersFree(w, e, interval, i);
    } else if !e.Tick? && UsesLimiter(PcOf(w, e.thread)) && PcOf(w, e.thread).limiter == i {
      ActorLocks(w, e, interval);
    } else {
      HolderStays(w, e, interval, i);
      assert LimiterLocked(w, i);
      if w.limiters[i].holder.Some? {
        OthersStay(w, e, interval, w.limiters[i].holder.value);
      }
    }
  }

  lemma StepKeepsLocks(w: World, e: Event, interval: real)
    requires IndicesOk(w) && LocksOk(w)
    ensures LocksOk(Step(w, e, interval))
  {
    hide Step;
    forall u: Thread ensures ThreadLocks(Step(w, e, interval), u) {
      if !e.Tick? && u == e.thread {
        ActorLocks(w, e, interval);
      } else {
        OtherLocks(w, e, interval, u);
      }
    }
    forall i | 0 <= i < |Step(w, e, interval).limiters| ensures LimiterLocked(Step(w, e, interval), i) {
      LimiterLocks(w, e, interval, i);
    }
  }

  // The table lock and the table change only through the thread inside the lookup.
  lemma ActorLooks(w: World, e: Event, interval: real)
    requires IndicesOk(w) && TableOk(w) && LookupOk(w) && !e.Tick?
    ensures ThreadLooks(Step(w, e, interval), e.thread)
  {
    hide WaitStep;
    assert ThreadLooks(w, e.thread);
    if e.Advance? && UsesLimiter(PcOf(w, e.thread)) {
      WaitingIsNotLooking(w, e.thread, PcOf(w, e.thread), interval);
    }
  }

  // Waiting at a limiter neither takes the table lock nor touches the table.
  lemma WaitingIsNotLooking(w: World, t: Thread, pc: Pc, interval: real)
    requires UsesLimiter(pc) && pc.limiter < |w.limiters| && PcOf(w, t) == pc
    ensures var w' := WaitStep(w, t, pc, interval);
            && !HoldsTable(PcOf(w', t)) && w'.tableHolder == w.tableHolder
            && w'.table == w.table && |w'.limiters| == |w.limiters|
  {
  }

  lemma TableHolderStays(w: World, e: Event, interval: real, u: Thread)
    requires IndicesOk(w) && LookupOk(w)
    requires !e.Tick? ==> u != e.thread
    ensures w.tableHolder == Some(u) <==> Step(w, e, interval).tableHolder == Some(u)
    ensures w.tableHolder == Some(u) ==>
              (Step(w, e, interval).table == w.table && |Step(w, e, interval).limiters| == |w.limiters|)
  {
    assert ThreadLooks(w, u);
    assert !e.Tick? ==> ThreadLooks(w, e.thread);
  }

  lemma StepKeepsLookup(w: World, e: Event, interval: real)
    requires IndicesOk(w) && TableOk(w) && LookupOk(w)
    ensures LookupOk(Step(w, e, interval))
  {
    hide Step;
    forall u: Thread ensures ThreadLooks(Step(w, e, interval), u) {
      if !e.Tick? && u == e.thread {
        ActorLooks(w, e, interval);
      } else {
        OthersStay(w, e, interval, u);
        TableHolderStays(w, e, interval, u);
        assert ThreadLooks(w, u);
      }
    }
  }

  lemma ActorSends(w: World, e: Event, interval: real)
    requires IndicesOk(w) && SendsOk(w) && !e.Tick?
    ensures PendingOk(Step(w, e, interval), PcOf(Step(w, e, interval), e.thread))
  {
  }

  // Grants and sends are only ever appended, each stamped with the present time.
  lemma LogsGrow(w: World, e: Event, interval: real)
    requires IndicesOk(w) && SendsOk(w)
    ensures var w' := Step(w, e, interval);
            && (w'.grants == w.grants || (|w'.grants| == |w.grants| + 1 && w'.grants[..|w.grants|] == w.grants
                                          && w'.grants[|w.grants|].time == w.now))
            && (w'.sends == w.sends || (|w'.sends| == |w.sends| + 1 && w'.sends[..|w.sends|] == w.sends
                                        && w'.sends[|w.sends|].time == w.now && w'.grants == w.grants
                                        && w'.sends[|w.sends|].grant < |w.grants|
                                        && w.grants[w'.sends[|w.sends|].grant].time <= w.now))
  {
  }

  lemma StepKeepsSends(w: World, e: Event, interval: real)
    requires IndicesOk(w) && SendsOk(w)
    ensures SendsOk(Step(w, e, interval))
  {
    hide Step;
    LogsGrow(w, e, interval);
    LimitersStay(w, e, interval);
    var w' := Step(w, e, interval);
    forall u: Thread ensures PendingOk(w', PcOf(w', u)) {
      if !e.Tick? && u == e.thread {
        ActorSends(w, e, interval);
      } else {
        OthersStay(w, e, interval, u);
        assert PendingOk(w, PcOf(w, u));
        assert |w'.grants| > |w.grants| ==> w'.grants[..|w.grants|] == w.grants;
      }
    }
    forall s | 0 <= s < |w'.sends|
      ensures w'.sends[s].grant < |w'.grants| && w'.grants[w'.sends[s].grant].time <= w'.sends[s].time
    {
      if s < |w.sends| {
        assert w'.sends[s] == w.sends[s];
        assert w'.grants[w.sends[s].grant] == w.grants[w.sends[s].grant];
      }
    }
  }

  // A recording never goes back, and a host never changes its limiter.
  lemma LastGrows(w: World, e: Event, interval: real, host: Host)
    requires IndicesOk(w) && TableOk(w) && LookupOk(w) && host in w.table
    ensures var w' := Step(w, e, interval); var i := w.table[host];
            && host in w'.table && w'.table[host] == i && i < |w'.limiters|
            && (w'.limiters[i].last == w.limiters[i].last || w'.limiters[i].last == Some(w.now))
  {
    assert !e.Tick? ==> ThreadLooks(w, e.thread);
    if Adds(w, e) {
      assert host != PcOf(w, e.thread).host;
    }
  }

  lemma NewGrant(w: World, e: Event, interval: real)
    requires IndicesOk(w) && TableOk(w)
    requires |Step(w, e, interval).grants| > |w.grants|
    ensures var w' := Step(w, e, interval); var g := w'.grants[|w.grants|];
            && e.Advance? && w'.now == w.now
            && g.host in w.table && g.host in w'.table && w'.table[g.host] == w.table[g.host]
            && (interval > 0.0 ==> (PcOf(w, e.thread) == Ready(w.table[g.host])
                                    && w.table[g.host] < |w'.limiters|
                                    && w'.limiters[w.table[g.host]].last == Some(w.now)))
  {
  }

  lemma StepKeepsGrants(w: World, e: Event, interval: real)
    requires IndicesOk(w) && TableOk(w) && LookupOk(w) && SendsOk(w) && GrantsOk(w, interval)
    ensures GrantsOk(Step(w, e, interval), interval)
  {
    hide Step;
    var w' := Step(w, e, interval);
    LogsGrow(w, e, interval);
    LimitersStay(w, e, interval);
    forall k | 0 <= k < |w'.grants| ensures GrantOk(w', w'.grants[k], interval) {
      if k < |w.grants| {
        assert w'.grants[k] == w.grants[k] && GrantOk(w, w.grants[k], interval);
        LastGrows(w, e, interval, w.grants[k].host);
      } else {
        NewGrant(w, e, interval);
      }
    }
  }

  // The heart: a grant is recorded only when it is due, hence a full interval after every earlier one.
  lemma StepKeepsSpaced(w: World, e: Event, interval: real)
    requires IndicesOk(w) && TableOk(w) && SendsOk(w) && WaitOk(w, interval) && GrantsOk(w, interval)
    requires Spaced(w.grants, interval)
    ensures Spaced(Step(w, e, interval).grants, interval)
  {
    hide Step;
    var w' := Step(w, e, interval);
    LogsGrow(w, e, interval);
    if w'.grants != w.grants {
      NewGrant(w, e, interval);
      assert WaitingOk(w, PcOf(w, e.thread), interval);
      forall j, k | 0 <= j < k < |w'.grants| && w'.grants[j].host == w'.grants[k].host
        ensures w'.grants[k].time - w'.grants[j].time >= interval
      {
        assert w'.grants[j] == w.grants[j] && GrantOk(w, w.grants[j], interval);
        if k < |w.grants| { assert w'.grants[k] == w.grants[k]; }
      }
    }
  }

  // The acting thread keeps its grant, gets a new one, or sends under the one it had and is idle again.
  lemma ActorGrant(w: World, e: Event, interval: real)
    requires IndicesOk(w) && !e.Tick?
    ensures var w' := Step(w, e, interval); var pc, pc' := PcOf(w, e.thread), PcOf(w', e.thread);
            && (Pending(pc') ==>
                  (pc'.grant == |w.grants| || (Pending(pc) && pc'.grant == pc.grant && w'.sends == w.sends)))
            && (w'.sends == w.sends ||
                (pc.Granted? && !Pending(pc') && w'.sends == w.sends + [Sent(pc.grant, w.now)]))
  {
  }

  lemma TickSendsNothing(w: World, e: Event, interval: real)
    requires IndicesOk(w) && e.Tick?
    ensures Step(w, e, interval).sends == w.sends
  {
  }

  lemma StaysUnshared(w: World, e: Event, interval: real, t: Thread, u: Thread)
    requires IndicesOk(w) && SendsOk(w) && OnceOk(w)
    requires t != u && Pending(PcOf(Step(w, e, interval), t)) && Pending(PcOf(Step(w, e, interval), u))
    ensures PcOf(Step(w, e, interval), u).grant != PcOf(Step(w, e, interval), t).grant
  {
    hide Step;
    assert Unshared(w, t) && Unshared(w, u) && PendingOk(w, PcOf(w, t)) && PendingOk(w, PcOf(w, u));
    if !e.Tick? { ActorGrant(w, e, interval); }
    if e.Tick? || t != e.thread { OthersStay(w, e, interval, t); }
    if e.Tick? || u != e.thread { OthersStay(w, e, interval, u); }
  }

  lemma StaysUnsent(w: World, e: Event, interval: real, t: Thread, s: nat)
    requires IndicesOk(w) && SendsOk(w) && OnceOk(w)
    requires Pending(PcOf(Step(w, e, interval), t)) && s < |Step(w, e, interval).sends|
    ensures Step(w, e, interval).sends[s].grant != PcOf(Step(w, e, interval), t).grant
  {
    hide Step;
    assert Unshared(w, t) && PendingOk(w, PcOf(w, t));
    if e.Tick? {
      TickSendsNothing(w, e, interval);
    } else {
      ActorGrant(w, e, interval);
      assert Unshared(w, e.thread) && PendingOk(w, PcOf(w, e.thread));
    }
    if e.Tick? || t != e.thread { OthersStay(w, e, interval, t); }
  }

  lemma StepKeepsOnce(w: World, e: Event, interval: real)
    requires IndicesOk(w) && SendsOk(w) && OnceOk(w)
    ensures OnceOk(Step(w, e, interval))
  {
    hide Step;
    var w' := Step(w, e, interval);
    forall t: Thread ensures Unshared(w', t) {
      if Pending(PcOf(w', t)) {
        forall u: Thread | u != t && Pending(PcOf(w', u)) ensures PcOf(w', u).grant != PcOf(w', t).grant {
          StaysUnshared(w, e, interval, t, u);
        }
        forall s | 0 <= s < |w'.sends| ensures w'.sends[s].grant != PcOf(w', t).grant {
          StaysUnsent(w, e, interval, t, s);
        }
      }
    }
    if e.Tick? {
      TickSendsNothing(w, e, interval);
    } else {
      ActorGrant(w, e, interval);
      assert Unshared(w, e.thread);
    }
  }

  lemma StepKeepsInv(w: World, e: Event, interval: real)
    requires Inv(w, interval)
    ensures Inv(Step(w, e, interval), interval)
  {
    hide Step, IndicesOk, TableOk, LookupOk, LocksOk, WaitOk, GrantsOk, Spaced, SendsOk, OnceOk;
    StepKeepsIndices(w, e, interval);
    StepKeepsTable(w, e, interval);
    StepKeepsLookup(w, e, interval);
    StepKeepsLocks(w, e, interval);
    StepKeepsWait(w, e, interval);
    StepKeepsGrants(w, e, interval);
    StepKeepsSpaced(w, e, interval);
    StepKeepsSends(w, e, interval);
    StepKeepsOnce(w, e, interval);
  }

  // ---- Whole runs ----

  // The world after a run: any events, in any interleaving.
  function After(events: seq<Event>, interval: real): (w: World)
    ensures Inv(w, interval)
  {
    if events == [] then START
    else
      var w := After(events[..|events| - 1], interval);
      StepKeepsInv(w, events[|events| - 1], interval);
      Step(w, events[|events| - 1], interval)
  }

  // ---- What a run guarantees ----

  function InWindow(host: Host, from: real, until: real): Grant -> Option<real> {
    (g: Grant) => if g.host == host && from <= g.time <= until then Some(g.time) else None
  }

  // The times of the grants a host got within [from, until], in the order they were given.
  function WindowTimes(grants: seq<Grant>, host: Host, from: real, until: real): seq<real> {
    Collect(grants, InWindow(host, from, until))
  }

  ghost predicate TimesSpaced(times: seq<real>, interval: real) {
    forall j, k :: 0 <= j < k < |times| ==> times[k] - times[j] >= interval
  }

  lemma {:induction false} WindowSpaced(grants: seq<Grant>, host: Host, from: real, until: real, interval: real)
    requires Spaced(grants, interval)
    ensures TimesSpaced(WindowTimes(grants, host, from, until), interval)
    ensures forall i :: 0 <= i < |WindowTimes(grants, host, from, until)| ==>
              from <= WindowTimes(grants, host, from, until)[i] <= until
  {
    if grants == [] {
    } else {
      var f, rest := InWindow(host, from, until), grants[1..];
      WindowSpaced(rest, host, from, until, interval);
      var times := Collect(rest, f);
      forall k | 0 <= k < |times| && f(grants[0]).Some? ensures times[k] - grants[0].time >= interval {
        var g := CollectFrom(rest, f, k);
        assert rest[g] == grants[g + 1];
      }
    }
  }

  // n spaced times span at least n - 1 intervals.
  lemma {:induction false} SpacedSpan(times: seq<real>, interval: real)
    requires times != [] && TimesSpaced(times, interval)
    ensures times[|times| - 1] - times[0] >= (|times| - 1) as real * interval
  {
    if |times| > 1 {
      var front := times[..|times| - 1];
      SpacedSpan(front, interval);
      assert (|times| - 1) as real * interval == (|front| - 1) as real * interval + interval;
    }
  }

  lemma SpacedCount(times: seq<real>, interval: real, span: real)
    requires interval > 0.0 && span >= 0.0 && TimesSpaced(times, interval)
    requires times != [] ==> times[|times| - 1] - times[0] <= span
    ensures |times| <= (span / interval).Floor + 1
  {
    if times != [] { SpacedSpan(times, interval); }
    var n := if times == [] then 0 else |times| - 1;
    assert n as real * interval <= span;
    QuotientOrder(span, interval, n as real);
  }

  // However many threads share the client and however their steps interleave, a window of length
  // `until - from` sees at most floor(length / interval) + 1 grants for one host.
  lemma WindowBound(events: seq<Event>, interval: real, host: Host, from: real, until: real)
    requires interval > 0.0 && from <= until
    ensures |WindowTimes(After(events, interval).grants, host, from, until)| <= ((until - from) / interval).Floor + 1
  {
    hide WindowTimes, TimesSpaced, Spaced, IndicesOk, TableOk, LookupOk, LocksOk, WaitOk, GrantsOk, SendsOk, OnceOk,
         Step;
    var times := WindowTimes(After(events, interval).grants, host, from, until);
    WindowSpaced(After(events, interval).grants, host, from, until, interval);
    SpacedCount(times, interval, until - from);
  }

  // No thread ever waits for nothing: while one is busy, some thread's next step takes effect, at once
  // or after its sleep; and a thread queued for a limiter waits only for one working for the same host.
  lemma NeverStuck(events: seq<Event>, interval: real, t: Thread) returns (u: Thread, to: real)
    requires !PcOf(After(events, interval), t).Idle?
    ensures var w := After(events + [Tick(to)], interval);
            Step(w, Advance(u), interval) != w
    ensures var pc := PcOf(After(events, interval), t);
            pc.Queued? && u != t ==> (UsesLimiter(PcOf(After(events, interval), u))
                                      && PcOf(After(events, interval), u).limiter == pc.limiter)
  {
    hide Step, After, TableOk, WaitOk, GrantsOk, Spaced, SendsOk, OnceOk;
    var w := After(events, interval);
    var pc := PcOf(w, t);
    u := t;
    if pc.Asking? && w.tableHolder.Some? {
      u := w.tableHolder.value;
      assert ThreadLooks(w, u);
    } else if pc.Queued? && w.limiters[pc.limiter].holder.Some? && interval > 0.0 {
      u := w.limiters[pc.limiter].holder.value;
      assert LimiterLocked(w, pc.limiter);
    }
    to := if PcOf(w, u).Asleep? then PcOf(w, u).until else w.now;
    AfterOne(events, Tick(to), interval);
    TickStays(w, to, u, interval);
    CanAdvance(After(events + [Tick(to)], interval), u, interval);
  }

  lemma TickStays(w: World, to: real, u: Thread, interval: real)
    requires IndicesOk(w)
    ensures var w' := Step(w, Tick(to), interval);
            w'.now >= to && PcOf(w', u) == PcOf(w, u) && w'.limiters == w.limiters && w'.tableHolder == w.tableHolder
  {
  }

  lemma AfterOne(events: seq<Event>, e: Event, interval: real)
    ensures After(events + [e], interval) == Step(After(events, interval), e, interval)
  {
    hide Inv, Step;
    assert (events + [e])[..|events + [e]| - 1] == events;
  }

  lemma CanAdvance(w: World, u: Thread, interval: real)
    requires IndicesOk(w) && !PcOf(w, u).Idle?
    requires PcOf(w, u).Asking? ==> w.tableHolder.None?
    requires PcOf(w, u).Queued? && interval > 0.0 ==> w.limiters[PcOf(w, u).limiter].holder.None?
    requires PcOf(w, u).Asleep? ==> w.now >= PcOf(w, u).until
    ensures Step(w, Advance(u), interval) != w
  {
    assert PcOf(Step(w, Advance(u), interval), u) != PcOf(w, u);
  }

  // ---- Grants against requests actually sent ----

  ghost predicate LagWithin(w: World, lag: real) {
    forall s :: 0 <= s < |w.sends| && w.sends[s].grant < |w.grants| ==>
      w.sends[s].time - w.grants[w.sends[s].grant].time <= lag
  }

  ghost predicate SendsSpaced(w: World, interval: real) {
    forall a, b :: 0 <= a < |w.sends| && 0 <= b < |w.sends| && w.sends[a].grant < w.sends[b].grant < |w.grants|
                   && w.grants[w.sends[a].grant].host == w.grants[w.sends[b].grant].host ==>
      w.sends[b].time - w.sends[a].time >= interval
  }

  // Every request goes out under a grant of its own, at or after the grant's time.
  lemma OneRequestPerGrant(events: seq<Event>, interval: real, a: nat, b: nat)
    requires a < |After(events, interval).sends| && b < |After(events, interval).sends|
    ensures var w := After(events, interval);
            && w.sends[a].grant < |w.grants| && w.grants[w.sends[a].grant].time <= w.sends[a].time
            && (w.sends[a].grant == w.sends[b].grant <==> a == b)
  {
    assert Inv(After(events, interval), interval);
  }

  // A request follows the previous one for its host by the interval, less the time the previous one
  // spent between its grant and its sending.
  lemma SendGap(events: seq<Event>, interval: real, lag: real)
    requires LagWithin(After(events, interval), lag)
    ensures SendsSpaced(After(events, interval), interval - lag)
  {
    var w := After(events, interval);
    assert Inv(w, interval);
  }

  // The requests to a host sent within [from, until].
  ghost function WindowRequests(w: World, host: Host, from: real, until: real): set<int> {
    set s | 0 <= s < |w.sends| && w.sends[s].grant < |w.grants| && w.grants[w.sends[s].grant].host == host
            && from <= w.sends[s].time <= until
  }

  // Each was granted at most `lag` before it was sent, under a grant of its own.
  lemma RequestsHaveGrants(events: seq<Event>, interval: real, lag: real, host: Host, from: real, until: real)
    requires LagWithin(After(events, interval), lag)
    ensures |WindowRequests(After(events, interval), host, from, until)| <=
            |WindowTimes(After(events, interval).grants, host, from - lag, until)|
  {
    hide After, IndicesOk, TableOk, LookupOk, LocksOk, WaitOk, GrantsOk, Spaced, OnceOk, SendsOk;
    var w, f := After(events, interval), InWindow(host, from - lag, until);
    var requests, granted := WindowRequests(w, host, from, until), Passing(w.grants, f);
    var g := (s: int) => if 0 <= s < |w.sends| then w.sends[s].grant as int else 0;
    forall s | s in requests ensures g(s) in granted {
      OneRequestPerGrant(events, interval, s, s);
    }
    forall s, t | s in requests && t in requests && g(s) == g(t) ensures s == t {
      OneRequestPerGrant(events, interval, s, t);
    }
    InjectionSize(requests, granted, g);
    PassingCount(w.grants, f);
  }

  // Hence a window of length `until - from` sees at most floor((length + lag) / interval) + 1 requests to
  // one host, when each is sent at most `lag` after its grant.
  lemma RequestBound(events: seq<Event>, interval: real, lag: real, host: Host, from: real, until: real)
    requires interval > 0.0 && lag >= 0.0 && from <= until && LagWithin(After(events, interval), lag)
    ensures |WindowRequests(After(events, interval), host, from, until)| <= ((until - from + lag) / interval).Floor + 1
  {
    hide After, LagWithin, WindowRequests, WindowTimes;
    RequestsHaveGrants(events, interval, lag, host, from, until);
    WindowBound(events, interval, host, from - lag, until);
    assert until - (from - lag) == until - from + lag;
  }

  // Thread 0 alone, working for host "h".
  ghost predicate Alone(w: World, now: real, pc: Pc, limiter: Option<Limiter>, grants: seq<Grant>, sends: seq<Sent>) {
    && w.now == now && PcOf(w, 0) == pc && w.grants == grants && w.sends == sends
    && w.tableHolder == (if HoldsTable(pc) then Some(0) else None)
    && w.table == (if limiter.Some? then map["h" := 0] else map[])
    && w.limiters == (if limiter.Some? then [limiter.value] else [])
  }

  lemma LookMoves(w: World, now: real, pc: Pc, limiter: Option<Limiter>, grants: seq<Grant>, sends: seq<Sent>,
                  interval: real)
    requires IndicesOk(w) && Alone(w, now, pc, limiter, grants, sends)
    ensures var w' := Step(w, Advance(0), interval);
            && (pc == Asking("h") ==> Alone(w', now, Looking("h"), limiter, grants, sends))
            && (pc == Looking("h") ==>
                  Alone(w', now, Looked("h", if limiter.Some? then Some(0) else None), limiter, grants, sends))
            && (pc == Looked("h", Some(0)) ==> Alone(w', now, Queued(0), limiter, grants, sends))
            && (pc == Looked("h", None) && limiter.None? ==>
                  Alone(w', now, Queued(0), Some(Limiter("h", None, None)), grants, sends))
  {
  }

  lemma WaitMoves(w: World, now: real, pc: Pc, l: Limiter, grants: seq<Grant>, sends: seq<Sent>, interval: real)
    requires IndicesOk(w) && Alone(w, now, pc, Some(l), grants, sends) && interval > 0.0
    ensures var w' := Step(w, Advance(0), interval);
            && (pc == Queued(0) && l.holder.None? ==>
                  Alone(w', now, Reading(0), Some(l.(holder := Some(0))), grants, sends))
            && (pc == Reading(0) ==>
                  Alone(w', now, if l.last.Some? && interval - (now - l.last.value) > 0.0
                                 then MustSleep(0, interval - (now - l.last.value)) else Ready(0),
                        Some(l), grants, sends))
            && (pc.MustSleep? && pc.limiter == 0 ==>
                    Alone(w', now, Asleep(0, now + pc.remaining), Some(l), grants, sends))
            && (pc.Asleep? && pc.limiter == 0 && now >= pc.until ==> Alone(w', now, Ready(0), Some(l), grants, sends))
  {
  }

  lemma GrantMoves(w: World, now: real, pc: Pc, l: Limiter, grants: seq<Grant>, sends: seq<Sent>, interval: real)
    requires IndicesOk(w) && Alone(w, now, pc, Some(l), grants, sends)
    ensures var w' := Step(w, Advance(0), interval);
            && (pc == Ready(0) ==>
                  Alone(w', now, Releasing(0, |grants|), Some(l.(last := Some(now))),
                        grants + [Grant(l.host, now)], sends))
            && (pc.Releasing? && pc.limiter == 0 ==>
                  Alone(w', now, Granted(pc.grant), Some(l.(holder := None)), grants, sends))
            && (pc.Granted? ==> Alone(w', now, Idle, Some(l), grants, sends + [Sent(pc.grant, now)]))
  {
  }

  lemma Turn(events: seq<Event>, interval: real) returns (next: seq<Event>)
    ensures next == events + [Advance(0)]
    ensures IndicesOk(After(events, interval)) && After(next, interval) ==
            Step(After(events, interval), Advance(0), interval)
  {
    next := events + [Advance(0)];
    AfterOne(events, Advance(0), interval);
  }

  lemma Begins(start: seq<Event>, now: real, limiter: Option<Limiter>, grants: seq<Grant>, sends: seq<Sent>,
               interval: real)
    requires Alone(After(start, interval), now, Idle, limiter, grants, sends)
    ensures Alone(After(start + [Begin(0, "h")], interval), now, Asking("h"), limiter, grants, sends)
  {
    hide Step, Alone, After, IndicesOk, TableOk, LookupOk, LocksOk, WaitOk, GrantsOk, Spaced, SendsOk, OnceOk;
    AfterOne(start, Begin(0, "h"), interval);
    BeginMoves(After(start, interval), now, limiter, grants, sends, interval);
  }

  lemma BeginMoves(w: World, now: real, limiter: Option<Limiter>, grants: seq<Grant>, sends: seq<Sent>, interval: real)
    requires IndicesOk(w) && Alone(w, now, Idle, limiter, grants, sends)
    ensures Alone(Step(w, Begin(0, "h"), interval), now, Asking("h"), limiter, grants, sends)
  {
  }

  lemma Ticks(start: seq<Event>, now: real, to: real, pc: Pc, l: Limiter, grants: seq<Grant>, sends: seq<Sent>,
              interval: real)
    requires Alone(After(start, interval), now, pc, Some(l), grants, sends) && to >= now
    ensures Alone(After(start + [Tick(to)], interval), to, pc, Some(l), grants, sends)
  {
    hide Step, Alone, After, IndicesOk, TableOk, LookupOk, LocksOk, WaitOk, GrantsOk, Spaced, SendsOk, OnceOk;
    AfterOne(start, Tick(to), interval);
    TickMoves(After(start, interval), now, to, pc, l, grants, sends, interval);
  }

  lemma TickMoves(w: World, now: real, to: real, pc: Pc, l: Limiter, grants: seq<Grant>, sends: seq<Sent>,
                  interval: real)
    requires IndicesOk(w) && Alone(w, now, pc, Some(l), grants, sends) && to >= now
    ensures Alone(Step(w, Tick(to), interval), to, pc, Some(l), grants, sends)
  {
  }

  lemma Lookups(start: seq<Event>, now: real, limiter: Option<Limiter>, grants: seq<Grant>, sends: seq<Sent>,
                interval: real)
    returns (events: seq<Event>)
    requires limiter.Some? ==> limiter.value.host == "h"
    requires Alone(After(start, interval), now, Asking("h"), limiter, grants, sends)
    ensures Alone(After(events, interval), now, Queued(0),
                  if limiter.Some? then limiter else Some(Limiter("h", None, None)), grants, sends)
  {
    hide Step, Alone, After, IndicesOk, TableOk, LookupOk, LocksOk, WaitOk, GrantsOk, Spaced, SendsOk, OnceOk;
    var found := if limiter.Some? then Some(0) else None;
    events := Turn(start, interval);
    LookMoves(After(start, interval), now, Asking("h"), limiter, grants, sends, interval);
    var looking := events;
    events := Turn(looking, interval);
    LookMoves(After(looking, interval), now, Looking("h"), limiter, grants, sends, interval);
    var looked := events;
    events := Turn(looked, interval);
    LookMoves(After(looked, interval), now, Looked("h", found), limiter, grants, sends, interval);
  }

  lemma Grants(start: seq<Event>, now: real, l: Limiter, grants: seq<Grant>, sends: seq<Sent>, interval: real)
    returns (events: seq<Event>)
    requires Alone(After(start, interval), now, Ready(0), Some(l), grants, sends) && l.host == "h"
    ensures Alone(After(events, interval), now, Granted(|grants|), Some(Limiter("h", Some(now), None)),
                  grants + [Grant("h", now)], sends)
  {
    hide Step, Alone, After, IndicesOk, TableOk, LookupOk, LocksOk, WaitOk, GrantsOk, Spaced, SendsOk, OnceOk;
    events := Turn(start, interval);
    GrantMoves(After(start, interval), now, Ready(0), l, grants, sends, interval);
    var recorded := events;
    events := Turn(recorded, interval);
    GrantMoves(After(recorded, interval), now, Releasing(0, |grants|), l.(last := Some(now)),
               grants + [Grant("h", now)], sends, interval);
  }

  // Granted at 0, sent only at `lag`; granted again at `interval` and sent at once.
  lemma LaggingRun(interval: real, lag: real) returns (events: seq<Event>)
    requires 0.0 < lag <= interval
    ensures Alone(After(events, interval), interval, Idle, Some(Limiter("h", Some(interval), None)),
                  [Grant("h", 0.0), Grant("h", interval)], [Sent(0, lag), Sent(1, interval)])
  {
    hide Step, Alone, After, IndicesOk, TableOk, LookupOk, LocksOk, WaitOk, GrantsOk, Spaced, SendsOk, OnceOk;
    events := FirstSend(interval, lag);
    var first := Limiter("h", Some(0.0), None);
    var grants, sends := [Grant("h", 0.0)], [Sent(0, lag)];
    var begun := events + [Begin(0, "h")];
    Begins(events, lag, Some(first), grants, sends, interval);
    events := Lookups(begun, lag, Some(first), grants, sends, interval);
    events := Sleeps(events, lag, first, grants, sends, interval);
    events := Grants(events, interval, first.(holder := Some(0)), grants, sends, interval);
    var granted := events;
    events := Turn(granted, interval);
    assert grants + [Grant("h", interval)] == [Grant("h", 0.0), Grant("h", interval)];
    assert sends + [Sent(1, interval)] == [Sent(0, lag), Sent(1, interval)];
    GrantMoves(After(granted, interval), interval, Granted(1), Limiter("h", Some(interval), None),
               grants + [Grant("h", interval)], sends, interval);
  }

  lemma Initially(interval: real)
    ensures Alone(After([], interval), 0.0, Idle, None, [], [])
  {
    assert After([], interval) == START;
  }

  lemma FirstSend(interval: real, lag: real) returns (events: seq<Event>)
    requires 0.0 < lag <= interval
    ensures Alone(After(events, interval), lag, Idle, Some(Limiter("h", Some(0.0), None)),
                  [Grant("h", 0.0)], [Sent(0, lag)])
  {
    hide Step, Alone, After, IndicesOk, TableOk, LookupOk, LocksOk, WaitOk, GrantsOk, Spaced, SendsOk, OnceOk;
    Initially(interval);
    Begins([], 0.0, None, [], [], interval);
    var l := Limiter("h", None, None);
    events := Lookups([] + [Begin(0, "h")], 0.0, None, [], [], interval);
    var queued := events;
    events := Turn(queued, interval);
    WaitMoves(After(queued, interval), 0.0, Queued(0), l, [], [], interval);
    var reading := events;
    events := Turn(reading, interval);
    WaitMoves(After(reading, interval), 0.0, Reading(0), l.(holder := Some(0)), [], [], interval);
    events := Grants(events, 0.0, l.(holder := Some(0)), [], [], interval);
    assert [] + [Grant("h", 0.0)] == [Grant("h", 0.0)] && [] + [Sent(0, lag)] == [Sent(0, lag)];
    Ticks(events, 0.0, lag, Granted(0), l.(last := Some(0.0)), [Grant("h", 0.0)], [], interval);
    var granted := events + [Tick(lag)];
    events := Turn(granted, interval);
    GrantMoves(After(granted, interval), lag, Granted(0), l.(last := Some(0.0)), [Grant("h", 0.0)], [], interval);
  }

  lemma Sleeps(start: seq<Event>, now: real, l: Limiter, grants: seq<Grant>, sends: seq<Sent>, interval: real)
    returns (events: seq<Event>)
    requires 0.0 < now <= interval && l.last == Some(0.0) && l.holder.None?
    requires Alone(After(start, interval), now, Queued(0), Some(l), grants, sends)
    ensures Alone(After(events, interval), interval, Ready(0), Some(l.(holder := Some(0))), grants, sends)
  {
    hide Step, Alone, After, IndicesOk, TableOk, LookupOk, LocksOk, WaitOk, GrantsOk, Spaced, SendsOk, OnceOk;
    var held := l.(holder := Some(0));
    events := Turn(start, interval);
    WaitMoves(After(start, interval), now, Queued(0), l, grants, sends, interval);
    var reading := events;
    events := Turn(reading, interval);
    WaitMoves(After(reading, interval), now, Reading(0), held, grants, sends, interval);
    if now < interval {
      var must := events;
      events := Turn(must, interval);
      WaitMoves(After(must, interval), now, MustSleep(0, interval - now), held, grants, sends, interval);
      Ticks(events, now, interval, Asleep(0, interval), held, grants, sends, interval);
      var awake := events + [Tick(interval)];
      events := Turn(awake, interval);
      WaitMoves(After(awake, interval), interval, Asleep(0, interval), held, grants, sends, interval);
    }
  }

  lemma LaggingRunIsClose(w: World, interval: real, lag: real)
    requires 0.0 < lag <= interval
    requires Alone(w, interval, Idle, Some(Limiter("h", Some(interval), None)),
                   [Grant("h", 0.0), Grant("h", interval)], [Sent(0, lag), Sent(1, interval)])
    ensures LagWithin(w, lag) && !SendsSpaced(w, interval)
  {
    assert w.sends[1].time - w.sends[0].time == interval - lag;
  }

  // The client promises requests to one host at least the interval apart; what it spaces is grants.
  // Requests keep that spacing in every run with sending lag at most `lag` if and only if `lag` is zero.
  lemma RequestsSpacedIff(interval: real, lag: real)
    requires interval > 0.0 && lag >= 0.0
    ensures (forall events :: LagWithin(After(events, interval), lag) ==>
            SendsSpaced(After(events, interval), interval))
       <==> lag == 0.0
  {
    hide Alone, After, IndicesOk, TableOk, LookupOk, LocksOk, WaitOk, GrantsOk, Spaced, SendsOk, OnceOk, SendsSpaced;
    if lag == 0.0 {
      forall events | LagWithin(After(events, interval), lag) ensures SendsSpaced(After(events, interval), interval) {
        SendGap(events, interval, lag);
      }
    } else {
      var delay := Min(lag, interval);
      var events := LaggingRun(interval, delay);
      LaggingRunIsClose(After(events, interval), interval, delay);
      assert LagWithin(After(events, interval), lag);
    }
  }
}
