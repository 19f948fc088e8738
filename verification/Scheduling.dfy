/** One core's round-robin scheduler with semaphores, as a state machine over atomic steps. */
module Scheduling {
  import opened Lists

  /** `ready` is the scheduling queue, `asleep` the threads marked as sleeping, `queued` the
      threads whose in-queue flag is set. */
  datatype Core = Core(ready: seq<int>, current: int, asleep: set<int>, queued: set<int>, numThreads: int)

  datatype Sema = Sema(cnt: int, waiters: seq<int>)

  /** `pending` maps a thread that was woken, and has not tried again yet, to the semaphore
      it still wants. */
  datatype World = World(core: Core, semas: map<int, Sema>, pending: map<int, int>)

  /** `Tick` is a yield from the timer; `Down` is one pass of the loop in Down. */
  datatype Event = Tick | Up(sema: int) | Down(sema: int) | Start(thread: int)

  datatype Next = Nobody | Thread(thread: int, rest: seq<int>)

  // ----- Steps ------------------------------------------------------------------------

  /** The first thread in the queue that is not asleep; those before it are dropped. */
  function PopNext(ready: seq<int>, asleep: set<int>): Next {
    if ready == [] then Nobody
    else if ready[0] !in asleep then Thread(ready[0], ready[1..])
    else PopNext(ready[1..], asleep)
  }

  function Yield(c: Core): Core {
    match PopNext(c.ready, c.asleep)
    case Nobody => c.(ready := [])
    case Thread(next, rest) =>
      if c.current !in c.asleep && c.current !in c.queued then
        c.(ready := rest + [c.current], queued := c.queued + {c.current} - {next}, current := next)
      else
        c.(ready := rest, queued := c.queued - {c.current} - {next}, current := next, numThreads := c.numThreads - 1)
  }

  function Enqueue(c: Core, t: int): Core {
    var counted := c.(numThreads := c.numThreads + 1);
    if t in c.queued then counted else counted.(ready := c.ready + [t], queued := c.queued + {t})
  }

  function Raise(w: World, s: int): World
    requires s in w.semas
  {
    var Sema(cnt, waiters) := w.semas[s];
    if waiters == [] then w.(semas := w.semas[s := Sema(cnt + 1, [])])
    else
      var t := waiters[0];
      World(Enqueue(w.core.(asleep := w.core.asleep - {t}), t),
            w.semas[s := Sema(cnt + 1, waiters[1..])],
            w.pending[t := s])
  }

  function Lower(w: World, s: int): World
    requires s in w.semas
  {
    var Sema(cnt, waiters) := w.semas[s];
    var t := w.core.current;
    if cnt > 0 then World(w.core, w.semas[s := Sema(cnt - 1, waiters)], w.pending - {t})
    else if |w.core.ready| > 0 then
      World(Yield(w.core.(asleep := w.core.asleep + {t})), w.semas[s := Sema(cnt, waiters + [t])], w.pending - {t})
    else World(Yield(w.core), w.semas, w.pending - {t})
  }

  function Step(w: World, e: Event): World
    requires Legal(w, e)
  {
    match e
    case Tick => w.(core := Yield(w.core))
    case Up(s) => Raise(w, s)
    case Down(s) => Lower(w, s)
    case Start(t) => w.(core := Enqueue(w.core, t))
  }

  /** A woken thread goes on with the Down it was in; a thread is started once. */
  predicate Legal(w: World, e: Event) {
    match e
    case Tick => true
    case Up(s) => s in w.semas
    case Down(s) => s in w.semas && (w.core.current in w.pending ==> w.pending[w.core.current] == s)
    case Start(t) => t != w.core.current && t !in w.core.ready && t !in w.core.asleep
  }

  // ----- Invariant --------------------------------------------------------------------

  /** No thread is queued twice, or both running and queued, or asleep outside a wait; the
      flag says what is queued. */
  ghost predicate CoreOk(c: Core) {
    && Distinct(c.ready)
    && c.current !in c.ready && c.current !in c.asleep
    && (forall t :: t in c.queued <==> t in c.ready)
    && (forall t | t in c.ready :: t !in c.asleep)
    && c.numThreads == |c.ready|
  }

  /** The threads woken by a semaphore that have not tried again. */
  function Woken(w: World, s: int): set<int> {
    set t | t in w.pending && w.pending[t] == s
  }

  /** No wake-up is lost: someone waits only if at least `cnt` woken threads are to try. */
  ghost predicate SemaOk(w: World, s: int)
    requires s in w.semas
  {
    var Sema(cnt, waiters) := w.semas[s];
    && cnt >= 0
    && Distinct(waiters)
    && (forall t | t in waiters :: t in w.core.asleep)
    && (waiters != [] ==> cnt <= |Woken(w, s)|)
  }

  ghost predicate Apart(w: World, s: int, r: int)
    requires s in w.semas && r in w.semas
  {
    s != r ==> forall t | t in w.semas[s].waiters :: t !in w.semas[r].waiters
  }

  ghost predicate WaitsAt(w: World, t: int, s: int) { s in w.semas && t in w.semas[s].waiters }

  /** A sleeping thread waits for a semaphore. */
  ghost predicate Waits(w: World, t: int) {
    t in w.core.asleep ==> exists s :: WaitsAt(w, t, s)
  }

  /** A woken thread is running or queued. */
  ghost predicate PendingOk(w: World, t: int)
    requires t in w.pending
  {
    w.pending[t] in w.semas && (t == w.core.current || t in w.core.ready)
  }

  ghost predicate Sound(w: World) {
    && CoreOk(w.core)
    && (forall s {:trigger SemaOk(w, s)} | s in w.semas :: SemaOk(w, s))
    && (forall s, r {:trigger Apart(w, s, r)} | s in w.semas && r in w.semas :: Apart(w, s, r))
    && (forall t {:trigger Waits(w, t)} :: Waits(w, t))
    && (forall t {:trigger PendingOk(w, t)} | t in w.pending :: PendingOk(w, t))
  }

  /** A yield takes the first in the queue and puts the running thread, unless it sleeps,
      at the end. */
  lemma YieldEffect(c: Core)
    requires Distinct(c.ready) && c.current !in c.ready && (forall t :: t in c.queued <==> t in c.ready)
    requires (forall t | t in c.ready :: t !in c.asleep) && c.numThreads == |c.ready|
    requires c.current in c.asleep ==> c.ready != []
    ensures CoreOk(Yield(c)) && Yield(c).asleep == c.asleep
    ensures c.ready == [] ==> Yield(c) == c
    ensures c.ready != [] ==>
              && Yield(c).current == c.ready[0]
              && Yield(c).ready == c.ready[1..] + if c.current in c.asleep then [] else [c.current]
  {
    if c.ready != [] {
      TailDistinct(c.ready);
      AppendDistinct(c.ready[1..], c.current);
    }
  }

  lemma EnqueueEffect(c: Core, t: int)
    requires CoreOk(c) && t != c.current && t !in c.ready && t !in c.asleep
    ensures CoreOk(Enqueue(c, t)) && Enqueue(c, t).ready == c.ready + [t]
  {
    AppendDistinct(c.ready, t);
  }

  lemma TickSound(w: World)
    requires Sound(w)
    ensures Sound(w.(core := Yield(w.core)))
  {
    hide Yield, Distinct;
    var c, w' := w.core, w.(core := Yield(w.core));
    YieldEffect(c);
    if c.ready != [] { assert c.ready == [c.ready[0]] + c.ready[1..]; }
    forall s | s in w'.semas ensures SemaOk(w', s) { assert SemaOk(w, s) && Woken(w, s) == Woken(w', s); }
    forall s, r | s in w'.semas && r in w'.semas ensures Apart(w', s, r) { assert Apart(w, s, r); }
    forall t ensures Waits(w', t) {
      assert Waits(w, t);
      if s :| WaitsAt(w, t, s) { assert WaitsAt(w', t, s); }
    }
    forall t | t in w'.pending ensures PendingOk(w', t) { assert PendingOk(w, t); }
  }

  lemma StartSound(w: World, t: int)
    requires Sound(w) && Legal(w, Start(t))
    ensures Sound(w.(core := Enqueue(w.core, t)))
  {
    hide Distinct, Enqueue;
    var w' := w.(core := Enqueue(w.core, t));
    EnqueueEffect(w.core, t);
    EnqueueKeeps(w.core, t);
    forall s | s in w'.semas ensures SemaOk(w', s) { assert SemaOk(w, s) && Woken(w, s) == Woken(w', s); }
    forall s, r | s in w'.semas && r in w'.semas ensures Apart(w', s, r) { assert Apart(w, s, r); }
    forall t ensures Waits(w', t) {
      assert Waits(w, t);
      if s :| WaitsAt(w, t, s) { assert WaitsAt(w', t, s); }
    }
    forall t | t in w'.pending ensures PendingOk(w', t) { assert PendingOk(w, t); }
  }

  lemma EnqueueKeeps(c: Core, t: int)
    ensures Enqueue(c, t).current == c.current && Enqueue(c, t).asleep == c.asleep
  {
  }

  // ----- Up and Down ------------------------------------------------------------------

  /** Nobody waits: only the count changes. */
  lemma RaiseFreeSound(w: World, s: int)
    requires Sound(w) && s in w.semas && w.semas[s].waiters == []
    ensures Sound(Raise(w, s))
  {
    hide Distinct, CoreOk;
    var w' := Raise(w, s);
    forall r | r in w'.semas ensures SemaOk(w', r) {
      assert SemaOk(w, r) && Woken(w', r) == Woken(w, r);
      EmptyDistinct();
    }
    forall q, r | q in w'.semas && r in w'.semas ensures Apart(w', q, r) { assert Apart(w, q, r); }
    forall t ensures Waits(w', t) {
      assert Waits(w, t);
      if r :| WaitsAt(w, t, r) { assert WaitsAt(w', t, r); }
    }
    forall t | t in w'.pending ensures PendingOk(w', t) { assert PendingOk(w, t); }
  }

  lemma EmptyDistinct()
    ensures Distinct([])
  {
  }

  lemma WokenGrows(w: World, w': World, t: int, s: int, r: int)
    requires t !in w.pending && w'.pending == w.pending[t := s]
    ensures Woken(w', r) == Woken(w, r) + if r == s then {t} else {}
    ensures |Woken(w', r)| == |Woken(w, r)| + if r == s then 1 else 0
  {
    assert Woken(w', r) == Woken(w, r) + if r == s then {t} else {};
  }

  /** The first waiter is woken. */
  lemma RaiseWakes(w: World, s: int)
    requires Sound(w) && s in w.semas && w.semas[s].waiters != []
    ensures Sound(Raise(w, s))
  {
    hide Distinct, Enqueue, Woken, CoreOk;
    var w', waiters := Raise(w, s), w.semas[s].waiters;
    var t := waiters[0];
    assert SemaOk(w, s);
    TailDistinct(waiters);
    Waking(w, s);
    forall r | r in w'.semas ensures SemaOk(w', r) {
      WokenGrows(w, w', t, s, r);
      assert SemaOk(w, r) && Apart(w, s, r);
    }
    forall q, r | q in w'.semas && r in w'.semas ensures Apart(w', q, r) { assert Apart(w, q, r); }
    forall x ensures Waits(w', x) {
      assert Waits(w, x);
      if r :| WaitsAt(w, x, r) { assert x != t ==> WaitsAt(w', x, r); }
    }
    forall x | x in w'.pending ensures PendingOk(w', x) {
      if x in w.pending { assert PendingOk(w, x); }
    }
  }

  lemma Waking(w: World, s: int)
    requires Sound(w) && s in w.semas && w.semas[s].waiters != []
    ensures var t, c, c' := w.semas[s].waiters[0], w.core, Raise(w, s).core;
            && t !in w.pending && CoreOk(c') && c'.ready == c.ready + [t]
            && c'.current == c.current && c'.asleep == c.asleep - {t}
  {
    var t := w.semas[s].waiters[0];
    assert SemaOk(w, s) && t in w.semas[s].waiters;
    var c := w.core.(asleep := w.core.asleep - {t});
    assert t in w.pending ==> PendingOk(w, t);
    EnqueueEffect(c, t);
    EnqueueKeeps(c, t);
  }

  lemma RaiseSound(w: World, s: int)
    requires Sound(w) && s in w.semas
    ensures Sound(Raise(w, s))
  {
    if w.semas[s].waiters == [] { RaiseFreeSound(w, s); } else { RaiseWakes(w, s); }
  }

  lemma WokenShrinks(w: World, w': World, t: int, s: int, r: int)
    requires w'.pending == w.pending - {t} && (t in w.pending ==> w.pending[t] == s)
    ensures r != s ==> Woken(w', r) == Woken(w, r)
    ensures |Woken(w', s)| >= |Woken(w, s)| - 1
  {
    assert Woken(w', s) == Woken(w, s) - {t};
  }

  /** The count is taken. */
  lemma LowerTakes(w: World, s: int)
    requires Sound(w) && Legal(w, Down(s)) && w.semas[s].cnt > 0
    ensures Sound(Lower(w, s))
  {
    hide Distinct, Woken, CoreOk;
    var w', t := Lower(w, s), w.core.current;
    forall r | r in w'.semas ensures SemaOk(w', r) {
      WokenShrinks(w, w', t, s, r);
      assert SemaOk(w, r);
    }
    forall q, r | q in w'.semas && r in w'.semas ensures Apart(w', q, r) { assert Apart(w, q, r); }
    forall x ensures Waits(w', x) {
      assert Waits(w, x);
      if r :| WaitsAt(w, x, r) { assert WaitsAt(w', x, r); }
    }
    forall x | x in w'.pending ensures PendingOk(w', x) { assert PendingOk(w, x); }
  }

  lemma Blocking(w: World, s: int)
    requires Sound(w) && s in w.semas && w.semas[s].cnt <= 0 && w.core.ready != []
    ensures var t, c, c' := w.core.current, w.core, Lower(w, s).core;
            && CoreOk(c') && c'.ready == c.ready[1..] && c'.current == c.ready[0]
            && c'.asleep == c.asleep + {t} && t !in c.asleep
            && forall x :: x in c.ready ==> x in c'.ready || x == c'.current
  {
    hide Distinct, Yield;
    var c := w.core.(asleep := w.core.asleep + {w.core.current});
    YieldEffect(c);
    assert c.ready == [c.ready[0]] + c.ready[1..];
  }

  /** The running thread goes to sleep as the last waiter. */
  lemma LowerBlocks(w: World, s: int)
    requires Sound(w) && Legal(w, Down(s)) && w.semas[s].cnt <= 0 && w.core.ready != []
    ensures Sound(Lower(w, s))
  {
    hide Distinct, Woken, CoreOk, Yield;
    var w', t := Lower(w, s), w.core.current;
    var waiters := w.semas[s].waiters;
    Blocking(w, s);
    assert SemaOk(w, s);
    AppendDistinct(waiters, t);
    forall r | r in w'.semas ensures SemaOk(w', r) {
      WokenShrinks(w, w', t, s, r);
      assert SemaOk(w, r);
    }
    forall q, r | q in w'.semas && r in w'.semas ensures Apart(w', q, r) {
      assert Apart(w, q, r) && SemaOk(w, q) && SemaOk(w, r);
    }
    forall x ensures Waits(w', x) {
      assert Waits(w, x);
      if x == t { assert WaitsAt(w', x, s); } else if r :| WaitsAt(w, x, r) { assert WaitsAt(w', x, r); }
    }
    forall x | x in w'.pending ensures PendingOk(w', x) { assert PendingOk(w, x); }
  }

  /** With nobody to switch to the running thread does not sleep, and tries again. */
  lemma LowerSpins(w: World, s: int)
    requires Sound(w) && Legal(w, Down(s)) && w.semas[s].cnt <= 0 && w.core.ready == []
    ensures Sound(Lower(w, s)) && Lower(w, s).core == w.core && Lower(w, s).semas == w.semas
  {
    hide Distinct, Woken, Yield;
    var w', t := Lower(w, s), w.core.current;
    YieldEffect(w.core);
    forall r | r in w'.semas ensures SemaOk(w', r) {
      WokenShrinks(w, w', t, s, r);
      assert SemaOk(w, r);
    }
    forall q, r | q in w'.semas && r in w'.semas ensures Apart(w', q, r) { assert Apart(w, q, r); }
    forall x ensures Waits(w', x) {
      assert Waits(w, x);
      if r :| WaitsAt(w, x, r) { assert WaitsAt(w', x, r); }
    }
    forall x | x in w'.pending ensures PendingOk(w', x) { assert PendingOk(w, x); }
  }

  lemma StepSound(w: World, e: Event)
    requires Sound(w) && Legal(w, e)
    ensures Sound(Step(w, e)) && Step(w, e).semas.Keys == w.semas.Keys
  {
    hide Sound, Raise, Lower, Yield, Enqueue;
    match e
    case Tick => TickSound(w);
    case Up(s) => RaiseSound(w, s); SameSemas(w, s);
    case Down(s) =>
      SameSemas(w, s);
      if w.semas[s].cnt > 0 { LowerTakes(w, s); }
      else if w.core.ready != [] { LowerBlocks(w, s); }
      else { LowerSpins(w, s); }
    case Start(t) => StartSound(w, t);
  }

  lemma SameSemas(w: World, s: int)
    requires s in w.semas
    ensures Raise(w, s).semas.Keys == w.semas.Keys && Lower(w, s).semas.Keys == w.semas.Keys
  {
  }

  /** The state before any thread is started: one thread runs and nobody waits. */
  predicate Booted(w: World) {
    && w.core == Core([], w.core.current, {}, {}, 0)
    && (forall s | s in w.semas :: w.semas[s].cnt >= 0 && w.semas[s].waiters == [])
    && w.pending == map[]
  }

  lemma BootedSound(w: World)
    requires Booted(w)
    ensures Sound(w)
  {
    forall s | s in w.semas ensures SemaOk(w, s) {}
    forall s, r | s in w.semas && r in w.semas ensures Apart(w, s, r) {}
    forall t ensures Waits(w, t) {}
  }

  // ----- Runs -------------------------------------------------------------------------

  predicate Possible(w: World, es: seq<Event>)
    decreases |es|
  {
    es == [] || (Legal(w, es[0]) && Possible(Step(w, es[0]), es[1..]))
  }

  function After(w: World, es: seq<Event>): World
    requires Possible(w, es)
    decreases |es|
  {
    if es == [] then w else After(Step(w, es[0]), es[1..])
  }

  /** The number of calls of Up on `s`. */
  function Ups(s: int, es: seq<Event>): nat {
    if es == [] then 0 else (if es[0] == Up(s) then 1 else 0) + Ups(s, es[1..])
  }

  /** The number of calls of Down on `s` that return. */
  function Downs(w: World, s: int, es: seq<Event>): nat
    requires Possible(w, es)
    decreases |es|
  {
    if es == [] then 0
    else (if es[0] == Down(s) && w.semas[s].cnt > 0 then 1 else 0) + Downs(Step(w, es[0]), s, es[1..])
  }

  /** In every run the count is what it was at first, plus the Ups, minus the completed
      Downs, and it is never negative. */
  lemma {:induction false} CountConserved(w: World, es: seq<Event>, s: int)
    requires Sound(w) && Possible(w, es) && s in w.semas
    ensures Sound(After(w, es)) && s in After(w, es).semas
    ensures After(w, es).semas[s].cnt == w.semas[s].cnt + Ups(s, es) - Downs(w, s, es)
    ensures After(w, es).semas[s].cnt >= 0
    decreases |es|
  {
    hide Step, CoreOk, Woken, Distinct;
    if es == [] {
      assert SemaOk(w, s);
    } else {
      StepSound(w, es[0]);
      CountConserved(Step(w, es[0]), es[1..], s);
      StepCount(w, es[0], s);
    }
  }

  lemma StepCount(w: World, e: Event, s: int)
    requires Legal(w, e) && s in w.semas && s in Step(w, e).semas
    ensures Step(w, e).semas[s].cnt == w.semas[s].cnt + (if e == Up(s) then 1 else 0)
                                       - (if e == Down(s) && w.semas[s].cnt > 0 then 1 else 0)
  {
    hide Yield, Enqueue;
  }

  /** A mutex, a semaphore of count one, has at most one holder: of the completed Downs at
      most one has not been given back. */
  lemma MutexExcludes(w: World, es: seq<Event>, s: int)
    requires Sound(w) && Possible(w, es) && s in w.semas && w.semas[s].cnt == 1
    ensures Downs(w, s, es) - Ups(s, es) <= 1
  {
    CountConserved(w, es, s);
  }

  lemma Member(s: set<int>) returns (t: int)
    requires |s| > 0
    ensures t in s
  {
    assert (forall x :: x !in s) ==> s == {};
    t :| t in s;
  }

  /** No wake-up is lost: while a thread waits, the count is at most the number of threads
      that this semaphore has woken and that have not tried again; if it is positive, one of
      those is running or queued. */
  lemma NoLostWakeUp(w: World, es: seq<Event>, s: int)
    requires Sound(w) && Possible(w, es) && s in w.semas
    ensures var v := After(w, es);
            && s in v.semas
            && (v.semas[s].waiters != [] ==> v.semas[s].cnt <= |Woken(v, s)|)
            && (v.semas[s].waiters != [] && v.semas[s].cnt > 0 ==>
                  exists t :: t in Woken(v, s) && (t == v.core.current || t in v.core.ready))
  {
    CountConserved(w, es, s);
    var v := After(w, es);
    assert SemaOk(v, s);
    if v.semas[s].waiters != [] && v.semas[s].cnt > 0 {
      var t := Member(Woken(v, s));
      assert PendingOk(v, t);
    }
  }

  /** After any run a thread is in one place only: it runs, or it is queued once, or it
      waits for one semaphore; the in-queue flag and the sleeping state agree with that. */
  lemma OnePlace(w: World, es: seq<Event>, s: int, r: int, t: int)
    requires Sound(w) && Possible(w, es) && s in w.semas && r in w.semas
    ensures s in After(w, es).semas && r in After(w, es).semas
    ensures var v := After(w, es);
            && Distinct(v.core.ready) && Distinct(v.semas[s].waiters)
            && v.core.numThreads == |v.core.ready|
            && (t in v.core.queued <==> t in v.core.ready)
            && (t == v.core.current ==> t !in v.core.ready && t !in v.core.asleep)
            && (t in v.core.ready ==> t !in v.core.asleep)
            && (t in v.semas[s].waiters ==> t in v.core.asleep && (s != r ==> t !in v.semas[r].waiters))
  {
    CountConserved(w, es, s);
    CountConserved(w, es, r);
    assert SemaOk(After(w, es), s) && Apart(After(w, es), s, r);
  }

  // ----- Round robin ------------------------------------------------------------------

  /** The step switches to another thread. */
  predicate Switches(w: World, e: Event)
    requires Legal(w, e)
  {
    Step(w, e).core.current != w.core.current
  }

  function SwitchCount(w: World, es: seq<Event>): nat
    requires Possible(w, es)
    decreases |es|
  {
    if es == [] then 0
    else (if Switches(w, es[0]) then 1 else 0) + SwitchCount(Step(w, es[0]), es[1..])
  }

  /** A switch runs the head of the queue; everybody else in it moves up by one.  Without a
      switch all keep their places. */
  lemma StepMoves(w: World, e: Event, k: nat)
    requires Sound(w) && Legal(w, e) && k < |w.core.ready|
    ensures var c, c' := w.core, Step(w, e).core;
            && (Switches(w, e) && k == 0 ==> c'.current == c.ready[0])
            && (Switches(w, e) && k > 0 ==> k - 1 < |c'.ready| && c'.ready[k - 1] == c.ready[k])
            && (!Switches(w, e) ==> k < |c'.ready| && c'.ready[k] == c.ready[k])
  {
    hide Yield, Distinct, Enqueue;
    var c := w.core;
    match e
    case Tick => YieldEffect(c);
    case Up(s) => if w.semas[s].waiters != [] { Waking(w, s); }
    case Down(s) => if w.semas[s].cnt <= 0 { Blocking(w, s); }
    case Start(t) => EnqueueEffect(c, t); EnqueueKeeps(c, t);
  }

  /** A thread moves up in the queue by one with every switch, whatever is enqueued
      meanwhile. */
  lemma {:induction false} MovesUp(w: World, es: seq<Event>, k: nat)
    requires Sound(w) && Possible(w, es) && k < |w.core.ready| && SwitchCount(w, es) <= k
    ensures var v, j := After(w, es), k - SwitchCount(w, es);
            Sound(v) && j < |v.core.ready| && v.core.ready[j] == w.core.ready[k]
    decreases |es|
  {
    hide Step, CoreOk, Sound;
    if es != [] {
      StepSound(w, es[0]);
      StepMoves(w, es[0], k);
      MovesUp(Step(w, es[0]), es[1..], if Switches(w, es[0]) then k - 1 else k);
    }
  }

  /** A thread with `k` others before it runs with the (k + 1)st switch. */
  lemma RoundRobin(w: World, es: seq<Event>, e: Event, k: nat)
    requires Sound(w) && Possible(w, es) && k < |w.core.ready| && SwitchCount(w, es) == k
    requires Legal(After(w, es), e) && Switches(After(w, es), e)
    ensures Step(After(w, es), e).core.current == w.core.ready[k]
  {
    MovesUp(w, es, k);
    StepMoves(After(w, es), e, 0);
  }

  // ----- First come, first woken ------------------------------------------------------

  /** The thread is asleep, as number `k` of those that wait for the semaphore. */
  predicate WaitsAsNumber(w: World, t: int, s: int, k: nat) {
    s in w.semas && k < |w.semas[s].waiters| && w.semas[s].waiters[k] == t && t in w.core.asleep
  }

  /** The thread, until now asleep, waits nowhere any more: it is last in the queue, and has
      its Down to try again. */
  predicate WokenBy(w: World, t: int, s: int) {
    && t !in w.core.asleep && w.core.ready != [] && w.core.ready[|w.core.ready| - 1] == t
    && t in w.pending && w.pending[t] == s
    && forall r | r in w.semas :: t !in w.semas[r].waiters
  }

  /** Who has to sleep in a Down is last of those that wait. */
  lemma WaitsLast(w: World, s: int)
    requires Sound(w) && Legal(w, Down(s)) && w.semas[s].cnt <= 0 && w.core.ready != []
    ensures WaitsAsNumber(Step(w, Down(s)), w.core.current, s, |w.semas[s].waiters|)
  {
    hide Yield;
    Blocking(w, s);
  }

  /** An Up on the semaphore moves every waiter but the first up by one; whatever else happens
      leaves them all where they are. */
  lemma StepWaits(w: World, e: Event, t: int, s: int, k: nat)
    requires Sound(w) && Legal(w, e) && WaitsAsNumber(w, t, s, k) && (e == Up(s) ==> k > 0)
    ensures WaitsAsNumber(Step(w, e), t, s, if e == Up(s) then k - 1 else k)
  {
    hide Yield, Distinct, Enqueue;
    assert SemaOk(w, s);
    match e
    case Tick => YieldEffect(w.core);
    case Up(r) =>
      if w.semas[r].waiters != [] {
        Waking(w, r);
        if r == s { FirstOnly(w.semas[s].waiters, k); } else { OtherWaiters(w, r, s, t); }
      }
    case Down(r) =>
      if w.semas[r].cnt <= 0 {
        if w.core.ready != [] { Blocking(w, r); } else { YieldEffect(w.core); }
      }
    case Start(x) => EnqueueKeeps(w.core, x);
  }

  // A waiter of `s` is not the first of another semaphore.
  lemma OtherWaiters(w: World, r: int, s: int, t: int)
    requires Sound(w) && r in w.semas && s in w.semas && r != s && w.semas[r].waiters != [] && t in w.semas[s].waiters
    ensures w.semas[r].waiters[0] != t
  {
    assert Apart(w, r, s);
    assert w.semas[r].waiters[0] in w.semas[r].waiters;
  }

  lemma FirstOnly(waiters: seq<int>, k: nat)
    requires Distinct(waiters) && 0 < k < |waiters|
    ensures waiters[k] != waiters[0]
  {
  }

  lemma UpWakes(w: World, t: int, s: int)
    requires Sound(w) && WaitsAsNumber(w, t, s, 0)
    ensures WokenBy(Step(w, Up(s)), t, s)
  {
    hide Enqueue, CoreOk;
    var w' := Step(w, Up(s));
    Waking(w, s);
    assert SemaOk(w, s);
    forall r | r in w'.semas ensures t !in w'.semas[r].waiters { assert Apart(w, s, r); }
  }

  /** A waiting thread moves up by one with every Up on its semaphore, whoever comes to wait
      meanwhile and whatever is done to other semaphores. */
  lemma {:induction false} WaitersMoveUp(w: World, es: seq<Event>, t: int, s: int, k: nat)
    requires Sound(w) && Possible(w, es) && WaitsAsNumber(w, t, s, k) && Ups(s, es) <= k
    ensures Sound(After(w, es)) && WaitsAsNumber(After(w, es), t, s, k - Ups(s, es))
    decreases |es|
  {
    hide Step, WaitsAsNumber, Sound;
    if es != [] {
      StepSound(w, es[0]);
      StepWaits(w, es[0], t, s, k);
      WaitersMoveUp(Step(w, es[0]), es[1..], t, s, if es[0] == Up(s) then k - 1 else k);
    }
  }

  /** A thread with `k` others waiting before it sleeps through `k` Ups, and is woken by the
      next one. */
  lemma WokenInTurn(w: World, es: seq<Event>, t: int, s: int, k: nat)
    requires Sound(w) && Possible(w, es) && WaitsAsNumber(w, t, s, k) && Ups(s, es) == k
    ensures WaitsAsNumber(After(w, es), t, s, 0)
    ensures WokenBy(Step(After(w, es), Up(s)), t, s)
  {
    hide Sound, Step;
    WaitersMoveUp(w, es, t, s, k);
    UpWakes(After(w, es), t, s);
  }
}
