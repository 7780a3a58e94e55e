/** A sequential model of SlowEcho's `Run`: a coordinator that dispatches one
    worker per incoming target, workers that sleep and then forward or drop
    their target, and a wait-group counter that Run drains before returning.
    A trace of events stands in for the scheduler: each event is one
    observable step of the coordinator, of the orchestrator (a signal fires)
    or of one worker. */
module SlowEchoRun {
  import opened Wrappers
  import opened SlowEcho

  /** The two broadcast control signals; once fired, a signal stays fired. */
  datatype Signals = Signals(cancel: bool, pause: bool) {
    predicate Active() { cancel || pause }
  }

  /** Which case a worker's first select takes: its timer, or a fired signal. */
  datatype FirstCase = TimerFired | SignalFired

  /** Where a worker is: waiting out its delay, past the delay and about to
      decide, or terminated having dropped or forwarded its target. */
  datatype WorkerState = Sleeping | Awake | Dropped | Forwarded {
    predicate Finished() { Dropped? || Forwarded? }
  }

  /** The first select of a worker: A fired signal drops the target; the timer
      leads on to the second select; a select never takes a case that is not
      ready, so the signal case is impossible (None) while no signal has fired. */
  function FirstSelect(sig: Signals, c: FirstCase): (r: Option<WorkerState>)
    ensures r == Some(Awake) <==> c == TimerFired
    ensures r == Some(Dropped) <==> c == SignalFired && sig.Active()
    ensures r.None? <==> c == SignalFired && !sig.Active()
  {
    match c
    case TimerFired => Some(Awake)
    case SignalFired => if sig.Active() then Some(Dropped) else None
  }

  /** The second select of a worker: a fired signal drops the target, otherwise
      the default case forwards it. Either way the worker terminates. */
  function SecondSelect(sig: Signals): (r: WorkerState)
    ensures r.Finished()
    ensures r == Forwarded <==> !sig.Active()
  {
    if sig.Active() then Dropped else Forwarded
  }

  /** One step of the schedule. `Item(t)` and `EndOfStream` are what the
      coordinator reads from its input (`EndOfStream` is nil); `Cancel` and
      `Pause` fire a signal; `Wake(w, c)` is worker w's first select taking
      case c; `Check(w)` is worker w's second select. */
  datatype Event<T> =
    | Item(t: T)
    | EndOfStream
    | Cancel
    | Pause
    | Wake(w: nat, c: FirstCase)
    | Check(w: nat)

  /** The state of one run. `dispatched[w]` is worker w's target and
      `workers[w]` its state; `inFlight` is the wait-group counter; `out`
      is what was sent on the output channel and `senders[k]` the worker
      that sent `out[k]`. */
  datatype Snapshot<T> = Snapshot(
    signals: Signals,
    reading: bool,
    dispatched: seq<T>,
    workers: seq<WorkerState>,
    inFlight: int,
    out: seq<T>,
    senders: seq<nat>)

  /** The state on entry to the dispatch loop. */
  function Start<T>(): Snapshot<T>
  {
    Snapshot(Signals(false, false), true, [], [], 0, [], [])
  }

  /** How a run only ever moves forward: a fired signal stays fired, an ended
      loop stays ended, the dispatched targets, the output and its senders are
      only ever extended, and a terminated worker stays as it ended. */
  ghost predicate Extends<T>(s: Snapshot<T>, r: Snapshot<T>)
  {
    && (s.signals.cancel ==> r.signals.cancel)
    && (s.signals.pause ==> r.signals.pause)
    && (!s.reading ==> !r.reading)
    && |s.dispatched| <= |r.dispatched| && r.dispatched[..|s.dispatched|] == s.dispatched
    && |s.workers| <= |r.workers|
    && (forall w :: 0 <= w < |s.workers| && s.workers[w].Finished() ==> r.workers[w] == s.workers[w])
    && |s.out| <= |r.out| && r.out[..|s.out|] == s.out
    && |s.senders| <= |r.senders| && r.senders[..|s.senders|] == s.senders
  }

  lemma ExtendsTransitive<T>(a: Snapshot<T>, b: Snapshot<T>, c: Snapshot<T>)
    requires Extends(a, b) && Extends(b, c)
    ensures Extends(a, c)
  {
    assert c.dispatched[..|a.dispatched|] == c.dispatched[..|b.dispatched|][..|a.dispatched|];
    assert c.out[..|a.out|] == c.out[..|b.out|][..|a.out|];
    assert c.senders[..|a.senders|] == c.senders[..|b.senders|][..|a.senders|];
  }

  /** Worker w terminates in state v (its deferred `wg.Done()`), having sent its target if v is Forwarded. */
  function Finish<T>(s: Snapshot<T>, w: nat, v: WorkerState): (r: Snapshot<T>)
    requires w < |s.workers| && w < |s.dispatched|
    requires !s.workers[w].Finished() && v.Finished()
    ensures r.signals == s.signals && r.reading == s.reading && r.dispatched == s.dispatched
    ensures |r.workers| == |s.workers| && r.workers[w] == v
    ensures forall u :: 0 <= u < |s.workers| && u != w ==> r.workers[u] == s.workers[u]
    ensures r.inFlight == s.inFlight - 1
    ensures r.out == if v == Forwarded then s.out + [s.dispatched[w]] else s.out
    ensures r.senders == if v == Forwarded then s.senders + [w] else s.senders
  {
    var s' := s.(workers := s.workers[w := v], inFlight := s.inFlight - 1);
    if v == Forwarded then s'.(out := s.out + [s.dispatched[w]], senders := s.senders + [w]) else s'
  }

  /** The effect of one event. An event that cannot happen in the given state
      (a worker that does not exist or is not at that select, an input that
      nobody reads any more) changes nothing. */
  function Step<T>(s: Snapshot<T>, e: Event<T>): (r: Snapshot<T>)
    ensures s.signals.cancel ==> r.signals.cancel
    ensures s.signals.pause ==> r.signals.pause
    ensures !s.reading ==> !r.reading
    ensures |s.dispatched| <= |r.dispatched| && |s.out| <= |r.out|
    ensures e.Wake? || e.Check? ==> r.signals == s.signals && r.reading == s.reading && r.dispatched == s.dispatched
  {
    match e
    case Item(t) =>
      if s.reading
      then s.(dispatched := s.dispatched + [t], workers := s.workers + [Sleeping], inFlight := s.inFlight + 1)
      else s
    case EndOfStream => s.(reading := false)
    case Cancel => s.(signals := s.signals.(cancel := true), reading := false)
    case Pause => s.(signals := s.signals.(pause := true), reading := false)
    case Wake(w, c) =>
      if w < |s.workers| && w < |s.dispatched| && s.workers[w] == Sleeping then
        match FirstSelect(s.signals, c)
        case None => s
        case Some(v) => if v == Awake then s.(workers := s.workers[w := Awake]) else Finish(s, w, v)
      else s
    case Check(w) =>
      if w < |s.workers| && w < |s.dispatched| && s.workers[w] == Awake
      then Finish(s, w, SecondSelect(s.signals))
      else s
  }

  /** The state after a whole trace of events. */
  function Replay<T>(s: Snapshot<T>, trace: seq<Event<T>>): (r: Snapshot<T>)
    ensures s.signals.cancel ==> r.signals.cancel
    ensures s.signals.pause ==> r.signals.pause
    ensures !s.reading ==> !r.reading
    ensures |s.dispatched| <= |r.dispatched| && |s.out| <= |r.out|
    decreases |trace|
  {
    if trace == [] then s else Step(Replay(s, trace[..|trace| - 1]), trace[|trace| - 1])
  }

  /** One event only moves a run forward. */
  lemma StepExtends<T>(s: Snapshot<T>, e: Event<T>)
    ensures Extends(s, Step(s, e))
  {
    var r := Step(s, e);
    if e.Item? && s.reading {
      assert r.dispatched[..|s.dispatched|] == s.dispatched;
    } else if (e.Wake? || e.Check?) && r != s && e.w < |s.workers| && e.w < |s.dispatched| {
      assert r.out[..|s.out|] == s.out;
      assert r.senders[..|s.senders|] == s.senders;
    }
  }

  /** A whole trace only moves a run forward. */
  lemma {:induction false} ReplayExtends<T>(s: Snapshot<T>, trace: seq<Event<T>>)
    ensures Extends(s, Replay(s, trace))
    decreases |trace|
  {
    if trace != [] {
      var mid := Replay(s, trace[..|trace| - 1]);
      ReplayExtends(s, trace[..|trace| - 1]);
      StepExtends(mid, trace[|trace| - 1]);
      ExtendsTransitive(s, mid, Replay(s, trace));
    }
  }

  /** Worker events alone never fire a signal, end the loop or dispatch a target. */
  lemma {:induction false} ReplayWorkerEvents<T>(s: Snapshot<T>, trace: seq<Event<T>>)
    requires forall i :: 0 <= i < |trace| ==> trace[i].Wake? || trace[i].Check?
    ensures Replay(s, trace).signals == s.signals
    ensures Replay(s, trace).reading == s.reading
    ensures Replay(s, trace).dispatched == s.dispatched
    decreases |trace|
  {
    if trace != [] {
      ReplayWorkerEvents(s, trace[..|trace| - 1]);
    }
  }

  /** The events that end the dispatch loop. */
  predicate Stops<T>(e: Event<T>) { e.EndOfStream? || e.Cancel? || e.Pause? }

  predicate HasStop<T>(trace: seq<Event<T>>)
  {
    exists i :: 0 <= i < |trace| && Stops(trace[i])
  }

  predicate Quiet<T>(trace: seq<Event<T>>)
  {
    forall i :: 0 <= i < |trace| ==> !trace[i].Cancel? && !trace[i].Pause?
  }

  /** Reference definition: the targets that occur in a trace before its first stopping event. */
  function ItemsBeforeStop<T>(trace: seq<Event<T>>): seq<T>
  {
    if trace == [] || Stops(trace[0]) then []
    else (if trace[0].Item? then [trace[0].t] else []) + ItemsBeforeStop(trace[1..])
  }

  /** How the drain resolves a sleeping worker: once a signal has fired the
      worker drops its target whichever case its select takes, so the signal
      case stands for both; with no signal the timer fires. */
  function DrainCase(sig: Signals): (c: FirstCase)
    ensures c == SignalFired <==> sig.Active()
  {
    if sig.Active() then SignalFired else TimerFired
  }

  /** Every worker in turn reaches its first and then its second select. */
  function Drain<T>(n: nat, c: FirstCase): (d: seq<Event<T>>)
    ensures |d| == 2 * n
    ensures forall i :: 0 <= i < |d| ==> d[i].Wake? || d[i].Check?
  {
    if n == 0 then [] else Drain(n - 1, c) + [Wake(n - 1, c), Check(n - 1)]
  }

  lemma DrainSnoc<T>(n: nat, c: FirstCase)
    ensures Drain<T>(n + 1, c) == Drain<T>(n, c) + [Wake(n, c)] + [Check(n)]
  {
  }

  /** The state once every remaining worker has terminated with no further signal. */
  function Settle<T>(s: Snapshot<T>): (r: Snapshot<T>)
    ensures r.signals == s.signals && r.reading == s.reading && r.dispatched == s.dispatched
  {
    var d := Drain(|s.workers|, DrainCase(s.signals));
    ReplayWorkerEvents(s, d);
    Replay(s, d)
  }

  /** The state in which Run leaves things after a trace: the dispatch loop
      still waiting for input, or ended and drained. */
  function RunState<T>(trace: seq<Event<T>>): (r: Snapshot<T>)
    ensures r.dispatched == ItemsBeforeStop(trace)
    ensures r.reading <==> !HasStop(trace)
    ensures r.signals == Replay(Start<T>(), trace).signals
  {
    DispatchedBeforeStop(trace);
    var s := Replay(Start(), trace);
    if s.reading then s else Settle(s)
  }

  /** The number of workers that have not terminated. */
  function Unfinished(ws: seq<WorkerState>): nat
  {
    if ws == [] then 0 else Unfinished(ws[..|ws| - 1]) + (if ws[|ws| - 1].Finished() then 0 else 1)
  }

  /** The bookkeeping every reachable state keeps: the wait-group counter equals
      the number of running workers; each output item was sent by a distinct
      forwarding worker and is that worker's target; every forwarding worker
      sent; nothing is dropped while no signal has fired; a fired signal has
      ended the dispatch loop. */
  ghost predicate Inv<T>(s: Snapshot<T>)
  {
    && |s.workers| == |s.dispatched|
    && s.inFlight == Unfinished(s.workers)
    && |s.out| == |s.senders|
    && (forall k :: 0 <= k < |s.senders| ==>
          s.senders[k] < |s.workers| && s.workers[s.senders[k]] == Forwarded && s.out[k] == s.dispatched[s.senders[k]])
    && (forall k, l :: 0 <= k < l < |s.senders| ==> s.senders[k] != s.senders[l])
    && (forall w :: 0 <= w < |s.workers| && s.workers[w] == Forwarded ==> w in s.senders)
    && (!s.signals.Active() ==> forall w :: 0 <= w < |s.workers| ==> s.workers[w] != Dropped)
    && (s.signals.Active() ==> !s.reading)
  }

  lemma {:induction false} UnfinishedAppend(ws: seq<WorkerState>, x: WorkerState)
    ensures Unfinished(ws + [x]) == Unfinished(ws) + (if x.Finished() then 0 else 1)
  {
    assert (ws + [x])[..|ws|] == ws;
  }

  lemma {:induction false} UnfinishedUpdate(ws: seq<WorkerState>, w: nat, v: WorkerState)
    requires w < |ws|
    ensures Unfinished(ws[w := v]) ==
      Unfinished(ws) - (if ws[w].Finished() then 0 else 1) + (if v.Finished() then 0 else 1)
    decreases |ws|
  {
    var n := |ws|;
    if w < n - 1 {
      assert ws[w := v][..n - 1] == ws[..n - 1][w := v];
      UnfinishedUpdate(ws[..n - 1], w, v);
    } else {
      assert ws[w := v][..n - 1] == ws[..n - 1];
    }
  }

  lemma {:induction false} UnfinishedZero(ws: seq<WorkerState>)
    requires forall w :: 0 <= w < |ws| ==> ws[w].Finished()
    ensures Unfinished(ws) == 0
    decreases |ws|
  {
    if ws != [] {
      UnfinishedZero(ws[..|ws| - 1]);
    }
  }

  /** A terminating worker keeps the output's bookkeeping: each item is its
      distinct sender's target, and every forwarding worker is a sender. */
  lemma FinishKeepsSenders<T>(s: Snapshot<T>, w: nat, v: WorkerState)
    requires Inv(s) && w < |s.workers| && !s.workers[w].Finished() && v.Finished()
    ensures var r := Finish(s, w, v);
      && (forall k :: 0 <= k < |r.senders| ==>
            r.senders[k] < |r.workers| && r.workers[r.senders[k]] == Forwarded && r.out[k] == r.dispatched[r.senders[k]])
      && (forall k, l :: 0 <= k < l < |r.senders| ==> r.senders[k] != r.senders[l])
      && (forall u :: 0 <= u < |r.workers| && r.workers[u] == Forwarded ==> u in r.senders)
  {
    var r := Finish(s, w, v);
    assert w !in s.senders;
    forall k | 0 <= k < |r.senders|
      ensures r.senders[k] < |r.workers| && r.workers[r.senders[k]] == Forwarded
      ensures r.out[k] == r.dispatched[r.senders[k]]
    {
      if k < |s.senders| {
        assert r.senders[k] == s.senders[k] && r.out[k] == s.out[k];
        assert s.senders[k] != w;
      } else {
        assert v == Forwarded && r.senders[k] == w && r.out[k] == s.dispatched[w];
      }
    }
    forall k, l | 0 <= k < l < |r.senders| ensures r.senders[k] != r.senders[l] {
      if l >= |s.senders| {
        assert r.senders[l] == w && r.senders[k] == s.senders[k];
      } else {
        assert r.senders[l] == s.senders[l] && r.senders[k] == s.senders[k];
      }
    }
    forall u | 0 <= u < |r.workers| && r.workers[u] == Forwarded ensures u in r.senders {
      if u == w {
        assert r.senders == s.senders + [w];
      } else {
        assert s.workers[u] == Forwarded;
      }
    }
  }

  lemma FinishKeepsInv<T>(s: Snapshot<T>, w: nat, v: WorkerState)
    requires Inv(s) && w < |s.workers| && !s.workers[w].Finished() && v.Finished()
    requires v == Dropped ==> s.signals.Active()
    ensures Inv(Finish(s, w, v))
  {
    UnfinishedUpdate(s.workers, w, v);
    FinishKeepsSenders(s, w, v);
  }

  lemma ItemKeepsInv<T>(s: Snapshot<T>, t: T)
    requires Inv(s) && s.reading
    ensures Inv(Step(s, Item(t)))
  {
    UnfinishedAppend(s.workers, Sleeping);
    var s' := Step(s, Item(t));
    assert s'.workers == s.workers + [Sleeping] && s'.dispatched == s.dispatched + [t];
    forall w | 0 <= w < |s'.workers| && s'.workers[w] == Forwarded ensures w in s'.senders {
      assert w < |s.workers| && s.workers[w] == Forwarded;
    }
    forall k | 0 <= k < |s'.senders|
      ensures s'.senders[k] < |s'.workers| && s'.workers[s'.senders[k]] == Forwarded
      ensures s'.out[k] == s'.dispatched[s'.senders[k]]
    {
      assert s.senders[k] < |s.workers|;
    }
  }

  lemma WakeKeepsInv<T>(s: Snapshot<T>, w: nat, c: FirstCase)
    requires Inv(s) && w < |s.workers| && s.workers[w] == Sleeping
    ensures Inv(Step(s, Wake(w, c)))
  {
    match FirstSelect(s.signals, c)
    case None =>
    case Some(v) =>
      if v == Awake {
        UnfinishedUpdate(s.workers, w, Awake);
        assert w !in s.senders;
        var s' := Step(s, Wake(w, c));
        assert s' == s.(workers := s.workers[w := Awake]);
        assert s'.senders == s.senders && s'.out == s.out && s'.dispatched == s.dispatched;
        forall k | 0 <= k < |s'.senders|
          ensures s'.senders[k] < |s'.workers| && s'.workers[s'.senders[k]] == Forwarded
        {
          assert s.senders[k] != w;
        }
      } else {
        FinishKeepsInv(s, w, v);
      }
  }

  lemma CheckKeepsInv<T>(s: Snapshot<T>, w: nat)
    requires Inv(s) && w < |s.workers| && s.workers[w] == Awake
    ensures Inv(Step(s, Check(w)))
  {
    assert Step(s, Check(w)) == Finish(s, w, SecondSelect(s.signals));
    FinishKeepsInv(s, w, SecondSelect(s.signals));
  }

  lemma IgnoredKeepsInv<T>(s: Snapshot<T>, e: Event<T>)
    requires Inv(s) && Step(s, e) == s
    ensures Inv(Step(s, e))
  {
  }

  lemma StopKeepsInv<T>(s: Snapshot<T>, e: Event<T>)
    requires Inv(s) && Stops(e)
    ensures !Step(s, e).reading
    ensures Inv(Step(s, e))
  {
    var r := Step(s, e);
    assert r.workers == s.workers && r.dispatched == s.dispatched && r.inFlight == s.inFlight;
    assert r.out == s.out && r.senders == s.senders && !r.reading;
    assert r.signals.Active() ==> s.signals.Active() || e.Cancel? || e.Pause?;
  }

  /** Every event keeps the bookkeeping invariant. */
  lemma StepKeepsInv<T>(s: Snapshot<T>, e: Event<T>)
    requires Inv(s)
    ensures Inv(Step(s, e))
  {
    if Stops(e) {
      StopKeepsInv(s, e);
    } else if e.Item? && s.reading {
      ItemKeepsInv(s, e.t);
    } else if e.Wake? && e.w < |s.workers| && s.workers[e.w] == Sleeping {
      WakeKeepsInv(s, e.w, e.c);
    } else if e.Check? && e.w < |s.workers| && s.workers[e.w] == Awake {
      CheckKeepsInv(s, e.w);
    } else {
      IgnoredKeepsInv(s, e);
    }
  }

  /** Every trace keeps the bookkeeping invariant. */
  lemma {:induction false} ReplayKeepsInv<T>(s: Snapshot<T>, trace: seq<Event<T>>)
    requires Inv(s)
    ensures Inv(Replay(s, trace))
    decreases |trace|
  {
    if trace != [] {
      ReplayKeepsInv(s, trace[..|trace| - 1]);
      StepKeepsInv(Replay(s, trace[..|trace| - 1]), trace[|trace| - 1]);
    }
  }

  lemma {:induction false} ReplayAppend<T>(s: Snapshot<T>, a: seq<Event<T>>, b: seq<Event<T>>)
    ensures Replay(s, a + b) == Replay(Replay(s, a), b)
    decreases |b|
  {
    if b == [] {
      assert a + b == a;
    } else {
      assert (a + b)[..|a + b| - 1] == a + b[..|b| - 1];
      ReplayAppend(s, a, b[..|b| - 1]);
    }
  }

  /** Once a signal has fired, nothing more is ever forwarded and the signal stays fired. */
  lemma {:induction false} NoForwardAfterSignal<T>(s: Snapshot<T>, trace: seq<Event<T>>)
    requires s.signals.Active()
    ensures Replay(s, trace).signals.Active()
    ensures Replay(s, trace).out == s.out
    decreases |trace|
  {
    if trace != [] {
      NoForwardAfterSignal(s, trace[..|trace| - 1]);
    }
  }

  /** Once the dispatch loop has ended, no further target is dispatched and the loop stays ended. */
  lemma {:induction false} NoDispatchAfterStop<T>(s: Snapshot<T>, trace: seq<Event<T>>)
    requires !s.reading
    ensures !Replay(s, trace).reading
    ensures Replay(s, trace).dispatched == s.dispatched
    decreases |trace|
  {
    if trace != [] {
      NoDispatchAfterStop(s, trace[..|trace| - 1]);
    }
  }

  /** A worker's target reaches the output only at that worker's second select,
      only when its timer has already won the first select (the worker is
      Awake), only when no signal is active, and exactly once. */
  lemma ForwardOnlyFromQuietCheck<T>(s: Snapshot<T>, e: Event<T>)
    requires Inv(s)
    requires Step(s, e).out != s.out
    ensures e.Check? && e.w < |s.workers| && s.workers[e.w] == Awake && !s.signals.Active()
    ensures e.w !in s.senders
    ensures Step(s, e).out == s.out + [s.dispatched[e.w]]
    ensures Step(s, e).senders == s.senders + [e.w]
  {
    assert e.Check? || e.Wake?;
  }

  lemma {:induction false} ItemsBeforeStopSnoc<T>(trace: seq<Event<T>>, e: Event<T>)
    ensures ItemsBeforeStop(trace + [e]) ==
      if HasStop(trace) || Stops(e) then ItemsBeforeStop(trace)
      else ItemsBeforeStop(trace) + (if e.Item? then [e.t] else [])
    decreases |trace|
  {
    if trace == [] {
      assert [] + [e] == [e];
      assert [e][1..] == [];
    } else {
      assert (trace + [e])[0] == trace[0];
      assert (trace + [e])[1..] == trace[1..] + [e];
      if !Stops(trace[0]) {
        ItemsBeforeStopSnoc(trace[1..], e);
        assert HasStop(trace) ==> HasStop(trace[1..]) by {
          if HasStop(trace) {
            var i :| 0 <= i < |trace| && Stops(trace[i]);
            assert trace[1..][i - 1] == trace[i];
          }
        }
        assert HasStop(trace[1..]) ==> HasStop(trace) by {
          if HasStop(trace[1..]) {
            var i :| 0 <= i < |trace[1..]| && Stops(trace[1..][i]);
            assert trace[i + 1] == trace[1..][i];
          }
        }
      } else {
        assert HasStop(trace) by { assert Stops(trace[0]); }
      }
    }
  }

  lemma HasStopSnoc<T>(trace: seq<Event<T>>, e: Event<T>)
    ensures HasStop(trace + [e]) <==> HasStop(trace) || Stops(e)
  {
    var t := trace + [e];
    if HasStop(t) {
      var i :| 0 <= i < |t| && Stops(t[i]);
      if i < |trace| { assert trace[i] == t[i]; }
    }
    if HasStop(trace) {
      var i :| 0 <= i < |trace| && Stops(trace[i]);
      assert t[i] == trace[i];
    }
    if Stops(e) {
      assert t[|trace|] == e;
    }
  }

  /** The coordinator: a fresh run dispatches exactly the targets that arrive
      before the first nil, cancel or pause, and its loop has ended exactly when
      such an event has occurred. */
  lemma {:induction false} DispatchedBeforeStop<T>(trace: seq<Event<T>>)
    ensures Replay(Start<T>(), trace).dispatched == ItemsBeforeStop(trace)
    ensures Replay(Start<T>(), trace).reading <==> !HasStop(trace)
    decreases |trace|
  {
    if trace != [] {
      var pre, e := trace[..|trace| - 1], trace[|trace| - 1];
      assert trace == pre + [e];
      DispatchedBeforeStop(pre);
      ItemsBeforeStopSnoc(pre, e);
      HasStopSnoc(pre, e);
    }
  }

  /** No signal is ever fired by a trace without Cancel and Pause events. */
  lemma {:induction false} QuietKeepsSignals<T>(trace: seq<Event<T>>)
    requires Quiet(trace)
    ensures !Replay(Start<T>(), trace).signals.Active()
    decreases |trace|
  {
    if trace != [] {
      QuietKeepsSignals(trace[..|trace| - 1]);
    }
  }

  /** One worker's turn in the drain terminates it. */
  lemma DrainWorkerFinishes<T>(s: Snapshot<T>, k: nat, c: FirstCase)
    requires Inv(s) && k < |s.workers| && c == DrainCase(s.signals)
    ensures var s2 := Step(Step(s, Wake(k, c)), Check(k));
      k < |s2.workers| && s2.workers[k].Finished()
  {
    var s1 := Step(s, Wake(k, c));
    var s2 := Step(s1, Check(k));
    if s.workers[k] == Sleeping {
      if s.signals.Active() {
        assert s1.workers[k] == Dropped;
      } else {
        assert s1.workers[k] == Awake;
        assert s2.workers[k] == Forwarded;
      }
    } else if s.workers[k] == Awake {
      assert s1 == s;
      assert s2.workers[k].Finished();
    }
  }

  lemma ReplayPair<T>(s: Snapshot<T>, e1: Event<T>, e2: Event<T>)
    ensures Replay(s, [e1, e2]) == Step(Step(s, e1), e2)
  {
    assert [e1, e2][..1] == [e1];
    assert [e1][..0] == [];
    assert Replay(s, [e1]) == Step(Replay(s, []), e1) == Step(s, e1);
    assert Replay(s, [e1, e2]) == Step(Replay(s, [e1]), e2);
  }

  lemma {:induction false} DrainStep<T>(s: Snapshot<T>, k: nat, c: FirstCase)
    requires Inv(s) && !s.reading && k < |s.workers|
    requires c == DrainCase(s.signals)
    requires forall w :: 0 <= w < k ==> s.workers[w].Finished()
    ensures var s' := Replay(s, [Wake(k, c), Check(k)]);
      && Inv(s') && !s'.reading && s'.signals == s.signals && s'.dispatched == s.dispatched
      && |s'.workers| == |s.workers|
      && forall w :: 0 <= w <= k ==> s'.workers[w].Finished()
  {
    var e1, e2 := Wake(k, c), Check(k);
    var s1 := Step(s, e1);
    var s2 := Step(s1, e2);
    ReplayPair(s, e1, e2);
    StepKeepsInv(s, e1);
    StepKeepsInv(s1, e2);
    StepExtends(s, e1);
    StepExtends(s1, e2);
    DrainWorkerFinishes(s, k, c);
    forall w | 0 <= w < k ensures s2.workers[w].Finished() {
      assert s1.workers[w] == s.workers[w];
      assert s2.workers[w] == s1.workers[w];
    }
  }

  /** The drain terminates every worker without touching the signals, the loop or the dispatched targets. */
  lemma {:induction false} DrainFinishes<T>(s: Snapshot<T>, n: nat)
    requires Inv(s) && !s.reading && n <= |s.workers|
    ensures var s' := Replay(s, Drain(n, DrainCase(s.signals)));
      && Inv(s') && !s'.reading && s'.signals == s.signals && s'.dispatched == s.dispatched
      && |s'.workers| == |s.workers|
      && forall w :: 0 <= w < n ==> s'.workers[w].Finished()
    decreases n
  {
    if n > 0 {
      var c := DrainCase(s.signals);
      DrainFinishes(s, n - 1);
      var mid := Replay(s, Drain(n - 1, c));
      ReplayAppend(s, Drain(n - 1, c), [Wake(n - 1, c), Check(n - 1)]);
      DrainStep(mid, n - 1, c);
    }
  }

  /** Settling leaves no worker running and the wait-group counter at zero. */
  lemma SettleDrains<T>(s: Snapshot<T>)
    requires Inv(s) && !s.reading
    ensures Inv(Settle(s))
    ensures Settle(s).inFlight == 0
    ensures forall w :: 0 <= w < |Settle(s).workers| ==> Settle(s).workers[w].Finished()
    ensures Settle(s).dispatched == s.dispatched && Settle(s).signals == s.signals
  {
    DrainFinishes(s, |s.workers|);
    UnfinishedZero(Settle(s).workers);
  }

  /** Run returns only after its loop has ended, and then no worker is still
      running: every `wg.Add(1)` has been matched by a `wg.Done()`. */
  lemma RunDrains<T>(trace: seq<Event<T>>)
    requires HasStop(trace)
    ensures Inv(RunState(trace))
    ensures RunState(trace).inFlight == 0
    ensures forall w :: 0 <= w < |RunState(trace).workers| ==> RunState(trace).workers[w].Finished()
    ensures RunState(trace).dispatched == ItemsBeforeStop(trace)
    ensures RunState(trace).signals == Replay(Start<T>(), trace).signals
  {
    DispatchedBeforeStop(trace);
    ReplayKeepsInv(Start<T>(), trace);
    SettleDrains(Replay(Start<T>(), trace));
  }

  /** The indices that occur in a sequence. */
  function Elems(xs: seq<nat>): (r: set<nat>)
    ensures forall x: nat :: x in r <==> x in xs
  {
    if xs == [] then {} else Elems(xs[..|xs| - 1]) + {xs[|xs| - 1]}
  }

  lemma {:induction false} DistinctCard(xs: seq<nat>)
    requires forall k, l :: 0 <= k < l < |xs| ==> xs[k] != xs[l]
    ensures |Elems(xs)| == |xs|
    decreases |xs|
  {
    if xs != [] {
      var ys, z := xs[..|xs| - 1], xs[|xs| - 1];
      DistinctCard(ys);
      forall k | 0 <= k < |ys| ensures ys[k] != z {
        assert xs[k] != xs[|xs| - 1];
      }
      assert z !in Elems(ys);
    }
  }

  /** The indices below n. */
  function Below(n: nat): (r: set<nat>)
    ensures |r| == n
    ensures forall w: nat :: w in r <==> w < n
  {
    if n == 0 then {} else Below(n - 1) + {n - 1}
  }

  /** A duplicate-free sequence of indices below n that holds every index below n has length n. */
  lemma CoveringIndicesLength(xs: seq<nat>, n: nat)
    requires forall k, l :: 0 <= k < l < |xs| ==> xs[k] != xs[l]
    requires forall k :: 0 <= k < |xs| ==> xs[k] < n
    requires forall w :: 0 <= w < n ==> w in xs
    ensures |xs| == n
  {
    DistinctCard(xs);
    var b := Below(n);
    assert Elems(xs) == b;
  }

  /** With no cancel or pause, a run that reaches nil forwards every dispatched
      target exactly once. */
  lemma QuietRunForwardsAll<T>(trace: seq<Event<T>>)
    requires HasStop(trace) && Quiet(trace)
    ensures Inv(RunState(trace))
    ensures forall w :: 0 <= w < |RunState(trace).workers| ==> RunState(trace).workers[w] == Forwarded
    ensures forall w :: 0 <= w < |RunState(trace).dispatched| ==> w in RunState(trace).senders
    ensures forall k :: 0 <= k < |RunState(trace).senders| ==>
      RunState(trace).out[k] == RunState(trace).dispatched[RunState(trace).senders[k]]
    ensures forall k, l :: 0 <= k < l < |RunState(trace).senders| ==>
      RunState(trace).senders[k] != RunState(trace).senders[l]
    ensures |RunState(trace).out| == |RunState(trace).dispatched|
  {
    RunDrains(trace);
    QuietKeepsSignals(trace);
    DispatchedBeforeStop(trace);
    var s := RunState(trace);
    CoveringIndicesLength(s.senders, |s.dispatched|);
  }

  /** A run in which a signal fires before any worker has forwarded forwards nothing at all. */
  lemma SignalBeforeAnyForward<T>(pre: seq<Event<T>>, sig: Event<T>, post: seq<Event<T>>)
    requires sig.Cancel? || sig.Pause?
    requires Replay(Start<T>(), pre).out == []
    ensures RunState(pre + [sig] + post).out == []
  {
    var s := Replay(Start<T>(), pre + [sig]);
    assert (pre + [sig])[..|pre|] == pre;
    ReplayAppend(Start<T>(), pre + [sig], post);
    NoForwardAfterSignal(s, post);
    var t := Replay(s, post);
    assert !t.reading by {
      ReplayKeepsInv(Start<T>(), pre + [sig]);
      ReplayKeepsInv(s, post);
    }
    NoForwardAfterSignal(t, Drain(|t.workers|, DrainCase(t.signals)));
  }

  /** Three targets, no signal, then nil: all three are dispatched in order and each is forwarded exactly once. */
  lemma ThreeQuietTargets<T>(a: T, b: T, c: T)
    ensures var s := RunState([Item(a), Item(b), Item(c), EndOfStream]);
      && s.dispatched == [a, b, c]
      && |s.workers| == 3
      && s.inFlight == 0
      && |s.out| == 3
      && (forall w :: 0 <= w < 3 ==> w in s.senders && s.workers[w] == Forwarded)
      && (forall k :: 0 <= k < |s.out| ==>
            k < |s.senders| && s.senders[k] < 3 && s.out[k] == s.dispatched[s.senders[k]])
      && a in s.out && b in s.out && c in s.out
  {
    var trace: seq<Event<T>> := [Item(a), Item(b), Item(c), EndOfStream];
    assert Stops(trace[3]);
    assert trace[1..][1..][1..] == [EndOfStream];
    assert ItemsBeforeStop(trace[1..][1..]) == [c];
    assert ItemsBeforeStop(trace) == [a, b, c];
    QuietRunForwardsAll(trace);
    RunDrains(trace);
    var s := RunState(trace);
    assert s.dispatched == [a, b, c];
    assert |s.workers| == 3 && s.inFlight == 0 && |s.out| == 3;
    forall w | 0 <= w < 3 ensures s.dispatched[w] in s.out {
      assert w in s.senders;
      var k :| 0 <= k < |s.senders| && s.senders[k] == w;
      assert s.out[k] == s.dispatched[w];
    }
    assert s.dispatched[0] == a && s.dispatched[1] == b && s.dispatched[2] == c;
  }

  /** One target, then cancel while it sleeps: nothing is forwarded, the worker drops its target, and Run drains. */
  lemma CancelDuringDelay<T>(x: T)
    ensures var s := RunState([Item(x), Cancel]);
      && s.out == [] && s.inFlight == 0 && s.workers == [Dropped]
  {
    var trace: seq<Event<T>> := [Item(x), Cancel];
    assert trace[..1] == [Item(x)] && [Item(x)][..0] == [];
    assert Replay(Start<T>(), [Item(x)]).out == [];
    assert [Item(x)] + [Cancel] + [] == trace;
    SignalBeforeAnyForward([Item(x)], Cancel, []);
    assert Stops(trace[1]);
    RunDrains(trace);
  }

  /** Run's result: returned with an error or nil, or still inside its
      dispatch loop waiting for input when the trace ends. */
  datatype RunResult = Returned(err: Option<StepError>) | StillReading

  /** The state of one call of `Run`: the two signals, the wait group, the
      coordinator loop and the channels' traffic. */
  class Stage<T> {
    var cancel: bool
    var pause: bool
    var reading: bool
    var dispatched: seq<T>
    var workers: seq<WorkerState>
    var inFlight: int
    var out: seq<T>
    var senders: seq<nat>

    function Snap(): Snapshot<T>
      reads this
    {
      Snapshot(Signals(cancel, pause), reading, dispatched, workers, inFlight, out, senders)
    }

    constructor ()
      ensures Snap() == Start()
    {
      new;
      Reset();
    }

    /** A worker's deferred `wg.Done()`, after forwarding or dropping its target. */
    method Done(w: nat, v: WorkerState)
      requires w < |workers| && w < |dispatched|
      requires !workers[w].Finished() && v.Finished()
      modifies this
      ensures Snap() == Finish(old(Snap()), w, v)
    {
      if v == Forwarded {
        out := out + [dispatched[w]];
        senders := senders + [w];
      }
      workers := workers[w := v];
      inFlight := inFlight - 1;
    }

    /** Carry out one event of the schedule. */
    method Apply(e: Event<T>)
      modifies this
      ensures Snap() == Step(old(Snap()), e)
    {
      match e
      case Item(t) =>
        if reading {
          inFlight := inFlight + 1;
          dispatched := dispatched + [t];
          workers := workers + [Sleeping];
        }
      case EndOfStream =>
        reading := false;
      case Cancel =>
        cancel, reading := true, false;
      case Pause =>
        pause, reading := true, false;
      case Wake(w, c) =>
        if w < |workers| && w < |dispatched| && workers[w] == Sleeping {
          var next := FirstSelect(Signals(cancel, pause), c);
          match next
          case None =>
          case Some(v) =>
            if v == Awake {
              workers := workers[w := Awake];
            } else {
              Done(w, v);
            }
        }
      case Check(w) =>
        if w < |workers| && w < |dispatched| && workers[w] == Awake {
          Done(w, SecondSelect(Signals(cancel, pause)));
        }
    }

    /** A fresh wait group, fresh channels and unfired signals. */
    method Reset()
      modifies this
      ensures Snap() == Start()
    {
      cancel, pause, reading := false, false, true;
      dispatched, workers, inFlight := [], [], 0;
      out, senders := [], [];
    }

    /** Carry out a whole schedule, event by event. */
    method Play(trace: seq<Event<T>>)
      modifies this
      ensures Snap() == Replay(old(Snap()), trace)
    {
      ghost var s0 := Snap();
      for i := 0 to |trace|
        invariant Snap() == Replay(s0, trace[..i])
      {
        assert trace[..i + 1][..i] == trace[..i];
        Apply(trace[i]);
      }
      assert trace[..|trace|] == trace;
    }

    /** `wg.Wait()` with no further signal: every worker still running reaches
        its selects in turn until the counter is back to zero. */
    method WaitAll()
      modifies this
      ensures Snap() == Settle(old(Snap()))
    {
      ghost var stopped := Snap();
      var c := DrainCase(Signals(cancel, pause));
      var n := |workers|;
      for w := 0 to n
        invariant Snap() == Replay(stopped, Drain(w, c))
      {
        ReplayAppend(stopped, Drain(w, c), [Wake(w, c)]);
        Apply(Wake(w, c));
        ReplayAppend(stopped, Drain(w, c) + [Wake(w, c)], [Check(w)]);
        DrainSnoc<T>(w, c);
        Apply(Check(w));
      }
    }

    /** `Run`: parse the delay from the sleep parameter's `String()` form, then
        play the schedule; once the dispatch loop has ended, wait for every
        worker (`wg.Wait()`) and return nil. */
    method Run(params: StepParameters, trace: seq<Event<T>>) returns (r: RunResult)
      modifies this
      ensures SleepTime(params.sleep.str).Failure? ==>
        r == Returned(Some(SleepTime(params.sleep.str).error)) && Snap() == old(Snap())
      ensures SleepTime(params.sleep.str).Success? ==>
        && Snap() == RunState(trace)
        && (r == Returned(None) <==> HasStop(trace))
        && (r == StillReading <==> !HasStop(trace))
      ensures r.Returned? && r.err.None? ==>
        inFlight == 0 && forall w :: 0 <= w < |workers| ==> workers[w].Finished()
    {
      var sleep := SleepTime(params.sleep.str);
      if sleep.Failure? {
        return Returned(Some(sleep.error));
      }
      Reset();
      Play(trace);
      DispatchedBeforeStop(trace);
      if reading {
        return StillReading;
      }
      WaitAll();
      RunDrains(trace);
      return Returned(None);
    }
  }
}
