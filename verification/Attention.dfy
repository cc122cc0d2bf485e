/**
 The attention watcher: a debouncer over raw prompt detections, and the watch loop
 that mirrors "blocked on the user" onto the task row.
 */
module Attention {
  import opened Options
  import opened Queue
  import opened TaskStore

  const MARK_STREAK: nat := 2
  const CLEAR_STREAK: nat := 3

  datatype Reason = Reason(kind: string, message: string, requestId: Option<string>)

  datatype Edge = Mark(reason: Reason) | Clear

  /** What the debouncer remembers between polls. */
  datatype Signal = Signal(confirmed: Option<Reason>, matchStreak: nat, clearStreak: nat)

  const QUIET := Signal(None, 0, 0)

  class Debouncer {
    var confirmed: Option<Reason>
    var matchStreak: nat
    var clearStreak: nat

    function Now(): Signal
      reads this
    {
      Signal(confirmed, matchStreak, clearStreak)
    }

    constructor ()
      ensures Now() == QUIET
    {
      confirmed, matchStreak, clearStreak := None, 0, 0;
    }

    method Reset()
      modifies this
      ensures Now() == QUIET
    {
      confirmed, matchStreak, clearStreak := None, 0, 0;
    }

    method Observe(next: Option<Reason>) returns (edge: Option<Edge>)
      modifies this
      ensures (Now(), edge) == React(old(Now()), next)
    {
      match next {
        case Some(reason) =>
          clearStreak := 0;
          if confirmed.Some? {
            matchStreak := 0;
            confirmed := Some(reason);
            return None;
          }
          matchStreak := matchStreak + 1;
          if matchStreak >= MARK_STREAK {
            matchStreak := 0;
            confirmed := Some(reason);
            return Some(Mark(reason));
          }
          return None;
        case None =>
          matchStreak := 0;
          if confirmed.None? {
            return None;
          }
          clearStreak := clearStreak + 1;
          if clearStreak >= CLEAR_STREAK {
            clearStreak := 0;
            confirmed := None;
            return Some(Clear);
          }
          return None;
      }
    }
  }

  function React(s: Signal, next: Option<Reason>): (Signal, Option<Edge>) {
    match next
    case Some(reason) =>
      if s.confirmed.Some? then (Signal(Some(reason), 0, 0), None)
      else if s.matchStreak + 1 >= MARK_STREAK then (Signal(Some(reason), 0, 0), Some(Mark(reason)))
      else (Signal(None, s.matchStreak + 1, 0), None)
    case None =>
      if s.confirmed.None? then (Signal(None, 0, s.clearStreak), None)
      else if s.clearStreak + 1 >= CLEAR_STREAK then (Signal(None, 0, 0), Some(Clear))
      else (Signal(s.confirmed, 0, s.clearStreak + 1), None)
  }

  // -------------------------------------------------------------------------
  // The debouncer as a function of the whole history
  // -------------------------------------------------------------------------

  type History = seq<Option<Reason>>

  function Front<T>(s: seq<T>): seq<T> requires s != [] { s[..|s| - 1] }
  function Last<T>(s: seq<T>): T requires s != [] { s[|s| - 1] }

  /** The state and the edges after a fresh debouncer has seen `h`. */
  function Replay(h: History): (Signal, seq<Edge>) {
    if h == [] then (QUIET, [])
    else
      var (s, edges) := Replay(Front(h));
      var (s', e) := React(s, Last(h));
      (s', if e.Some? then edges + [e.value] else edges)
  }

  predicate MatchesAt(h: History, i: nat) { i + 1 < |h| && h[i].Some? && h[i + 1].Some? }

  predicate MissesAt(h: History, i: nat) { i + 2 < |h| && h[i].None? && h[i + 1].None? && h[i + 2].None? }

  /** Two matches in a row happened, and no three misses in a row since. */
  ghost predicate MatchedLast(h: History) {
    exists i: nat :: MatchesAt(h, i) && forall j: nat :: j > i ==> !MissesAt(h, j)
  }

  predicate IsLatestMatch(h: History, i: nat) {
    i < |h| && h[i].Some? && forall j :: i < j < |h| ==> h[j].None?
  }

  function TrailingMisses(h: History): nat {
    if h == [] || Last(h).Some? then 0 else 1 + TrailingMisses(Front(h))
  }

  lemma MatchAppended(h: History, r: Reason)
    ensures MatchedLast(h + [Some(r)]) <==> MatchedLast(h) || (h != [] && Last(h).Some?)
  {
    var h' := h + [Some(r)];
    assert forall j: nat :: MissesAt(h', j) <==> MissesAt(h, j);
    if MatchedLast(h) {
      var i: nat :| MatchesAt(h, i) && forall j: nat :: j > i ==> !MissesAt(h, j);
      assert MatchesAt(h', i);
    }
    if h != [] && Last(h).Some? { assert MatchesAt(h', |h| - 1); }
    if MatchedLast(h') {
      var i: nat :| MatchesAt(h', i) && forall j: nat :: j > i ==> !MissesAt(h', j);
      if i + 1 < |h| { assert MatchesAt(h, i); }
    }
  }

  lemma MissAppended(h: History)
    ensures MatchedLast(h + [None]) <==> MatchedLast(h) && TrailingMisses(h) < 2
  {
    var h' := h + [None];
    TrailingTwo(h);
    assert forall j: nat :: MissesAt(h, j) ==> MissesAt(h', j);
    if MatchedLast(h) && TrailingMisses(h) < 2 {
      var i: nat :| MatchesAt(h, i) && forall j: nat :: j > i ==> !MissesAt(h, j);
      assert MatchesAt(h', i);
      assert forall j: nat :: MissesAt(h', j) ==> MissesAt(h, j);
    }
    if MatchedLast(h') {
      var i: nat :| MatchesAt(h', i) && forall j: nat :: j > i ==> !MissesAt(h', j);
      assert MatchesAt(h, i);
      if TrailingMisses(h) >= 2 { assert MissesAt(h', |h| - 2); }
    }
  }

  lemma TrailingTwo(h: History)
    ensures TrailingMisses(h) >= 2 <==> |h| >= 2 && h[|h| - 1].None? && h[|h| - 2].None?
  {
    if h != [] && Front(h) != [] { assert Last(Front(h)) == h[|h| - 2]; }
  }

  /** What the streak counters mean. */
  lemma {:induction false} ReplayMeaning(h: History)
    ensures var s := Replay(h).0;
            && (s.confirmed.Some? <==> MatchedLast(h))
            && (s.confirmed.None? ==>
                  s.matchStreak == (if h != [] && Last(h).Some? then 1 else 0) && s.clearStreak == 0)
            && (s.confirmed.Some? ==> s.matchStreak == 0 && s.clearStreak == TrailingMisses(h) < CLEAR_STREAK)
  {
    if h != [] {
      ReplayMeaning(Front(h));
      assert h == Front(h) + [Last(h)];
      match Last(h)
      case Some(r) => MatchAppended(Front(h), r);
      case None => MissAppended(Front(h));
    }
  }

  /** Confirmed exactly when two matches in a row came after the last three misses in a row. */
  lemma ConfirmedIff(h: History)
    ensures Replay(h).0.confirmed.Some? <==> MatchedLast(h)
  {
    ReplayMeaning(h);
  }

  /** The stored reason is the latest match. */
  lemma {:induction false} ReasonIsLatest(h: History, i: nat)
    requires Replay(h).0.confirmed.Some? && IsLatestMatch(h, i)
    ensures Replay(h).0.confirmed == h[i]
  {
    if i < |h| - 1 {
      assert IsLatestMatch(Front(h), i);
      ReplayMeaning(Front(h));
      ReasonIsLatest(Front(h), i);
    }
  }

  /** A mark carries the match just seen; it comes with the second in a row, a clear with the third miss. */
  lemma EdgeIff(h: History, next: Option<Reason>)
    ensures var edge := React(Replay(h).0, next).1;
            && (edge.Some? && edge.value.Mark? <==>
                  next.Some? && !MatchedLast(h) && h != [] && Last(h).Some?)
            && (edge.Some? && edge.value.Clear? <==> next.None? && MatchedLast(h) && TrailingMisses(h) == 2)
            && (edge.Some? && edge.value.Mark? ==> Some(edge.value.reason) == next)
  {
    ReplayMeaning(h);
  }

  /** Edges alternate Mark, Clear, Mark, ...; an odd number means confirmed. */
  lemma {:induction false} EdgesAlternate(h: History)
    ensures var (s, edges) := Replay(h);
            && (forall k :: 0 <= k < |edges| ==> (edges[k].Mark? <==> k % 2 == 0))
            && (s.confirmed.Some? <==> |edges| % 2 == 1)
  {
    if h != [] {
      EdgesAlternate(Front(h));
    }
  }

  // -------------------------------------------------------------------------
  // The watch loop
  // -------------------------------------------------------------------------

  datatype AgentEvent = InputRequested(reason: Reason) | InputResolved | Idle | Activity

  /** What one round of the loop finds outside: other writers' rows, the session, the screen, the probe. */
  datatype Round = Round(others: map<Uuid, TaskRow>, running: bool, events: seq<AgentEvent>,
                         screen: Option<Reason>, turnFinished: bool)

  /** Only this row may differ, only in status, and only between running and awaiting input. */
  predicate OnlyMoved(before: map<Uuid, TaskRow>, after: map<Uuid, TaskRow>, id: Uuid) {
    && after.Keys == before.Keys
    && (forall k :: k in before && k != id ==> after[k] == before[k])
    && (id in before ==>
          && after[id] == before[id].(status := after[id].status)
          && (before[id].status.Active() <==> after[id].status.Active())
          && (!before[id].status.Active() ==> after[id] == before[id]))
  }

  /** If the row is active, it shows exactly `awaiting`. */
  predicate Shows(tasks: map<Uuid, TaskRow>, id: Uuid, awaiting: bool) {
    id in tasks && tasks[id].status.Active() ==> (tasks[id].status.AwaitingInput? <==> awaiting)
  }

  /** The last event that says something about input. */
  function LastSays(events: seq<AgentEvent>): Option<bool> {
    if events == [] then None
    else match Last(events)
      case InputRequested(_) => Some(true)
      case InputResolved => Some(false)
      case Idle => Some(false)
      case Activity => LastSays(Front(events))
  }

  class Watcher {
    const store: Store
    const debouncer: Debouncer
    const id: Uuid
    const detect: bool
    var authoritative: bool

    constructor (store: Store, id: Uuid, detect: bool)
      ensures this.store == store && this.id == id && this.detect == detect && !authoritative
      ensures fresh(debouncer) && debouncer.Now() == QUIET
    {
      this.store, this.id, this.detect, authoritative := store, id, detect, false;
      debouncer := new Debouncer();
    }

    /** `reconcile_task`: `mark_awaiting` and `resume_task` are this with `true` and `false`. */
    method Reconcile(awaiting: bool) returns (changed: bool)
      modifies store`tasks
      ensures OnlyMoved(old(store.tasks), store.tasks, id) && Shows(store.tasks, id, awaiting)
      ensures changed <==> store.tasks != old(store.tasks)
      ensures store.Tables() == Cas(old(store.Tables()), id,
                if awaiting then SetStatusIf(AwaitingInput, Running) else SetStatusIf(Running, AwaitingInput))
    {
      var to, from := if awaiting then AwaitingInput else Running, if awaiting then Running else AwaitingInput;
      changed := store.SetTaskStatusIf(id, to, from);
    }

    method ObserveState(event: AgentEvent)
      modifies store`tasks
      ensures OnlyMoved(old(store.tasks), store.tasks, id)
      ensures event.InputRequested? ==> Shows(store.tasks, id, true)
      ensures event.InputResolved? || event.Idle? ==> Shows(store.tasks, id, false)
      ensures LastSays([event]).Some? ==> Shows(store.tasks, id, LastSays([event]).value)
      ensures LastSays([event]).None? ==> store.tasks == old(store.tasks)
    {
      assert Front([event]) == [];
      match event {
        case InputRequested(_) => var _ := Reconcile(true);
        case InputResolved => var _ := Reconcile(false);
        case Idle => var _ := Reconcile(false);
        case Activity =>
      }
    }

    /** The structured source: its first event makes it authoritative and drops the screen signal. */
    method FoldEvents(events: seq<AgentEvent>)
      modifies store`tasks, debouncer, this`authoritative
      ensures OnlyMoved(old(store.tasks), store.tasks, id)
      ensures authoritative <==> old(authoritative) || events != []
      ensures debouncer.Now() == if authoritative && !old(authoritative) then QUIET else old(debouncer.Now())
      ensures LastSays(events).Some? ==> Shows(store.tasks, id, LastSays(events).value)
      ensures events == [] ==> store.tasks == old(store.tasks)
    {
      if !authoritative && events != [] {
        if debouncer.confirmed.Some? {
          var _ := Reconcile(false);
        }
        debouncer.Reset();
        authoritative := true;
      }
      var i := 0;
      while i < |events|
        modifies store`tasks
        invariant 0 <= i <= |events|
        invariant OnlyMoved(old(store.tasks), store.tasks, id)
        invariant LastSays(events[..i]).Some? ==> Shows(store.tasks, id, LastSays(events[..i]).value)
        invariant events == [] ==> store.tasks == old(store.tasks)
      {
        ObserveState(events[i]);
        assert Front(events[..i + 1]) == events[..i] && Front([events[i]]) == [];
        i := i + 1;
      }
      assert events[..i] == events;
    }

    /**
     One poll.  Whatever other writers did to the row before, afterwards an active row
     shows the debounced signal (screen path) or the last structured event.
     */
    method Poll(events: seq<AgentEvent>, screen: Option<Reason>)
      modifies store`tasks, debouncer, this`authoritative
      ensures OnlyMoved(old(store.tasks), store.tasks, id)
      ensures authoritative <==> old(authoritative) || events != []
      ensures authoritative && LastSays(events).Some? ==> Shows(store.tasks, id, LastSays(events).value)
      ensures !authoritative && detect ==>
                && debouncer.Now() == React(old(debouncer.Now()), screen).0
                && Shows(store.tasks, id, debouncer.confirmed.Some?)
      ensures !authoritative && !detect ==> store.tasks == old(store.tasks)
    {
      FoldEvents(events);
      if !authoritative && detect {
        var edge := debouncer.Observe(screen);
        match edge {
          case Some(Mark(_)) => var _ := Reconcile(true);
          case Some(Clear) => var _ := Reconcile(false);
          case None =>
        }
        var _ := Reconcile(debouncer.confirmed.Some?);
      }
    }

    /** After `n` rounds the watcher's memory is that of the history so far. */
    ghost predicate Remembers(rounds: seq<Round>, n: nat)
      requires n <= |rounds|
      reads this, debouncer
    {
      && (authoritative <==> AnyEvent(rounds, n))
      && (!authoritative && detect ==> debouncer.Now() == Replay(Screens(rounds, n)).0)
    }

    /** One round of a running session. */
    method Turn(rounds: seq<Round>, i: nat)
      requires i < |rounds| && Remembers(rounds, i) && store.tasks == rounds[i].others
      modifies store`tasks, debouncer, this`authoritative
      ensures Remembers(rounds, i + 1) && Mirrored(rounds, i, store.tasks, id, detect)
    {
      Poll(rounds[i].events, rounds[i].screen);
      assert Front(Screens(rounds, i + 1)) == Screens(rounds, i);
      ConfirmedIff(Screens(rounds, i + 1));
    }

    /**
     The whole loop, with other writers at work between polls, and its closing resume.
     `seen` holds the rows as each poll left them: until the first structured event an
     active row shows the debounced history of the screen, afterwards the latest event.
     */
    method Watch(rounds: seq<Round>) returns (turnFinished: bool, ghost seen: seq<map<Uuid, TaskRow>>)
      requires debouncer.Now() == QUIET && !authoritative
      modifies store`tasks, debouncer, this`authoritative
      ensures |seen| <= |rounds|
      ensures forall i :: 0 <= i < |seen| ==> rounds[i].running && Mirrored(rounds, i, seen[i], id, detect)
      ensures forall i :: 0 <= i < |seen| - 1 ==> !rounds[i].turnFinished
      ensures turnFinished <==> seen != [] && rounds[|seen| - 1].turnFinished
      ensures !turnFinished ==> |seen| == |rounds| || !rounds[|seen|].running
      ensures var last := if !turnFinished && |seen| < |rounds| then rounds[|seen|].others
                          else if seen == [] then old(store.tasks) else seen[|seen| - 1];
              OnlyMoved(last, store.tasks, id)
      ensures id in store.tasks ==> !store.tasks[id].status.AwaitingInput?
    {
      turnFinished, seen := false, [];
      var i := 0;
      while i < |rounds|
        invariant 0 <= i == |seen| <= |rounds|
        invariant forall j :: 0 <= j < i ==> rounds[j].running && Mirrored(rounds, j, seen[j], id, detect)
        invariant forall j :: 0 <= j < i ==> !rounds[j].turnFinished
        invariant Remembers(rounds, i)
        invariant store.tasks == if seen == [] then old(store.tasks) else seen[i - 1]
        invariant !turnFinished
      {
        store.tasks := rounds[i].others;
        if !rounds[i].running {
          break;
        }
        Turn(rounds, i);
        seen := seen + [store.tasks];
        if rounds[i].turnFinished {
          turnFinished := true;
          break;
        }
        i := i + 1;
      }
      var _ := Reconcile(false);
    }
  }

  function Screens(rounds: seq<Round>, n: nat): History
    requires n <= |rounds|
  {
    seq(n, i requires 0 <= i < n => rounds[i].screen)
  }

  /** The structured source has spoken within the first `n` rounds. */
  predicate AnyEvent(rounds: seq<Round>, n: nat)
    requires n <= |rounds|
  {
    exists j :: 0 <= j < n && rounds[j].events != []
  }

  /** What round `i` leaves behind. */
  ghost predicate Mirrored(rounds: seq<Round>, i: nat, tasks: map<Uuid, TaskRow>, id: Uuid, detect: bool)
    requires i < |rounds|
  {
    && OnlyMoved(rounds[i].others, tasks, id)
    && (!AnyEvent(rounds, i + 1) && detect ==> Shows(tasks, id, MatchedLast(Screens(rounds, i + 1))))
    && (!AnyEvent(rounds, i + 1) && !detect ==> tasks == rounds[i].others)
    && (LastSays(rounds[i].events).Some? ==> Shows(tasks, id, LastSays(rounds[i].events).value))
  }
}
