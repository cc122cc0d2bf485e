/**
 The client's live event feed: a capped sorted vector with an append path, a
 replace-last path and a binary-search path, all refining one map of everything
 ever pushed; and the daemon's log it is fed from.
 */
module EventCache {
  import opened Options
  import opened CappedFeed

  const EVENT_CAP: nat := 500

  function MaxCursor(c: Option<int>, id: int): Option<int> {
    Some(if c.None? then id else if c.value < id then id else c.value)
  }

  function Pushed<P>(s: seq<Entry<P>>, e: Entry<P>): seq<Entry<P>> { Trim(Upsert(s, e), EVENT_CAP) }

  lemma PushedStaysValid<P>(s: seq<Entry<P>>, e: Entry<P>)
    requires Ascending(s) && |s| <= EVENT_CAP
    ensures Ascending(Pushed(s, e)) && |Pushed(s, e)| <= EVENT_CAP
  {
    UpsertMeaning(s, e);
  }

  lemma {:induction false} UpsertAppends<P>(s: seq<Entry<P>>, e: Entry<P>)
    requires forall i :: 0 <= i < |s| ==> s[i].id < e.id
    ensures Upsert(s, e) == s + [e]
  {
    if s != [] { UpsertAppends(s[1..], e); }
  }

  lemma {:induction false} UpsertReplaces<P>(s: seq<Entry<P>>, e: Entry<P>, k: nat)
    requires Ascending(s) && k < |s| && s[k].id == e.id
    ensures Upsert(s, e) == s[k := e]
  {
    if k > 0 {
      assert s[0].id < s[k].id;
      UpsertReplaces(s[1..], e, k - 1);
      assert s[k := e] == [s[0]] + s[1..][k - 1 := e];
    }
  }

  lemma {:induction false} UpsertInserts<P>(s: seq<Entry<P>>, e: Entry<P>, k: nat)
    requires k <= |s|
    requires forall i :: 0 <= i < k ==> s[i].id < e.id
    requires forall i :: k <= i < |s| ==> e.id < s[i].id
    ensures Upsert(s, e) == s[..k] + [e] + s[k..]
  {
    if k > 0 {
      UpsertInserts(s[1..], e, k - 1);
      assert s[1..][..k - 1] == s[..k][1..] && s[1..][k - 1..] == s[k..];
    }
  }

  /** `Found(k)` is where the id is; `Missing(k)` where it belongs. */
  datatype Slot = Found(index: nat) | Missing(index: nat)

  method BinarySearch<P>(s: seq<Entry<P>>, id: int) returns (slot: Slot)
    requires Ascending(s)
    ensures slot.Found? ==> slot.index < |s| && s[slot.index].id == id
    ensures slot.Missing? ==>
              && slot.index <= |s|
              && (forall i :: 0 <= i < slot.index ==> s[i].id < id)
              && (forall i :: slot.index <= i < |s| ==> id < s[i].id)
  {
    var lo, hi := 0, |s|;
    while lo < hi
      invariant 0 <= lo <= hi <= |s|
      invariant forall i :: 0 <= i < lo ==> s[i].id < id
      invariant forall i :: hi <= i < |s| ==> id < s[i].id
    {
      var mid := lo + (hi - lo) / 2;
      if s[mid].id == id {
        return Found(mid);
      } else if s[mid].id < id {
        lo := mid + 1;
      } else {
        hi := mid;
      }
    }
    return Missing(lo);
  }

  /** The feed and cursor that a sequence of pushes leaves. */
  ghost predicate Summarises<P>(events: seq<Entry<P>>, cursor: Option<int>, pushes: seq<Entry<P>>) {
    && IsNewest(events, LastWins(pushes), EVENT_CAP)
    && (pushes == [] ==> cursor == None)
    && (pushes != [] ==> cursor.Some? && cursor.value in LastWins(pushes))
    && (forall id :: id in LastWins(pushes) ==> cursor.Some? && id <= cursor.value)
  }

  lemma SummarisesOneMore<P>(events: seq<Entry<P>>, cursor: Option<int>, pushes: seq<Entry<P>>, e: Entry<P>)
    requires Summarises(events, cursor, pushes)
    ensures Summarises(Pushed(events, e), MaxCursor(cursor, e.id), pushes + [e])
  {
    PushKeepsNewest(events, LastWins(pushes), e, EVENT_CAP);
    assert (pushes + [e])[..|pushes|] == pushes;
    assert LastWins(pushes + [e]) == LastWins(pushes)[e.id := e.payload];
  }

  class Cache<P> {
    var events: seq<Entry<P>>
    var cursor: Option<int>

    ghost predicate Valid()
      reads this
    {
      Ascending(events) && |events| <= EVENT_CAP
    }

    constructor ()
      ensures Valid() && events == [] && cursor == None
    {
      events, cursor := [], None;
    }

    method PushEvent(event: Entry<P>)
      requires Valid()
      modifies this
      ensures Valid()
      ensures events == Pushed(old(events), event)
      ensures cursor == MaxCursor(old(cursor), event.id)
    {
      var id := event.id;
      PushedStaysValid(events, event);
      if events != [] && events[|events| - 1].id < id {
        UpsertAppends(events, event);
        events := events + [event];
      } else if events != [] && events[|events| - 1].id == id {
        UpsertReplaces(events, event, |events| - 1);
        events := events[|events| - 1 := event];
      } else {
        var slot := BinarySearch(events, id);
        match slot {
          case Found(index) =>
            UpsertReplaces(events, event, index);
            events := events[index := event];
          case Missing(index) =>
            UpsertInserts(events, event, index);
            events := events[..index] + [event] + events[index..];
        }
      }
      if |events| > EVENT_CAP {
        var excess := |events| - EVENT_CAP;
        events := events[excess..];
      }
      cursor := MaxCursor(cursor, id);
    }

    /** Any number of pushes, in any order. */
    method PushAll(pushes: seq<Entry<P>>)
      requires Valid() && events == [] && cursor == None
      modifies this
      ensures Valid()
      ensures IsNewest(events, LastWins(pushes), EVENT_CAP)
      ensures |events| == if |LastWins(pushes)| < 500 then |LastWins(pushes)| else 500
      ensures pushes == [] ==> cursor == None
      ensures pushes != [] ==> cursor.Some? && cursor.value in LastWins(pushes)
      ensures forall id :: id in LastWins(pushes) ==> cursor.Some? && id <= cursor.value
    {
      var i := 0;
      while i < |pushes|
        invariant 0 <= i <= |pushes|
        invariant Valid() && Summarises(events, cursor, pushes[..i])
      {
        SummarisesOneMore(events, cursor, pushes[..i], pushes[i]);
        assert pushes[..i + 1] == pushes[..i] + [pushes[i]];
        PushEvent(pushes[i]);
        i := i + 1;
      }
      assert pushes[..i] == pushes;
      NewestCount(events, LastWins(pushes), EVENT_CAP);
    }

    /** Push what a stream delivers. */
    method Receive(pushes: seq<Entry<P>>)
      requires Valid()
      modifies this
      ensures Valid()
      ensures events == PushedAll(old(events), pushes) && cursor == CursorAfter(old(cursor), pushes)
    {
      var i := 0;
      while i < |pushes|
        invariant 0 <= i <= |pushes| && Valid()
        invariant events == PushedAll(old(events), pushes[..i]) && cursor == CursorAfter(old(cursor), pushes[..i])
      {
        PushEvent(pushes[i]);
        assert pushes[..i + 1][..i] == pushes[..i];
        i := i + 1;
      }
      assert pushes[..i] == pushes;
    }
  }

  function PushedAll<P>(s: seq<Entry<P>>, pushes: seq<Entry<P>>): seq<Entry<P>>
    decreases |pushes|
  {
    if pushes == [] then s else Pushed(PushedAll(s, pushes[..|pushes| - 1]), pushes[|pushes| - 1])
  }

  function CursorAfter<P>(c: Option<int>, pushes: seq<Entry<P>>): Option<int>
    decreases |pushes|
  {
    if pushes == [] then c else MaxCursor(CursorAfter(c, pushes[..|pushes| - 1]), pushes[|pushes| - 1].id)
  }

  // -------------------------------------------------------------------------
  // The log
  // -------------------------------------------------------------------------

  /** The events strictly after `id`. */
  function After<P>(log: seq<Entry<P>>, id: int): seq<Entry<P>> {
    if log == [] then [] else if log[0].id > id then log else After(log[1..], id)
  }

  function EventsAfter<P>(log: seq<Entry<P>>, id: int, limit: nat): seq<Entry<P>> {
    var rest := After(log, id);
    if |rest| <= limit then rest else rest[..limit]
  }

  /** The most recent `limit` events, ascending. */
  function TailEvents<P>(log: seq<Entry<P>>, limit: nat): seq<Entry<P>> { Trim(log, limit) }

  lemma {:induction false} AfterIsSuffix<P>(log: seq<Entry<P>>, id: int)
    requires Ascending(log)
    ensures var rest := After(log, id);
            && |rest| <= |log| && rest == log[|log| - |rest|..]
            && (forall i :: 0 <= i < |rest| ==> id < rest[i].id)
            && (forall i :: 0 <= i < |log| - |rest| ==> log[i].id <= id)
            && Ascending(rest)
  {
    if log != [] && log[0].id <= id {
      AfterIsSuffix(log[1..], id);
    }
  }

  lemma {:induction false} SuffixIsAfter<P>(log: seq<Entry<P>>, k: nat, id: int)
    requires Ascending(log) && k <= |log|
    requires forall i :: 0 <= i < k ==> log[i].id <= id
    requires forall i :: k <= i < |log| ==> id < log[i].id
    ensures After(log, id) == log[k..]
  {
    if k > 0 { SuffixIsAfter(log[1..], k - 1, id); }
  }

  lemma TailAppends<P>(todo: seq<Entry<P>>, n: nat)
    requires Ascending(todo) && n < |todo|
    ensures Pushed(TailEvents(todo[..n], EVENT_CAP), todo[n]) == TailEvents(todo[..n + 1], EVENT_CAP)
  {
    UpsertAppends(TailEvents(todo[..n], EVENT_CAP), todo[n]);
  }

  // -------------------------------------------------------------------------
  // Independence of arrival order, and replays
  // -------------------------------------------------------------------------

  /** Two clients that saw the same ids keep the same ids; the same last payloads give the same feed. */
  lemma ArrivalOrderIrrelevant<P>(s: seq<Entry<P>>, t: seq<Entry<P>>, pushes: seq<Entry<P>>, others: seq<Entry<P>>)
    requires IsNewest(s, LastWins(pushes), EVENT_CAP) && IsNewest(t, LastWins(others), EVENT_CAP)
    requires LastWins(pushes).Keys == LastWins(others).Keys
    ensures |s| == |t| && forall i :: 0 <= i < |s| ==> s[i].id == t[i].id
    ensures LastWins(pushes) == LastWins(others) ==> s == t
  {
    NewestIdsUnique(s, LastWins(pushes), t, LastWins(others), EVENT_CAP);
    if LastWins(pushes) == LastWins(others) {
      NewestUnique(s, t, LastWins(pushes), EVENT_CAP);
    }
  }

  /** Replaying an event the feed has already seen, kept or not, changes neither feed nor cursor. */
  lemma ReplayIsInvisible<P>(s: seq<Entry<P>>, seen: map<int, P>, cursor: Option<int>, e: Entry<P>)
    requires IsNewest(s, seen, EVENT_CAP)
    requires e.id in seen && seen[e.id] == e.payload
    requires cursor.Some? && e.id <= cursor.value
    ensures Pushed(s, e) == s && MaxCursor(cursor, e.id) == cursor
  {
    PushKeepsNewest(s, seen, e, EVENT_CAP);
    assert seen[e.id := e.payload] == seen;
    NewestUnique(s, Pushed(s, e), seen, EVENT_CAP);
  }

  /** A caught-up feed is the newest cut of the log's part, so any overlap can be replayed onto it. */
  lemma {:induction false} TailIsNewest<P>(log: seq<Entry<P>>)
    requires Ascending(log)
    ensures IsNewest(TailEvents(log, EVENT_CAP), LastWins(log), EVENT_CAP)
    ensures forall i :: 0 <= i < |log| ==> log[i].id in LastWins(log) && LastWins(log)[log[i].id] == log[i].payload
  {
    if log != [] {
      var n := |log| - 1;
      TailIsNewest(log[..n]);
      PushKeepsNewest(TailEvents(log[..n], EVENT_CAP), LastWins(log[..n]), log[n], EVENT_CAP);
      TailAppends(log, n);
      assert log[..n + 1] == log;
    }
  }

  lemma OverlapIsInvisible<P>(log: seq<Entry<P>>, cursor: Option<int>, k: nat)
    requires Ascending(log) && k < |log| && cursor == Some(log[|log| - 1].id)
    ensures Pushed(TailEvents(log, EVENT_CAP), log[k]) == TailEvents(log, EVENT_CAP)
    ensures MaxCursor(cursor, log[k].id) == cursor
  {
    TailIsNewest(log);
    ReplayIsInvisible(TailEvents(log, EVENT_CAP), LastWins(log), cursor, log[k]);
  }
}
