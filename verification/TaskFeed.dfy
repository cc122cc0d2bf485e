/**
 One task's live agent-event feed: live pushes are accepted in ascending `seq`
 only, and a backfill window is merged in without losing a live event.
 */
module TaskFeed {
  import opened CappedFeed
  import EventCache

  const FEED_CAP: nat := 500

  datatype AgentEvent = AgentEvent(sessionId: string, body: string)

  /** Entries are keyed by their per-session `seq`. */
  datatype Feed = Feed(sessionId: string, events: seq<Entry<AgentEvent>>, lastSeq: nat)

  ghost predicate WellFormed(f: Feed) {
    && Ascending(f.events) && |f.events| <= FEED_CAP
    && (forall i :: 0 <= i < |f.events| ==> f.events[i].id <= f.lastSeq)
  }

  /** The feed a push lands in: a different session replaces the old feed, an empty one adopts the session. */
  function Landing(f: Feed, sessionId: string): Feed {
    if f.sessionId != "" && f.sessionId != sessionId then Feed(sessionId, [], 0) else f.(sessionId := sessionId)
  }

  /** The end of a sequence, cut to a length. */
  predicate IsLast<T(==)>(s: seq<T>, all: seq<T>, most: nat) {
    |s| == (if |all| <= most then |all| else most) && s == all[|all| - |s|..]
  }

  /** The feed after an event of a session; `changed` is whether it is new to that session. */
  function Accepted(f: Feed, event: Entry<AgentEvent>): Feed {
    var base := Landing(f, event.payload.sessionId);
    if event.id <= base.lastSeq then base
    else Feed(base.sessionId, Trim(base.events + [event], FEED_CAP), event.id)
  }

  /** The feed after a window of its own session: the newest of both, the live copy winning. */
  ghost predicate IsMerged(f: Feed, window: seq<Entry<AgentEvent>>, g: Feed) {
    && g.sessionId == f.sessionId
    && IsNewest(g.events, FirstWins(f.events + window), FEED_CAP)
    && g.lastSeq == (if g.events != [] && f.lastSeq < g.events[|g.events| - 1].id
                     then g.events[|g.events| - 1].id else f.lastSeq)
  }

  // -------------------------------------------------------------------------
  // Library operations on vectors
  // -------------------------------------------------------------------------

  function InsertById<P>(s: seq<Entry<P>>, e: Entry<P>): seq<Entry<P>> {
    if s == [] || s[|s| - 1].id <= e.id then s + [e] else InsertById(s[..|s| - 1], e) + [s[|s| - 1]]
  }

  /** `sort_by_key`: a stable sort. */
  function SortById<P>(s: seq<Entry<P>>): seq<Entry<P>> {
    if s == [] then [] else InsertById(SortById(s[..|s| - 1]), s[|s| - 1])
  }

  /** `dedup_by_key`: of neighbours with one key, the first stays. */
  function DedupById<P>(s: seq<Entry<P>>): seq<Entry<P>> {
    if |s| <= 1 then s
    else if s[|s| - 2].id == s[|s| - 1].id then DedupById(s[..|s| - 1])
    else DedupById(s[..|s| - 1]) + [s[|s| - 1]]
  }

  ghost predicate Distinct<P>(s: seq<Entry<P>>) {
    forall i, j :: 0 <= i < j < |s| ==> s[i].id != s[j].id
  }

  ghost predicate NonDecreasing<P>(s: seq<Entry<P>>) {
    forall i, j :: 0 <= i < j < |s| ==> s[i].id <= s[j].id
  }

  lemma {:induction false} InsertAdds<P>(s: seq<Entry<P>>, e: Entry<P>)
    ensures multiset(InsertById(s, e)) == multiset(s) + multiset{e}
  {
    if s != [] && e.id < s[|s| - 1].id {
      InsertAdds(s[..|s| - 1], e);
      assert s == s[..|s| - 1] + [s[|s| - 1]];
    }
  }

  lemma {:induction false} InsertSorts<P>(s: seq<Entry<P>>, e: Entry<P>)
    requires NonDecreasing(s)
    ensures NonDecreasing(InsertById(s, e))
  {
    if s != [] && e.id < s[|s| - 1].id {
      var front, last := s[..|s| - 1], s[|s| - 1];
      InsertSorts(front, e);
      InsertAdds(front, e);
      var r := InsertById(front, e);
      forall i | 0 <= i < |r| ensures r[i].id <= last.id {
        assert r[i] in multiset(r);
        assert r[i] == e || r[i] in front;
      }
    }
  }

  lemma {:induction false} SortSorts<P>(s: seq<Entry<P>>)
    ensures NonDecreasing(SortById(s))
    ensures multiset(SortById(s)) == multiset(s)
  {
    if s != [] {
      SortSorts(s[..|s| - 1]);
      InsertSorts(SortById(s[..|s| - 1]), s[|s| - 1]);
      InsertAdds(SortById(s[..|s| - 1]), s[|s| - 1]);
      assert s == s[..|s| - 1] + [s[|s| - 1]];
    }
  }

  lemma {:induction false} DedupKeepsAscending<P>(s: seq<Entry<P>>)
    requires Ascending(s)
    ensures DedupById(s) == s
  {
    if |s| > 1 {
      DedupKeepsAscending(s[..|s| - 1]);
      assert s == s[..|s| - 1] + [s[|s| - 1]];
    }
  }

  // -------------------------------------------------------------------------
  // Sequences of distinct entries as maps
  // -------------------------------------------------------------------------

  /** `s` lists the entries of `m`, each once. */
  ghost predicate Holds<P>(s: seq<Entry<P>>, m: map<int, P>) {
    && Distinct(s)
    && (forall e :: e in s ==> e.id in m && m[e.id] == e.payload)
    && (forall id :: id in m ==> Entry(id, m[id]) in s)
  }

  lemma {:induction false} FirstWinsAppend<P>(s: seq<Entry<P>>, e: Entry<P>)
    ensures FirstWins(s + [e]) ==
            if e.id in FirstWins(s) then FirstWins(s) else FirstWins(s)[e.id := e.payload]
  {
    if s == [] {
      assert FirstWins([e]) == map[e.id := e.payload];
    } else {
      assert (s + [e])[1..] == s[1..] + [e];
      FirstWinsAppend(s[1..], e);
    }
  }

  lemma {:induction false} DistinctHolds<P>(s: seq<Entry<P>>)
    requires Distinct(s)
    ensures Holds(s, FirstWins(s))
  {
    if s != [] {
      DistinctHolds(s[1..]);
      assert s == [s[0]] + s[1..];
    }
  }

  lemma DistinctByMultiset<P>(s: seq<Entry<P>>, t: seq<Entry<P>>)
    requires Distinct(s) && multiset(s) == multiset(t)
    ensures Distinct(t)
  {
    forall i, j | 0 <= i < j < |t| ensures t[i].id != t[j].id {
      if t[i].id == t[j].id {
        assert t[i] in multiset(s) && t[j] in multiset(s);
        var a :| 0 <= a < |s| && s[a] == t[i];
        var b :| 0 <= b < |s| && s[b] == t[j];
        assert a == b;
        TwiceIn(t, i, j);
        OnceIn(s, a);
        assert false;
      }
    }
  }

  lemma TwiceIn<P>(t: seq<Entry<P>>, i: nat, j: nat)
    requires i < j < |t| && t[i] == t[j]
    ensures multiset(t)[t[i]] >= 2
  {
    assert t == t[..i] + [t[i]] + t[i + 1..j] + [t[j]] + t[j + 1..];
  }

  lemma OnceIn<P>(s: seq<Entry<P>>, a: nat)
    requires Distinct(s) && a < |s|
    ensures multiset(s)[s[a]] == 1
  {
    assert s == s[..a] + [s[a]] + s[a + 1..];
    assert s[a] !in s[..a] && s[a] !in s[a + 1..];
  }

  lemma SortHolds<P>(s: seq<Entry<P>>, m: map<int, P>)
    requires Holds(s, m)
    ensures Ascending(SortById(s)) && Holds(SortById(s), m)
  {
    SortSorts(s);
    DistinctByMultiset(s, SortById(s));
    forall e | e in SortById(s) ensures e.id in m && m[e.id] == e.payload {
      assert e in multiset(s);
    }
    forall id | id in m ensures Entry(id, m[id]) in SortById(s) {
      assert Entry(id, m[id]) in multiset(SortById(s));
    }
  }

  lemma TrimIsNewest<P>(s: seq<Entry<P>>, m: map<int, P>, cap: nat)
    requires Ascending(s) && Holds(s, m)
    ensures IsNewest(Trim(s, cap), m, cap)
  {
    var t := Trim(s, cap);
    forall id | id in m && !HasId(t, id)
      ensures |t| == cap && forall i :: 0 <= i < |t| ==> id < t[i].id
    {
      var i :| 0 <= i < |s| && s[i] == Entry(id, m[id]);
      TrimDropsLowest(s, cap, id);
    }
  }

  // -------------------------------------------------------------------------
  // The feed object
  // -------------------------------------------------------------------------

  class TaskFeed {
    var sessionId: string
    var events: seq<Entry<AgentEvent>>
    var lastSeq: nat

    function Now(): Feed
      reads this
    {
      Feed(sessionId, events, lastSeq)
    }

    constructor ()
      ensures Now() == Feed("", [], 0) && WellFormed(Now())
    {
      sessionId, events, lastSeq := "", [], 0;
    }

    method Push(event: Entry<AgentEvent>) returns (changed: bool)
      requires WellFormed(Now())
      modifies this
      ensures WellFormed(Now())
      ensures Now() == Accepted(old(Now()), event)
      ensures sessionId == event.payload.sessionId
      ensures old(sessionId) in {"", sessionId} ==>
                && (changed <==> old(lastSeq) < event.id)
                && (!changed ==> events == old(events) && lastSeq == old(lastSeq))
                && (changed ==> lastSeq == event.id && IsLast(events, old(events) + [event], 500))
      ensures old(sessionId) !in {"", sessionId} ==>
                && (changed <==> 0 < event.id)
                && events == (if changed then [event] else []) && lastSeq == (if changed then event.id else 0)
      ensures changed <==> Landing(old(Now()), event.payload.sessionId).lastSeq < event.id
    {
      if sessionId != "" && sessionId != event.payload.sessionId {
        sessionId, events, lastSeq := event.payload.sessionId, [], 0;
      } else if sessionId == "" {
        sessionId := event.payload.sessionId;
      }
      if event.id <= lastSeq {
        return false;
      }
      AppendStaysWellFormed(Now(), event);
      lastSeq := event.id;
      events := events + [event];
      if |events| > FEED_CAP {
        var excess := |events| - FEED_CAP;
        events := events[excess..];
      }
      return true;
    }

    /**
     An unresolved window is ignored, another session's window replaces the feed, the same
     session's is merged, in whatever order and with whatever repetitions it came.
     */
    method Merge(window: Feed)
      requires WellFormed(Now())
      modifies this
      ensures window.sessionId in {"", old(sessionId)} || WellFormed(window) ==> WellFormed(Now())
      ensures window.sessionId == "" ==> Now() == old(Now())
      ensures window.sessionId != "" && window.sessionId != old(sessionId) ==> Now() == window
      ensures window.sessionId != "" && window.sessionId == old(sessionId) ==>
                IsMerged(old(Now()), window.events, Now())
    {
      if window.sessionId == "" {
        return;
      }
      if sessionId != window.sessionId {
        sessionId, events, lastSeq := window.sessionId, window.events, window.lastSeq;
        return;
      }
      AddMissing(window.events);
      SortAndTrim(FirstWins(old(events) + window.events));
      var last := if events == [] then lastSeq else events[|events| - 1].id;
      lastSeq := if last < lastSeq then lastSeq else last;
    }

    method SortAndTrim(ghost union: map<int, AgentEvent>)
      requires Holds(events, union)
      modifies this`events
      ensures IsNewest(events, union, FEED_CAP)
    {
      SortHolds(events, union);
      var sorted := SortById(events);
      DedupKeepsAscending(sorted);
      events := TrimFront(DedupById(sorted), union);
    }

    static method TrimFront(sorted: seq<Entry<AgentEvent>>, ghost union: map<int, AgentEvent>)
      returns (r: seq<Entry<AgentEvent>>)
      requires Ascending(sorted) && Holds(sorted, union)
      ensures IsNewest(r, union, FEED_CAP)
    {
      TrimIsNewest(sorted, union, FEED_CAP);
      r := sorted;
      if |r| > FEED_CAP {
        var excess := |r| - FEED_CAP;
        r := r[excess..];
      }
    }

    /** Append the window's events whose `seq` is not there yet. */
    method AddMissing(window: seq<Entry<AgentEvent>>)
      requires Distinct(events)
      modifies this`events
      ensures Holds(events, FirstWins(old(events) + window))
    {
      DistinctHolds(events);
      assert events + window[..0] == events;
      var i := 0;
      while i < |window|
        invariant 0 <= i <= |window|
        invariant Holds(events, FirstWins(old(events) + window[..i]))
      {
        FirstWinsAppend(old(events) + window[..i], window[i]);
        assert old(events) + window[..i + 1] == old(events) + window[..i] + [window[i]];
        if !exists k :: 0 <= k < |events| && events[k].id == window[i].id {
          events := events + [window[i]];
        }
        i := i + 1;
      }
      assert window[..i] == window;
    }
  }

  lemma AppendStaysWellFormed(f: Feed, event: Entry<AgentEvent>)
    requires WellFormed(f) && f.lastSeq < event.id
    ensures WellFormed(Feed(f.sessionId, Trim(f.events + [event], FEED_CAP), event.id))
  {
  }

  /** A live push that is accepted keeps the feed the newest cut of what it saw. */
  lemma AcceptedPushKeepsNewest(f: Feed, m: map<int, AgentEvent>, event: Entry<AgentEvent>)
    requires WellFormed(f) && IsNewest(f.events, m, FEED_CAP) && f.lastSeq < event.id
    ensures IsNewest(Trim(f.events + [event], FEED_CAP), m[event.id := event.payload], FEED_CAP)
  {
    EventCache.UpsertAppends(f.events, event);
    PushKeepsNewest(f.events, m, event, FEED_CAP);
  }

  /** In the union of a merge the live copy wins, and a live event can only lose to 500 newer ones. */
  lemma LiveEventSurvives(live: seq<Entry<AgentEvent>>, window: seq<Entry<AgentEvent>>,
                          merged: seq<Entry<AgentEvent>>, e: Entry<AgentEvent>)
    requires Ascending(live) && e in live
    requires IsNewest(merged, FirstWins(live + window), FEED_CAP)
    ensures e in merged || (|merged| == FEED_CAP && forall i :: 0 <= i < |merged| ==> e.id < merged[i].id)
  {
    FirstWinsPrefix(live, window, e);
    if HasId(merged, e.id) {
      var i :| 0 <= i < |merged| && merged[i].id == e.id;
      assert merged[i] == e;
    }
  }

  lemma {:induction false} FirstWinsPrefix<P>(s: seq<Entry<P>>, t: seq<Entry<P>>, e: Entry<P>)
    requires Ascending(s) && e in s
    ensures e.id in FirstWins(s + t) && FirstWins(s + t)[e.id] == e.payload
  {
    assert (s + t)[1..] == s[1..] + t;
    if s[0] != e {
      var k :| 0 < k < |s| && s[k] == e;
      assert s[1..][k - 1] == e;
      FirstWinsPrefix(s[1..], t, e);
    }
  }
}
