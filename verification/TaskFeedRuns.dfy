/**
 A task's feed over a whole session: any mix of live pushes and backfill windows leaves
 the newest part of everything accepted, the first copy of each event winning.
 */
module TaskFeedRuns {
  import opened CappedFeed
  import opened TaskFeed

  datatype Arrival = Live(event: Entry<AgentEvent>) | Backfill(window: seq<Entry<AgentEvent>>)

  /** One arrival of the feed's own session, as `Push` and `Merge` treat it. */
  ghost predicate StepsTo(f: Feed, a: Arrival, g: Feed) {
    match a
    case Live(e) => e.payload.sessionId == f.sessionId && g == Accepted(f, e)
    case Backfill(w) => IsMerged(f, w, g)
  }

  ghost predicate RunsTo(feeds: seq<Feed>, arrivals: seq<Arrival>) {
    |feeds| == |arrivals| + 1
    && forall i :: 0 <= i < |arrivals| ==> StepsTo(feeds[i], arrivals[i], feeds[i + 1])
  }

  /** Everything accepted so far, in first copies, and the highest `seq` applied. */
  datatype History = History(events: map<int, AgentEvent>, last: int)

  function Latest(last: int, window: seq<Entry<AgentEvent>>): int
    decreases |window|
  {
    if window == [] then last else Latest(if last < window[0].id then window[0].id else last, window[1..])
  }

  /** A live event at or below the highest `seq` is refused; a window adds what is not there yet. */
  function Heard(h: History, a: Arrival): History {
    match a
    case Live(e) => if e.id <= h.last then h else History(h.events[e.id := e.payload], e.id)
    case Backfill(w) => History(FirstWins(w) + h.events, Latest(h.last, w))
  }

  function HeardAll(h: History, arrivals: seq<Arrival>): History {
    if arrivals == [] then h else Heard(HeardAll(h, arrivals[..|arrivals| - 1]), arrivals[|arrivals| - 1])
  }

  /** The feed is the newest part of the history, and nothing heard is above `last_seq`. */
  ghost predicate Shows(f: Feed, h: History) {
    && f.sessionId != "" && f.lastSeq == h.last
    && IsNewest(f.events, h.events, FEED_CAP)
    && forall id :: id in h.events ==> id <= h.last
  }

  // -------------------------------------------------------------------------
  // A live push
  // -------------------------------------------------------------------------

  lemma PushShows(f: Feed, h: History, e: Entry<AgentEvent>)
    requires Shows(f, h) && e.payload.sessionId == f.sessionId
    ensures Shows(Accepted(f, e), Heard(h, Live(e)))
  {
    if h.last < e.id {
      assert WellFormed(f);
      AcceptedPushKeepsNewest(f, h.events, e);
    }
  }

  // -------------------------------------------------------------------------
  // A window
  // -------------------------------------------------------------------------

  lemma {:induction false} FirstWinsConcat(s: seq<Entry<AgentEvent>>, w: seq<Entry<AgentEvent>>)
    ensures FirstWins(s + w) == FirstWins(w) + FirstWins(s)
  {
    if s == [] {
      assert s + w == w;
    } else {
      assert (s + w)[1..] == s[1..] + w;
      FirstWinsConcat(s[1..], w);
    }
  }

  lemma {:induction false} FirstWinsOfAscending(s: seq<Entry<AgentEvent>>)
    requires Ascending(s)
    ensures forall id :: id in FirstWins(s) <==> HasId(s, id)
    ensures forall i :: 0 <= i < |s| ==> s[i].id in FirstWins(s) && FirstWins(s)[s[i].id] == s[i].payload
  {
    if s != [] {
      FirstWinsOfAscending(s[1..]);
      forall id ensures HasId(s, id) <==> s[0].id == id || HasId(s[1..], id) { HasIdCons(s, id); }
      forall i | 0 < i < |s| ensures FirstWins(s)[s[i].id] == s[i].payload && s[i].id in FirstWins(s) {
        assert s[1..][i - 1] == s[i] && s[0].id < s[i].id;
      }
    }
  }

  /** However a full feed grows, what it keeps is not below its lowest entry. */
  lemma FullStaysAbove(s: seq<Entry<AgentEvent>>, m: map<int, AgentEvent>, t: seq<Entry<AgentEvent>>, id: int)
    requires Ascending(s) && |s| == FEED_CAP && IsNewest(t, m, FEED_CAP)
    requires forall i :: 0 <= i < |s| ==> s[i].id in m && id < s[i].id
    ensures |t| == FEED_CAP && forall k :: 0 <= k < |t| ==> id < t[k].id
  {
    NewestCount(t, m, FEED_CAP);
    IdsCount(s);
    IdsCount(t);
    assert Ids(s) <= m.Keys;
    CardinalityMonotone(Ids(s), m.Keys);
    forall k | 0 <= k < |t| ensures id < t[k].id {
      if t[k].id <= id {
        forall x | x in Ids(s) ensures x in Ids(t) {
          HasIdIsIn(t, x);
          assert t[k].id < x;
        }
        assert t[k].id in Ids(t) && t[k].id !in Ids(s);
        CardinalityMonotone(Ids(s) + {t[k].id}, Ids(t));
      }
    }
  }

  /** Ids cut off earlier stay cut off, so the newest of feed and window is the newest of all that was heard. */
  lemma MergeIsNewestOfAll(f: Feed, h: History, w: seq<Entry<AgentEvent>>, t: seq<Entry<AgentEvent>>)
    requires Shows(f, h) && IsNewest(t, FirstWins(f.events + w), FEED_CAP)
    ensures IsNewest(t, FirstWins(w) + h.events, FEED_CAP)
  {
    var s, m, u := f.events, FirstWins(w) + h.events, FirstWins(f.events + w);
    FirstWinsConcat(s, w);
    FirstWinsOfAscending(s);
    forall id | id in h.events && !HasId(s, id)
      ensures |t| == FEED_CAP && forall k :: 0 <= k < |t| ==> id < t[k].id
    {
      FullStaysAbove(s, u, t, id);
    }
    forall k | 0 <= k < |t| ensures t[k].id in m && m[t[k].id] == t[k].payload {
      if t[k].id in h.events { assert HasId(s, t[k].id); }
    }
    forall id | id in m && !HasId(t, id) ensures |t| == FEED_CAP && forall k :: 0 <= k < |t| ==> id < t[k].id {
      if id in h.events && !HasId(s, id) {
      } else {
        assert id in u;
      }
    }
  }

  lemma {:induction false} LatestIs(last: int, w: seq<Entry<AgentEvent>>)
    ensures last <= Latest(last, w) && forall id :: id in FirstWins(w) ==> id <= Latest(last, w)
    ensures Latest(last, w) == last || Latest(last, w) in FirstWins(w)
    decreases |w|
  {
    if w != [] { LatestIs(if last < w[0].id then w[0].id else last, w[1..]); }
  }

  lemma MergeShows(f: Feed, h: History, w: seq<Entry<AgentEvent>>, g: Feed)
    requires Shows(f, h) && IsMerged(f, w, g)
    ensures Shows(g, Heard(h, Backfill(w)))
  {
    var m := FirstWins(w) + h.events;
    MergeIsNewestOfAll(f, h, w, g.events);
    LatestIs(h.last, w);
    LastOfNewest(g.events, m, Latest(h.last, w), h.last);
  }

  /** The last entry of the newest part is the greatest of all. */
  lemma LastOfNewest(t: seq<Entry<AgentEvent>>, m: map<int, AgentEvent>, top: int, last: int)
    requires IsNewest(t, m, FEED_CAP) && last <= top && (top == last || top in m)
    requires forall id :: id in m ==> id <= top
    ensures top == if t != [] && last < t[|t| - 1].id then t[|t| - 1].id else last
  {
    if last < top { TopIsLast(t, m, top); }
  }

  lemma TopIsLast(t: seq<Entry<AgentEvent>>, m: map<int, AgentEvent>, top: int)
    requires IsNewest(t, m, FEED_CAP) && top in m && forall id :: id in m ==> id <= top
    ensures t != [] && t[|t| - 1].id == top
  {
    assert forall i :: 0 <= i < |t| ==> t[i].id <= top;
    var first := if t == [] then top else t[0].id;
    assert HasId(t, top);
    var i :| 0 <= i < |t| && t[i].id == top;
    var n := |t| - 1;
    assert forall j :: 0 <= j < |t| ==> t[j].id <= t[n].id;
  }

  // -------------------------------------------------------------------------
  // The whole session
  // -------------------------------------------------------------------------

  /** After any mix of pushes and windows the feed is the newest 500 of everything accepted, first copies winning. */
  lemma {:induction false} RunShows(feeds: seq<Feed>, arrivals: seq<Arrival>, h: History)
    requires RunsTo(feeds, arrivals) && Shows(feeds[0], h)
    ensures Shows(feeds[|arrivals|], HeardAll(h, arrivals))
    decreases |arrivals|
  {
    if arrivals != [] {
      var n := |arrivals| - 1;
      RunShows(feeds[..n + 1], arrivals[..n], h);
      assert feeds[..n + 1][n] == feeds[n];
      var before := HeardAll(h, arrivals[..n]);
      assert StepsTo(feeds[n], arrivals[n], feeds[n + 1]);
      match arrivals[n]
      case Live(e) => PushShows(feeds[n], before, e);
      case Backfill(w) => MergeShows(feeds[n], before, w, feeds[n + 1]);
    }
  }

  /**
   A window of another session replaces the feed whatever its age; the live session's next
   event then starts over, and what had arrived live before the window is gone.
   */
  lemma LateWindowDropsLiveEvents(f: Feed, window: Feed, e: Entry<AgentEvent>)
    requires f.sessionId != "" && window.sessionId != "" && window.sessionId != f.sessionId
    requires e.payload.sessionId == f.sessionId && 0 < e.id
    ensures Accepted(window, e) == Feed(f.sessionId, [e], e.id)
  {
    assert [] + [e] == [e];
  }
}
