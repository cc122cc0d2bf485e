/**
 Resuming the event stream.  The daemon subscribes, reads one page of the log after the
 client's cursor, and then follows live pushes.  The page is cut at a limit, and the first
 live push moves the cursor past whatever the page left behind: catching up is complete
 exactly when the page reaches as far as had been published when the subscription began.
 */
module EventResume {
  import opened Options
  import opened CappedFeed
  import opened EventCache

  /** One page after the cursor, if there is one, then every push received live. */
  method Resumable<P>(log: seq<Entry<P>>, last: Option<int>, limit: nat, live: seq<Entry<P>>)
    returns (sent: seq<Entry<P>>)
    ensures sent == (if last.Some? then EventsAfter(log, last.value, limit) else []) + live
  {
    sent := [];
    if last.Some? {
      var page := EventsAfter(log, last.value, limit);
      for i := 0 to |page|
        invariant sent == page[..i]
      {
        sent := sent + [page[i]];
      }
      assert page[..|page|] == page;
    }
    ghost var replayed := sent;
    for i := 0 to |live|
      invariant sent == replayed + live[..i]
    {
      sent := sent + [live[i]];
    }
    assert live[..|live|] == live;
  }

  // -------------------------------------------------------------------------
  // One connection
  // -------------------------------------------------------------------------

  /**
   How far, counted in events of the whole log, things had come: `subscribed` had been
   published when the subscription began, `queried` had been stored when the page was
   read, and the stream ended after `received` had been published.
   */
  datatype Session = Session(subscribed: nat, queried: nat, received: nat)

  function Min(a: nat, b: nat): nat { if a < b then a else b }

  function Max(a: nat, b: nat): nat { if a < b then b else a }

  /** The cursor stands behind the first `c` events. */
  ghost predicate StandsAt<P>(all: seq<Entry<P>>, cursor: int, c: nat) {
    && c <= |all|
    && (forall i :: 0 <= i < c ==> all[i].id <= cursor)
    && (forall i :: c <= i < |all| ==> cursor < all[i].id)
  }

  /** Events are stored before they are published, and a client has seen only stored ones. */
  predicate Happens(size: nat, c: nat, x: Session) {
    c <= x.queried && x.subscribed <= x.queried <= size && x.subscribed <= x.received <= size
  }

  function PageEnd(c: nat, limit: nat, x: Session): nat { Min(c + limit, x.queried) }

  function Sent<P>(all: seq<Entry<P>>, c: nat, limit: nat, x: Session): seq<Entry<P>>
    requires Happens(|all|, c, x)
  {
    all[c..PageEnd(c, limit, x)] + all[x.subscribed..x.received]
  }

  /** Where the cursor stands when the stream ends. */
  function Next(c: nat, limit: nat, x: Session): nat {
    if x.subscribed < x.received then Max(PageEnd(c, limit, x), x.received) else PageEnd(c, limit, x)
  }

  /** Something was published before the subscription, lies beyond the page, and is passed by a live push. */
  predicate Skips(c: nat, limit: nat, x: Session) {
    PageEnd(c, limit, x) < x.subscribed < x.received
  }

  /** In a caller's terms: more events were missed than fit a page. */
  lemma SkipsIff(size: nat, c: nat, limit: nat, x: Session)
    requires Happens(size, c, x) && x.subscribed < x.received
    ensures Skips(c, limit, x) <==> x.subscribed > c + limit
  {
  }

  /** Whatever the limit, one event more than a page and one live push are enough. */
  lemma OneMoreThanAPage(c: nat, limit: nat)
    ensures var x := Session(c + limit + 1, c + limit + 1, c + limit + 2);
            Happens(c + limit + 2, c, x) && Skips(c, limit, x)
  {
  }

  /** What `Resumable` sends is that page and that stretch of live events. */
  lemma SentIsResumed<P>(all: seq<Entry<P>>, cursor: int, c: nat, limit: nat, x: Session)
    requires Ascending(all) && StandsAt(all, cursor, c) && Happens(|all|, c, x)
    ensures EventsAfter(all[..x.queried], cursor, limit) + all[x.subscribed..x.received] == Sent(all, c, limit, x)
  {
    SuffixIsAfter(all[..x.queried], c, cursor);
    assert all[..x.queried][c..] == all[c..x.queried];
    assert c + limit <= x.queried ==> all[c..x.queried][..limit] == all[c..c + limit];
  }

  // -------------------------------------------------------------------------
  // The feed, through the map of what was delivered
  // -------------------------------------------------------------------------

  function Overlay<P>(m: map<int, P>, pushes: seq<Entry<P>>): map<int, P>
    decreases |pushes|
  {
    if pushes == [] then m
    else Overlay(m, pushes[..|pushes| - 1])[pushes[|pushes| - 1].id := pushes[|pushes| - 1].payload]
  }

  lemma {:induction false} PushedAllNewest<P>(s: seq<Entry<P>>, m: map<int, P>, pushes: seq<Entry<P>>)
    requires IsNewest(s, m, EVENT_CAP)
    ensures IsNewest(PushedAll(s, pushes), Overlay(m, pushes), EVENT_CAP)
    decreases |pushes|
  {
    if pushes != [] {
      var front, last := pushes[..|pushes| - 1], pushes[|pushes| - 1];
      PushedAllNewest(s, m, front);
      PushKeepsNewest(PushedAll(s, front), Overlay(m, front), last, EVENT_CAP);
    }
  }

  /** Everything in the map is an event of the log. */
  ghost predicate From<P>(all: seq<Entry<P>>, m: map<int, P>) {
    forall id :: id in m ==> Entry(id, m[id]) in all
  }

  lemma {:induction false} OverlayKeys<P>(all: seq<Entry<P>>, m: map<int, P>, pushes: seq<Entry<P>>)
    requires From(all, m) && forall e :: e in pushes ==> e in all
    ensures From(all, Overlay(m, pushes))
    ensures forall id :: id in Overlay(m, pushes) <==> id in m || HasId(pushes, id)
    decreases |pushes|
  {
    if pushes != [] {
      var front, last := pushes[..|pushes| - 1], pushes[|pushes| - 1];
      OverlayKeys(all, m, front);
      assert pushes == front + [last] && last in pushes;
      forall id ensures HasId(pushes, id) <==> HasId(front, id) || id == last.id { JoinIds(front, [last], id); }
    }
  }

  lemma SameKeysSameMap<P>(all: seq<Entry<P>>, m: map<int, P>, n: map<int, P>)
    requires Ascending(all) && From(all, m) && From(all, n) && m.Keys == n.Keys
    ensures m == n
  {
    forall id | id in m ensures m[id] == n[id] {
      assert id in n;
      var i :| 0 <= i < |all| && all[i] == Entry(id, m[id]);
      var j :| 0 <= j < |all| && all[j] == Entry(id, n[id]);
      assert i < j || i == j || j < i;
    }
  }

  /** A feed is the tail of a stretch of the log; what is pushed makes it the tail of another. */
  lemma PushedIsTail<P>(all: seq<Entry<P>>, was: seq<Entry<P>>, pushes: seq<Entry<P>>, now: seq<Entry<P>>)
    requires Ascending(all) && Ascending(was) && Ascending(now)
    requires forall e :: e in was || e in pushes || e in now ==> e in all
    requires forall id :: HasId(now, id) <==> HasId(was, id) || HasId(pushes, id)
    ensures PushedAll(TailEvents(was, EVENT_CAP), pushes) == TailEvents(now, EVENT_CAP)
  {
    var m, n := LastWins(was), LastWins(now);
    TailIsNewest(was);
    TailIsNewest(now);
    LogMap(all, was);
    LogMap(all, now);
    PushedAllNewest(TailEvents(was, EVENT_CAP), m, pushes);
    assert forall e :: e in pushes ==> e in all;
    OverlayKeys(all, m, pushes);
    forall id ensures id in Overlay(m, pushes).Keys <==> id in n.Keys {
      assert id in m <==> HasId(was, id);
      assert id in n <==> HasId(now, id);
    }
    SameKeysSameMap(all, Overlay(m, pushes), n);
    NewestUnique(PushedAll(TailEvents(was, EVENT_CAP), pushes), TailEvents(now, EVENT_CAP), n, EVENT_CAP);
  }

  lemma {:induction false} LogMap<P>(all: seq<Entry<P>>, s: seq<Entry<P>>)
    requires forall e :: e in s ==> e in all
    ensures From(all, LastWins(s)) && forall id :: id in LastWins(s) <==> HasId(s, id)
  {
    if s != [] {
      var front, last := s[..|s| - 1], s[|s| - 1];
      assert s == front + [last] && last in s;
      LogMap(all, front);
      forall id ensures HasId(s, id) <==> HasId(front, id) || id == last.id { JoinIds(front, [last], id); }
    }
  }

  // -------------------------------------------------------------------------
  // What one connection leaves
  // -------------------------------------------------------------------------

  lemma StretchIds<P>(all: seq<Entry<P>>, lo: nat, hi: nat, id: int)
    requires lo <= hi <= |all|
    ensures HasId(all[lo..hi], id) <==> exists i :: lo <= i < hi && all[i].id == id
  {
    if HasId(all[lo..hi], id) {
      var i :| 0 <= i < |all[lo..hi]| && all[lo..hi][i].id == id;
      assert all[lo + i].id == id;
    }
    if i :| lo <= i < hi && all[i].id == id {
      assert all[lo..hi][i - lo].id == id;
    }
  }

  lemma JoinIds<P>(a: seq<Entry<P>>, b: seq<Entry<P>>, id: int)
    ensures HasId(a + b, id) <==> HasId(a, id) || HasId(b, id)
  {
    if HasId(a, id) {
      var i :| 0 <= i < |a| && a[i].id == id;
      assert (a + b)[i].id == id;
    }
    if HasId(b, id) {
      var i :| 0 <= i < |b| && b[i].id == id;
      assert (a + b)[|a| + i].id == id;
    }
    if HasId(a + b, id) {
      var i :| 0 <= i < |a + b| && (a + b)[i].id == id;
      if i < |a| { assert a[i].id == id; } else { assert b[i - |a|].id == id; }
    }
  }

  /** The first event of the log that the feed holds afterwards. */
  function Base(b: nat, x: Session): nat { if x.subscribed < x.received then Min(b, x.subscribed) else b }

  /** If nothing is skipped, the feed is the tail of the log up to the cursor, as if nothing had been missed. */
  lemma UnskippedIsTail<P>(all: seq<Entry<P>>, b: nat, c: nat, limit: nat, x: Session)
    requires Ascending(all) && b <= c && Happens(|all|, c, x) && !Skips(c, limit, x)
    requires x.subscribed < x.received ==> b <= x.received
    ensures Base(b, x) <= Next(c, limit, x) <= |all|
    ensures PushedAll(TailEvents(all[b..c], EVENT_CAP), Sent(all, c, limit, x))
            == TailEvents(all[Base(b, x)..Next(c, limit, x)], EVENT_CAP)
  {
    var lo, hi, page := Base(b, x), Next(c, limit, x), PageEnd(c, limit, x);
    forall id
      ensures HasId(all[lo..hi], id) <==> HasId(all[b..c], id) || HasId(Sent(all, c, limit, x), id)
    {
      StretchIds(all, lo, hi, id);
      StretchIds(all, b, c, id);
      StretchIds(all, c, page, id);
      StretchIds(all, x.subscribed, x.received, id);
      JoinIds(all[c..page], all[x.subscribed..x.received], id);
    }
    PushedIsTail(all, all[b..c], Sent(all, c, limit, x), all[lo..hi]);
  }

  /** If something is, the feed is the tail of the log with a hole in it. */
  lemma SkippedIsHole<P>(all: seq<Entry<P>>, b: nat, c: nat, limit: nat, x: Session)
    requires Ascending(all) && b <= c && Happens(|all|, c, x) && Skips(c, limit, x)
    ensures PushedAll(TailEvents(all[b..c], EVENT_CAP), Sent(all, c, limit, x))
            == TailEvents(all[b..PageEnd(c, limit, x)] + all[x.subscribed..x.received], EVENT_CAP)
  {
    var page := PageEnd(c, limit, x);
    var now := all[b..page] + all[x.subscribed..x.received];
    forall id ensures HasId(now, id) <==> HasId(all[b..c], id) || HasId(Sent(all, c, limit, x), id) {
      assert all[b..page] == all[b..c] + all[c..page];
      JoinIds(all[b..c], all[c..page], id);
      JoinIds(all[b..page], all[x.subscribed..x.received], id);
      JoinIds(all[c..page], all[x.subscribed..x.received], id);
    }
    PushedIsTail(all, all[b..c], Sent(all, c, limit, x), now);
  }

  /** The hole shows until the cap has pushed it out. */
  lemma HoleShowsIff<P>(all: seq<Entry<P>>, b: nat, page: nat, s: nat, n: nat)
    requires Ascending(all) && b <= page < s < n <= |all|
    ensures TailEvents(all[b..page] + all[s..n], EVENT_CAP) == TailEvents(all[b..n], EVENT_CAP) <==> n - s >= EVENT_CAP
  {
    var holed, full := all[b..page] + all[s..n], all[b..n];
    var t, u := TailEvents(holed, EVENT_CAP), TailEvents(full, EVENT_CAP);
    if n - s >= EVENT_CAP {
      assert t == all[n - EVENT_CAP..n] == u;
    } else {
      var k := s - 1;
      assert full[k - b] == all[k];
      assert u[k - b - (|full| - |u|)] == all[k];
      assert all[k] in u;
      forall i | 0 <= i < |t| ensures t[i] != all[k] {
        assert t[i] == holed[|holed| - |t| + i];
      }
    }
  }

  /** Exactly: after a live push the feed is the tail of the log, unless a hole was left and still shows. */
  lemma ResumedIff<P>(all: seq<Entry<P>>, b: nat, c: nat, limit: nat, x: Session)
    requires Ascending(all) && b <= c && Happens(|all|, c, x) && x.subscribed < x.received && b <= x.received
    ensures Base(b, x) <= Next(c, limit, x) <= |all|
    ensures PushedAll(TailEvents(all[b..c], EVENT_CAP), Sent(all, c, limit, x))
              == TailEvents(all[Base(b, x)..Next(c, limit, x)], EVENT_CAP)
            <==> x.subscribed <= c + limit || x.received - x.subscribed >= EVENT_CAP
  {
    SkipsIff(|all|, c, limit, x);
    if Skips(c, limit, x) {
      SkippedIsHole(all, b, c, limit, x);
      HoleShowsIff(all, b, PageEnd(c, limit, x), x.subscribed, x.received);
    } else {
      UnskippedIsTail(all, b, c, limit, x);
    }
  }

  /** The cursor is the greatest id delivered, so it stands where the stream ended. */
  lemma CursorStands<P>(all: seq<Entry<P>>, cursor: int, c: nat, limit: nat, x: Session)
    requires Ascending(all) && StandsAt(all, cursor, c) && Happens(|all|, c, x)
    ensures var after := CursorAfter(Some(cursor), Sent(all, c, limit, x));
            after.Some? && StandsAt(all, after.value, Next(c, limit, x))
  {
    var page := all[c..PageEnd(c, limit, x)];
    CursorOfStretch(all, cursor, c, c, PageEnd(c, limit, x));
    var mid := CursorAfter(Some(cursor), page).value;
    CursorOfStretch(all, mid, PageEnd(c, limit, x), x.subscribed, x.received);
    CursorAfterAppend(Some(cursor), page, all[x.subscribed..x.received]);
  }

  lemma {:induction false} CursorOfStretch<P>(all: seq<Entry<P>>, cursor: int, c: nat, lo: nat, hi: nat)
    requires Ascending(all) && StandsAt(all, cursor, c) && lo <= hi <= |all|
    ensures var after := CursorAfter(Some(cursor), all[lo..hi]);
            after.Some? && StandsAt(all, after.value, if lo < hi then Max(c, hi) else c)
    decreases hi
  {
    if lo < hi {
      assert all[lo..hi][..hi - lo - 1] == all[lo..hi - 1];
      CursorOfStretch(all, cursor, c, lo, hi - 1);
    }
  }

  lemma {:induction false} CursorAfterAppend<P>(cursor: Option<int>, a: seq<Entry<P>>, b: seq<Entry<P>>)
    ensures CursorAfter(cursor, a + b) == CursorAfter(CursorAfter(cursor, a), b)
    decreases |b|
  {
    if b == [] {
      assert a + b == a;
    } else {
      assert (a + b)[..|a + b| - 1] == a + b[..|b| - 1];
      CursorAfterAppend(cursor, a, b[..|b| - 1]);
    }
  }

  // -------------------------------------------------------------------------
  // Connection after connection
  // -------------------------------------------------------------------------

  /** Each connection starts from the cursor the last one left, and subscribes no earlier than it ended. */
  ghost predicate Orderly(size: nat, c: nat, limit: nat, xs: seq<Session>)
    decreases |xs|
  {
    xs == [] || (&& Happens(size, c, xs[0])
                 && (|xs| > 1 ==> xs[0].received <= xs[1].subscribed)
                 && Orderly(size, Next(c, limit, xs[0]), limit, xs[1..]))
  }

  function Final(c: nat, limit: nat, xs: seq<Session>): nat
    decreases |xs|
  {
    if xs == [] then c else Final(Next(c, limit, xs[0]), limit, xs[1..])
  }

  /** Event `k` of the log is delivered by one of the connections. */
  predicate Gets(c: nat, limit: nat, xs: seq<Session>, k: nat)
    decreases |xs|
  {
    xs != [] && (c <= k < PageEnd(c, limit, xs[0]) || xs[0].subscribed <= k < xs[0].received
                 || Gets(Next(c, limit, xs[0]), limit, xs[1..], k))
  }

  ghost predicate NoneSkips(c: nat, limit: nat, xs: seq<Session>)
    decreases |xs|
  {
    xs == [] || (!Skips(c, limit, xs[0]) && NoneSkips(Next(c, limit, xs[0]), limit, xs[1..]))
  }

  /** What lies behind the cursor and before every later subscription is never delivered. */
  lemma {:induction false} NeverAskedAgain(size: nat, c: nat, limit: nat, xs: seq<Session>, k: nat)
    requires Orderly(size, c, limit, xs) && k < c && (xs != [] ==> k < xs[0].subscribed)
    ensures !Gets(c, limit, xs, k)
    decreases |xs|
  {
    if xs != [] { NeverAskedAgain(size, Next(c, limit, xs[0]), limit, xs[1..], k); }
  }

  /** A connection that skips loses the first event behind its page for good. */
  lemma SkippedIsLost(size: nat, c: nat, limit: nat, xs: seq<Session>)
    requires Orderly(size, c, limit, xs) && xs != [] && Skips(c, limit, xs[0])
    ensures c <= c + limit < Next(c, limit, xs[0]) && !Gets(c, limit, xs, c + limit)
  {
    NeverAskedAgain(size, Next(c, limit, xs[0]), limit, xs[1..], c + limit);
  }

  lemma {:induction false} FinalIsBehind(size: nat, c: nat, limit: nat, xs: seq<Session>)
    requires Orderly(size, c, limit, xs)
    ensures c <= Final(c, limit, xs)
    decreases |xs|
  {
    if xs != [] { FinalIsBehind(size, Next(c, limit, xs[0]), limit, xs[1..]); }
  }

  /** Every event between the first cursor and the last was delivered. */
  ghost predicate CaughtUp(c: nat, limit: nat, xs: seq<Session>) {
    forall k: nat :: c <= k < Final(c, limit, xs) ==> Gets(c, limit, xs, k)
  }

  lemma CaughtUpFurther(size: nat, c: nat, limit: nat, xs: seq<Session>)
    requires xs != [] && Orderly(size, c, limit, xs) && !Skips(c, limit, xs[0])
    ensures CaughtUp(c, limit, xs) <==> CaughtUp(Next(c, limit, xs[0]), limit, xs[1..])
  {
    var next, rest := Next(c, limit, xs[0]), xs[1..];
    forall k: nat | next <= k ensures Gets(c, limit, xs, k) <==> Gets(next, limit, rest, k) {}
    forall k: nat | c <= k < next ensures Gets(c, limit, xs, k) {}
    if CaughtUp(c, limit, xs) {
      forall k: nat | next <= k < Final(next, limit, rest) ensures Gets(next, limit, rest, k) {
        assert Gets(c, limit, xs, k);
      }
    }
    if CaughtUp(next, limit, rest) {
      forall k: nat | c <= k < Final(c, limit, xs) ensures Gets(c, limit, xs, k) {
        assert k >= next ==> Gets(next, limit, rest, k);
      }
    }
  }

  /** Over any number of connections, every event up to the cursor was delivered if and only if none skipped. */
  lemma {:induction false} CaughtUpIff(size: nat, c: nat, limit: nat, xs: seq<Session>)
    requires Orderly(size, c, limit, xs)
    ensures CaughtUp(c, limit, xs) <==> NoneSkips(c, limit, xs)
    decreases |xs|
  {
    if xs != [] {
      var next := Next(c, limit, xs[0]);
      CaughtUpIff(size, next, limit, xs[1..]);
      FinalIsBehind(size, next, limit, xs[1..]);
      if Skips(c, limit, xs[0]) {
        SkippedIsLost(size, c, limit, xs);
      } else {
        CaughtUpFurther(size, c, limit, xs);
      }
    }
  }

  function SentByAll<P>(all: seq<Entry<P>>, c: nat, limit: nat, xs: seq<Session>): seq<Entry<P>>
    requires Orderly(|all|, c, limit, xs)
    decreases |xs|
  {
    if xs == [] then [] else Sent(all, c, limit, xs[0]) + SentByAll(all, Next(c, limit, xs[0]), limit, xs[1..])
  }

  lemma {:induction false} PushedAllAppend<P>(s: seq<Entry<P>>, a: seq<Entry<P>>, b: seq<Entry<P>>)
    ensures PushedAll(s, a + b) == PushedAll(PushedAll(s, a), b)
    decreases |b|
  {
    if b == [] {
      assert a + b == a;
    } else {
      assert (a + b)[..|a + b| - 1] == a + b[..|b| - 1];
      PushedAllAppend(s, a, b[..|b| - 1]);
    }
  }

  /** Then the feed is the tail of an unbroken stretch of the log that ends at the cursor. */
  lemma {:induction false} CaughtUpFeed<P>(all: seq<Entry<P>>, b: nat, c: nat, limit: nat, xs: seq<Session>)
    returns (base: nat)
    requires Ascending(all) && b <= c <= |all| && Orderly(|all|, c, limit, xs) && NoneSkips(c, limit, xs)
    requires forall x :: x in xs && x.subscribed < x.received ==> b <= x.received
    ensures base <= b && Final(c, limit, xs) <= |all| && base <= Final(c, limit, xs)
    ensures PushedAll(TailEvents(all[b..c], EVENT_CAP), SentByAll(all, c, limit, xs))
            == TailEvents(all[base..Final(c, limit, xs)], EVENT_CAP)
    decreases |xs|
  {
    base := b;
    if xs != [] {
      assert xs[0] in xs;
      UnskippedIsTail(all, b, c, limit, xs[0]);
      var next := Next(c, limit, xs[0]);
      base := CaughtUpFeed(all, Base(b, xs[0]), next, limit, xs[1..]);
      PushedAllAppend(TailEvents(all[b..c], EVENT_CAP), Sent(all, c, limit, xs[0]),
                      SentByAll(all, next, limit, xs[1..]));
    }
  }
}
