/**
 The reference meaning of a capped feed: everything ever pushed, as a map from id
 to payload, cut to the entries with the greatest ids.
 */
module CappedFeed {

  datatype Entry<P> = Entry(id: int, payload: P)

  ghost predicate Ascending<P>(s: seq<Entry<P>>) {
    forall i, j :: 0 <= i < j < |s| ==> s[i].id < s[j].id
  }

  ghost predicate HasId<P>(s: seq<Entry<P>>, id: int) {
    exists i :: 0 <= i < |s| && s[i].id == id
  }

  /** `s` holds exactly the (at most `cap`) greatest ids of `m`, ascending, with their payloads. */
  ghost predicate IsNewest<P>(s: seq<Entry<P>>, m: map<int, P>, cap: nat) {
    && Ascending(s) && |s| <= cap
    && (forall i :: 0 <= i < |s| ==> s[i].id in m && m[s[i].id] == s[i].payload)
    && (forall id :: id in m && !HasId(s, id) ==> |s| == cap && forall i :: 0 <= i < |s| ==> id < s[i].id)
  }

  /** Later entries overwrite earlier ones. */
  function LastWins<P>(s: seq<Entry<P>>): map<int, P> {
    if s == [] then map[] else LastWins(s[..|s| - 1])[s[|s| - 1].id := s[|s| - 1].payload]
  }

  /** Earlier entries shadow later ones. */
  function FirstWins<P>(s: seq<Entry<P>>): map<int, P> {
    if s == [] then map[] else FirstWins(s[1..])[s[0].id := s[0].payload]
  }

  /** Drop the oldest entries beyond the cap. */
  /** The map of last copies: an id is there if it was pushed, with what came last under it. */
  lemma {:induction false} LastWinsMeans<P>(s: seq<Entry<P>>, id: int)
    ensures id in LastWins(s) <==> exists i :: 0 <= i < |s| && s[i].id == id
    ensures forall i :: 0 <= i < |s| && s[i].id == id && (forall j :: i < j < |s| ==> s[j].id != id) ==>
              LastWins(s)[id] == s[i].payload
  {
    if s != [] {
      var front, last := s[..|s| - 1], s[|s| - 1];
      LastWinsMeans(front, id);
      assert forall i :: 0 <= i < |front| ==> front[i] == s[i];
      if id in LastWins(s) && last.id != id {
        var i :| 0 <= i < |front| && front[i].id == id;
        assert s[i].id == id;
      }
    }
  }

  /** The map of first copies: what came first under an id stays. */
  lemma {:induction false} FirstWinsMeans<P>(s: seq<Entry<P>>, id: int)
    ensures id in FirstWins(s) <==> exists i :: 0 <= i < |s| && s[i].id == id
    ensures forall i :: 0 <= i < |s| && s[i].id == id && (forall j :: 0 <= j < i ==> s[j].id != id) ==>
              FirstWins(s)[id] == s[i].payload
  {
    if s != [] {
      var rest := s[1..];
      FirstWinsMeans(rest, id);
      assert forall i :: 0 <= i < |rest| ==> rest[i] == s[i + 1];
      if id in FirstWins(s) && s[0].id != id {
        var i :| 0 <= i < |rest| && rest[i].id == id;
        assert s[i + 1].id == id;
      }
      forall i | 0 <= i < |s| && s[i].id == id && (forall j :: 0 <= j < i ==> s[j].id != id)
        ensures FirstWins(s)[id] == s[i].payload
      {
        if i > 0 {
          assert s[0].id != id && rest[i - 1].id == id;
          assert forall j :: 0 <= j < i - 1 ==> rest[j].id == s[j + 1].id;
        }
      }
    }
  }

  function Trim<P>(s: seq<Entry<P>>, cap: nat): seq<Entry<P>> {
    if |s| > cap then s[|s| - cap..] else s
  }

  /** Put an entry at its place in an ascending sequence, replacing one with its id. */
  function Upsert<P>(s: seq<Entry<P>>, e: Entry<P>): seq<Entry<P>> {
    if s == [] then [e]
    else if s[0].id < e.id then [s[0]] + Upsert(s[1..], e)
    else if s[0].id == e.id then [e] + s[1..]
    else [e] + s
  }

  // -------------------------------------------------------------------------
  // The cut is unique
  // -------------------------------------------------------------------------

  function Ids<P>(s: seq<Entry<P>>): set<int> { set i | 0 <= i < |s| :: s[i].id }

  lemma HasIdIsIn<P>(s: seq<Entry<P>>, id: int)
    ensures HasId(s, id) <==> id in Ids(s)
  {
  }

  lemma {:induction false} IdsCount<P>(s: seq<Entry<P>>)
    requires Ascending(s)
    ensures |Ids(s)| == |s|
  {
    if s != [] {
      var front := s[..|s| - 1];
      IdsCount(front);
      assert Ids(s) == Ids(front) + {s[|s| - 1].id};
    }
  }

  lemma CardinalityMonotone(a: set<int>, b: set<int>)
    requires a <= b
    ensures |a| <= |b|
    ensures |a| == |b| ==> a == b
  {
    assert b == a + (b - a);
  }

  /** An id kept on one side is kept on the other. */
  lemma KeptByBoth<P, Q>(s: seq<Entry<P>>, m: map<int, P>, t: seq<Entry<Q>>, n: map<int, Q>, cap: nat, i: nat)
    requires IsNewest(s, m, cap) && IsNewest(t, n, cap) && m.Keys == n.Keys && i < |s|
    ensures HasId(t, s[i].id)
  {
    var k := s[i].id;
    if !HasId(t, k) {
      assert k in n;
      forall x | x in Ids(t) ensures x in Ids(s) {
        var j :| 0 <= j < |t| && t[j].id == x;
        assert k < x && x in m;
        HasIdIsIn(s, x);
      }
      IdsCount(s);
      IdsCount(t);
      assert k in Ids(s) && k !in Ids(t);
      CardinalityMonotone(Ids(t) + {k}, Ids(s));
    }
  }

  lemma {:induction false} SameIdsSameOrder<P, Q>(s: seq<Entry<P>>, t: seq<Entry<Q>>)
    requires Ascending(s) && Ascending(t) && Ids(s) == Ids(t)
    ensures |s| == |t| && forall i :: 0 <= i < |s| ==> s[i].id == t[i].id
  {
    IdsCount(s);
    IdsCount(t);
    if s != [] {
      var n := |s| - 1;
      assert s[n].id in Ids(t) && t[n].id in Ids(s);
      var i :| 0 <= i < |t| && t[i].id == s[n].id;
      var j :| 0 <= j < |s| && s[j].id == t[n].id;
      assert s[n].id == t[n].id;
      assert Ids(s[..n]) == Ids(s) - {s[n].id};
      assert Ids(t[..n]) == Ids(t) - {t[n].id};
      SameIdsSameOrder(s[..n], t[..n]);
    }
  }

  /** The kept ids depend only on the set of ids. */
  lemma NewestIdsUnique<P, Q>(s: seq<Entry<P>>, m: map<int, P>, t: seq<Entry<Q>>, n: map<int, Q>, cap: nat)
    requires IsNewest(s, m, cap) && IsNewest(t, n, cap) && m.Keys == n.Keys
    ensures |s| == |t| && forall i :: 0 <= i < |s| ==> s[i].id == t[i].id
  {
    forall x ensures x in Ids(s) <==> x in Ids(t) {
      if x in Ids(s) {
        var i :| 0 <= i < |s| && s[i].id == x;
        KeptByBoth(s, m, t, n, cap, i);
      }
      if x in Ids(t) {
        var i :| 0 <= i < |t| && t[i].id == x;
        KeptByBoth(t, n, s, m, cap, i);
      }
    }
    assert Ids(s) == Ids(t);
    SameIdsSameOrder(s, t);
  }

  lemma NewestUnique<P>(s: seq<Entry<P>>, t: seq<Entry<P>>, m: map<int, P>, cap: nat)
    requires IsNewest(s, m, cap) && IsNewest(t, m, cap)
    ensures s == t
  {
    NewestIdsUnique(s, m, t, m, cap);
  }

  /** As many entries as the cap allows. */
  lemma NewestCount<P>(s: seq<Entry<P>>, m: map<int, P>, cap: nat)
    requires IsNewest(s, m, cap)
    ensures |s| == if |m| < cap then |m| else cap
  {
    IdsCount(s);
    CardinalityMonotone(Ids(s), m.Keys);
    if id :| id in m && !HasId(s, id) {
    } else {
      forall id | id in m.Keys ensures id in Ids(s) { HasIdIsIn(s, id); }
      assert Ids(s) == m.Keys;
    }
  }

  // -------------------------------------------------------------------------
  // Upsert and trim against the reference map
  // -------------------------------------------------------------------------

  /** What upserting does, whatever path computed it. */
  ghost predicate IsUpsert<P>(s: seq<Entry<P>>, e: Entry<P>, r: seq<Entry<P>>) {
    && Ascending(r) && |s| <= |r| <= |s| + 1
    && (forall id :: HasId(r, id) <==> HasId(s, id) || id == e.id)
    && (forall i :: 0 <= i < |r| ==> r[i] == e || (r[i].id != e.id && r[i] in s))
  }

  lemma UpsertBehind<P>(head: Entry<P>, tail: seq<Entry<P>>, e: Entry<P>, t: seq<Entry<P>>)
    requires Ascending([head] + tail) && head.id < e.id && IsUpsert(tail, e, t)
    ensures IsUpsert([head] + tail, e, [head] + t)
  {
    var s, r := [head] + tail, [head] + t;
    assert s[1..] == tail && r[1..] == t;
    forall id ensures HasId(r, id) <==> HasId(s, id) || id == e.id {
      HasIdCons(s, id);
      HasIdCons(r, id);
    }
    forall j | 0 <= j < |t| ensures head.id < t[j].id {
      assert t[j] == e || (t[j].id != e.id && t[j] in tail);
      if t[j] in tail {
        var k :| 0 <= k < |tail| && tail[k] == t[j];
        assert s[0] == head && s[k + 1] == tail[k] && s[0].id < s[k + 1].id;
      }
    }
    assert Ascending(r);
  }

  lemma UpsertInFront<P>(s: seq<Entry<P>>, e: Entry<P>)
    requires Ascending(s) && s != [] && e.id <= s[0].id
    ensures IsUpsert(s, e, Upsert(s, e))
  {
    var r := Upsert(s, e);
    assert r[1..] == if s[0].id == e.id then s[1..] else s;
    forall id ensures HasId(r, id) <==> HasId(s, id) || id == e.id {
      HasIdCons(s, id);
      HasIdCons(r, id);
    }
  }

  lemma {:induction false} UpsertMeaning<P>(s: seq<Entry<P>>, e: Entry<P>)
    requires Ascending(s)
    ensures IsUpsert(s, e, Upsert(s, e))
  {
    if s == [] {
      assert Upsert(s, e)[0].id == e.id;
    } else if s[0].id < e.id {
      UpsertMeaning(s[1..], e);
      assert s == [s[0]] + s[1..];
      UpsertBehind(s[0], s[1..], e, Upsert(s[1..], e));
    } else {
      UpsertInFront(s, e);
    }
  }

  lemma HasIdCons<P>(s: seq<Entry<P>>, id: int)
    requires s != []
    ensures HasId(s, id) <==> s[0].id == id || HasId(s[1..], id)
  {
    if HasId(s, id) {
      var i :| 0 <= i < |s| && s[i].id == id;
      if i > 0 { assert s[1..][i - 1].id == id; }
    }
    if HasId(s[1..], id) {
      var i :| 0 <= i < |s[1..]| && s[1..][i].id == id;
      assert s[i + 1].id == id;
    }
  }

  lemma TrimKeepsTail<P>(r: seq<Entry<P>>, cap: nat, k: nat)
    requires k < |r|
    ensures |r| - cap <= k ==> HasId(Trim(r, cap), r[k].id)
  {
    var t := Trim(r, cap);
    if |r| - cap <= k { assert t[k - (|r| - |t|)].id == r[k].id; }
  }

  /** An id that is in the upserted feed but not in the trimmed one was the lowest. */
  lemma TrimDropsLowest<P>(r: seq<Entry<P>>, cap: nat, id: int)
    requires Ascending(r) && HasId(r, id) && !HasId(Trim(r, cap), id)
    ensures |Trim(r, cap)| == cap && forall i :: 0 <= i < cap ==> id < Trim(r, cap)[i].id
  {
    var t := Trim(r, cap);
    var k :| 0 <= k < |r| && r[k].id == id;
    TrimKeepsTail(r, cap, k);
  }

  /** An id already below a full feed stays below it. */
  lemma TrimStaysAbove<P>(s: seq<Entry<P>>, e: Entry<P>, r: seq<Entry<P>>, id: int)
    requires Ascending(s) && IsUpsert(s, e, r)
    requires forall k :: 0 <= k < |s| ==> id < s[k].id
    ensures |Trim(r, |s|)| == |s| && forall i :: 0 <= i < |s| ==> id < Trim(r, |s|)[i].id
  {
    var t := Trim(r, |s|);
    forall i | 0 <= i < |s| ensures id < t[i].id {
      if |r| == |s| {
        SameCountSameIds(s, e, r);
        assert HasId(r, r[i].id);
      } else {
        assert t[i] == r[i + 1] && r[0].id < r[i + 1].id;
        if r[i + 1] == e { assert r[0] != e && r[0] in s; }
      }
    }
  }

  lemma SameCountSameIds<P>(s: seq<Entry<P>>, e: Entry<P>, r: seq<Entry<P>>)
    requires Ascending(s) && IsUpsert(s, e, r) && |r| == |s|
    ensures HasId(s, e.id)
  {
    IdsCount(s);
    IdsCount(r);
    forall id ensures id in Ids(r) <==> id in Ids(s) || id == e.id { HasIdIsIn(s, id); HasIdIsIn(r, id); }
    assert Ids(r) == Ids(s) + {e.id};
    HasIdIsIn(s, e.id);
  }

  lemma UpsertPayloads<P>(s: seq<Entry<P>>, m: map<int, P>, e: Entry<P>, r: seq<Entry<P>>)
    requires IsUpsert(s, e, r)
    requires forall i :: 0 <= i < |s| ==> s[i].id in m && m[s[i].id] == s[i].payload
    ensures forall i :: 0 <= i < |r| ==>
              r[i].id in m[e.id := e.payload] && m[e.id := e.payload][r[i].id] == r[i].payload
  {
  }

  /** A push keeps the feed the newest cut of everything pushed. */
  lemma PushKeepsNewest<P>(s: seq<Entry<P>>, m: map<int, P>, e: Entry<P>, cap: nat)
    requires IsNewest(s, m, cap)
    ensures IsNewest(Trim(Upsert(s, e), cap), m[e.id := e.payload], cap)
  {
    UpsertMeaning(s, e);
    var r := Upsert(s, e);
    UpsertPayloads(s, m, e, r);
    var t := Trim(r, cap);
    forall id | id in m[e.id := e.payload] && !HasId(t, id)
      ensures |t| == cap && forall i :: 0 <= i < |t| ==> id < t[i].id
    {
      if HasId(r, id) {
        TrimDropsLowest(r, cap, id);
      } else {
        assert id in m && !HasId(s, id);
        TrimStaysAbove(s, e, r, id);
      }
    }
  }
}
