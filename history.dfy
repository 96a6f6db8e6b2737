/** The session history: the most recent sessions in creation order, kept both
    as a list and as a map from session id, bounded by `sessionHistorySize`
    (at most 999, because ids share 1000 native slots), with the oldest
    sessions evicted first. */
module History {
  import opened Wrappers
  import opened Sessions
  import Slots

  const DefaultSessionHistorySize := 10

  /** The newest `n` elements of a list, in their order. */
  function Window<T>(l: seq<T>, n: nat): (w: seq<T>)
    ensures |w| == if |l| > n then n else |l|
    ensures w == l[|l| - |w|..]
  {
    if |l| > n then l[|l| - n..] else l
  }

  /** With room for at least one session, the newest one always survives
      eviction, and eviction only ever removes from the front. */
  lemma WindowKeepsNewest<T>(l: seq<T>, x: T, n: nat)
    requires n >= 1
    ensures |Window(l + [x], n)| >= 1
    ensures Window(l + [x], n)[|Window(l + [x], n)| - 1] == x
    ensures forall k :: 0 <= k < |Window(l + [x], n)| ==> Window(l + [x], n)[k] == (l + [x])[|l| + 1 - |Window(l + [x], n)| + k]
  {
  }

  /** Shrinking the bound twice is shrinking it once to the smaller bound. */
  lemma WindowOfWindow<T>(l: seq<T>, n: nat, m: nat)
    requires m <= n
    ensures Window(Window(l, n), m) == Window(l, m)
  {
  }

  /** The ids of the sessions of a list. */
  function Ids(l: seq<Session>): set<int>
  {
    set i | 0 <= i < |l| :: l[i].sessionId
  }

  /** The sessions of one kind, in history order. */
  function OfKind(l: seq<Session>, k: SessionKind): (r: seq<Session>)
    ensures |r| <= |l|
    ensures forall i :: 0 <= i < |r| ==> r[i] in l && r[i].kind == k
    ensures forall i :: 0 <= i < |l| && l[i].kind == k ==> l[i] in r
  {
    if |l| == 0 then []
    else OfKind(l[..|l| - 1], k) + (if l[|l| - 1].kind == k then [l[|l| - 1]] else [])
  }

  /** Filtering by kind keeps the order: the filter of a concatenation is the
      concatenation of the filters. */
  lemma {:induction false} OfKindAppend(a: seq<Session>, b: seq<Session>, k: SessionKind)
    ensures OfKind(a + b, k) == OfKind(a, k) + OfKind(b, k)
    decreases |b|
  {
    if |b| == 0 {
      assert a + b == a;
    } else {
      assert (a + b)[..|a + b| - 1] == a + b[..|b| - 1];
      OfKindAppend(a, b[..|b| - 1], k);
    }
  }

  /** The three kind filters split the history: every session is in exactly one. */
  lemma {:induction false} KindsPartition(l: seq<Session>)
    ensures |OfKind(l, FFmpegKind)| + |OfKind(l, FFprobeKind)| + |OfKind(l, MediaInformationKind)| == |l|
  {
    if |l| > 0 {
      KindsPartition(l[..|l| - 1]);
    }
  }

  /** The sessions currently in a state, in history order. */
  function InState(l: seq<Session>, st: SessionState): (r: seq<Session>)
    reads l
    ensures |r| <= |l|
    ensures forall i :: 0 <= i < |r| ==> r[i] in l && r[i].state == st
    ensures forall i :: 0 <= i < |l| && l[i].state == st ==> l[i] in r
  {
    if |l| == 0 then []
    else InState(l[..|l| - 1], st) + (if l[|l| - 1].state == st then [l[|l| - 1]] else [])
  }

  /** Filtering by state keeps the order as well. */
  lemma {:induction false} InStateAppend(a: seq<Session>, b: seq<Session>, st: SessionState)
    ensures InState(a + b, st) == InState(a, st) + InState(b, st)
    decreases |b|
  {
    if |b| == 0 {
      assert a + b == a;
    } else {
      assert (a + b)[..|a + b| - 1] == a + b[..|b| - 1];
      InStateAppend(a, b[..|b| - 1], st);
    }
  }

  /** The element `getLastSession` of the C++ binding returns: the front of the
      list, which is the oldest session kept. */
  function Front(l: seq<Session>): Session
    requires |l| > 0
  {
    l[0]
  }

  /** As soon as two sessions with different ids are kept, the front of the
      list is not the session created last. */
  lemma FrontIsNotNewest(l: seq<Session>)
    requires |l| >= 2 && l[0].sessionId != l[|l| - 1].sessionId
    ensures Front(l) != l[|l| - 1]
  {
  }

  /** A list of distinct ids and a map indexing exactly that list. */
  ghost predicate Indexed(l: seq<Session>, m: map<int, Session>)
  {
    && (forall i, j :: 0 <= i < j < |l| ==> l[i].sessionId != l[j].sessionId)
    && m.Keys == Ids(l)
    && (forall i :: 0 <= i < |l| ==> m[l[i].sessionId] == l[i])
  }

  /** Removing the front session from the list and its id from the map keeps them indexed. */
  lemma PopFrontIndexed(l: seq<Session>, m: map<int, Session>)
    requires Indexed(l, m) && |l| > 0
    ensures Indexed(l[1..], m - {l[0].sessionId})
  {
    var first := l[0];
    assert forall i :: 1 <= i < |l| ==> l[i].sessionId != first.sessionId;
    forall id | id in Ids(l) - {first.sessionId}
      ensures id in Ids(l[1..])
    {
      var i :| 0 <= i < |l| && l[i].sessionId == id;
      assert l[1..][i - 1] == l[i];
    }
    assert Ids(l[1..]) == Ids(l) - {first.sessionId};
  }

  /** Appending a session with a new id, and mapping its id to it, keeps them indexed. */
  lemma PushBackIndexed(l: seq<Session>, m: map<int, Session>, s: Session)
    requires Indexed(l, m) && s.sessionId !in m
    ensures Indexed(l + [s], m[s.sessionId := s])
  {
    assert forall i :: 0 <= i < |l| ==> (l + [s])[i] == l[i];
    assert (l + [s])[|l|] == s;
    assert Ids(l + [s]) == Ids(l) + {s.sessionId};
  }

  class SessionHistory {
    var sessionHistorySize: int
    /** `sessionHistoryList`, oldest first. */
    var list: seq<Session>
    /** `sessionHistoryMap`. */
    var index: map<int, Session>

    /** The list holds distinct ids and the map indexes exactly the list. */
    ghost predicate Consistent()
      reads this
    {
      Indexed(list, index)
    }

    ghost predicate Valid()
      reads this
    {
      Consistent() && 1 <= sessionHistorySize < Slots.SessionMapSize && |list| <= sessionHistorySize
    }

    /** The history as initialised: empty, with room for 10 sessions. */
    constructor()
      ensures Valid() && sessionHistorySize == DefaultSessionHistorySize
      ensures list == [] && index == map[]
    {
      sessionHistorySize := DefaultSessionHistorySize;
      list := [];
      index := map[];
    }

    /** `deleteExpiredSessions`: drops sessions from the front, from both the
        list and the map, until the bound holds. */
    method DeleteExpiredSessions()
      requires Consistent() && 1 <= sessionHistorySize < Slots.SessionMapSize
      modifies this
      ensures Valid()
      ensures sessionHistorySize == old(sessionHistorySize)
      ensures list == Window(old(list), sessionHistorySize)
      ensures index.Keys <= old(index.Keys)
    {
      ghost var original := list;
      ghost var k := 0;
      while |list| > sessionHistorySize
        invariant Indexed(list, index)
        invariant sessionHistorySize == old(sessionHistorySize)
        invariant 0 <= k <= |original| && list == original[k..]
        invariant k > 0 ==> |list| >= sessionHistorySize
        invariant index.Keys <= old(index.Keys)
        decreases |list|
      {
        PopFrontIndexed(list, index);
        index := index - {list[0].sessionId};
        list := list[1..];
        k := k + 1;
      }
    }

    /** `addSessionToSessionHistory`: a session whose id is already kept changes
        nothing; any other is appended and the oldest are evicted. */
    method Add(session: Session)
      requires Valid()
      modifies this
      ensures Valid()
      ensures sessionHistorySize == old(sessionHistorySize)
      ensures old(session.sessionId in index) ==> list == old(list) && index == old(index)
      ensures !old(session.sessionId in index) ==> list == Window(old(list) + [session], sessionHistorySize)
      ensures !old(session.sessionId in index) ==> list[|list| - 1] == session && index[session.sessionId] == session
      ensures index.Keys <= old(index.Keys) + {session.sessionId}
    {
      if session.sessionId !in index {
        PushBackIndexed(list, index, session);
        index := index[session.sessionId := session];
        list := list + [session];
        DeleteExpiredSessions();
        WindowKeepsNewest(old(list), session, sessionHistorySize);
      }
    }

    /** `setSessionHistorySize`: throws for 1000 or more, ignores 0 and below,
        and otherwise sets the bound and evicts down to it. */
    method SetSessionHistorySize(n: int) returns (outcome: Outcome<string>)
      requires Valid()
      modifies this
      ensures Valid()
      ensures n >= Slots.SessionMapSize ==> outcome.Fail?
      ensures outcome.Fail? || n <= 0 ==> sessionHistorySize == old(sessionHistorySize) && list == old(list) && index == old(index)
      ensures 0 < n < Slots.SessionMapSize ==> outcome.Pass? && sessionHistorySize == n && list == Window(old(list), n)
      ensures n <= 0 ==> outcome.Pass?
    {
      if n >= Slots.SessionMapSize {
        return Fail("Session history size must not exceed the hard limit!");
      } else if n > 0 {
        sessionHistorySize := n;
        DeleteExpiredSessions();
      }
      return Pass;
    }

    /** `getSession`: the kept session with this id, if any. */
    method GetSession(id: int) returns (s: Option<Session>)
      requires Valid()
      ensures s.Some? <==> id in Ids(list)
      ensures s.Some? ==> s.value in list && s.value.sessionId == id
    {
      if id in index {
        var i :| 0 <= i < |list| && list[i].sessionId == id;
        s := Some(index[id]);
        assert s.value == list[i];
      } else {
        s := None;
      }
    }

    /** `getLastSession` as the Android binding and the documentation define it:
        the session created last, or none for an empty history. */
    method GetLastSession() returns (s: Option<Session>)
      ensures |list| == 0 ==> s.None?
      ensures |list| > 0 ==> s == Some(list[|list| - 1])
    {
      if |list| > 0 {
        s := Some(list[|list| - 1]);
      } else {
        s := None;
      }
    }

    /** `getLastSession` as the C++ binding writes it: the front of the list
        (undefined on an empty list, hence the precondition). */
    method GetLastSessionAsWritten() returns (s: Session)
      requires |list| > 0
      ensures s == Front(list)
    {
      s := list[0];
    }

    /** `getLastCompletedSession`: scanning from the newest end, the first
        session in state Completed, or none. */
    method GetLastCompletedSession() returns (s: Option<Session>)
      ensures s.None? <==> forall i :: 0 <= i < |list| ==> list[i].state != Completed
      ensures s.Some? ==> exists i :: 0 <= i < |list| && list[i] == s.value && s.value.state == Completed
                                      && forall j :: i < j < |list| ==> list[j].state != Completed
    {
      var i := |list|;
      while i > 0
        invariant 0 <= i <= |list|
        invariant forall j :: i <= j < |list| ==> list[j].state != Completed
      {
        i := i - 1;
        if list[i].state == Completed {
          return Some(list[i]);
        }
      }
      return None;
    }

    /** `getSessions`: a copy of the list, oldest first. */
    method GetSessions() returns (r: seq<Session>)
      ensures r == list
    {
      r := list;
    }

    /** `clearSessions`: empties both the list and the map; the bound stays. */
    method ClearSessions()
      requires Valid()
      modifies this
      ensures Valid() && list == [] && index == map[]
      ensures sessionHistorySize == old(sessionHistorySize)
    {
      list := [];
      index := map[];
    }

    /** `getFFmpegSessions`, `getFFprobeSessions`, `getMediaInformationSessions`:
        the kept sessions of one kind, in history order. */
    method GetSessionsOfKind(k: SessionKind) returns (r: seq<Session>)
      ensures r == OfKind(list, k)
    {
      r := [];
      var i := 0;
      while i < |list|
        invariant 0 <= i <= |list|
        invariant r == OfKind(list[..i], k)
      {
        assert list[..i + 1][..i] == list[..i];
        if list[i].kind == k {
          r := r + [list[i]];
        }
        i := i + 1;
      }
      assert list[..i] == list;
    }

    /** `getSessionsByState`: the kept sessions currently in a state, in history order. */
    method GetSessionsByState(st: SessionState) returns (r: seq<Session>)
      ensures r == InState(list, st)
    {
      r := [];
      var i := 0;
      while i < |list|
        invariant 0 <= i <= |list|
        invariant r == InState(list[..i], st)
      {
        assert list[..i + 1][..i] == list[..i];
        if list[i].state == st {
          r := r + [list[i]];
        }
        i := i + 1;
      }
      assert list[..i] == list;
    }
  }
}
