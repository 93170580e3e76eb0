/** metrics.service.ts: the active-user gauge over an evicting map agrees with the full request history. */
module Metrics {
  import opened Common

  const ACTIVE_WINDOW_MS: int := 15 * 60 * 1000

  /** What both the prune timer and the scrape leave of the map. */
  function Evict(lastSeen: map<User, int>, cutoff: int): map<User, int> {
    map u | u in lastSeen && lastSeen[u] >= cutoff :: lastSeen[u]
  }

  class MetricsService {
    var lastSeenByUser: map<User, int>

    constructor ()
      ensures lastSeenByUser == map[]
    {
      lastSeenByUser := map[];
    }

    method RecordAuthenticatedUser(user: User, now: int)
      modifies this
      ensures lastSeenByUser == old(lastSeenByUser)[user := now]
    {
      lastSeenByUser := lastSeenByUser[user := now];
    }

    /** The loop shared by the prune timer and the scrape. */
    method Prune(now: int)
      modifies this
      ensures lastSeenByUser == Evict(old(lastSeenByUser), now - ACTIVE_WINDOW_MS)
    {
      var cutoff := now - ACTIVE_WINDOW_MS;
      var before := lastSeenByUser;
      var todo := before.Keys;
      while todo != {}
        invariant todo <= before.Keys
        invariant forall u :: u in lastSeenByUser <==> u in before && (u in todo || before[u] >= cutoff)
        invariant forall u :: u in lastSeenByUser ==> lastSeenByUser[u] == before[u]
        decreases |todo|
      {
        var u :| u in todo;
        todo := todo - {u};
        if before[u] < cutoff {
          lastSeenByUser := lastSeenByUser - {u};
        }
      }
    }

    method CollectActiveUsers(now: int) returns (gauge: nat)
      modifies this
      ensures lastSeenByUser == Evict(old(lastSeenByUser), now - ACTIVE_WINDOW_MS)
      ensures gauge == |lastSeenByUser|
    {
      Prune(now);
      gauge := |lastSeenByUser|;
    }
  }

  // ─── Against the full history ─────────────────────────────────────────────

  datatype Event = Seen(user: User, at: int) | Pruned(at: int) | Scraped(at: int)

  /** The map after any interleaving of requests, prunes and scrapes. */
  function MapAfter(events: seq<Event>): map<User, int> {
    if events == [] then map[]
    else
      var earlier := MapAfter(events[..|events| - 1]);
      match events[|events| - 1]
      case Seen(user, at) => earlier[user := at]
      case Pruned(at) => Evict(earlier, at - ACTIVE_WINDOW_MS)
      case Scraped(at) => Evict(earlier, at - ACTIVE_WINDOW_MS)
  }

  /** When a user last made a request, reading every request ever made. */
  function LastRequest(events: seq<Event>, user: User): Option<int> {
    if events == [] then None
    else
      var e := events[|events| - 1];
      if e.Seen? && e.user == user then Some(e.at) else LastRequest(events[..|events| - 1], user)
  }

  predicate NonDecreasing(events: seq<Event>) {
    forall i, j :: 0 <= i < j < |events| ==> events[i].at <= events[j].at
  }

  function Users(events: seq<Event>): set<User> {
    set i | 0 <= i < |events| && events[i].Seen? :: events[i].user
  }

  function ActiveUsers(events: seq<Event>, now: int): set<User> {
    set u | u in Users(events) && LastRequest(events, u).Some? && LastRequest(events, u).value >= now - ACTIVE_WINDOW_MS
  }

  /** The map holds true last requests, and misses only users already outside every later window. */
  lemma {:induction false} MapTracksHistory(events: seq<Event>, now: int, user: User)
    requires NonDecreasing(events) && forall i :: 0 <= i < |events| ==> events[i].at <= now
    ensures user in MapAfter(events) ==> LastRequest(events, user) == Some(MapAfter(events)[user])
    ensures user !in MapAfter(events) ==>
              LastRequest(events, user).None? || LastRequest(events, user).value < now - ACTIVE_WINDOW_MS
  {
    if events != [] {
      MapTracksHistory(events[..|events| - 1], events[|events| - 1].at, user);
    }
  }

  lemma {:induction false} RequestersAreUsers(events: seq<Event>, user: User)
    requires LastRequest(events, user).Some?
    ensures user in Users(events)
  {
    var last := |events| - 1;
    if events[last].Seen? && events[last].user == user {
    } else {
      RequestersAreUsers(events[..last], user);
      var i :| 0 <= i < last && events[..last][i].Seen? && events[..last][i].user == user;
      assert events[i].user == user;
    }
  }

  /**
   Under a clock that never goes back, whatever was evicted and when, the gauge counts exactly the users whose last
   request in the whole history lies within the window.
   */
  lemma GaugeIsExact(events: seq<Event>, now: int)
    requires NonDecreasing(events) && forall i :: 0 <= i < |events| ==> events[i].at <= now
    ensures Evict(MapAfter(events), now - ACTIVE_WINDOW_MS).Keys == ActiveUsers(events, now)
    ensures |Evict(MapAfter(events), now - ACTIVE_WINDOW_MS)| == |ActiveUsers(events, now)|
  {
    var m := Evict(MapAfter(events), now - ACTIVE_WINDOW_MS);
    forall u ensures u in m <==> u in ActiveUsers(events, now) {
      MapTracksHistory(events, now, u);
      if LastRequest(events, u).Some? {
        RequestersAreUsers(events, u);
      }
    }
    assert m.Keys == ActiveUsers(events, now);
  }

  /** A request by this user in the last fifteen minutes. */
  ghost predicate Recent(events: seq<Event>, user: User, now: int) {
    exists i :: 0 <= i < |events| && events[i].Seen? && events[i].user == user && now - events[i].at <= 900_000
  }

  lemma {:induction false} LastIsLatest(events: seq<Event>, user: User, i: nat)
    requires NonDecreasing(events) && i < |events| && events[i].Seen? && events[i].user == user
    ensures LastRequest(events, user).Some? && events[i].at <= LastRequest(events, user).value
  {
    var last := |events| - 1;
    if !(events[last].Seen? && events[last].user == user) {
      LastIsLatest(events[..last], user, i);
    }
  }

  lemma {:induction false} LastIsARequest(events: seq<Event>, user: User)
    requires LastRequest(events, user).Some?
    ensures exists i :: 0 <= i < |events| && events[i].Seen? && events[i].user == user && Some(events[i].at) == LastRequest(events, user)
  {
    var last := |events| - 1;
    if !(events[last].Seen? && events[last].user == user) {
      LastIsARequest(events[..last], user);
      var i :| 0 <= i < last && events[..last][i].Seen? && events[..last][i].user == user
        && Some(events[..last][i].at) == LastRequest(events[..last], user);
      assert events[i] == events[..last][i];
    }
  }

  /** The users a scrape counts are those with a request in the last fifteen minutes. */
  lemma CountedIffRecent(events: seq<Event>, now: int, user: User)
    requires NonDecreasing(events) && forall i :: 0 <= i < |events| ==> events[i].at <= now
    ensures user in Evict(MapAfter(events), now - ACTIVE_WINDOW_MS) <==> Recent(events, user, now)
  {
    MapTracksHistory(events, now, user);
    if Recent(events, user, now) {
      var i: nat :| i < |events| && events[i].Seen? && events[i].user == user && now - events[i].at <= 900_000;
      LastIsLatest(events, user, i);
    }
    if LastRequest(events, user).Some? {
      LastIsARequest(events, user);
    }
  }
}
