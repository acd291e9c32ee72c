/** The per-user sliding-window limiter (backend/internal/handler/security.go): slices compacted in
    place, and what the window guarantees over whole runs.  Times are seconds. */
module Limiter {

  type UserId = nat

  const PRUNE_FROM := 4096

  // A Go slice: a length over a backing array that other code may not share.
  datatype Slice = Slice(data: array<int>, len: nat)

  // ---------------------------------------------------------------- specification

  // The hits still inside the window, in order.
  function Recent(times: seq<int>, now: int, window: int): seq<int> {
    if times == [] then []
    else
      var rest, last := Recent(times[..|times| - 1], now, window), times[|times| - 1];
      if now - last < window then rest + [last] else rest
  }

  function TimesOf(hits: map<UserId, seq<int>>, user: UserId): seq<int> { if user in hits then hits[user] else [] }

  // The table after a call of allow, and its answer.
  function AllowStep(hits: map<UserId, seq<int>>, user: UserId, now: int, window: int, allowed: int)
    : (map<UserId, seq<int>>, bool)
  {
    var recent := Recent(TimesOf(hits, user), now, window);
    if |recent| >= allowed then (hits[user := recent], false) else (hits[user := recent + [now]], true)
  }

  function PruneStep(hits: map<UserId, seq<int>>, now: int, window: int): map<UserId, seq<int>> {
    if |hits| < PRUNE_FROM then hits
    else map user | user in hits && Recent(hits[user], now, window) != [] :: Recent(hits[user], now, window)
  }

  // ---------------------------------------------------------------- the code

  lemma RecentAppend(times: seq<int>, t: int, now: int, window: int)
    ensures Recent(times + [t], now, window) ==
            Recent(times, now, window) + if now - t < window then [t] else []
  {
  }

  // Moves the hits still inside the window to the front of the backing array, in their order.
  method Compact(data: array<int>, len: nat, now: int, window: int) returns (n: nat)
    requires len <= data.Length
    modifies data
    ensures n <= len && data[..n] == Recent(old(data[..len]), now, window)
  {
    n := 0;
    ghost var before := data[..len];
    for i := 0 to len
      invariant n <= i
      invariant data[..n] == Recent(before[..i], now, window)
      invariant forall k | i <= k < len :: data[k] == before[k]
    {
      assert before[..i + 1] == before[..i] + [before[i]];
      if now - data[i] < window {
        data[n] := data[i];
        n := n + 1;
      }
    }
    assert before[..len] == before;
  }

  // append(s, t): in place while the backing array has room, else into a larger copy.
  method Append(s: Slice, t: int) returns (r: Slice)
    requires s.len <= s.data.Length
    modifies s.data
    ensures r.len <= r.data.Length && r.data[..r.len] == old(s.data[..s.len]) + [t]
    ensures r.data == s.data || fresh(r.data)
  {
    if s.len < s.data.Length {
      s.data[s.len] := t;
      r := Slice(s.data, s.len + 1);
    } else {
      var bigger := new int[2 * s.len + 1];
      for k := 0 to s.len
        invariant forall j | 0 <= j < k :: bigger[j] == s.data[j]
        invariant s.data[..s.len] == old(s.data[..s.len])
      {
        bigger[k] := s.data[k];
      }
      bigger[s.len] := t;
      r := Slice(bigger, s.len + 1);
    }
  }

  class UserLimiter {
    const window: int
    const allowed: int
    var hits: map<UserId, Slice>
    ghost var view: map<UserId, seq<int>>       // what the slices hold
    ghost var owner: map<array<int>, UserId>    // no two users share a backing array

    ghost predicate Holds(u: UserId)
      requires u in hits
      reads this, hits[u].data
    {
      && hits[u].len <= hits[u].data.Length
      && u in view && view[u] == hits[u].data[..hits[u].len]
      && hits[u].data in owner && owner[hits[u].data] == u
    }

    ghost predicate Valid()
      reads this, set u | u in hits :: hits[u].data
    {
      hits.Keys == view.Keys && forall u | u in hits :: Holds(u)
    }

    constructor (allowed: int, window: int)
      ensures Valid() && view == map[] && this.allowed == allowed && this.window == window && owner == map[]
    {
      this.allowed, this.window, hits := allowed, window, map[];
      view, owner := map[], map[];
    }

    // One user's slice is compacted in place; nobody else's is touched.
    method CompactUser(uid: UserId, now: int) returns (n: nat)
      requires Valid() && uid in hits
      modifies this`hits, this`view, hits[uid].data
      ensures Valid() && hits.Keys == old(hits).Keys && hits[uid].data == old(hits)[uid].data
      ensures view == old(view)[uid := Recent(old(view)[uid], now, window)] && n == |view[uid]|
    {
      var s := hits[uid];
      n := Compact(s.data, s.len, now, window);
      hits := hits[uid := Slice(s.data, n)];
      view := view[uid := s.data[..n]];
      forall u | u in hits
        ensures Holds(u)
      {
      }
    }

    // The slot of a user without hits so far holds an empty slice.
    method Open(uid: UserId)
      requires Valid() && uid !in hits
      modifies this`hits, this`view, this`owner
      ensures Valid() && uid in hits && view == old(view)[uid := []]
      ensures fresh(owner.Keys - old(owner).Keys)
    {
      var empty := new int[0];
      hits := hits[uid := Slice(empty, 0)];
      view := view[uid := []];
      owner := owner[empty := uid];
      forall u | u in hits
        ensures Holds(u)
      {
        if u != uid {
          assert old(Holds(u));
        }
      }
    }

    // The user's array, compacted in place to its recent hits.
    method Refresh(uid: UserId, now: int) returns (n: nat)
      requires Valid()
      modifies this`hits, this`view, this`owner, owner.Keys
      ensures Valid() && fresh(owner.Keys - old(owner).Keys) && uid in hits
      ensures view == old(view)[uid := Recent(TimesOf(old(view), uid), now, window)] && n == |view[uid]|
    {
      if uid !in hits {
        Open(uid);
        n := CompactUser(uid, now);
      } else {
        n := CompactUser(uid, now);
      }
    }

    method Record(uid: UserId, now: int)
      requires Valid() && uid in hits
      modifies this`hits, this`view, this`owner, hits[uid].data
      ensures Valid() && view == old(view)[uid := old(view)[uid] + [now]]
      ensures fresh(owner.Keys - old(owner).Keys)
    {
      var s := hits[uid];
      var r := Append(s, now);
      hits := hits[uid := r];
      view := view[uid := view[uid] + [now]];
      owner := owner[r.data := uid];
      forall u | u in hits
        ensures Holds(u)
      {
        if u != uid {
        }
      }
    }

    /** One user's hits are compacted in place and the call is recorded if it is accepted. */
    method Allow(uid: UserId, now: int) returns (ok: bool)
      requires Valid()
      modifies this`hits, this`view, this`owner, owner.Keys
      ensures Valid() && fresh(owner.Keys - old(owner).Keys)
      ensures (view, ok) == AllowStep(old(view), uid, now, window, allowed)
    {
      var n := Refresh(uid, now);
      AllowInSteps(old(view), uid, now, window, allowed);
      if n < allowed {
        assert Holds(uid);
        Record(uid, now);
      }
      ok := n < allowed;
    }

    method Delete(uid: UserId)
      requires Valid() && uid in hits
      modifies this`hits, this`view
      ensures Valid() && hits == old(hits) - {uid} && view == old(view) - {uid}
    {
      hits := hits - {uid};
      view := view - {uid};
    }

    /** Stale users leave a large table; every other user keeps exactly the recent hits. */
    method Prune(now: int)
      requires Valid()
      modifies this`hits, this`view, owner.Keys
      ensures Valid() && view == PruneStep(old(view), now, window)
    {
      if |hits| < PRUNE_FROM {
        return;
      }
      var rest := hits.Keys;
      PrunedAll(view, now, window);
      while rest != {}
        invariant Valid() && rest <= hits.Keys
        invariant view == PrunedBut(old(view), rest, now, window)
        decreases rest
      {
        var uid :| uid in rest;
        PrunedStep(old(view), rest, uid, now, window);
        var n := CompactUser(uid, now);
        if n == 0 {
          Delete(uid);
        }
        rest := rest - {uid};
      }
    }
  }

  // The table with every user but some pruned.
  function PrunedBut(hits: map<UserId, seq<int>>, rest: set<UserId>, now: int, window: int): map<UserId, seq<int>> {
    map user | user in hits && (user in rest || Recent(hits[user], now, window) != []) ::
      if user in rest then hits[user] else Recent(hits[user], now, window)
  }

  lemma AllowInSteps(hits: map<UserId, seq<int>>, user: UserId, now: int, window: int, allowed: int)
    ensures
      var recent := Recent(TimesOf(hits, user), now, window);
      AllowStep(hits, user, now, window, allowed) ==
      if |recent| < allowed then (hits[user := recent][user := recent + [now]], true) else (hits[user := recent], false)
  {
    var recent := Recent(TimesOf(hits, user), now, window);
    assert hits[user := recent][user := recent + [now]] == hits[user := recent + [now]];
  }

  lemma PrunedAll(hits: map<UserId, seq<int>>, now: int, window: int)
    requires |hits| >= PRUNE_FROM
    ensures PrunedBut(hits, {}, now, window) == PruneStep(hits, now, window)
  {
  }

  lemma PrunedStep(hits: map<UserId, seq<int>>, rest: set<UserId>, user: UserId, now: int, window: int)
    requires user in rest && user in hits
    ensures
      var recent, some := Recent(hits[user], now, window), PrunedBut(hits, rest, now, window);
      && some[user] == hits[user]
      && PrunedBut(hits, rest - {user}, now, window) ==
         if recent == [] then some[user := recent] - {user} else some[user := recent]
  {
  }

  // ---------------------------------------------------------------- runs

  datatype Op = Allow(user: UserId, now: int) | Prune(now: int)

  // A table, and every call accepted so far with its time.
  datatype Log = Log(hits: map<UserId, seq<int>>, accepted: seq<(UserId, int)>)

  const START := Log(map[], [])

  function Apply(log: Log, op: Op, window: int, allowed: int): Log {
    match op
    case Allow(user, now) =>
      var (hits, ok) := AllowStep(log.hits, user, now, window, allowed);
      Log(hits, if ok then log.accepted + [(user, now)] else log.accepted)
    case Prune(now) => log.(hits := PruneStep(log.hits, now, window))
  }

  function Run(ops: seq<Op>, window: int, allowed: int): Log {
    if ops == [] then START
    else Apply(Run(ops[..|ops| - 1], window, allowed), ops[|ops| - 1], window, allowed)
  }

  // The answer to a call after a run.
  predicate Answer(ops: seq<Op>, user: UserId, now: int, window: int, allowed: int) {
    AllowStep(Run(ops, window, allowed).hits, user, now, window, allowed).1
  }

  // The clock never goes back.
  predicate Steady(ops: seq<Op>) { forall i, j | 0 <= i < j < |ops| :: ops[i].now <= ops[j].now }

  // The times at which calls of one user were accepted.
  function Accepted(log: seq<(UserId, int)>, user: UserId): seq<int> {
    if log == [] then []
    else
      var rest, last := Accepted(log[..|log| - 1], user), log[|log| - 1];
      if last.0 == user then rest + [last.1] else rest
  }

  lemma {:induction false} RecentOfRecent(times: seq<int>, since: int, now: int, window: int)
    requires since <= now
    ensures Recent(Recent(times, since, window), now, window) == Recent(times, now, window)
  {
    if times != [] {
      var n := |times| - 1;
      RecentOfRecent(times[..n], since, now, window);
    }
  }

  lemma RecentLater(a: seq<int>, b: seq<int>, since: int, now: int, window: int)
    requires since <= now && Recent(a, since, window) == Recent(b, since, window)
    ensures Recent(a, now, window) == Recent(b, now, window)
  {
    RecentOfRecent(a, since, now, window);
    RecentOfRecent(b, since, now, window);
  }

  // The table has what the window needs of the history of a user's accepted calls.
  predicate Faithful(log: Log, u: UserId, now: int, window: int) {
    Recent(TimesOf(log.hits, u), now, window) == Recent(Accepted(log.accepted, u), now, window)
  }

  lemma AllowFaithful(log: Log, user: UserId, now: int, window: int, allowed: int, u: UserId)
    requires Faithful(log, u, now, window)
    ensures Faithful(Apply(log, Allow(user, now), window, allowed), u, now, window)
  {
    if user == u {
      var recent := Recent(TimesOf(log.hits, u), now, window);
      RecentOfRecent(TimesOf(log.hits, u), now, now, window);
      RecentAppend(recent, now, now, window);
      RecentAppend(Accepted(log.accepted, u), now, now, window);
    } else {
      assert Accepted(log.accepted, u) + [] == Accepted(log.accepted, u);
    }
  }

  lemma PruneFaithful(log: Log, now: int, window: int, allowed: int, u: UserId)
    requires Faithful(log, u, now, window)
    ensures Faithful(Apply(log, Prune(now), window, allowed), u, now, window)
  {
    RecentOfRecent(TimesOf(log.hits, u), now, now, window);
  }

  lemma {:induction false} RunFaithful(ops: seq<Op>, window: int, allowed: int, now: int, u: UserId)
    requires Steady(ops) && forall i | 0 <= i < |ops| :: ops[i].now <= now
    ensures Faithful(Run(ops, window, allowed), u, now, window)
  {
    if ops != [] {
      var n := |ops| - 1;
      RunFaithful(ops[..n], window, allowed, ops[n].now, u);
      match ops[n] {
        case Allow(user, at) => AllowFaithful(Run(ops[..n], window, allowed), user, at, window, allowed, u);
        case Prune(at) => PruneFaithful(Run(ops[..n], window, allowed), at, window, allowed, u);
      }
      var log := Run(ops, window, allowed);
      RecentLater(TimesOf(log.hits, u), Accepted(log.accepted, u), ops[n].now, now, window);
    }
  }

  /** On a clock that never goes back, a call is refused exactly when as many calls of that user as
      allowed were accepted within the window before it, whatever was compacted or pruned since. */
  lemma RefusedIff(ops: seq<Op>, user: UserId, now: int, window: int, allowed: int)
    requires Steady(ops + [Allow(user, now)])
    ensures !Answer(ops, user, now, window, allowed) <==>
            |Recent(Accepted(Run(ops, window, allowed).accepted, user), now, window)| >= allowed
  {
    var all := ops + [Allow(user, now)];
    forall i | 0 <= i < |ops|
      ensures ops[i].now <= now
    {
      assert all[i] == ops[i] && all[|ops|].now == now;
    }
    SteadyPrefix(ops, Allow(user, now));
    RunFaithful(ops, window, allowed, now, user);
  }

  lemma SteadyPrefix(ops: seq<Op>, op: Op)
    requires Steady(ops + [op])
    ensures Steady(ops)
  {
    var all := ops + [op];
    assert forall i | 0 <= i < |ops| :: all[i] == ops[i];
  }

  function NoPrunes(ops: seq<Op>): seq<Op> {
    if ops == [] then []
    else
      var rest, last := NoPrunes(ops[..|ops| - 1]), ops[|ops| - 1];
      if last.Prune? then rest else rest + [last]
  }

  lemma {:induction false} NoPrunesSteady(ops: seq<Op>)
    requires Steady(ops)
    ensures Steady(NoPrunes(ops)) && forall op | op in NoPrunes(ops) :: op in ops
  {
    if ops != [] {
      var n := |ops| - 1;
      NoPrunesSteady(ops[..n]);
      assert forall op | op in ops[..n] :: op.now <= ops[n].now;
    }
  }

  /** Pruning never changes an answer: the same calls without any pruning are accepted and refused
      alike. */
  lemma {:induction false} PruneChangesNothing(ops: seq<Op>, window: int, allowed: int)
    requires Steady(ops)
    ensures Run(NoPrunes(ops), window, allowed).accepted == Run(ops, window, allowed).accepted
  {
    if ops != [] {
      var n := |ops| - 1;
      PruneChangesNothing(ops[..n], window, allowed);
      if ops[n].Allow? {
        var kept := NoPrunes(ops[..n]);
        NoPrunesSteady(ops);
        RefusedIff(ops[..n], ops[n].user, ops[n].now, window, allowed);
        RefusedIff(kept, ops[n].user, ops[n].now, window, allowed);
      }
    }
  }

  // The times in the half-open interval of one window's length from x on.
  function Within(times: seq<int>, x: int, window: int): nat {
    if times == [] then 0
    else
      var last := times[|times| - 1];
      Within(times[..|times| - 1], x, window) + if x <= last < x + window then 1 else 0
  }

  lemma {:induction false} WithinIsRecent(times: seq<int>, x: int, now: int, window: int)
    requires x <= now < x + window
    ensures Within(times, x, window) <= |Recent(times, now, window)|
  {
    if times != [] {
      WithinIsRecent(times[..|times| - 1], x, now, window);
    }
  }

  // One more accepted call keeps the bound, since it found fewer than allowed in its window.
  lemma WithinAppend(times: seq<int>, now: int, x: int, window: int, allowed: nat)
    requires Within(times, x, window) <= allowed && |Recent(times, now, window)| < allowed
    ensures Within(times + [now], x, window) <= allowed
  {
    if x <= now < x + window {
      WithinIsRecent(times, x, now, window);
    }
  }

  /** On a clock that never goes back, no interval of the window's length holds more accepted calls of
      one user than allowed. */
  lemma {:induction false} WindowBound(ops: seq<Op>, user: UserId, x: int, window: int, allowed: nat)
    requires Steady(ops)
    ensures Within(Accepted(Run(ops, window, allowed).accepted, user), x, window) <= allowed
  {
    if ops != [] {
      var n := |ops| - 1;
      WindowBound(ops[..n], user, x, window, allowed);
      if ops[n].Allow? {
        var before, now := Run(ops[..n], window, allowed), ops[n].now;
        if ops[n].user == user && Answer(ops[..n], user, now, window, allowed) {
          RefusedIff(ops[..n], user, now, window, allowed);
          WithinAppend(Accepted(before.accepted, user), now, x, window, allowed);
        }
      }
    }
  }
}
