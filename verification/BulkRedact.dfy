/** The bulk redactor's search: a paged walk back through a room's history that stops early,
    skips repeats and picks one sender's messages in a time window. */
module BulkRedact {
  import opened Prelude

  /** An event; id NO_ID is a missing one. */
  datatype Event = Event(id: Id, ts: int, sender: Id, kind: string, redacted: bool)

  datatype Target = Target(id: Id, ts: int, kind: string)

  /** What the search looks for. */
  datatype Query = Query(sender: Id, since: int, until: int)

  datatype Reply = Refused(status: int) | Page(chunk: seq<Event>, end: Option<nat>)

  /** The homeserver's pages, by token; 0 stands for no token, the newest page. */
  type Server = seq<Reply>

  function Fetch(sv: Server, token: nat): Reply {
    if token < |sv| then sv[token] else Page([], None)
  }

  datatype Result = Failed(status: int) | Collected(targets: seq<Target>, pages: nat)

  // ---- What is picked --------------------------------------------------------------

  predicate Matches(q: Query, e: Event) {
    q.since <= e.ts <= q.until && e.sender == q.sender && !e.redacted && e.id != NO_ID
  }

  function TargetOf(e: Event): Target { Target(e.id, e.ts, e.kind) }

  function Ids(ts: seq<Target>): set<Id> { set t | t in ts :: t.id }

  /** The matching events in order, each id once. */
  function Filter(q: Query, es: seq<Event>): seq<Target> {
    if es == [] then []
    else
      var ts, e := Filter(q, es[..|es| - 1]), es[|es| - 1];
      if Matches(q, e) && e.id !in Ids(ts) then ts + [TargetOf(e)] else ts
  }

  /** Event `i` is the first of its id to match. */
  predicate First(q: Query, es: seq<Event>, i: nat) {
    && i < |es| && Matches(q, es[i])
    && forall j :: 0 <= j < i ==> !(Matches(q, es[j]) && es[j].id == es[i].id)
  }

  lemma AddsId(ts: seq<Target>, t: Target)
    ensures Ids(ts + [t]) == Ids(ts) + {t.id}
  {
    assert t in ts + [t];
    assert forall x :: x in ts ==> x in ts + [t];
  }

  /** An id is picked exactly when something of that id matches. */
  lemma {:induction false} FilterHas(q: Query, es: seq<Event>, id: Id)
    ensures id in Ids(Filter(q, es)) <==> exists i :: 0 <= i < |es| && Matches(q, es[i]) && es[i].id == id
  {
    if es != [] {
      var front, e, ts := es[..|es| - 1], es[|es| - 1], Filter(q, es[..|es| - 1]);
      FilterHas(q, front, id);
      if Matches(q, e) && e.id !in Ids(ts) {
        AddsId(ts, TargetOf(e));
      }
    }
  }

  lemma {:induction false} FilterDistinct(q: Query, es: seq<Event>)
    ensures forall i, j :: 0 <= i < j < |Filter(q, es)| ==> Filter(q, es)[i].id != Filter(q, es)[j].id
  {
    if es != [] {
      FilterDistinct(q, es[..|es| - 1]);
    }
  }

  lemma FirstStays(q: Query, es: seq<Event>, n: nat, i: nat)
    requires i < n <= |es|
    ensures First(q, es, i) <==> First(q, es[..n], i)
  {
  }

  /** The picked targets are the first matches of their ids ... */
  lemma {:induction false} FilterIsFirst(q: Query, es: seq<Event>, t: Target) returns (i: nat)
    requires t in Filter(q, es)
    ensures First(q, es, i) && TargetOf(es[i]) == t
  {
    var front, n := es[..|es| - 1], |es| - 1;
    if t in Filter(q, front) {
      i := FilterIsFirst(q, front, t);
      FirstStays(q, es, n, i);
    } else {
      i := n;
      FilterHas(q, front, es[n].id);
    }
  }

  /** ... and all of them. */
  lemma {:induction false} FirstIsPicked(q: Query, es: seq<Event>, i: nat)
    requires First(q, es, i)
    ensures TargetOf(es[i]) in Filter(q, es)
    decreases |es|
  {
    var front, n := es[..|es| - 1], |es| - 1;
    if i < n {
      FirstStays(q, es, n, i);
      FirstIsPicked(q, front, i);
    } else {
      FilterHas(q, front, es[n].id);
    }
  }

  /** What is looked for: a message of the sender asked for, inside the window with both its ends,
      not redacted, with an id. */
  predicate Wanted(q: Query, e: Event) {
    e.sender == q.sender && q.since <= e.ts && e.ts <= q.until && !e.redacted && e.id != 0
  }

  /** Event `i` is wanted, and the first of its id that is. */
  predicate FirstWanted(q: Query, es: seq<Event>, i: nat) {
    i < |es| && Wanted(q, es[i]) && forall j :: 0 <= j < i ==> !(Wanted(q, es[j]) && es[j].id == es[i].id)
  }

  /** The targets are exactly the first wanted events of their ids, by id, time and type. */
  lemma PickedIff(q: Query, es: seq<Event>, t: Target)
    ensures t in Filter(q, es)
       <==> exists i: nat :: FirstWanted(q, es, i) && t == Target(es[i].id, es[i].ts, es[i].kind)
  {
    if t in Filter(q, es) {
      var i := FilterIsFirst(q, es, t);
      assert FirstWanted(q, es, i);
    }
    if i: nat :| FirstWanted(q, es, i) && t == Target(es[i].id, es[i].ts, es[i].kind) {
      assert forall j :: 0 <= j < i ==> Matches(q, es[j]) == Wanted(q, es[j]);
      FirstIsPicked(q, es, i);
    }
  }

  // ---- What is walked --------------------------------------------------------------

  predicate AnyOld(q: Query, chunk: seq<Event>) {
    exists i :: 0 <= i < |chunk| && chunk[i].ts < q.since
  }

  datatype Walk = Broken(status: int) | Walked(events: seq<Event>, pages: nat)

  /** The pages read from `token` on with `left` of them allowed, and what they hold. */
  function WalkFrom(sv: Server, q: Query, token: nat, left: nat): Walk
    decreases left
  {
    if left == 0 then Walked([], 0)
    else
      match Fetch(sv, token)
      case Refused(status) => Broken(status)
      case Page(chunk, end) =>
        if chunk == [] then Walked([], 0)
        else if end.None? || AnyOld(q, chunk) then Walked(chunk, 1)
        else
          Continued(chunk, 1, WalkFrom(sv, q, end.value, left - 1))
  }

  /** A walk that has already read `walked` over `pages` pages. */
  function Continued(walked: seq<Event>, pages: nat, w: Walk): Walk {
    match w
    case Broken(status) => Broken(status)
    case Walked(events, more) => Walked(walked + events, pages + more)
  }

  function Outcome(q: Query, w: Walk): Result {
    match w
    case Broken(status) => Failed(status)
    case Walked(events, pages) => Collected(Filter(q, events), pages)
  }

  // ---- When the walk is enough -----------------------------------------------------

  function Concat(pages: seq<seq<Event>>): seq<Event> {
    if pages == [] then [] else pages[0] + Concat(pages[1..])
  }

  /** The server hands out `pages` in turn, each naming the next, the last naming none or
      an empty one. */
  predicate Serves(sv: Server, pages: seq<seq<Event>>) {
    && |sv| == |pages|
    && forall i :: 0 <= i < |pages| ==>
      && pages[i] != [] && sv[i].Page? && sv[i].chunk == pages[i]
      && (sv[i].end == Some(i + 1) || (sv[i].end == None && i == |pages| - 1))
  }

  /** Event `j` matches, after an event `i` too old for the window and with no match of its
      id up to there. */
  predicate LaterMatch(q: Query, es: seq<Event>, i: nat, j: nat) {
    && i < j < |es| && es[i].ts < q.since && Matches(q, es[j])
    && !exists k :: 0 <= k <= i && Matches(q, es[k]) && es[k].id == es[j].id
  }

  /** Past an event too old for the window, nothing matches that was not picked by then. */
  ghost predicate NothingAfterOld(q: Query, es: seq<Event>) {
    forall i: nat, j: nat :: !LaterMatch(q, es, i, j)
  }

  lemma {:induction false} FilterJoin(q: Query, a: seq<Event>, b: seq<Event>)
    requires forall j :: 0 <= j < |b| && Matches(q, b[j]) ==> b[j].id in Ids(Filter(q, a))
    ensures Filter(q, a + b) == Filter(q, a)
  {
    if b == [] {
      assert a + b == a;
    } else {
      FilterJoin(q, a, b[..|b| - 1]);
      assert (a + b)[..|a + b| - 1] == a + b[..|b| - 1];
    }
  }

  /** How many pages the walk reads: up to the first with an event that is too old. */
  function Reach(q: Query, pages: seq<seq<Event>>): (r: nat)
    ensures r <= |pages|
  {
    if pages == [] then 0 else if AnyOld(q, pages[0]) then 1 else 1 + Reach(q, pages[1..])
  }

  lemma {:induction false} WalkReaches(sv: Server, q: Query, pages: seq<seq<Event>>, k: nat, left: nat)
    requires Serves(sv, pages) && k <= |pages| && Reach(q, pages[k..]) <= left
    ensures WalkFrom(sv, q, k, left) == Walked(Concat(pages[k..][..Reach(q, pages[k..])]), Reach(q, pages[k..]))
    decreases |pages| - k
  {
    if k < |pages| {
      var rest := pages[k..];
      assert rest[1..] == pages[k + 1..];
      if AnyOld(q, rest[0]) {
        assert rest[..1] == [rest[0]];
        assert Concat(rest[..1]) == rest[0] + Concat([]);
      } else {
        WalkReaches(sv, q, pages, k + 1, left - 1);
        var r := Reach(q, rest[1..]);
        assert rest[..1 + r][1..] == rest[1..][..r];
        assert rest[1..] == [] ==> r == 0 && rest[..1 + r] == [rest[0]];
      }
    }
  }

  lemma {:induction false} ConcatSplit(pages: seq<seq<Event>>, r: nat)
    requires r <= |pages|
    ensures Concat(pages) == Concat(pages[..r]) + Concat(pages[r..])
  {
    if r > 0 {
      ConcatSplit(pages[1..], r - 1);
      assert pages[1..][..r - 1] == pages[..r][1..] && pages[1..][r - 1..] == pages[r..];
    }
  }

  lemma {:induction false} ReachIsOld(q: Query, pages: seq<seq<Event>>)
    ensures Reach(q, pages) < |pages| ==> AnyOld(q, Concat(pages[..Reach(q, pages)]))
  {
    if pages != [] {
      var r := Reach(q, pages);
      assert pages[..r][0] == pages[0] && pages[..r][1..] == pages[1..r];
      if AnyOld(q, pages[0]) {
        OldInJoin(q, [], pages[0], Concat(pages[..r][1..]));
      } else if r < |pages| {
        ReachIsOld(q, pages[1..]);
        assert pages[1..][..r - 1] == pages[..r][1..];
        OldInJoin(q, pages[0], Concat(pages[..r][1..]), []);
      }
    }
  }

  lemma OldInJoin(q: Query, a: seq<Event>, b: seq<Event>, c: seq<Event>)
    requires AnyOld(q, b)
    ensures AnyOld(q, a + b) && AnyOld(q, b + c)
  {
    var i :| 0 <= i < |b| && b[i].ts < q.since;
    assert (a + b)[|a| + i] == b[i] && (b + c)[i] == b[i];
  }

  /** A page that is refused before anything too old was seen makes the whole search fail with
      that status: what was found so far is not returned as if it were all. */
  lemma {:induction false} RefusalFails(sv: Server, q: Query, token: nat, n: nat, status: int, left: nat)
    requires token + n < |sv| && n < left && sv[token + n] == Refused(status)
    requires forall i :: token <= i < token + n ==>
      sv[i].Page? && sv[i].chunk != [] && sv[i].end == Some(i + 1)
      && forall j :: 0 <= j < |sv[i].chunk| ==> q.since <= sv[i].chunk[j].ts
    ensures Outcome(q, WalkFrom(sv, q, token, left)) == Failed(status)
    decreases n
  {
    if n > 0 {
      assert sv[token].Page?;
      RefusalFails(sv, q, token + 1, n - 1, status, left - 1);
    }
  }

  predicate Finds(q: Query, sv: Server, es: seq<Event>, most: nat) {
    WalkFrom(sv, q, 0, most).Walked? && Filter(q, WalkFrom(sv, q, 0, most).events) == Filter(q, es)
  }

  lemma FindsAll(q: Query, sv: Server, pages: seq<seq<Event>>, most: nat)
    requires Serves(sv, pages) && Reach(q, pages) <= most && NothingAfterOld(q, Concat(pages))
    ensures Finds(q, sv, Concat(pages), most)
  {
    var r := Reach(q, pages);
    var a, b := Concat(pages[..r]), Concat(pages[r..]);
    assert pages[0..] == pages;
    WalkReaches(sv, q, pages, 0, most);
    ConcatSplit(pages, r);
    ReachIsOld(q, pages);
    if r < |pages| {
      var i :| 0 <= i < |a| && a[i].ts < q.since;
      forall j | 0 <= j < |b| && Matches(q, b[j]) ensures b[j].id in Ids(Filter(q, a)) {
        assert (a + b)[i] == a[i] && (a + b)[|a| + j] == b[j];
        assert !LaterMatch(q, a + b, i, |a| + j);
        var k :| 0 <= k <= i && Matches(q, (a + b)[k]) && (a + b)[k].id == b[j].id;
        assert a[k] == (a + b)[k];
        FilterHas(q, a, b[j].id);
      }
    }
    FilterJoin(q, a, b);
  }

  /** Cut in two pages, the first ending with an event that is too old, the history loses
      what matches only in the second. */
  lemma SplitLoses(q: Query, a: seq<Event>, b: seq<Event>, j: nat, most: nat)
    requires AnyOld(q, a) && j < |b| && Matches(q, b[j]) && b[j].id !in Ids(Filter(q, a)) && 2 <= most
    ensures Serves([Page(a, Some(1)), Page(b, None)], [a, b]) && Concat([a, b]) == a + b
    ensures !Finds(q, [Page(a, Some(1)), Page(b, None)], a + b, most)
  {
    var sv: Server := [Page(a, Some(1)), Page(b, None)];
    assert [a, b][1..] == [b] && [b][1..] == [] && Concat([b]) == b;
    assert WalkFrom(sv, q, 0, most) == Walked(a, 1);
    assert (a + b)[|a| + j] == b[j];
    FilterHas(q, a + b, b[j].id);
  }

  lemma SomeSplitLoses(q: Query, es: seq<Event>, i: nat, j: nat, most: nat)
    requires LaterMatch(q, es, i, j) && 2 <= most
    ensures exists sv, pages :: Serves(sv, pages) && Concat(pages) == es && |pages| <= most && !Finds(q, sv, es, most)
  {
    var a, b := es[..i + 1], es[i + 1..];
    assert a + b == es;
    assert a[i] == es[i] && b[j - i - 1] == es[j];
    FilterHas(q, a, es[j].id);
    SplitLoses(q, a, b, j - i - 1, most);
  }

  /** The walk finds everything, however the history is cut into pages and with no more of
      them than allowed, exactly when nothing new matches past an event that is too old. */
  lemma CompleteIff(q: Query, es: seq<Event>, most: nat)
    requires 2 <= most
    ensures (forall sv, pages :: Serves(sv, pages) && Concat(pages) == es && |pages| <= most ==> Finds(q, sv, es, most))
        <==> NothingAfterOld(q, es)
  {
    if NothingAfterOld(q, es) {
      forall sv, pages | Serves(sv, pages) && Concat(pages) == es && |pages| <= most ensures Finds(q, sv, es, most) {
        FindsAll(q, sv, pages, most);
      }
    } else {
      var i: nat, j: nat :| LaterMatch(q, es, i, j);
      SomeSplitLoses(q, es, i, j, most);
    }
  }

  /** Timestamps that never increase along the walk are enough. */
  lemma InOrderIsEnough(q: Query, es: seq<Event>)
    requires forall i, j :: 0 <= i < j < |es| ==> es[j].ts <= es[i].ts
    ensures NothingAfterOld(q, es)
  {
  }

  // ---- collect_targets -------------------------------------------------------------

  lemma {:induction false} FilterPrefix(q: Query, a: seq<Event>, b: seq<Event>, c: seq<Event>)
    requires Filter(q, a) == Filter(q, b)
    ensures Filter(q, a + c) == Filter(q, b + c)
  {
    if c == [] {
      assert a + c == a && b + c == b;
    } else {
      FilterPrefix(q, a, b, c[..|c| - 1]);
      assert (a + c)[..|a + c| - 1] == a + c[..|c| - 1] && (b + c)[..|b + c| - 1] == b + c[..|c| - 1];
    }
  }

  method CollectTargets(sv: Server, q: Query, maxPages: nat) returns (r: Result)
    ensures r == Outcome(q, WalkFrom(sv, q, 0, maxPages))
  {
    var targets: seq<Target> := [];
    var seenIds: set<Id> := {};
    var tokenFrom, pagesDone, olderThanSince := 0, 0, false;
    ghost var walked: seq<Event> := [];
    while pagesDone < maxPages && !olderThanSince
      invariant pagesDone <= maxPages
      invariant targets == Filter(q, walked) && seenIds == Ids(targets)
      invariant WalkFrom(sv, q, 0, maxPages) ==
        if olderThanSince then Walked(walked, pagesDone)
        else Continued(walked, pagesDone, WalkFrom(sv, q, tokenFrom, maxPages - pagesDone))
      decreases maxPages - pagesDone
    {
      var reply := Fetch(sv, tokenFrom);
      if reply.Refused? {
        return Failed(reply.status);
      }
      if reply.chunk == [] {
        assert walked + [] == walked;
        return Collected(targets, pagesDone);
      }
      var older;
      ghost var before := walked;
      targets, seenIds, older := PickFrom(q, reply.chunk, targets, seenIds, walked);
      walked := walked + reply.chunk;
      olderThanSince := older;
      pagesDone := pagesDone + 1;
      if reply.end.None? {
        return Collected(targets, pagesDone);
      }
      tokenFrom := reply.end.value;
      Regroup(before, reply.chunk, pagesDone - 1, WalkFrom(sv, q, tokenFrom, maxPages - pagesDone));
    }
    assert walked + [] == walked;
    r := Collected(targets, pagesDone);
  }

  lemma Regroup(walked: seq<Event>, chunk: seq<Event>, pages: nat, w: Walk)
    ensures Continued(walked, pages, Continued(chunk, 1, w)) == Continued(walked + chunk, pages + 1, w)
  {
    if w.Walked? {
      assert walked + (chunk + w.events) == walked + chunk + w.events;
    }
  }

  /** One more event read. */
  lemma FilterNext(q: Query, walked: seq<Event>, chunk: seq<Event>, i: nat)
    requires i < |chunk|
    ensures var ts, e := Filter(q, walked + chunk[..i]), chunk[i];
      Filter(q, walked + chunk[..i + 1]) == if Matches(q, e) && e.id !in Ids(ts) then ts + [TargetOf(e)] else ts
  {
    assert (walked + chunk[..i + 1])[..|walked| + i] == walked + chunk[..i];
  }

  /** The loop over one page. */
  method PickFrom(q: Query, chunk: seq<Event>, targets: seq<Target>, seenIds: set<Id>, ghost walked: seq<Event>)
    returns (picked: seq<Target>, seen: set<Id>, older: bool)
    requires targets == Filter(q, walked) && seenIds == Ids(targets)
    ensures picked == Filter(q, walked + chunk) && seen == Ids(picked)
    ensures older == AnyOld(q, chunk)
  {
    picked, seen, older := targets, seenIds, false;
    assert walked + chunk[..0] == walked;
    hide Filter, Ids;
    var i := 0;
    while i < |chunk|
      invariant 0 <= i <= |chunk|
      invariant picked == Filter(q, walked + chunk[..i]) && seen == Ids(picked)
      invariant older <==> exists j :: 0 <= j < i && chunk[j].ts < q.since
    {
      var e := chunk[i];
      FilterNext(q, walked, chunk, i);
      i := i + 1;
      if e.ts < q.since {
        older := true;
        continue;
      }
      if e.ts > q.until || e.sender != q.sender || e.redacted || e.id == NO_ID || e.id in seen {
        continue;
      }
      AddsId(picked, TargetOf(e));
      seen := seen + {e.id};
      picked := picked + [TargetOf(e)];
    }
    assert chunk[..i] == chunk;
  }
}
