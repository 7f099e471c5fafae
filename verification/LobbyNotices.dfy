/** The operator notices about the rooms the lobby handlers make: what the announce cycles ask
    of lobby.json, the handlers provide. */
module LobbyNotices {
  import opened Prelude
  import opened Onboarding
  import L = Lobby
  import R = LobbyRuns
  import V = Vetting
  import A = Announce

  /** What a cycle reads of a record of lobby.json. */
  function Shown(r: L.Lobby): A.View { A.View(r.challenged, r.closed, r.reason) }

  function AllShown(l: map<V.RoomId, L.Lobby>): map<A.Room, A.View> { map r | r in l :: Shown(l[r]) }

  /** The cycles read the lobby file of one run of the handlers, each at its own moment. */
  ghost predicate Reads(c: V.Config, ls: seq<Label>, when: seq<nat>, cs: seq<A.Cycle>) {
    && |when| == |cs|
    && (forall i, j :: 0 <= i < j < |when| ==> when[i] <= when[j])
    && forall i :: 0 <= i < |cs| ==>
         && when[i] <= |ls| && cs[i].lobby.Valid()
         && cs[i].lobby.rooms == AllShown(Exec(c, Empty, ls[..when[i]]).lobby)
  }

  lemma SameFrozen(d: Door)
    ensures Frozen(d, d)
  {
  }

  lemma FrozenTrans(d: Door, e: Door, f: Door)
    requires Frozen(d, e) && Frozen(e, f)
    ensures Frozen(d, f)
  {
  }

  /** Later files have every room of the earlier ones, and the closed ones unchanged. */
  lemma {:induction false} OnlyGrows(c: V.Config, ls: seq<Label>, m: nat, n: nat)
    requires Run(c, Empty, ls) && m <= n <= |ls|
    ensures Frozen(Exec(c, Empty, ls[..m]), Exec(c, Empty, ls[..n]))
    decreases n
  {
    hide Apply, Frozen;
    if m < n {
      OnlyGrows(c, ls, m, n - 1);
      R.PrefixRuns(c, Empty, ls, n);
      assert ls[..n][..n - 1] == ls[..n - 1];
      StepFreezes(c, Exec(c, Empty, ls[..n - 1]), ls[n - 1]);
      FrozenTrans(Exec(c, Empty, ls[..m]), Exec(c, Empty, ls[..n - 1]), Exec(c, Empty, ls[..n]));
    } else {
      SameFrozen(Exec(c, Empty, ls[..m]));
    }
  }

  /** Closed rooms included, exactly as they were. */
  predicate SameIfClosed(a: A.Cycle, b: A.Cycle, r: A.Room) {
    A.Sees(a, r) ==> A.Sees(b, r) && (a.lobby.rooms[r].closed ==> b.lobby.rooms[r] == a.lobby.rooms[r])
  }

  lemma GrowsShown(c: V.Config, ls: seq<Label>, when: seq<nat>, cs: seq<A.Cycle>, i: nat, j: nat, r: A.Room)
    requires Run(c, Empty, ls) && Reads(c, ls, when, cs) && i <= j < |cs|
    ensures SameIfClosed(cs[i], cs[j], r)
  {
    hide Exec, Run;
    OnlyGrows(c, ls, when[i], when[j]);
  }

  lemma HandlersNoReturn(c: V.Config, ls: seq<Label>, when: seq<nat>, cs: seq<A.Cycle>)
    requires Run(c, Empty, ls) && Reads(c, ls, when, cs)
    ensures A.ValidAll(cs) && A.NoReturn(cs)
  {
    hide Exec, Run;
    forall i, k, r | 0 <= i < k < |cs| && A.Sees(cs[i], r) && A.Sees(cs[k], r) ensures r in cs[k - 1].lobby.rooms {
      GrowsShown(c, ls, when, cs, i, k - 1, r);
    }
  }

  /** So rooms that left never come back: over any run of the handlers, read by any number of
      cycles at any moments, the notices are as few as the challenges and rooms allow. */
  lemma HandlersCannotFlood(c: V.Config, ls: seq<Label>, when: seq<nat>, cs: seq<A.Cycle>, file: Option<A.Book>)
    requires Run(c, Empty, ls) && Reads(c, ls, when, cs)
    ensures A.ValidAll(cs)
    ensures |A.At(file, cs, |cs|).sent|
      <= (1 + A.At(file, cs, |cs|).cutShort) * (|A.Pairs(cs)| + |A.Rooms(cs)|)
  {
    hide *;
    HandlersNoReturn(c, ls, when, cs);
    A.CannotFlood(file, cs);
  }

  /** The record of the room as the handlers had it when cycle `k` read the file. */
  ghost predicate OpenWith(c: V.Config, ls: seq<Label>, n: nat, r: A.Room, u: A.User)
    requires n <= |ls|
  {
    var lobby := Exec(c, Empty, ls[..n]).lobby;
    r in lobby && !lobby[r].closed && u in lobby[r].challenged
  }

  lemma OpenIsShown(c: V.Config, ls: seq<Label>, when: seq<nat>, cs: seq<A.Cycle>, k: nat, r: A.Room, u: A.User)
    requires Reads(c, ls, when, cs) && k < |cs| && OpenWith(c, ls, when[k], r, u)
    ensures A.Sees(cs[k], r) && !cs[k].lobby.rooms[r].closed && u in cs[k].lobby.rooms[r].challenged
  {
    hide Exec, Run;
  }

  /** And a room found open had never been found closed: every user the handlers had challenged in a
      room still open when a cycle read the file is announced exactly once, if no cycle is cut
      short and the record began without. */
  lemma EveryChallengeTold(c: V.Config, ls: seq<Label>, when: seq<nat>, cs: seq<A.Cycle>, file: Option<A.Book>,
                           k: nat, r: A.Room, u: A.User)
    requires Run(c, Empty, ls) && Reads(c, ls, when, cs) && k < |cs|
    requires A.Uncovered(file, A.Started(r, u)) && OpenWith(c, ls, when[k], r, u)
    ensures A.ValidAll(cs)
    ensures A.Uncut(file, cs, |cs|) ==> A.Times(A.At(file, cs, |cs|), A.Started(r, u)) == 1
  {
    hide Exec, Run, A.At;
    OpenIsShown(c, ls, when, cs, k, r, u);
    HandlersNoReturn(c, ls, when, cs);
    forall i | 0 <= i < k + 1 && A.Sees(cs[i], r) ensures !cs[i].lobby.rooms[r].closed {
      GrowsShown(c, ls, when, cs, i, k, r);
    }
    if A.Uncut(file, cs, |cs|) {
      A.UserOnce(file, cs, k, r, u);
    }
  }
}
