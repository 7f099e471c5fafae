/** The two passes as the program writes them, loops over objects updated in place, each shown
    to be a run of the step machine: what holds of every run holds of the program. */
module RelayPasses {
  import opened Prelude
  import opened RelayModel
  import opened RelayRing

  /** bridge/mx.py's `_FileSyncStore`: the cursor in memory and in its file, written together. */
  class FileSyncStore {
    var nb: Option<nat>
    var file: Option<nat>

    constructor (file: Option<nat>)
      ensures this.file == file && nb == file
    {
      this.file, nb := file, file;
    }

    method PutNextBatch(n: nat)
      modifies this
      ensures nb == file == Some(n)
    {
      nb := Some(n);
      file := Some(n);
    }
  }

  /** What the far sides do with the relay's requests. */
  datatype TgOutcome = Sent(eventId: EventId) | Failed
  datatype MxOutcome = Undecryptable | Posted(id: nat) | NotPosted

  class Relay {
    const state: State
    const file: StateFile
    const store: FileSyncStore
    var tgLog: seq<TgMsg>
    var mxLog: seq<MxEvent>
    ghost var sentMx: seq<nat>
    ghost var sentTg: seq<nat>
    ghost var restarts: nat
    ghost var firstTg: nat
    ghost var firstNb: Option<nat>

    ghost predicate Valid()
      reads this, state, file, store
    {
      !file.data.Corrupt?
    }

    /** The machine state this object stands for, given where the two loops are. */
    ghost function View(tg: TgPc, mx: MxPc): Sys
      requires Valid()
      reads this, state, file, store
    {
      Sys(tgLog, mxLog, state.Cursors(), store.nb, Loaded(file.data), store.file, true, tg, mx,
          sentMx, sentTg, restarts, firstTg, firstNb)
    }

    constructor (state: State, file: StateFile, store: FileSyncStore, tgLog: seq<TgMsg>, mxLog: seq<MxEvent>)
      requires !file.data.Corrupt?
      ensures Valid() && this.state == state && this.file == file && this.store == store
      ensures View(TgIdle, MxIdle) ==
        Sys(tgLog, mxLog, state.Cursors(), store.nb, Loaded(file.data), store.file, true, TgIdle, MxIdle,
            [], [], 0, 0, None)
    {
      this.state, this.file, this.store, this.tgLog, this.mxLog := state, file, store, tgLog, mxLog;
      sentMx, sentTg, restarts, firstTg, firstNb := [], [], 0, 0, None;
    }

    /** The newest-first read of `iter_messages`: stop at the limit or at the first id that is
        not new. */
    method FetchNew() returns (new_: seq<TgMsg>)
      ensures Reverse(new_) == Newest(tgLog, state.tgLastId, TG_POLL_LIMIT)
    {
      new_ := [];
      var k := |tgLog|;
      assert tgLog[..k] == tgLog;
      while k > 0 && |new_| < TG_POLL_LIMIT
        invariant 0 <= k <= |tgLog| && |new_| == |tgLog| - k <= TG_POLL_LIMIT
        invariant Newest(tgLog, state.tgLastId, TG_POLL_LIMIT)
          == Newest(tgLog[..k], state.tgLastId, TG_POLL_LIMIT - |new_|) + Reverse(new_)
      {
        var msg := tgLog[k - 1];
        if msg.id <= state.tgLastId {
          break;
        }
        assert tgLog[..k][..k - 1] == tgLog[..k - 1];
        ReverseAppend(new_, msg);
        new_ := new_ + [msg];
        k := k - 1;
      }
    }

    /** One message of a poll: skip it, or send it and record it, or leave it for later. */
    method HandleTg(msg: TgMsg, outcome: TgOutcome, ghost rest: seq<TgMsg>, ghost mx: MxPc)
      requires Valid()
      modifies this`mxLog, this`sentMx, state, file
      ensures Valid()
      ensures View(TgPass(rest), mx) == AfterTg(old(View(TgPass([msg] + rest), mx)), outcome)
    {
      assert ([msg] + rest)[1..] == rest;
      if !Relayable(msg) {
        state.tgLastId := Max(state.tgLastId, msg.id);
        return;
      }
      if outcome.Failed? {
        return;
      }
      mxLog := mxLog + [MxEvent(outcome.eventId, true, true, Text, Some(msg.id))];
      sentMx := sentMx + [msg.id];
      state.tgLastId := Max(state.tgLastId, msg.id);
      state.Save(file);
    }

    /** The loop over `reversed(new)`. */
    method HandleAll(new_: seq<TgMsg>, outcomes: seq<TgOutcome>, ghost mx: MxPc)
      requires Valid() && |new_| <= |outcomes| && |Reverse(new_)| == |new_|
      modifies this`mxLog, this`sentMx, state, file
      ensures Valid()
      ensures View(TgPass([]), mx) == AfterAll(old(View(TgPass(Reverse(new_)), mx)), outcomes, |new_|)
    {
      ghost var todo := Reverse(new_);
      ghost var s := View(TgPass(todo), mx);
      var i := 0;
      assert todo[0..] == todo;
      while i < |new_|
        invariant Valid() && 0 <= i <= |new_|
        invariant View(TgPass(todo[i..]), mx) == AfterAll(s, outcomes, i)
      {
        var msg := new_[|new_| - 1 - i];
        ReverseAt(new_, i);
        assert todo[i..] == [msg] + todo[i + 1..];
        HandleTg(msg, outcomes[i], todo[i + 1..], mx);
        i := i + 1;
      }
      assert todo[|new_|..] == [];
    }

    /** `tg_poll_once`. */
    method TgPollOnce(outcomes: seq<TgOutcome>, ghost mx: MxPc)
      requires Valid() && TG_POLL_LIMIT <= |outcomes|
      modifies this`mxLog, this`sentMx, this`firstTg, state, file
      ensures Valid()
      ensures View(TgIdle, mx) == AfterPoll(old(View(TgIdle, mx)), outcomes)
    {
      var new_ := FetchNew();
      ReverseBasics(new_);
      if new_ == [] {
        return;
      }
      if state.tgLastId == 0 {
        state.tgLastId := new_[0].id;
        state.Save(file);
        firstTg := new_[0].id;
        return;
      }
      NewestLength(tgLog, state.tgLastId, TG_POLL_LIMIT);
      HandleAll(new_, outcomes, mx);
      state.Save(file);
    }

    /** `_mx_sync`: the cursor is durable before the timeline is even looked at. */
    method MxSyncOnce(answer: Answer, ghost tg: TgPc) returns (timeline: seq<nat>)
      requires Valid() && Fits(answer, store.nb, |mxLog|)
      modifies store, this`firstNb
      ensures Valid() && View(tg, MxBatch(timeline)) == Apply(old(View(tg, MxIdle)), MxSync(answer))
      ensures forall i :: 0 <= i < |timeline| ==> timeline[i] < |mxLog|
    {
      if answer.Unusable? {
        return [];
      }
      if answer.next.Some? {
        if firstNb.None? { firstNb := answer.next; }
        store.PutNextBatch(answer.next.value);
      }
      timeline := Range(answer.from, answer.upTo);
    }

    /** One timeline event: own, undecryptable, not a message, already seen, empty, or relayed. */
    method HandleMx(pos: nat, outcome: MxOutcome, ghost rest: seq<nat>, ghost tg: TgPc)
      requires Valid() && pos < |mxLog|
      modifies this`tgLog, this`sentTg, state, file
      ensures Valid()
      ensures View(tg, MxBatch(rest)) == AfterMx(old(View(tg, MxBatch([pos] + rest))), outcome)
    {
      assert ([pos] + rest)[1..] == rest;
      var e := mxLog[pos];
      if e.kind == Malformed {
        return;
      }
      if e.own {
        var _ := state.MarkMx(e.id);
        return;
      }
      if e.encrypted && outcome.Undecryptable? {
        var _ := state.MarkMx(e.id);
        state.Save(file);
        return;
      }
      if e.kind == NotMessage {
        var _ := state.MarkMx(e.id);
        return;
      }
      var already := state.MarkMx(e.id);
      if already || e.kind == NoBody {
        return;
      }
      Forward(pos, outcome);
    }

    /** The send of a message just marked, and the save after it. */
    method Forward(pos: nat, outcome: MxOutcome)
      requires Valid()
      modifies this`tgLog, this`sentTg, file
      ensures Valid()
      ensures if outcome.Posted? then
          && tgLog == old(tgLog) + [TgMsg(outcome.id, true, true, Some(pos))] && sentTg == old(sentTg) + [pos]
          && Loaded(file.data) == Saved(state.Cursors())
        else tgLog == old(tgLog) && sentTg == old(sentTg) && file.data == old(file.data)
    {
      if !outcome.Posted? {
        return;
      }
      tgLog := tgLog + [TgMsg(outcome.id, true, true, Some(pos))];
      sentTg := sentTg + [pos];
      state.Save(file);
    }

    /** The loop over the timeline. */
    method HandleBatch(timeline: seq<nat>, outcomes: seq<MxOutcome>, ghost tg: TgPc)
      requires Valid() && |timeline| <= |outcomes|
      requires forall i :: 0 <= i < |timeline| ==> timeline[i] < |mxLog|
      modifies this`tgLog, this`sentTg, state, file
      ensures Valid()
      ensures View(tg, MxBatch([])) == AfterBatch(old(View(tg, MxBatch(timeline))), outcomes, |timeline|)
    {
      ghost var s := View(tg, MxBatch(timeline));
      var i := 0;
      assert timeline[0..] == timeline;
      while i < |timeline|
        invariant Valid() && 0 <= i <= |timeline|
        invariant View(tg, MxBatch(timeline[i..])) == AfterBatch(s, outcomes, i)
      {
        assert timeline[i..] == [timeline[i]] + timeline[i + 1..];
        HandleMx(timeline[i], outcomes[i], timeline[i + 1..], tg);
        i := i + 1;
      }
      assert timeline[|timeline|..] == [];
    }

    /** `mx_relay_once`. */
    method MxRelayOnce(answer: Answer, outcomes: seq<MxOutcome>, ghost tg: TgPc)
      requires Valid() && Fits(answer, store.nb, |mxLog|)
      requires answer.Answer? ==> answer.upTo - answer.from <= |outcomes|
      modifies this`tgLog, this`sentTg, this`firstNb, state, file, store
      ensures Valid()
      ensures View(tg, MxIdle) == AfterPass(old(View(tg, MxIdle)), answer, outcomes)
    {
      var timeline := MxSyncOnce(answer, tg);
      HandleBatch(timeline, outcomes, tg);
      state.Save(file);
    }
  }

  // ---- What a poll amounts to -----------------------------------------------------

  function Reverse<T>(s: seq<T>): seq<T> {
    if s == [] then [] else [s[|s| - 1]] + Reverse(s[..|s| - 1])
  }

  lemma ReverseAppend<T>(s: seq<T>, x: T)
    ensures Reverse(s + [x]) == [x] + Reverse(s)
  {
    assert (s + [x])[..|s|] == s;
  }

  lemma {:induction false} ReverseBasics<T>(s: seq<T>)
    ensures |Reverse(s)| == |s|
    ensures s != [] ==> Reverse(s)[|s| - 1] == s[0]
  {
    if s != [] { ReverseBasics(s[..|s| - 1]); }
  }

  lemma {:induction false} ReverseAt<T>(s: seq<T>, i: nat)
    requires i < |s|
    ensures |Reverse(s)| == |s| && Reverse(s)[i] == s[|s| - 1 - i]
  {
    ReverseBasics(s);
    if i > 0 {
      ReverseAt(s[..|s| - 1], i - 1);
    }
  }

  lemma {:induction false} NewestLength(log: seq<TgMsg>, cursor: nat, limit: nat)
    ensures |Newest(log, cursor, limit)| <= limit
  {
    if limit != 0 && log != [] { NewestLength(log[..|log| - 1], cursor, limit - 1); }
  }

  /** The steps one message takes. */
  function LabelsFor(m: TgMsg, o: TgOutcome): seq<Label> {
    if !Relayable(m) then [TgSkip]
    else if o.Sent? then [TgSend(true, o.eventId), TgCommit]
    else [TgSend(false, "")]
  }

  function HandleLabels(todo: seq<TgMsg>, outcomes: seq<TgOutcome>, n: nat): seq<Label>
    requires n <= |todo| && n <= |outcomes|
  {
    if n == 0 then [] else HandleLabels(todo, outcomes, n - 1) + LabelsFor(todo[n - 1], outcomes[n - 1])
  }

  /** The steps of one poll: fetch, each message in order, save. */
  function PollLabels(s: Sys, outcomes: seq<TgOutcome>): seq<Label>
    requires TG_POLL_LIMIT <= |outcomes|
  {
    var new_ := Newest(s.tgLog, s.mem.tg, TG_POLL_LIMIT);
    NewestLength(s.tgLog, s.mem.tg, TG_POLL_LIMIT);
    if new_ == [] || s.mem.tg == 0 then [TgFetch]
    else [TgFetch] + HandleLabels(new_, outcomes, |new_|) + [TgEnd]
  }

  /** The state after the head message of a pass. */
  function AfterTg(s: Sys, o: TgOutcome): Sys
    requires s.tg.TgPass? && s.tg.todo != []
  {
    var msg, rest := s.tg.todo[0], TgPass(s.tg.todo[1..]);
    var m := s.mem.(tg := Max(s.mem.tg, msg.id));
    if !Relayable(msg) then s.(mem := m, tg := rest)
    else if o.Failed? then s.(tg := rest)
    else s.(mxLog := s.mxLog + [MxEvent(o.eventId, true, true, Text, Some(msg.id))],
            sentMx := s.sentMx + [msg.id], mem := m, disk := Saved(m), tg := rest)
  }

  function AfterAll(s: Sys, outcomes: seq<TgOutcome>, n: nat): (t: Sys)
    requires s.tg.TgPass? && n <= |s.tg.todo| && n <= |outcomes|
    ensures t.tg == TgPass(s.tg.todo[n..])
  {
    if n == 0 then s else AfterTg(AfterAll(s, outcomes, n - 1), outcomes[n - 1])
  }

  /** The state after a whole poll. */
  function AfterPoll(s: Sys, outcomes: seq<TgOutcome>): Sys
    requires TG_POLL_LIMIT <= |outcomes|
  {
    var new_ := Newest(s.tgLog, s.mem.tg, TG_POLL_LIMIT);
    NewestLength(s.tgLog, s.mem.tg, TG_POLL_LIMIT);
    var m := s.mem.(tg := if new_ == [] then 0 else new_[|new_| - 1].id);
    if new_ == [] then s
    else if s.mem.tg == 0 then s.(mem := m, disk := Saved(m), firstTg := m.tg)
    else
      var t := AfterAll(s.(tg := TgPass(new_)), outcomes, |new_|);
      t.(disk := Saved(t.mem), tg := TgIdle)
  }

  /** One message of a pass is a run of at most two steps. */
  lemma MessageIsRun(s: Sys, o: TgOutcome)
    requires s.tg.TgPass? && s.tg.todo != [] && (o.Sent? ==> o.eventId !in EventIds(s.mxLog))
    ensures Ran(s, LabelsFor(s.tg.todo[0], o), AfterTg(s, o))
  {
    if !Relayable(s.tg.todo[0]) {
      One(s, TgSkip);
    } else if o.Sent? {
      Two(s, TgSend(true, o.eventId), TgCommit);
    } else {
      One(s, TgSend(false, ""));
    }
  }

  lemma {:induction false} MessagesAreRun(s: Sys, outcomes: seq<TgOutcome>, n: nat)
    requires s.tg.TgPass? && n <= |s.tg.todo| && n <= |outcomes| && Usable(outcomes, 0, s.mxLog)
    ensures Ran(s, HandleLabels(s.tg.todo, outcomes, n), AfterAll(s, outcomes, n))
    ensures Usable(outcomes, n, AfterAll(s, outcomes, n).mxLog)
  {
    if n > 0 {
      MessagesAreRun(s, outcomes, n - 1);
      var t := AfterAll(s, outcomes, n - 1);
      assert t.tg.todo[0] == s.tg.todo[n - 1];
      MessageIsRun(t, outcomes[n - 1]);
      UsableNext(outcomes, n - 1, t.mxLog, AfterTg(t, outcomes[n - 1]).mxLog, t.tg.todo[0].id);
      Joined(s, HandleLabels(s.tg.todo, outcomes, n - 1), t,
             LabelsFor(t.tg.todo[0], outcomes[n - 1]), AfterTg(t, outcomes[n - 1]));
    }
  }

  /** A poll that runs without interference is one run of the machine, so everything proved of
      all runs holds of `TgPollOnce`. */
  lemma PollIsRun(s: Sys, outcomes: seq<TgOutcome>)
    requires s.up && s.tg == TgIdle && TG_POLL_LIMIT <= |outcomes| && Usable(outcomes, 0, s.mxLog)
    ensures Ran(s, PollLabels(s, outcomes), AfterPoll(s, outcomes))
  {
    var new_ := Newest(s.tgLog, s.mem.tg, TG_POLL_LIMIT);
    NewestLength(s.tgLog, s.mem.tg, TG_POLL_LIMIT);
    One(s, TgFetch);
    if new_ != [] && s.mem.tg != 0 {
      var t := Apply(s, TgFetch);
      var ls, u := HandleLabels(new_, outcomes, |new_|), AfterAll(t, outcomes, |new_|);
      MessagesAreRun(t, outcomes, |new_|);
      Joined(s, [TgFetch], t, ls, u);
      More(s, [TgFetch] + ls, u, TgEnd);
    }
  }

  ghost function EventIds(log: seq<MxEvent>): set<EventId> {
    set k | 0 <= k < |log| :: log[k].id
  }

  /** The homeserver gives every posted event a new id. */
  ghost predicate Usable(outcomes: seq<TgOutcome>, n: nat, log: seq<MxEvent>) {
    && (forall i :: n <= i < |outcomes| && outcomes[i].Sent? ==> outcomes[i].eventId !in EventIds(log))
    && (forall i, j :: 0 <= i < j < |outcomes| && outcomes[i].Sent? && outcomes[j].Sent? ==>
          outcomes[i].eventId != outcomes[j].eventId)
  }

  lemma UsableNext(outcomes: seq<TgOutcome>, n: nat, log: seq<MxEvent>, log': seq<MxEvent>, id: nat)
    requires n < |outcomes| && Usable(outcomes, n, log)
    requires log' == log ||
      (outcomes[n].Sent? && log' == log + [MxEvent(outcomes[n].eventId, true, true, Text, Some(id))])
    ensures Usable(outcomes, n + 1, log')
  {
    assert EventIds(log') <= EventIds(log) + if outcomes[n].Sent? then {outcomes[n].eventId} else {};
  }

  // ---- What a Matrix pass amounts to ----------------------------------------------

  /** The steps one event takes. */
  function LabelsForMx(s: Sys, pos: nat, o: MxOutcome): seq<Label>
    requires pos < |s.mxLog|
  {
    var e := s.mxLog[pos];
    if e.kind == Malformed || e.own then [MxSkip]
    else if e.encrypted && o.Undecryptable? then [MxGiveUp]
    else if !(Fresh(s, pos) && e.kind == Text) then [MxSkip]
    else if o.Posted? then [MxMark, MxSend(true, o.id), MxCommit]
    else [MxMark, MxSend(false, 0)]
  }

  /** The state after a person's fresh message at the head of a batch. */
  function AfterRelay(s: Sys, o: MxOutcome): Sys
    requires MxHasHead(s)
  {
    var pos, rest := s.mx.todo[0], MxBatch(s.mx.todo[1..]);
    var m := s.mem.(seen := Mark(s.mem.seen, s.mxLog[pos].id));
    if o.Posted? then
      s.(tgLog := s.tgLog + [TgMsg(o.id, true, true, Some(pos))], sentTg := s.sentTg + [pos],
         mem := m, disk := Saved(m), mx := rest)
    else s.(mem := m, mx := rest)
  }

  /** The state after the head event of a batch. */
  function AfterMx(s: Sys, o: MxOutcome): Sys
    requires MxHasHead(s)
  {
    var e, rest := s.mxLog[s.mx.todo[0]], MxBatch(s.mx.todo[1..]);
    var m := s.mem.(seen := Mark(s.mem.seen, e.id));
    if e.kind == Malformed then s.(mx := rest)
    else if e.own then s.(mem := m, mx := rest)
    else if e.encrypted && o.Undecryptable? then s.(mem := m, disk := Saved(m), mx := rest)
    else if e.kind == Text && e.id !in s.mem.seen then AfterRelay(s, o)
    else s.(mem := m, mx := rest)
  }

  function AfterBatch(s: Sys, outcomes: seq<MxOutcome>, n: nat): (t: Sys)
    requires s.mx.MxBatch? && n <= |s.mx.todo| && n <= |outcomes|
    requires forall i :: 0 <= i < |s.mx.todo| ==> s.mx.todo[i] < |s.mxLog|
    ensures t.mx == MxBatch(s.mx.todo[n..]) && t.mxLog == s.mxLog
  {
    if n == 0 then s else AfterMx(AfterBatch(s, outcomes, n - 1), outcomes[n - 1])
  }

  /** The state after a whole pass. */
  function AfterPass(s: Sys, answer: Answer, outcomes: seq<MxOutcome>): Sys
    requires Fits(answer, s.nb, |s.mxLog|)
    requires answer.Answer? ==> answer.upTo - answer.from <= |outcomes|
  {
    var t := ApplyMxSync(s, answer);
    var u := AfterBatch(t, outcomes, |t.mx.todo|);
    u.(disk := Saved(u.mem), mx := MxIdle)
  }

  /** The steps of a batch, one event after the other. */
  function HandleLabelsMx(s: Sys, outcomes: seq<MxOutcome>, n: nat): seq<Label>
    requires s.mx.MxBatch? && n <= |s.mx.todo| && n <= |outcomes|
    requires forall i :: 0 <= i < |s.mx.todo| ==> s.mx.todo[i] < |s.mxLog|
  {
    if n == 0 then []
    else HandleLabelsMx(s, outcomes, n - 1) +
         LabelsForMx(AfterBatch(s, outcomes, n - 1), s.mx.todo[n - 1], outcomes[n - 1])
  }

  /** The steps of one pass: sync, each event in order, save. */
  function PassLabels(s: Sys, answer: Answer, outcomes: seq<MxOutcome>): seq<Label>
    requires Fits(answer, s.nb, |s.mxLog|)
    requires answer.Answer? ==> answer.upTo - answer.from <= |outcomes|
  {
    var t := Apply(s, MxSync(answer));
    [MxSync(answer)] + HandleLabelsMx(t, outcomes, |t.mx.todo|) + [MxEnd]
  }

  /** Telegram gives every posted message an id above all before it. */
  ghost predicate UsableIds(outcomes: seq<MxOutcome>, n: nat, log: seq<TgMsg>) {
    && (forall i :: n <= i < |outcomes| && outcomes[i].Posted? ==>
          0 < outcomes[i].id && forall k :: 0 <= k < |log| ==> log[k].id < outcomes[i].id)
    && (forall i, j :: 0 <= i < j < |outcomes| && outcomes[i].Posted? && outcomes[j].Posted? ==>
          outcomes[i].id < outcomes[j].id)
  }

  lemma UsableIdsNext(outcomes: seq<MxOutcome>, n: nat, log: seq<TgMsg>, log': seq<TgMsg>, pos: nat)
    requires n < |outcomes| && UsableIds(outcomes, n, log)
    requires log' == log ||
      (outcomes[n].Posted? && log' == log + [TgMsg(outcomes[n].id, true, true, Some(pos))])
    ensures UsableIds(outcomes, n + 1, log')
  {
  }

  /** One event leaves the ids still to come usable. */
  lemma UsableIdsAfter(outcomes: seq<MxOutcome>, n: nat, t: Sys)
    requires n < |outcomes| && MxHasHead(t) && UsableIds(outcomes, n, t.tgLog)
    ensures UsableIds(outcomes, n + 1, AfterMx(t, outcomes[n]).tgLog)
  {
    AfterMxLog(t, outcomes[n]);
    hide AfterMx;
    UsableIdsNext(outcomes, n, t.tgLog, AfterMx(t, outcomes[n]).tgLog, t.mx.todo[0]);
  }

  lemma AfterMxLog(t: Sys, o: MxOutcome)
    requires MxHasHead(t)
    ensures var log := AfterMx(t, o).tgLog;
      log == t.tgLog || (o.Posted? && log == t.tgLog + [TgMsg(o.id, true, true, Some(t.mx.todo[0]))])
  {
  }

  /** One event of a batch is a run of at most three steps. */
  lemma EventIsRun(s: Sys, o: MxOutcome)
    requires MxHasHead(s) && (o.Posted? ==> NewTgId(s, o.id))
    ensures Ran(s, LabelsForMx(s, s.mx.todo[0], o), AfterMx(s, o))
  {
    var p := s.mx.todo[0];
    var e := s.mxLog[p];
    if e.kind == Malformed || e.own {
      One(s, MxSkip);
    } else if e.encrypted && o.Undecryptable? {
      One(s, MxGiveUp);
    } else if !(Fresh(s, p) && e.kind == Text) {
      One(s, MxSkip);
    } else {
      FreshIsRun(s, o);
    }
  }

  lemma FreshIsRun(s: Sys, o: MxOutcome)
    requires MxHasHead(s) && (o.Posted? ==> NewTgId(s, o.id))
    requires Fresh(s, s.mx.todo[0]) && s.mxLog[s.mx.todo[0]].kind == Text
    ensures Ran(s, if o.Posted? then [MxMark, MxSend(true, o.id), MxCommit] else [MxMark, MxSend(false, 0)],
                AfterRelay(s, o))
  {
    if o.Posted? {
      FreshPosted(s, o.id);
      Three(s, MxMark, MxSend(true, o.id), MxCommit);
    } else {
      Two(s, MxMark, MxSend(false, 0));
    }
  }

  lemma FreshPosted(s: Sys, id: nat)
    requires MxHasHead(s)
    ensures Apply(Apply(Apply(s, MxMark), MxSend(true, id)), MxCommit) == AfterRelay(s, Posted(id))
  {
  }

  lemma {:induction false} EventsAreRun(s: Sys, outcomes: seq<MxOutcome>, n: nat)
    requires s.mx.MxBatch? && n <= |s.mx.todo| && n <= |outcomes| && UsableIds(outcomes, 0, s.tgLog)
    requires forall i :: 0 <= i < |s.mx.todo| ==> s.mx.todo[i] < |s.mxLog|
    ensures Ran(s, HandleLabelsMx(s, outcomes, n), AfterBatch(s, outcomes, n))
    ensures UsableIds(outcomes, n, AfterBatch(s, outcomes, n).tgLog)
  {
    if n > 0 {
      EventsAreRun(s, outcomes, n - 1);
      var t, o := AfterBatch(s, outcomes, n - 1), outcomes[n - 1];
      assert t.mx.todo[0] == s.mx.todo[n - 1];
      EventIsRun(t, o);
      UsableIdsAfter(outcomes, n - 1, t);
      hide AfterMx, LabelsForMx, UsableIds;
      Joined(s, HandleLabelsMx(s, outcomes, n - 1), t, LabelsForMx(t, t.mx.todo[0], o), AfterMx(t, o));
    }
  }

  /** A pass that runs without interference is one run of the machine, so everything proved of
      all runs holds of `MxRelayOnce`. */
  lemma PassIsRun(s: Sys, answer: Answer, outcomes: seq<MxOutcome>)
    requires s.up && s.mx == MxIdle && Fits(answer, s.nb, |s.mxLog|) && UsableIds(outcomes, 0, s.tgLog)
    requires answer.Answer? ==> answer.upTo - answer.from <= |outcomes|
    ensures Ran(s, PassLabels(s, answer, outcomes), AfterPass(s, answer, outcomes))
  {
    var t := ApplyMxSync(s, answer);
    One(s, MxSync(answer));
    BatchIsRun(s, answer, t, outcomes);
    BatchEnds(s, [MxSync(answer)] + HandleLabelsMx(t, outcomes, |t.mx.todo|), AfterBatch(t, outcomes, |t.mx.todo|));
  }

  lemma BatchIsRun(s: Sys, answer: Answer, t: Sys, outcomes: seq<MxOutcome>)
    requires Ran(s, [MxSync(answer)], t) && t.mx.MxBatch?
    requires |t.mx.todo| <= |outcomes| && UsableIds(outcomes, 0, t.tgLog)
    requires forall i :: 0 <= i < |t.mx.todo| ==> t.mx.todo[i] < |t.mxLog|
    ensures Ran(s, [MxSync(answer)] + HandleLabelsMx(t, outcomes, |t.mx.todo|), AfterBatch(t, outcomes, |t.mx.todo|))
  {
    var n := |t.mx.todo|;
    EventsAreRun(t, outcomes, n);
    Joined(s, [MxSync(answer)], t, HandleLabelsMx(t, outcomes, n), AfterBatch(t, outcomes, n));
  }

  lemma BatchEnds(s: Sys, ls: seq<Label>, t: Sys)
    requires Ran(s, ls, t) && t.mx == MxBatch([])
    ensures Ran(s, ls + [MxEnd], t.(disk := Saved(t.mem), mx := MxIdle))
  {
    More(s, ls, t, MxEnd);
  }
}
