/** Album batching with a debounce: messages of one media group are collected
    in a send plan, and a periodic tick forwards every group that has been
    quiet long enough to every recipient, then evicts it. Time is a number of
    seconds passed in by the caller. */
module MessageSender {
  import opened Settings

  type ChatId = int
  type MessageId = int
  type GroupId = string

  /** How long a group must have been quiet before it is forwarded. */
  const SendDelaySeconds: nat := 10

  /** One open media group: the chat its first message came from, the ids in
      arrival order and the time of its latest message. */
  datatype GroupInfo = GroupInfo(from: ChatId, ids: seq<MessageId>, lastTs: nat)

  /** A message of a media group, as it comes off the queue. */
  datatype MessageInfo = MessageInfo(from: ChatId, id: MessageId, group: GroupId)

  /** One remote forward call: these messages of chat `from` to `to`. */
  datatype Forward = Forward(to: Recepient, from: ChatId, ids: seq<MessageId>)

  type Plan = map<GroupId, GroupInfo>

  /** A message together with the time it was taken off the queue. */
  datatype Arrival = Arrival(msg: MessageInfo, at: nat)

  /** No entry of the plan is later than `now`. */
  predicate NotAfter(plan: Plan, now: nat)
  {
    forall g :: g in plan ==> plan[g].lastTs <= now
  }

  /** The group has had no new message for the whole send delay. */
  predicate Quiet(info: GroupInfo, now: nat)
  {
    info.lastTs + SendDelaySeconds <= now
  }

  /** The groups a tick at `now` forwards. */
  function Eligible(plan: Plan, now: nat): set<GroupId>
  {
    set g | g in plan && Quiet(plan[g], now)
  }

  /** The groups a tick at `now` leaves in the plan, untouched. */
  function Remaining(plan: Plan, now: nat): Plan
  {
    map g | g in plan && !Quiet(plan[g], now) :: plan[g]
  }

  /** A tick splits the plan: the quiet groups go, every other group stays
      with its source chat, ids and timestamp as they were. */
  lemma TickSplitsPlan(plan: Plan, now: nat, g: GroupId)
    requires g in plan
    ensures g in Eligible(plan, now) <==> g !in Remaining(plan, now)
    ensures g in Remaining(plan, now) ==> Remaining(plan, now)[g] == plan[g]
    ensures Remaining(plan, now).Keys <= plan.Keys
  {
  }

  /** A group sent by one tick is not sent again by a later tick unless a new
      message has reopened it. */
  lemma NotSentTwice(plan: Plan, now: nat, later: nat)
    ensures Eligible(plan, now) !! Eligible(Remaining(plan, now), later)
  {
  }

  /** A fresh group entry, before its first message id is pushed. */
  function NewGroupInfo(from: ChatId, now: nat): GroupInfo
  {
    GroupInfo(from, [], now)
  }

  /** The plan after one message is ingested at `now`. */
  function Ingested(plan: Plan, m: MessageInfo, now: nat): Plan
  {
    var entry := if m.group in plan then plan[m.group] else NewGroupInfo(m.from, now);
    plan[m.group := GroupInfo(entry.from, entry.ids + [m.id], now)]
  }

  /** The plan after a run of arrivals, oldest first, with no tick between. */
  function IngestAll(plan: Plan, arrivals: seq<Arrival>): Plan
  {
    if arrivals == [] then plan
    else
      var last := arrivals[|arrivals| - 1];
      Ingested(IngestAll(plan, arrivals[..|arrivals| - 1]), last.msg, last.at)
  }

  /** The ids of the arrivals for group `g`, in arrival order. */
  function IdsFor(arrivals: seq<Arrival>, g: GroupId): seq<MessageId>
  {
    if arrivals == [] then []
    else
      var last := arrivals[|arrivals| - 1];
      IdsFor(arrivals[..|arrivals| - 1], g) + (if last.msg.group == g then [last.msg.id] else [])
  }

  /** The forwards of one group: one per recipient, in recipient order. */
  function Block(info: GroupInfo, rs: seq<Recepient>): seq<Forward>
  {
    seq(|rs|, j requires 0 <= j < |rs| => Forward(rs[j], info.from, info.ids))
  }

  /** The forwards of a tick that sends the groups of `order`, in that order. */
  function Fanout(order: seq<GroupId>, plan: Plan, rs: seq<Recepient>): (f: seq<Forward>)
    requires forall i :: 0 <= i < |order| ==> order[i] in plan
    ensures |f| == |order| * |rs|
  {
    if order == [] then []
    else
      var init := order[..|order| - 1];
      assert |order| * |rs| == |init| * |rs| + |rs|;
      Fanout(init, plan, rs) + Block(plan[order[|order| - 1]], rs)
  }

  /** Forward number `i * |rs| + j` of a tick is the one of its `i`-th group
      to its `j`-th recipient, carrying the group's source chat and its whole
      id list in arrival order. */
  lemma {:induction false} FanoutAt(order: seq<GroupId>, plan: Plan, rs: seq<Recepient>, i: nat, j: nat)
    requires forall k :: 0 <= k < |order| ==> order[k] in plan
    requires i < |order| && j < |rs|
    ensures i * |rs| + j < |Fanout(order, plan, rs)|
    ensures Fanout(order, plan, rs)[i * |rs| + j] == Forward(rs[j], plan[order[i]].from, plan[order[i]].ids)
  {
    var init := order[..|order| - 1];
    var f := Fanout(order, plan, rs);
    assert f == Fanout(init, plan, rs) + Block(plan[order[|order| - 1]], rs);
    if i == |order| - 1 {
      assert i * |rs| == |init| * |rs|;
    } else {
      FanoutAt(init, plan, rs, i, j);
      assert init[i] == order[i];
    }
  }

  /** Every forward of a tick belongs to one of the groups it sent and goes
      to one of the recipients. */
  lemma {:induction false} FanoutOnlySent(order: seq<GroupId>, plan: Plan, rs: seq<Recepient>, f: Forward)
    requires forall k :: 0 <= k < |order| ==> order[k] in plan
    requires f in Fanout(order, plan, rs)
    ensures f.to in rs
    ensures exists i :: 0 <= i < |order| && f.from == plan[order[i]].from && f.ids == plan[order[i]].ids
  {
    var init := order[..|order| - 1];
    var last := order[|order| - 1];
    if f in Fanout(init, plan, rs) {
      FanoutOnlySent(init, plan, rs, f);
      var i :| 0 <= i < |init| && f.from == plan[init[i]].from && f.ids == plan[init[i]].ids;
      assert order[i] == init[i];
    } else {
      assert f in Block(plan[last], rs);
      assert f.from == plan[order[|order| - 1]].from;
    }
  }

  /** Ingesting a run of messages collects, for every group, exactly the ids
      that arrived for it, appended in arrival order to what it held; a group
      already open keeps its source chat. */
  lemma {:induction false} IngestAllCollects(plan: Plan, arrivals: seq<Arrival>, g: GroupId)
    ensures g in IngestAll(plan, arrivals) <==> g in plan || IdsFor(arrivals, g) != []
    ensures g in IngestAll(plan, arrivals) ==>
      IngestAll(plan, arrivals)[g].ids == (if g in plan then plan[g].ids else []) + IdsFor(arrivals, g)
    ensures g in plan ==> IngestAll(plan, arrivals)[g].from == plan[g].from
  {
    if arrivals != [] {
      var init := arrivals[..|arrivals| - 1];
      IngestAllCollects(plan, init, g);
      var before := if g in plan then plan[g].ids else [];
      if arrivals[|arrivals| - 1].msg.group == g && g in IngestAll(plan, init) {
        assert before + IdsFor(init, g) + [arrivals[|arrivals| - 1].msg.id]
            == before + (IdsFor(init, g) + [arrivals[|arrivals| - 1].msg.id]);
      }
    }
  }

  /** Two messages of one group with a tick between them that finds the group
      quiet are delivered as two units: the tick evicts the group, and the
      later message opens a new entry holding only its own id. */
  lemma SplitAcrossTick(plan: Plan, m1: MessageInfo, t1: nat, tick: nat, m2: MessageInfo, t2: nat)
    requires m1.group == m2.group
    requires t1 + SendDelaySeconds <= tick
    ensures m1.group in Eligible(Ingested(plan, m1, t1), tick)
    ensures m1.group !in Remaining(Ingested(plan, m1, t1), tick)
    ensures Ingested(Remaining(Ingested(plan, m1, t1), tick), m2, t2)[m2.group]
         == GroupInfo(m2.from, [m2.id], t2)
  {
  }

  /** Where a tick's scan stands: `pending` are the groups not yet visited,
      and `toRemove` lists, once each, exactly the visited groups that were
      quiet. */
  predicate ScanState(plan: Plan, now: nat, pending: set<GroupId>, toRemove: seq<GroupId>)
  {
    && pending <= plan.Keys
    && NoDuplicates(toRemove)
    && (forall i :: 0 <= i < |toRemove| ==>
          toRemove[i] in plan && toRemove[i] !in pending && Quiet(plan[toRemove[i]], now))
    && (forall g :: g in plan && g !in pending && Quiet(plan[g], now) ==> g in toRemove)
  }

  /** Visiting a group that is not quiet leaves the list of groups to remove
      as it is. */
  lemma ScanSkip(plan: Plan, now: nat, pending: set<GroupId>, toRemove: seq<GroupId>, g: GroupId)
    requires ScanState(plan, now, pending, toRemove)
    requires g in pending && !Quiet(plan[g], now)
    ensures ScanState(plan, now, pending - {g}, toRemove)
  {
  }

  /** Visiting a quiet group appends it to the list of groups to remove. */
  lemma ScanTake(plan: Plan, now: nat, pending: set<GroupId>, toRemove: seq<GroupId>, g: GroupId)
    requires ScanState(plan, now, pending, toRemove)
    requires g in pending && Quiet(plan[g], now)
    ensures ScanState(plan, now, pending - {g}, toRemove + [g])
  {
  }

  /** Once every group is visited, the list holds exactly the quiet groups. */
  lemma ScanDone(plan: Plan, now: nat, toRemove: seq<GroupId>)
    requires ScanState(plan, now, {}, toRemove)
    ensures forall g :: g in toRemove <==> g in Eligible(plan, now)
  {
  }

  /** What the queue reports when the loop polls it. */
  datatype Poll = Received(msg: MessageInfo) | Empty | Disconnected

  /** One turn of the loop: whether the queue is closed at the loop test, what
      the poll returns, and the time of the turn. */
  datatype Step = Step(closed: bool, poll: Poll, now: nat)

  predicate Stops(s: Step)
  {
    s.closed || s.poll.Disconnected?
  }

  /** The index of the first turn that ends the loop, or the number of turns. */
  function StopAt(steps: seq<Step>): (k: nat)
    ensures k <= |steps|
    ensures forall i :: 0 <= i < k ==> !Stops(steps[i])
    ensures k < |steps| ==> Stops(steps[k])
  {
    if steps == [] then 0
    else if Stops(steps[0]) then 0
    else 1 + StopAt(steps[1..])
  }

  /** The number of turns whose poll found the queue empty. */
  function CountEmpty(steps: seq<Step>): nat
  {
    if steps == [] then 0
    else CountEmpty(steps[..|steps| - 1]) + (if steps[|steps| - 1].poll.Empty? then 1 else 0)
  }

  /** The messages received in a run of turns, with their times. */
  function Arrivals(steps: seq<Step>): seq<Arrival>
  {
    if steps == [] then []
    else
      var last := steps[|steps| - 1];
      Arrivals(steps[..|steps| - 1]) + (if last.poll.Received? then [Arrival(last.poll.msg, last.now)] else [])
  }

  /** The clock condition the tick's `now - lastTs` needs of the turns the
      loop runs: a turn that finds the queue empty is no earlier than any
      message received before it, since that message set its group's
      timestamp. Ticks may step back against earlier ticks, and turns after
      the stop are not constrained. */
  predicate TicksAfterArrivals(steps: seq<Step>)
  {
    forall i, j :: 0 <= i < j < StopAt(steps) && steps[i].poll.Received? && steps[j].poll.Empty? ==> steps[i].now <= steps[j].now
  }

  /** The sender: the send plan it owns and the settings store it reads the
      recipients from. */
  class MessageSender {
    const settings: Accessor
    var plan: Plan

    /** A sender with an empty send plan. */
    constructor (settings: Accessor)
      ensures this.settings == settings && plan == map[]
    {
      this.settings := settings;
      plan := map[];
    }

    /** Takes one message into the plan: the group's entry is created from
        the message's chat if absent, its timestamp set to `now` and the id
        appended; no other group changes. */
    method Ingest(m: MessageInfo, now: nat)
      modifies this`plan
      ensures plan == Ingested(old(plan), m, now)
      ensures m.group in plan && plan[m.group].lastTs == now
      ensures m.group in old(plan) ==>
        plan[m.group].ids == old(plan)[m.group].ids + [m.id] && plan[m.group].from == old(plan)[m.group].from
      ensures m.group !in old(plan) ==> plan[m.group].ids == [m.id] && plan[m.group].from == m.from
      ensures forall g :: g != m.group ==> (g in plan <==> g in old(plan))
      ensures forall g :: g != m.group && g in plan ==> plan[g] == old(plan)[g]
    {
      if m.group !in plan {
        plan := plan[m.group := NewGroupInfo(m.from, now)];
      }
      var entry := plan[m.group];
      entry := entry.(lastTs := now);
      entry := entry.(ids := entry.ids + [m.id]);
      plan := plan[m.group := entry];
    }

    /** One tick. Each group quiet for the send delay, taken in some order,
        is forwarded to every recipient read from the store at that point;
        afterwards the forwarded groups, and only they, are removed. A failed
        read of the recipients ends the tick with an error and removes
        nothing. Returns the forwards issued and the groups sent, in the order
        they were taken. */
    method Tick(now: nat) returns (result: Result<()>, forwards: seq<Forward>, sent: seq<GroupId>)
      requires NotAfter(plan, now)
      modifies this`plan, settings`loaded, settings`recepients
      ensures NoDuplicates(sent)
      ensures forall i :: 0 <= i < |sent| ==> sent[i] in old(plan) && Quiet(old(plan)[sent[i]], now)
      ensures sent == [] ==> forwards == []
      ensures sent != [] ==> settings.loaded && forwards == Fanout(sent, old(plan), settings.recepients)
      ensures LoadStep(old(settings.loaded), old(settings.recepients), settings.disk, settings.loaded, settings.recepients)
      ensures result.Err? <==>
        Eligible(old(plan), now) != {} && !old(settings.loaded) && LoadFrom(settings.disk).Err?
      ensures result.Ok? ==> (forall g :: g in sent <==> g in Eligible(old(plan), now))
      ensures result.Ok? ==> plan == Remaining(old(plan), now)
      ensures result.Err? ==> result.error == LoadFailed && plan == old(plan) && sent == [] && forwards == []
    {
      result, forwards, sent := Scan(now);
      if result.Err? {
        return;
      }
      Evict(sent);
      assert plan == Remaining(old(plan), now) by {
        forall g | g in old(plan) ensures g in sent <==> Quiet(old(plan)[g], now) {
        }
      }
    }

    /** The scan of a tick, before anything is removed: the forwards for
        every quiet group, in the order the groups are taken, and the list of
        groups to remove. Stops at the first failed read of the recipients. */
    method Scan(now: nat) returns (result: Result<()>, forwards: seq<Forward>, toRemove: seq<GroupId>)
      requires NotAfter(plan, now)
      modifies settings`loaded, settings`recepients
      ensures NoDuplicates(toRemove)
      ensures forall i :: 0 <= i < |toRemove| ==> toRemove[i] in plan && Quiet(plan[toRemove[i]], now)
      ensures toRemove == [] ==> forwards == []
      ensures toRemove != [] ==> settings.loaded && forwards == Fanout(toRemove, plan, settings.recepients)
      ensures LoadStep(old(settings.loaded), old(settings.recepients), settings.disk, settings.loaded, settings.recepients)
      ensures result.Err? <==>
        Eligible(plan, now) != {} && !old(settings.loaded) && LoadFrom(settings.disk).Err?
      ensures result.Ok? ==> (forall g :: g in toRemove <==> g in Eligible(plan, now))
      ensures result.Err? ==> result.error == LoadFailed && toRemove == [] && forwards == []
    {
      var current := plan;
      var pending := current.Keys;
      toRemove := [];
      forwards := [];
      while pending != {}
        invariant ScanState(current, now, pending, toRemove)
        invariant toRemove == [] ==> forwards == [] && settings.loaded == old(settings.loaded)
        invariant toRemove != [] ==> settings.loaded && forwards == Fanout(toRemove, current, settings.recepients)
        invariant LoadStep(old(settings.loaded), old(settings.recepients), settings.disk, settings.loaded, settings.recepients)
        decreases |pending|
      {
        var g :| g in pending;
        var info := current[g];
        if now - info.lastTs < SendDelaySeconds {
          ScanSkip(current, now, pending, toRemove, g);
          pending := pending - {g};
          continue;
        }
        var sendResult, block := SendGroup(info);
        if sendResult.Err? {
          assert g in Eligible(current, now);
          return sendResult, forwards, toRemove;
        }
        ScanTake(current, now, pending, toRemove, g);
        forwards := forwards + block;
        assert (toRemove + [g])[..|toRemove|] == toRemove;
        pending, toRemove := pending - {g}, toRemove + [g];
      }
      ScanDone(current, now, toRemove);
      result := Ok(());
    }

    /** Sending one quiet group: read the recipients from the store, then one
        forward of the group's messages per recipient. */
    method SendGroup(info: GroupInfo) returns (result: Result<()>, block: seq<Forward>)
      modifies settings`loaded, settings`recepients
      ensures result.Ok? ==> settings.loaded && block == Block(info, settings.recepients)
      ensures result.Ok? && old(settings.loaded) ==> settings.recepients == old(settings.recepients)
      ensures result.Ok? && !old(settings.loaded) ==> LoadFrom(settings.disk) == Ok(settings.recepients)
      ensures result.Err? <==> !old(settings.loaded) && LoadFrom(settings.disk).Err?
      ensures result.Err? ==> result.error == LoadFailed && block == []
      ensures result.Err? ==> !settings.loaded && settings.recepients == old(settings.recepients)
    {
      var got := settings.GetSettings();
      if got.Err? {
        return Err(got.error), [];
      }
      block := ForwardToAll(info, got.value);
      result := Ok(());
    }

    /** The fan-out for one group: one forward of the group's messages per
        recipient. */
    static method ForwardToAll(info: GroupInfo, rs: seq<Recepient>) returns (block: seq<Forward>)
      ensures block == Block(info, rs)
    {
      block := [];
      for j := 0 to |rs|
        invariant block == Block(info, rs)[..j]
      {
        assert Block(info, rs)[..j + 1] == Block(info, rs)[..j] + [Forward(rs[j], info.from, info.ids)];
        block := block + [Forward(rs[j], info.from, info.ids)];
      }
      assert Block(info, rs)[..|rs|] == Block(info, rs);
    }

    /** Removes every listed group from the plan and nothing else. */
    method Evict(groups: seq<GroupId>)
      modifies this`plan
      ensures plan == map g | g in old(plan) && g !in groups :: old(plan)[g]
    {
      for k := 0 to |groups|
        invariant plan == map g | g in old(plan) && g !in groups[..k] :: old(plan)[g]
      {
        assert groups[..k + 1] == groups[..k] + [groups[k]];
        plan := plan - {groups[k]};
      }
      assert groups[..|groups|] == groups;
    }

    /** The receive loop over a finite run of turns: a closed or disconnected
        queue ends it, a received message is ingested, and an empty queue
        costs exactly one tick (whose error is only logged) before the pause.
        Returns how many turns ran, how many ticks they made and every forward
        issued. */
    method Run(steps: seq<Step>) returns (turns: nat, ticks: nat, log: seq<Forward>)
      requires TicksAfterArrivals(steps)
      requires forall j :: 0 <= j < StopAt(steps) && steps[j].poll.Empty? ==> NotAfter(plan, steps[j].now)
      modifies this`plan, settings`loaded, settings`recepients
      ensures turns == StopAt(steps)
      ensures ticks == CountEmpty(steps[..turns])
      ensures ticks == 0 ==> log == [] && plan == IngestAll(old(plan), Arrivals(steps[..turns]))
    {
      turns, ticks, log := 0, 0, [];
      while turns < |steps| && !steps[turns].closed
        invariant turns <= StopAt(steps)
        invariant forall j :: turns <= j < StopAt(steps) && steps[j].poll.Empty? ==> NotAfter(plan, steps[j].now)
        invariant ticks == CountEmpty(steps[..turns])
        invariant ticks == 0 ==> log == [] && plan == IngestAll(old(plan), Arrivals(steps[..turns]))
        decreases |steps| - turns
      {
        var step := steps[turns];
        assert steps[..turns + 1] == steps[..turns] + [step];
        assert steps[..turns + 1][..turns] == steps[..turns];
        if step.poll.Disconnected? {
          break;
        } else if step.poll.Received? {
          Ingest(step.poll.msg, step.now);
        } else {
          var result, forwards, sent := Tick(step.now);
          log := log + forwards;
          ticks := ticks + 1;
        }
        turns := turns + 1;
        forall j | turns <= j < StopAt(steps) && steps[j].poll.Empty?
          ensures NotAfter(plan, steps[j].now)
        {
          if step.poll.Received? {
            assert steps[turns - 1].now <= steps[j].now;
          }
        }
      }
    }
  }

  /** Three messages of album "A" arriving as 5, 3, 4 within the send delay:
      a tick before the delay has passed forwards nothing, and the first tick
      after it forwards the album once, with its ids in arrival order. */
  method AlbumScenario(r: Recepient, source: ChatId, t: nat)
    returns (early: seq<Forward>, forwards: seq<Forward>, planAfter: Plan)
    ensures early == []
    ensures forwards == [Forward(r, source, [5, 3, 4])]
    ensures planAfter == map[]
  {
    var store := new Accessor(Valid([r]));
    var sender := new MessageSender(store);
    sender.Ingest(MessageInfo(source, 5, "A"), t);
    assert sender.plan == map["A" := GroupInfo(source, [5], t)];
    sender.Ingest(MessageInfo(source, 3, "A"), t + 1);
    assert [5] + [3] == [5, 3];
    assert sender.plan == map["A" := GroupInfo(source, [5, 3], t + 1)];
    sender.Ingest(MessageInfo(source, 4, "A"), t + 2);
    assert [5, 3] + [4] == [5, 3, 4];
    var album := sender.plan;
    assert album == map["A" := GroupInfo(source, [5, 3, 4], t + 2)];
    var result, sent;
    result, early, sent := sender.Tick(t + 5);
    assert Eligible(album, t + 5) == {};
    result, forwards, sent := sender.Tick(t + 12);
    assert "A" in Eligible(album, t + 12);
    assert "A" in sent;
    assert sent == ["A"];
    assert sent[..0] == [];
    assert Block(album["A"], [r]) == [Forward(r, source, [5, 3, 4])];
    planAfter := sender.plan;
  }
}
