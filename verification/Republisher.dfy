/**
 The MFS republisher of mfs/repub.go: an event loop that publishes the latest value handed to
 Update, some time later, and lets WaitPub callers through.  Update calls come one at a time,
 but each takes two steps when it has to displace an older value from the one-slot channel,
 and everything else may happen in between.  Timers fire whenever they are set.
 */
module Republisher {
  import opened Options

  type Cid = nat
  type Wid = nat

  // ---------- the loop's own variables ----------

  /** toPublish, lastPublished and whether the two timers are running or have fired. */
  datatype Core = Core(toPublish: Option<Cid>, last: Option<Cid>, quick: bool, longer: bool)

  function Cleaned(c: Core): (r: Core) {
    c.(quick := false, longer := false)
  }

  /** A value received on the update channel. */
  function Received(c: Core, v: Cid): (r: Core) {
    if c.last == Some(v) then Cleaned(c.(toPublish := None))
    else Core(Some(v), c.last, true, c.longer || c.toPublish.None?)
  }

  /** A waiter arrived while `pending` was on the update channel. */
  function Asked(c: Core, pending: Option<Cid>): (r: Core) {
    var v := if pending.Some? then pending else c.toPublish;
    Cleaned(c.(toPublish := if v == c.last then None else v))
  }

  function Published(c: Core): (r: Core) {
    c.(toPublish := None, last := c.toPublish)
  }

  class Loop {
    var toPublish: Option<Cid>
    var lastPublished: Option<Cid>
    var quick: bool
    var longer: bool

    function Contents(): (c: Core)
      reads this
    {
      Core(toPublish, lastPublished, quick, longer)
    }

    constructor (lastPublished: Option<Cid>)
      ensures Contents() == Core(None, lastPublished, false, false)
    {
      this.lastPublished := lastPublished;
      toPublish, quick, longer := None, false, false;
    }

    method StopTimers()
      modifies this
      ensures Contents() == Cleaned(old(Contents()))
    {
      quick := false;
      longer := false;
    }

    method OnUpdate(newValue: Cid)
      modifies this
      ensures Contents() == Received(old(Contents()), newValue)
    {
      if lastPublished == Some(newValue) {
        toPublish := None;
        StopTimers();
        return;
      }
      if toPublish.None? { longer := true; }
      quick := true;
      toPublish := Some(newValue);
    }

    method OnWaiter(update: Option<Cid>)
      modifies this
      ensures Contents() == Asked(old(Contents()), update)
    {
      if update.Some? { toPublish := update; }
      if lastPublished == toPublish { toPublish := None; }
      StopTimers();
    }

    method OnPublished()
      modifies this
      ensures Contents() == Published(old(Contents()))
    {
      lastPublished := toPublish;
      toPublish := None;
    }
  }

  // ---------- the loop among its callers ----------

  /** The Update call under way: none, or one that has emptied the channel and will fill it. */
  datatype Updater = Idle | Gap(c: Cid)

  /** Waiting for an event; inside the publishing function, perhaps with a waiter; or stopped. */
  datatype Place = Selecting | Publishing(waiter: Option<Wid>) | Stopped

  /** What a waiter is owed: the value current at its handshake, whether an update was halfway
      then, what the loop held then (with the channel emptied into it), and, once the waiter is
      let through, what had last been published by then. */
  datatype Waiter = Waiter(goal: Option<Cid>, midUpdate: bool, held: Option<Cid>, closedAt: Option<Option<Cid>>)

  /** `current` is the value of the last finished Update; `published` is every success so far. */
  datatype State = State(
    core: Core, place: Place, channel: Option<Cid>, updater: Updater,
    current: Option<Cid>, published: seq<Cid>, waiters: map<Wid, Waiter>
  )

  datatype Step =
    | UpdateSend(c: Cid)
    | UpdateDrain(c: Cid)
    | UpdateFill
    | Receive
    | Handshake(w: Wid)
    | Fire
    | PublishOk
    | PublishFail
    | Cancel

  predicate Enabled(s: State, step: Step) {
    match step
    case UpdateSend(_) => s.updater.Idle? && s.channel.None?
    case UpdateDrain(_) => s.updater.Idle? && s.channel.Some?
    case UpdateFill => s.updater.Gap?
    case Receive => s.place.Selecting? && s.channel.Some?
    case Handshake(w) => s.place.Selecting? && w !in s.waiters
    case Fire => s.place.Selecting? && (s.core.quick || s.core.longer)
    case PublishOk => s.place.Publishing?
    case PublishFail => s.place.Publishing?
    case Cancel => true
  }

  /** The value the loop has or had: about to be published, or published last. */
  function Held(c: Core): (r: Option<Cid>) {
    if c.toPublish.Some? then c.toPublish else c.last
  }

  /** What the loop holds once it has looked at the channel. */
  function Taken(s: State): (r: Option<Cid>) {
    if s.channel.Some? then s.channel else Held(s.core)
  }

  function Close(s: State, w: Wid): (r: State) {
    if w in s.waiters then s.(waiters := s.waiters[w := s.waiters[w].(closedAt := Some(s.core.last))]) else s
  }

  /** After the timers are stopped: publish if there is something, else let the waiter through. */
  function Settle(s: State, waiter: Option<Wid>): (r: State) {
    if s.core.toPublish.Some? then s.(place := Publishing(waiter))
    else if waiter.Some? then Close(s, waiter.value)
    else s
  }

  function Apply(s: State, step: Step): (r: State)
    requires Enabled(s, step)
  {
    match step
    case UpdateSend(c) => s.(channel := Some(c), current := Some(c))
    case UpdateDrain(c) => s.(channel := None, updater := Gap(c))
    case UpdateFill =>
      // The slot is still free, unless another call had filled it.
      if s.channel.None? then s.(channel := Some(s.updater.c), updater := Idle, current := Some(s.updater.c))
      else s.(updater := Idle)
    case Receive => s.(core := Received(s.core, s.channel.value), channel := None)
    case Handshake(w) =>
      var asked := s.(core := Asked(s.core, s.channel), channel := None,
                      waiters := s.waiters[w := Waiter(s.current, s.updater.Gap?, Taken(s), None)]);
      Settle(asked, Some(w))
    case Fire => Settle(s.(core := Cleaned(s.core)), None)
    case PublishOk =>
      if s.core.toPublish.None? then s
      else
        var done := s.(core := Published(s.core), place := Selecting, published := s.published + [s.core.toPublish.value]);
        if s.place.waiter.Some? then Close(done, s.place.waiter.value) else done
    case PublishFail => s
    case Cancel => s.(place := Stopped)
  }

  ghost predicate Init(s: State) {
    && s.core == Core(None, s.current, false, false) && s.place.Selecting? && s.channel.None?
    && s.updater.Idle? && s.published == [] && s.waiters == map[]
  }

  ghost predicate Run(s: State, steps: seq<Step>, s': State)
    decreases |steps|
  {
    if steps == [] then s' == s else Enabled(s, steps[0]) && Run(Apply(s, steps[0]), steps[1..], s')
  }

  // ---------- the invariant ----------

  /** No two neighbours are equal, counting the value published before the run. */
  ghost predicate Alternates(start: Option<Cid>, published: seq<Cid>) {
    && (published != [] ==> start != Some(published[0]))
    && forall i :: 0 < i < |published| ==> published[i - 1] != published[i]
  }

  function LastOf(start: Option<Cid>, published: seq<Cid>): (r: Option<Cid>) {
    if published == [] then start else Some(published[|published| - 1])
  }

  ghost predicate CoreOk(start: Option<Cid>, s: State) {
    && s.core.last == LastOf(start, s.published) && Alternates(start, s.published)
    && (s.core.toPublish.Some? ==> s.core.toPublish != s.core.last)
    && (s.place.Publishing? ==> s.core.toPublish.Some? && !s.core.quick && !s.core.longer)
    && (s.place.Selecting? ==> (s.core.toPublish.Some? <==> s.core.quick) && (s.core.toPublish.Some? <==> s.core.longer))
  }

  /** The current value is on the channel or, if the channel is empty and no update is halfway,
      held by the loop. */
  ghost predicate CurrentOk(s: State) {
    && (s.updater.Gap? ==> s.channel.None?)
    && (s.channel.Some? ==> s.current == s.channel)
    && (s.channel.None? && s.updater.Idle? ==> s.current == Held(s.core))
  }

  /** What the loop held at the handshake is what is being published for the waiter, or was last
      published when it was let through; and between updates it is the current value. */
  ghost predicate WaiterOk(s: State, w: Wid) {
    w in s.waiters ==>
      && (!s.waiters[w].midUpdate ==> s.waiters[w].held == s.waiters[w].goal)
      && (s.waiters[w].closedAt.Some? ==> s.waiters[w].closedAt.value == s.waiters[w].held)
      && (s.waiters[w].closedAt.None? && s.place == Publishing(Some(w)) ==> s.core.toPublish == s.waiters[w].held)
  }

  ghost predicate WaiterKnown(s: State) {
    s.place.Publishing? && s.place.waiter.Some? ==> s.place.waiter.value in s.waiters && s.waiters[s.place.waiter.value].closedAt.None?
  }

  ghost predicate Inv(start: Option<Cid>, s: State) {
    CoreOk(start, s) && CurrentOk(s) && WaiterKnown(s) && forall w :: WaiterOk(s, w)
  }

  lemma AlternatesNext(start: Option<Cid>, published: seq<Cid>, c: Cid)
    requires Alternates(start, published) && LastOf(start, published) != Some(c)
    ensures Alternates(start, published + [c]) && LastOf(start, published + [c]) == Some(c)
  {
  }

  lemma PublishKeeps(start: Option<Cid>, s: State)
    requires Inv(start, s) && Enabled(s, PublishOk)
    ensures Inv(start, Apply(s, PublishOk))
  {
    var s' := Apply(s, PublishOk);
    AlternatesNext(start, s.published, s.core.toPublish.value);
    forall w ensures WaiterOk(s', w) { assert WaiterOk(s, w); }
  }

  lemma HandshakeKeeps(start: Option<Cid>, s: State, w: Wid)
    requires Inv(start, s) && Enabled(s, Handshake(w))
    ensures Inv(start, Apply(s, Handshake(w)))
  {
    var s' := Apply(s, Handshake(w));
    forall x ensures WaiterOk(s', x) { assert WaiterOk(s, x); }
  }

  lemma StepKeeps(start: Option<Cid>, s: State, step: Step)
    requires Inv(start, s) && Enabled(s, step)
    ensures Inv(start, Apply(s, step))
  {
    if step.PublishOk? {
      PublishKeeps(start, s);
    } else if step.Handshake? {
      HandshakeKeeps(start, s, step.w);
    } else {
      forall w ensures WaiterOk(Apply(s, step), w) { assert WaiterOk(s, w); }
    }
  }

  lemma {:induction false} RunKeeps(start: Option<Cid>, s: State, steps: seq<Step>, s': State)
    requires Inv(start, s) && Run(s, steps, s')
    ensures Inv(start, s')
    decreases |steps|
  {
    if steps != [] {
      StepKeeps(start, s, steps[0]);
      RunKeeps(start, Apply(s, steps[0]), steps[1..], s');
    }
  }

  // ---------- what the republisher promises ----------

  /** In every run two consecutive successful publishes carry different values, and the first
      one differs from what had been published before the run. */
  lemma NeverTwiceInARow(s: State, steps: seq<Step>, s': State)
    requires Init(s) && Run(s, steps, s')
    ensures Alternates(s.core.last, s'.published)
  {
    RunKeeps(s.core.last, s, steps, s');
  }

  /** In every run, while the loop waits for an event, a value is pending exactly when the quick
      timer is set and exactly when the long timer is set. */
  lemma PendingIffTimers(s: State, steps: seq<Step>, s': State)
    requires Init(s) && Run(s, steps, s') && s'.place.Selecting?
    ensures (s'.core.toPublish.Some? <==> s'.core.quick) && (s'.core.toPublish.Some? <==> s'.core.longer)
  {
    RunKeeps(s.core.last, s, steps, s');
  }

  /** In every run, a waiter that shook hands between updates is let through only when the value
      current at its handshake is the one published last. */
  lemma WaitersSeeCurrentValue(s: State, steps: seq<Step>, s': State, w: Wid)
    requires Init(s) && Run(s, steps, s')
    requires w in s'.waiters && s'.waiters[w].closedAt.Some? && !s'.waiters[w].midUpdate
    ensures s'.waiters[w].closedAt.value == s'.waiters[w].goal
  {
    RunKeeps(s.core.last, s, steps, s');
    assert WaiterOk(s', w);
  }

  /** In every run, a waiter is let through with the value that was current at its handshake being
      the one published last, if and only if that is the value the loop held at the handshake.
      Only the middle of an update can make a difference between the two. */
  lemma MidUpdateIff(s: State, steps: seq<Step>, s': State, w: Wid)
    requires Init(s) && Run(s, steps, s') && w in s'.waiters && s'.waiters[w].closedAt.Some?
    ensures s'.waiters[w].closedAt.value == s'.waiters[w].goal <==> s'.waiters[w].held == s'.waiters[w].goal
    ensures s'.waiters[w].held != s'.waiters[w].goal ==> s'.waiters[w].midUpdate
  {
    RunKeeps(s.core.last, s, steps, s');
    assert WaiterOk(s', w);
  }

  /** At a handshake in the middle of an update, the loop holds the current value if and only if
      it is pending already or was published last. */
  lemma HeldMidUpdate(s: State, w: Wid)
    requires Enabled(s, Handshake(w)) && s.channel.None?
    ensures var waiter := Apply(s, Handshake(w)).waiters[w];
            waiter.held == waiter.goal <==>
              s.current == if s.core.toPublish.Some? then s.core.toPublish else s.core.last
  {
  }

  /** One update finished, the next one halfway: the waiter is let through although neither
      value has been published. */
  lemma MidUpdateExample(a: Cid, b: Cid, w: Wid) returns (s: State, steps: seq<Step>, s': State)
    ensures Init(s) && Run(s, steps, s')
    ensures w in s'.waiters && s'.waiters[w].goal == Some(a) && s'.waiters[w].closedAt.Some? && s'.published == []
  {
    s := State(Core(None, None, false, false), Selecting, None, Idle, None, [], map[]);
    steps := [UpdateSend(a), UpdateDrain(b), Handshake(w)];
    var s1 := Apply(s, UpdateSend(a));
    var s2 := Apply(s1, UpdateDrain(b));
    s' := Apply(s2, Handshake(w));
    assert Run(s2, [Handshake(w)], s');
    assert Run(s1, [UpdateDrain(b), Handshake(w)], s') by { assert [UpdateDrain(b), Handshake(w)][1..] == [Handshake(w)]; }
    assert steps[1..] == [UpdateDrain(b), Handshake(w)];
  }

  // ---------- what is pending gets out ----------

  /** The steps of the loop itself, as long as publishing works. */
  predicate LoopStep(step: Step) {
    step.Receive? || step.Fire? || step.PublishOk?
  }

  ghost predicate LoopOnly(steps: seq<Step>) {
    forall k :: 0 <= k < |steps| ==> LoopStep(steps[k])
  }

  /** How many steps the loop has left: a value on the channel may be received, waited for and
      published; a pending one waited for and published. */
  function Work(s: State): (n: nat) {
    (if s.channel.Some? then 3 else 0) +
    (if s.place.Publishing? then 1 else if s.place.Selecting? && s.core.toPublish.Some? then 2 else 0)
  }

  lemma LoopStepWorks(start: Option<Cid>, s: State, step: Step)
    requires Inv(start, s) && Enabled(s, step) && LoopStep(step)
    ensures var s' := Apply(s, step);
            Inv(start, s') && Work(s') < Work(s) && s'.current == s.current && s'.updater == s.updater && (s'.place.Stopped? <==> s.place.Stopped?)
  {
    StepKeeps(start, s, step);
  }

  ghost predicate LoopAtRest(s: State) {
    !Enabled(s, Receive) && !Enabled(s, Fire) && !Enabled(s, PublishOk)
  }

  lemma RestMeansPublished(start: Option<Cid>, s: State)
    requires Inv(start, s) && !s.place.Stopped? && s.updater.Idle? && LoopAtRest(s)
    ensures LastOf(start, s.published) == s.current
  {
  }

  lemma {:induction false} LoopRun(start: Option<Cid>, s: State, steps: seq<Step>, s': State)
    requires Inv(start, s) && Run(s, steps, s') && LoopOnly(steps)
    ensures Inv(start, s') && |steps| + Work(s') <= Work(s)
    ensures s'.current == s.current && s'.updater == s.updater && (s'.place.Stopped? <==> s.place.Stopped?)
    decreases |steps|
  {
    if steps != [] {
      LoopStepWorks(start, s, steps[0]);
      LoopRun(start, Apply(s, steps[0]), steps[1..], s');
    }
  }

  /** From every state of a run that is not stopped and has no update halfway, whatever is pending
      and whoever waits: the loop makes at most five steps of its own, in whatever order they come,
      and when it has none left the current value is the one published last. */
  lemma CurrentValueGetsOut(s: State, steps: seq<Step>, s1: State, more: seq<Step>, s': State)
    requires Init(s) && Run(s, steps, s1) && !s1.place.Stopped? && s1.updater.Idle?
    requires Run(s1, more, s') && LoopOnly(more)
    ensures |more| <= 5
    ensures LoopAtRest(s') ==> LastOf(s.core.last, s'.published) == s1.current
  {
    RunKeeps(s.core.last, s, steps, s1);
    LoopRun(s.core.last, s1, more, s');
    if LoopAtRest(s') { RestMeansPublished(s.core.last, s'); }
  }

  lemma RunCons(s: State, step: Step, rest: seq<Step>, s': State)
    requires Enabled(s, step) && Run(Apply(s, step), rest, s')
    ensures Run(s, [step] + rest, s')
  {
    assert ([step] + rest)[1..] == rest;
  }

  /** And it comes to rest. */
  lemma {:induction false} LoopComesToRest(start: Option<Cid>, s: State) returns (more: seq<Step>, s': State)
    requires Inv(start, s)
    ensures Run(s, more, s') && LoopOnly(more) && LoopAtRest(s')
    decreases Work(s)
  {
    if LoopAtRest(s) { return [], s; }
    var step := if Enabled(s, Receive) then Receive else if Enabled(s, Fire) then Fire else PublishOk;
    LoopStepWorks(start, s, step);
    var rest;
    rest, s' := LoopComesToRest(start, Apply(s, step));
    RunCons(s, step, rest, s');
    more := [step] + rest;
  }

  // ---------- no waiter is forgotten ----------

  /** A waiter is through, or is the one being published for, or the loop has stopped. */
  ghost predicate Attended(s: State, w: Wid) {
    w in s.waiters ==> s.waiters[w].closedAt.Some? || s.place == Publishing(Some(w)) || s.place.Stopped?
  }

  lemma StepAttends(start: Option<Cid>, s: State, step: Step, w: Wid)
    requires Inv(start, s) && Enabled(s, step) && Attended(s, w)
    ensures Attended(Apply(s, step), w)
    ensures w in s.waiters ==> w in Apply(s, step).waiters
  {
  }

  lemma {:induction false} RunAttends(start: Option<Cid>, s: State, steps: seq<Step>, s': State, w: Wid)
    requires Inv(start, s) && Run(s, steps, s') && Attended(s, w)
    ensures Attended(s', w)
    decreases |steps|
  {
    if steps != [] {
      StepKeeps(start, s, steps[0]);
      StepAttends(start, s, steps[0], w);
      RunAttends(start, Apply(s, steps[0]), steps[1..], s', w);
    }
  }

  /** In every run, a waiter that is not through yet, while the loop is not stopped, is let
      through by the next publish that succeeds, and by then the value that the loop held at its
      handshake has been published last. */
  lemma WaitersAreLetThrough(s: State, steps: seq<Step>, s': State, w: Wid)
    requires Init(s) && Run(s, steps, s') && w in s'.waiters && s'.waiters[w].closedAt.None? && !s'.place.Stopped?
    ensures Enabled(s', PublishOk)
    ensures var after := Apply(s', PublishOk);
            && w in after.waiters && after.waiters[w].closedAt == Some(after.waiters[w].held)
            && after.waiters[w].held == LastOf(s.core.last, after.published) && |after.published| == |s'.published| + 1
  {
    RunKeeps(s.core.last, s, steps, s');
    RunAttends(s.core.last, s, steps, s', w);
    assert WaiterOk(s', w);
  }

  // ---------- Update never waits ----------

  /** In every run, whatever the loop is doing, an Update that starts when no other is under way goes
      through by its own steps alone, and its value is then current and on the channel. */
  lemma UpdateGoesThrough(s: State, steps: seq<Step>, s1: State, c: Cid) returns (more: seq<Step>, s': State)
    requires Init(s) && Run(s, steps, s1) && s1.updater.Idle?
    ensures Run(s1, more, s') && forall k :: 0 <= k < |more| ==> more[k] == UpdateSend(c) || more[k] == UpdateDrain(c) || more[k] == UpdateFill
    ensures s'.updater.Idle? && s'.current == s'.channel == Some(c) && s'.core == s1.core && s'.published == s1.published
  {
    if s1.channel.None? {
      s' := Apply(s1, UpdateSend(c));
      more := [UpdateSend(c)];
    } else {
      var mid := Apply(s1, UpdateDrain(c));
      s' := Apply(mid, UpdateFill);
      more := [UpdateDrain(c), UpdateFill];
      assert Run(mid, [UpdateFill], s');
      assert more[1..] == [UpdateFill];
    }
  }
}
