// router/router.go: the coalescing invoke cache.  Invoke's critical sections
// are the steps of a transition system over any number of callers; the bus, the
// decoders, the clock and cancellation are arbitrary step inputs.
module Router {
  import opened Numerals

  type Key = string
  type Caller = nat
  type Channel = nat
  type Nanos = int

  datatype Frame = Frame(source: nat, target: nat, primary: nat, secondary: nat, data: seq<nat>)

  /** invokeEntry */
  datatype Entry = Entry(running: bool, done: Channel, lastOKAt: Nanos, lastFrame: Option<Frame>)

  const NO_ENTRY := Entry(false, 0, 0, None)

  function EntryAt(cache: map<Key, Entry>, k: Key): Entry
  {
    if k in cache then cache[k] else NO_ENTRY
  }

  predicate FreshFrame(e: Entry, maxAge: Nanos, now: Nanos)
  {
    !e.running && e.lastFrame.Some? && 0 <= now - e.lastOKAt <= maxAge
  }

  datatype Entered = Hit(frame: Frame) | Wait(done: Channel) | Own(done: Channel)

  // ---- the two critical sections, as code --------------------------------------------

  class InvokeCache {
    var cache: map<Key, Entry>
    var nextChannel: Channel
    var closed: seq<Channel>

    constructor ()
      ensures cache == map[] && nextChannel == 0 && closed == []
    {
      cache, nextChannel, closed := map[], 0, [];
    }

    /** From taking the lock to releasing it with an answer, a channel to wait on, or ownership. */
    method Enter(k: Key, maxAge: Nanos, now: Nanos) returns (r: Entered)
      modifies this
      ensures (r, cache, nextChannel) == EnterResult(old(cache), old(nextChannel), k, maxAge, now)
      ensures closed == old(closed)
    {
      if k !in cache {
        cache := cache[k := NO_ENTRY];
      }
      var entry := cache[k];
      assert cache == old(cache)[k := entry];
      if !entry.running && entry.lastFrame.Some? {
        var age := now - entry.lastOKAt;
        if age >= 0 && age <= maxAge {
          return Hit(entry.lastFrame.value);
        }
      }
      if entry.running {
        return Wait(entry.done);
      }
      entry := entry.(running := true, done := nextChannel);
      cache := cache[k := entry];
      nextChannel := nextChannel + 1;
      assert cache == old(cache)[k := entry];
      r := Own(entry.done);
    }

    /** From retaking the lock after the send to releasing it with the channel closed. */
    method Complete(k: Key, done: Channel, outcome: Option<Frame>, now: Nanos)
      requires k in cache
      modifies this
      ensures cache == CompleteResult(old(cache), k, outcome, now) && closed == old(closed) + [done]
      ensures nextChannel == old(nextChannel)
    {
      var entry := cache[k].(running := false);
      if outcome.Some? {
        entry := entry.(lastOKAt := now);
        entry := entry.(lastFrame := outcome);
      }
      cache := cache[k := entry];
      closed := closed + [done];
    }
  }

  function EnterResult(cache: map<Key, Entry>, next: Channel, k: Key, maxAge: Nanos, now: Nanos)
    : (Entered, map<Key, Entry>, Channel)
  {
    var e := EntryAt(cache, k);
    if FreshFrame(e, maxAge, now) then (Hit(e.lastFrame.value), cache[k := e], next)
    else if e.running then (Wait(e.done), cache[k := e], next)
    else (Own(next), cache[k := e.(running := true, done := next)], next + 1)
  }

  function CompleteResult(cache: map<Key, Entry>, k: Key, outcome: Option<Frame>, now: Nanos): map<Key, Entry>
  {
    var e := EntryAt(cache, k).(running := false);
    cache[k := if outcome.Some? then e.(lastOKAt := now, lastFrame := outcome) else e]
  }

  // ---- any number of callers -----------------------------------------------------------

  datatype Phase =
    | Ready(key: Key, maxAge: Nanos)
    | Waiting(key: Key, maxAge: Nanos, done: Channel)
    | Owning(key: Key, maxAge: Nanos, done: Channel)

  /** A decoded response of some owner. */
  datatype Success = Success(key: Key, frame: Frame, at: Nanos)

  /** A frame served from the cache. */
  datatype Answer = Answer(caller: Caller, key: Key, frame: Frame, at: Nanos, maxAge: Nanos)

  datatype State = State(
    cache: map<Key, Entry>, nextChannel: Channel, closed: seq<Channel>,
    phases: map<Caller, Phase>, successes: seq<Success>, answers: seq<Answer>)

  const START := State(map[], 0, [], map[], [], [])

  datatype Step =
    | Call(caller: Caller, key: Key, maxAge: Nanos)
    | Lock(caller: Caller, now: Nanos)
    | Finish(caller: Caller, outcome: Option<Frame>, now: Nanos)
    | Wake(caller: Caller)
    | Cancel(caller: Caller)

  predicate Enabled(s: State, step: Step)
  {
    match step
    case Call(c, _, maxAge) => c !in s.phases && maxAge > 0
    case Lock(c, _) => c in s.phases && s.phases[c].Ready?
    case Finish(c, _, _) => c in s.phases && s.phases[c].Owning?
    case Wake(c) => c in s.phases && s.phases[c].Waiting? && s.phases[c].done in s.closed
    case Cancel(c) => c in s.phases && s.phases[c].Waiting?
  }

  function LockStep(s: State, c: Caller, now: Nanos): State
    requires c in s.phases && s.phases[c].Ready?
  {
    var p := s.phases[c];
    var (r, cache, next) := EnterResult(s.cache, s.nextChannel, p.key, p.maxAge, now);
    var t := s.(cache := cache, nextChannel := next);
    match r
    case Hit(frame) =>
      t.(phases := s.phases - {c}, answers := s.answers + [Answer(c, p.key, frame, now, p.maxAge)])
    case Wait(done) => t.(phases := s.phases[c := Waiting(p.key, p.maxAge, done)])
    case Own(done) => t.(phases := s.phases[c := Owning(p.key, p.maxAge, done)])
  }

  function FinishStep(s: State, c: Caller, outcome: Option<Frame>, now: Nanos): State
    requires c in s.phases && s.phases[c].Owning?
  {
    var p := s.phases[c];
    s.(cache := CompleteResult(s.cache, p.key, outcome, now),
       closed := s.closed + [p.done],
       phases := s.phases - {c},
       successes := if outcome.Some? then s.successes + [Success(p.key, outcome.value, now)] else s.successes)
  }

  function Next(s: State, step: Step): State
    requires Enabled(s, step)
  {
    match step
    case Call(c, k, maxAge) => s.(phases := s.phases[c := Ready(k, maxAge)])
    case Lock(c, now) => LockStep(s, c, now)
    case Finish(c, outcome, now) => FinishStep(s, c, outcome, now)
    case Wake(c) => s.(phases := s.phases[c := Ready(s.phases[c].key, s.phases[c].maxAge)])
    case Cancel(c) => s.(phases := s.phases - {c})
  }

  ghost predicate Runs(s: State, steps: seq<Step>)
    decreases |steps|
  {
    steps != [] ==> Enabled(s, steps[0]) && Runs(Next(s, steps[0]), steps[1..])
  }

  ghost function After(s: State, steps: seq<Step>): State
    requires Runs(s, steps)
    decreases |steps|
  {
    if steps == [] then s else After(Next(s, steps[0]), steps[1..])
  }

  // ---- invariant --------------------------------------------------------------------------

  ghost predicate Owns(s: State, c: Caller, k: Key)
  {
    c in s.phases && s.phases[c].Owning? && s.phases[c].key == k
  }

  /** A key is running exactly while one caller owns it, holding its open channel. */
  ghost predicate OneOwner(s: State)
  {
    (forall c :: c in s.phases && s.phases[c].Owning? ==>
       EntryAt(s.cache, s.phases[c].key).running && EntryAt(s.cache, s.phases[c].key).done == s.phases[c].done) &&
    (forall k :: EntryAt(s.cache, k).running ==> exists c :: Owns(s, c, k)) &&
    (forall c, d ::
       (c in s.phases && d in s.phases && s.phases[c].Owning? && s.phases[d].Owning? &&
        s.phases[c].key == s.phases[d].key) ==> c == d)
  }

  /** Every channel ever made is closed once, or is the open channel of one running key. */
  ghost predicate ChannelsOk(s: State)
  {
    (forall i, j :: 0 <= i < j < |s.closed| ==> s.closed[i] != s.closed[j]) &&
    (forall ch :: ch in s.closed ==> ch < s.nextChannel) &&
    (forall k :: EntryAt(s.cache, k).running ==>
       EntryAt(s.cache, k).done < s.nextChannel && EntryAt(s.cache, k).done !in s.closed) &&
    (forall k, j :: EntryAt(s.cache, k).running && EntryAt(s.cache, j).running && k != j ==>
       EntryAt(s.cache, k).done != EntryAt(s.cache, j).done)
  }

  /** No lost wake-up: a waiter's channel is closed, or it is the current owner's. */
  ghost predicate WaitersOk(s: State)
  {
    forall c :: c in s.phases && s.phases[c].Waiting? ==>
      s.phases[c].done in s.closed ||
      (EntryAt(s.cache, s.phases[c].key).running && EntryAt(s.cache, s.phases[c].key).done == s.phases[c].done)
  }

  /** The last success recorded for a key. */
  ghost function LastSuccess(successes: seq<Success>, k: Key): Option<Success>
  {
    if successes == [] then None
    else if successes[|successes| - 1].key == k then Some(successes[|successes| - 1])
    else LastSuccess(successes[..|successes| - 1], k)
  }

  /** The cached frame of a key is its last decoded response. */
  ghost predicate CacheOk(s: State)
  {
    forall k :: var e := EntryAt(s.cache, k);
      match LastSuccess(s.successes, k)
      case None => e.lastFrame == None
      case Some(last) => e.lastFrame == Some(last.frame) && e.lastOKAt == last.at
  }

  /** Every cached answer is a frame some owner decoded for that key, no older than asked for. */
  ghost predicate AnswersOk(s: State)
  {
    forall a :: a in s.answers ==>
      exists ok :: ok in s.successes && ok.key == a.key && ok.frame == a.frame && 0 <= a.at - ok.at <= a.maxAge
  }

  ghost predicate Inv(s: State)
  {
    OneOwner(s) && ChannelsOk(s) && WaitersOk(s) && CacheOk(s) && AnswersOk(s)
  }

  lemma {:induction false} LastSuccessFacts(successes: seq<Success>, k: Key)
    ensures LastSuccess(successes, k).Some? ==>
      LastSuccess(successes, k).value in successes && LastSuccess(successes, k).value.key == k
    ensures LastSuccess(successes, k).None? <==> forall ok :: ok in successes ==> ok.key != k
  {
    if successes != [] {
      var n := |successes| - 1;
      LastSuccessFacts(successes[..n], k);
      assert successes == successes[..n] + [successes[n]];
    }
  }

  lemma MoreSuccesses(successes: seq<Success>, ok: Success, k: Key)
    ensures LastSuccess(successes + [ok], k) == if ok.key == k then Some(ok) else LastSuccess(successes, k)
  {
    assert (successes + [ok])[..|successes|] == successes;
  }

  // ---- each step keeps it --------------------------------------------------------------------

  // Steps that change no cache entry, and take no caller into or out of ownership.
  lemma QuietKeeps(s: State, t: State, c: Caller)
    requires Inv(s) && t == s.(phases := t.phases)
    requires forall d :: d != c ==> (d in t.phases <==> d in s.phases) && (d in s.phases ==> t.phases[d] == s.phases[d])
    requires c in s.phases ==> !s.phases[c].Owning?
    requires c in t.phases ==> t.phases[c].Ready?
    ensures Inv(t)
  {
    hide LastSuccess;
    forall k | EntryAt(t.cache, k).running
      ensures exists d :: Owns(t, d, k)
    {
      var d :| Owns(s, d, k);
      assert Owns(t, d, k);
    }
  }

  lemma HitKeeps(s: State, c: Caller, now: Nanos)
    requires Inv(s) && Enabled(s, Lock(c, now))
    requires FreshFrame(EntryAt(s.cache, s.phases[c].key), s.phases[c].maxAge, now)
    ensures Inv(LockStep(s, c, now))
  {
    var p := s.phases[c];
    var t := LockStep(s, c, now);
    LastSuccessFacts(s.successes, p.key);
    assert forall k :: EntryAt(t.cache, k) == EntryAt(s.cache, k);
    forall k | EntryAt(t.cache, k).running
      ensures exists d :: Owns(t, d, k)
    {
      var d :| Owns(s, d, k);
      assert Owns(t, d, k);
    }
    var last := LastSuccess(s.successes, p.key).value;
    assert last in t.successes && last.frame == EntryAt(s.cache, p.key).lastFrame.value;
  }

  lemma WaitKeeps(s: State, c: Caller, now: Nanos)
    requires Inv(s) && Enabled(s, Lock(c, now)) && EntryAt(s.cache, s.phases[c].key).running
    ensures Inv(LockStep(s, c, now))
  {
    hide LastSuccess;
    var t := LockStep(s, c, now);
    assert forall k :: EntryAt(t.cache, k) == EntryAt(s.cache, k);
    forall k | EntryAt(t.cache, k).running
      ensures exists d :: Owns(t, d, k)
    {
      var d :| Owns(s, d, k);
      assert Owns(t, d, k);
    }
  }

  lemma OwnKeeps(s: State, c: Caller, now: Nanos)
    requires Inv(s) && Enabled(s, Lock(c, now)) && !EntryAt(s.cache, s.phases[c].key).running
    requires !FreshFrame(EntryAt(s.cache, s.phases[c].key), s.phases[c].maxAge, now)
    ensures Inv(LockStep(s, c, now))
  {
    hide LastSuccess;
    var p := s.phases[c];
    var t := LockStep(s, c, now);
    assert forall k :: k != p.key ==> EntryAt(t.cache, k) == EntryAt(s.cache, k);
    assert Owns(t, c, p.key);
    forall k | EntryAt(t.cache, k).running
      ensures exists d :: Owns(t, d, k)
    {
      if k != p.key {
        var d :| Owns(s, d, k);
        assert Owns(t, d, k);
      }
    }
    assert forall d :: d in s.phases && s.phases[d].Owning? ==> s.phases[d].key != p.key;
  }

  lemma FinishKeeps(s: State, c: Caller, outcome: Option<Frame>, now: Nanos)
    requires Inv(s) && Enabled(s, Finish(c, outcome, now))
    ensures Inv(FinishStep(s, c, outcome, now))
  {
    var p := s.phases[c];
    var t := FinishStep(s, c, outcome, now);
    assert forall k :: k != p.key ==> EntryAt(t.cache, k) == EntryAt(s.cache, k);
    FinishOwners(s, c, outcome, now);
    FinishCache(s, c, outcome, now);
    hide LastSuccess;
    assert forall ok :: ok in s.successes ==> ok in t.successes;
    assert forall ch :: ch in t.closed <==> ch in s.closed || ch == p.done;
  }

  lemma FinishOwners(s: State, c: Caller, outcome: Option<Frame>, now: Nanos)
    requires Inv(s) && Enabled(s, Finish(c, outcome, now))
    ensures OneOwner(FinishStep(s, c, outcome, now))
  {
    hide LastSuccess;
    var p := s.phases[c];
    var t := FinishStep(s, c, outcome, now);
    assert forall k :: k != p.key ==> EntryAt(t.cache, k) == EntryAt(s.cache, k);
    forall k | EntryAt(t.cache, k).running
      ensures exists d :: Owns(t, d, k)
    {
      var d :| Owns(s, d, k);
      assert Owns(t, d, k);
    }
  }

  lemma FinishCache(s: State, c: Caller, outcome: Option<Frame>, now: Nanos)
    requires Inv(s) && Enabled(s, Finish(c, outcome, now))
    ensures CacheOk(FinishStep(s, c, outcome, now))
  {
    var t := FinishStep(s, c, outcome, now);
    forall k
      ensures LastSuccess(t.successes, k) ==
        if outcome.Some? && k == s.phases[c].key then Some(Success(k, outcome.value, now))
        else LastSuccess(s.successes, k)
    {
      if outcome.Some? { MoreSuccesses(s.successes, Success(s.phases[c].key, outcome.value, now), k); }
    }
    hide LastSuccess;
  }

  /** Every interleaved step keeps the protocol's invariant. */
  lemma StepKeeps(s: State, step: Step)
    requires Inv(s) && Enabled(s, step)
    ensures Inv(Next(s, step))
  {
    hide Inv;
    match step
    case Call(c, k, maxAge) => QuietKeeps(s, Next(s, step), c);
    case Wake(c) => QuietKeeps(s, Next(s, step), c);
    case Cancel(c) => QuietKeeps(s, Next(s, step), c);
    case Finish(c, outcome, now) => FinishKeeps(s, c, outcome, now);
    case Lock(c, now) =>
      if FreshFrame(EntryAt(s.cache, s.phases[c].key), s.phases[c].maxAge, now) {
        HitKeeps(s, c, now);
      } else if EntryAt(s.cache, s.phases[c].key).running {
        WaitKeeps(s, c, now);
      } else {
        OwnKeeps(s, c, now);
      }
  }

  lemma StartOk()
    ensures Inv(START)
  {}

  /** Every reachable state satisfies it, for any number of callers and any interleaving. */
  lemma {:induction false} RunsKeep(s: State, steps: seq<Step>)
    requires Inv(s) && Runs(s, steps)
    ensures Inv(After(s, steps))
    decreases |steps|
  {
    if steps != [] {
      hide Inv, Next;
      StepKeeps(s, steps[0]);
      RunsKeep(Next(s, steps[0]), steps[1..]);
    }
  }

  // ---- what the invariant means for callers -----------------------------------------------------

  /** The channel an owner is about to close is still open, and nobody else sends for its key. */
  lemma FinishClosesOnce(s: State, c: Caller, outcome: Option<Frame>, now: Nanos)
    requires Inv(s) && Enabled(s, Finish(c, outcome, now))
    ensures s.phases[c].done !in s.closed
    ensures forall d :: Owns(s, d, s.phases[c].key) ==> d == c
  {
    hide LastSuccess;
    assert Owns(s, c, s.phases[c].key);
  }

  /** Every channel made so far is either closed or held open by exactly one running key. */
  lemma {:induction false} ChannelsAccounted(steps: seq<Step>, ch: Channel)
    requires Runs(START, steps) && ch < After(START, steps).nextChannel
    ensures var s := After(START, steps);
      ch in s.closed || exists k :: EntryAt(s.cache, k).running && EntryAt(s.cache, k).done == ch
  {
    StartOk();
    AccountedKept(START, steps);
  }

  ghost predicate Accounted(s: State)
  {
    forall ch :: 0 <= ch < s.nextChannel ==>
      ch in s.closed || exists k :: EntryAt(s.cache, k).running && EntryAt(s.cache, k).done == ch
  }

  lemma AccountedStep(s: State, step: Step)
    requires Inv(s) && Accounted(s) && Enabled(s, step)
    ensures Accounted(Next(s, step))
  {
    hide LastSuccess, AnswersOk, WaitersOk, CacheOk;
    var t := Next(s, step);
    forall ch | 0 <= ch < t.nextChannel
      ensures ch in t.closed || exists k :: EntryAt(t.cache, k).running && EntryAt(t.cache, k).done == ch
    {
      if ch < s.nextChannel && ch !in s.closed {
        var k :| EntryAt(s.cache, k).running && EntryAt(s.cache, k).done == ch;
        assert ch in t.closed || (EntryAt(t.cache, k).running && EntryAt(t.cache, k).done == ch);
      } else if ch == s.nextChannel {
        assert EntryAt(t.cache, s.phases[step.caller].key).done == ch;
      }
    }
  }

  lemma {:induction false} AccountedKept(s: State, steps: seq<Step>)
    requires Inv(s) && Accounted(s) && Runs(s, steps)
    ensures Accounted(After(s, steps))
    decreases |steps|
  {
    if steps != [] {
      hide Inv, Next, Accounted;
      StepKeeps(s, steps[0]);
      AccountedStep(s, steps[0]);
      AccountedKept(Next(s, steps[0]), steps[1..]);
    }
  }

  /** A waiter can wake at once, or the owner it waits for exists and will wake it by finishing. */
  lemma NoLostWakeup(s: State, c: Caller)
    requires Inv(s) && c in s.phases && s.phases[c].Waiting?
    ensures Enabled(s, Wake(c)) ||
      exists d :: Owns(s, d, s.phases[c].key) && d != c &&
        forall outcome, now :: Enabled(s, Finish(d, outcome, now)) && Enabled(Next(s, Finish(d, outcome, now)), Wake(c))
  {
    hide LastSuccess;
    var p := s.phases[c];
    if p.done !in s.closed {
      var d :| Owns(s, d, p.key);
      assert s.phases[d].done == p.done;
      forall outcome, now
        ensures Enabled(s, Finish(d, outcome, now)) && Enabled(Next(s, Finish(d, outcome, now)), Wake(c))
      {
        assert FinishStep(s, d, outcome, now).closed == s.closed + [p.done];
      }
    }
  }

  /** A failed send leaves every cached frame and its age untouched. */
  lemma FailureKeepsFrames(s: State, c: Caller, now: Nanos, k: Key)
    requires Enabled(s, Finish(c, None, now))
    ensures var t := Next(s, Finish(c, None, now));
      EntryAt(t.cache, k).lastFrame == EntryAt(s.cache, k).lastFrame &&
      EntryAt(t.cache, k).lastOKAt == EntryAt(s.cache, k).lastOKAt
  {}

  /** Only a successful owner of the key changes its cached frame or the frame's time. */
  lemma FramesChangeOnlyBySuccess(s: State, step: Step, k: Key)
    requires Enabled(s, step)
    ensures var e, f := EntryAt(s.cache, k), EntryAt(Next(s, step).cache, k);
      if step.Finish? && step.outcome.Some? && Owns(s, step.caller, k)
      then f.lastFrame == step.outcome && f.lastOKAt == step.now
      else f.lastFrame == e.lastFrame && f.lastOKAt == e.lastOKAt
  {}

  /** The run finishes no flight of the key successfully. */
  ghost predicate NoSuccess(s: State, steps: seq<Step>, k: Key)
    requires Runs(s, steps)
    decreases |steps|
  {
    steps != [] ==>
      !(steps[0].Finish? && steps[0].outcome.Some? && Owns(s, steps[0].caller, k)) &&
      NoSuccess(Next(s, steps[0]), steps[1..], k)
  }

  /** However many flights of a key fail or are cancelled, its cached frame and time stay. */
  lemma {:induction false} FramesOutliveFailures(s: State, steps: seq<Step>, k: Key)
    requires Runs(s, steps) && NoSuccess(s, steps, k)
    ensures EntryAt(After(s, steps).cache, k).lastFrame == EntryAt(s.cache, k).lastFrame
    ensures EntryAt(After(s, steps).cache, k).lastOKAt == EntryAt(s.cache, k).lastOKAt
    decreases |steps|
  {
    if steps != [] {
      hide Next, EntryAt, Owns;
      FramesChangeOnlyBySuccess(s, steps[0], k);
      FramesOutliveFailures(Next(s, steps[0]), steps[1..], k);
    }
  }

  /** A caller sends only when nobody is sending for the key and no frame is fresh enough. */
  lemma SendsOnlyWhenNeeded(s: State, c: Caller, now: Nanos)
    requires Inv(s) && Enabled(s, Lock(c, now))
    ensures var k := s.phases[c].key; var t := Next(s, Lock(c, now));
      Owns(t, c, k) <==>
        (forall d :: !Owns(s, d, k)) &&
        !(LastSuccess(s.successes, k).Some? &&
          0 <= now - LastSuccess(s.successes, k).value.at <= s.phases[c].maxAge)
  {
    var k := s.phases[c].key;
    LastSuccessFacts(s.successes, k);
    assert EntryAt(s.cache, k).running <==> exists d :: Owns(s, d, k) by {
      if d :| Owns(s, d, k) { assert EntryAt(s.cache, s.phases[d].key).running; }
    }
    hide LastSuccess;
  }

  /** The last success of the key is no older than asked for. */
  ghost predicate Answerable(s: State, k: Key, maxAge: Nanos, now: Nanos)
  {
    LastSuccess(s.successes, k).Some? && 0 <= now - LastSuccess(s.successes, k).value.at <= maxAge
  }

  lemma RunningIsOwned(s: State, k: Key)
    requires Inv(s)
    ensures EntryAt(s.cache, k).running <==> exists d :: Owns(s, d, k)
    ensures forall d :: Owns(s, d, k) ==> s.phases[d].done == EntryAt(s.cache, k).done
  {
    hide LastSuccess;
  }

  /** What becomes of a caller that takes the lock: it is answered with the last decoded frame if and only if nobody owns
      the key and that frame is fresh enough; it waits, on the owner's channel, if and only if there is an owner; and
      otherwise it owns the key, with a channel nobody had before. */
  lemma LockDecides(s: State, c: Caller, now: Nanos)
    requires Inv(s) && Enabled(s, Lock(c, now))
    ensures var p, t := s.phases[c], Next(s, Lock(c, now));
      var owned, answerable := exists d :: Owns(s, d, p.key), Answerable(s, p.key, p.maxAge, now);
      (c !in t.phases <==> !owned && answerable) &&
      (c !in t.phases ==> t.answers == s.answers + [Answer(c, p.key, LastSuccess(s.successes, p.key).value.frame, now, p.maxAge)]) &&
      (c in t.phases ==> t.answers == s.answers) &&
      (c in t.phases && t.phases[c].Waiting? <==> owned) &&
      (forall d :: Owns(s, d, p.key) ==> t.phases[c] == Waiting(p.key, p.maxAge, s.phases[d].done)) &&
      (!owned && !answerable ==> t.phases[c] == Owning(p.key, p.maxAge, s.nextChannel) && s.nextChannel !in s.closed)
  {
    RunningIsOwned(s, s.phases[c].key);
    LastSuccessFacts(s.successes, s.phases[c].key);
    hide LastSuccess, OneOwner, AnswersOk, WaitersOk, Owns;
  }

  /** Whoever waited for a successful send is answered by it, without another send, while it is fresh. */
  lemma WaitersShareTheAnswer(s: State, owner: Caller, frame: Frame, at: Nanos, c: Caller, now: Nanos)
    requires Inv(s) && Enabled(s, Finish(owner, Some(frame), at))
    requires c in s.phases && s.phases[c].Waiting? && s.phases[c].done == s.phases[owner].done
    requires s.phases[c].key == s.phases[owner].key && 0 <= now - at <= s.phases[c].maxAge
    ensures var t := Next(s, Finish(owner, Some(frame), at));
      Enabled(t, Wake(c)) && Enabled(Next(t, Wake(c)), Lock(c, now)) &&
      (var u := Next(Next(t, Wake(c)), Lock(c, now));
       c !in u.phases && u.answers == s.answers + [Answer(c, s.phases[c].key, frame, now, s.phases[c].maxAge)])
  {
    assert s.phases[owner].done in s.closed + [s.phases[owner].done];
  }
}
