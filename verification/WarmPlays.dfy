/** The atomic calls of the scheduler as histories of its locked sections: with nobody else in between, the sections of
    `record` and of the retry loop do what `WarmQueue` says the whole call does. */
module WarmPlays {
  import opened WarmKeys
  import opened WarmQueue
  import opened WarmSteps

  /** Each step is enabled where the earlier ones lead. */
  ghost predicate Plays(m: Machine, steps: seq<Step>)
    decreases |steps|
  {
    steps == [] || (Enabled(m, steps[0]) && Plays(Apply(m, steps[0]), steps[1..]))
  }

  ghost function Outcome(m: Machine, steps: seq<Step>): Machine
    requires Plays(m, steps)
    decreases |steps|
  {
    if steps == [] then m else Outcome(Apply(m, steps[0]), steps[1..])
  }

  ghost function States(m: Machine, steps: seq<Step>): (states: seq<Machine>)
    requires Plays(m, steps)
    ensures |states| == |steps| + 1 && states[0] == m
    decreases |steps|
  {
    if steps == [] then [m] else [m] + States(Apply(m, steps[0]), steps[1..])
  }

  lemma {:induction false} StateSteps(m: Machine, steps: seq<Step>, t: nat)
    requires Plays(m, steps) && t < |steps|
    ensures var states := States(m, steps);
      Enabled(states[t], steps[t]) && states[t + 1] == Apply(states[t], steps[t])
    decreases |steps|
  {
    if t > 0 { StateSteps(Apply(m, steps[0]), steps[1..], t - 1); }
  }

  lemma {:induction false} LastState(m: Machine, steps: seq<Step>)
    requires Plays(m, steps)
    ensures States(m, steps)[|steps|] == Outcome(m, steps)
    decreases |steps|
  {
    if steps != [] { LastState(Apply(m, steps[0]), steps[1..]); }
  }

  lemma PlayIsRun(steps: seq<Step>)
    requires Plays(START, steps)
    ensures IsRun(Run(States(START, steps), steps)) && States(START, steps)[|steps|] == Outcome(START, steps)
  {
    var run := Run(States(START, steps), steps);
    forall t | 0 <= t < |steps| ensures StepAt(run, t) { StateSteps(START, steps, t); }
    LastState(START, steps);
  }

  lemma {:induction false} PlaysOn(m: Machine, first: seq<Step>, second: seq<Step>)
    requires Plays(m, first) && Plays(Outcome(m, first), second)
    ensures Plays(m, first + second) && Outcome(m, first + second) == Outcome(Outcome(m, first), second)
    decreases |first|
  {
    if first == [] {
      assert [] + second == second;
    } else {
      assert (first + second)[1..] == first[1..] + second;
      PlaysOn(Apply(m, first[0]), first[1..], second);
    }
  }

  lemma OneStepPlays(m: Machine, step: Step)
    requires Enabled(m, step)
    ensures Plays(m, [step]) && Outcome(m, [step]) == Apply(m, step)
  {
    assert [step][1..] == [];
  }

  lemma StepThenPlays(m: Machine, step: Step, rest: seq<Step>)
    requires Enabled(m, step) && Plays(Apply(m, step), rest)
    ensures Plays(m, [step] + rest) && Outcome(m, [step] + rest) == Outcome(Apply(m, step), rest)
  {
    assert ([step] + rest)[1..] == rest;
  }

  // ----- record

  function RecordSteps(q: Queue, key: Key, target: Target): seq<Step>
    requires !Blocked(q, key, target)
  {
    if BeginRecord(q, key, target).1 != MustSend then [Begin(key, target)]
    else if |q.channel| < WARM_QUEUE_CAPACITY then [Begin(key, target), Send(key)]
    else [Begin(key, target), Send(key), Undo(key)]
  }

  function Recorded(m: Machine, key: Key, target: Target): Machine
    requires !Blocked(m.queue, key, target)
  {
    m.(queue := Record(m.queue, key, target).0, promised := AfterBegin(m, key, target).promised)
  }

  lemma RecordPlays(m: Machine, key: Key, target: Target)
    requires Sound(m) && Recordable(m, key, target)
    ensures Plays(m, RecordSteps(m.queue, key, target))
    ensures Outcome(m, RecordSteps(m.queue, key, target)) == Recorded(m, key, target)
  {
    var begun := AfterBegin(m, key, target);
    if BeginRecord(m.queue, key, target).1 != MustSend {
      OneStepPlays(m, Begin(key, target));
    } else {
      assert key !in m.queue.scheduled;
      assert key !in MidRecord(m);
      var sent := AfterSend(begun, key);
      assert m.sending + {key} - {key} == m.sending;
      if |m.queue.channel| < WARM_QUEUE_CAPACITY {
        OneStepPlays(begun, Send(key));
        StepThenPlays(m, Begin(key, target), [Send(key)]);
      } else {
        assert m.refused + {key} - {key} == m.refused;
        assert m.queue.scheduled + {key} - {key} == m.queue.scheduled;
        OneStepPlays(sent, Undo(key));
        StepThenPlays(begun, Send(key), [Undo(key)]);
        StepThenPlays(m, Begin(key, target), [Send(key), Undo(key)]);
      }
    }
  }

  // ----- the retry loop

  lemma {:induction false} InsertAgrees(q: Queue, disk: Disk, found: Disk, keys: seq<Key>)
    requires forall key | key in keys :: key in disk && key in found && found[key] == disk[key]
    ensures InsertRecovered(q, found, keys) == InsertRecovered(q, disk, keys)
    decreases |keys|
  {
    if keys != [] {
      if Known(q, keys[0]) {
        InsertAgrees(q, disk, found, keys[1..]);
      } else {
        InsertAgrees(q.(latest := q.latest[keys[0] := RecoveredTarget(disk, keys[0])]), disk, found, keys[1..]);
      }
    }
  }

  /** What was read of a Project stands for the disk it was read from. */
  lemma MergeAgrees(q: Queue, disk: Disk, root: nat)
    ensures var found := BuildingScenes(disk, root);
      WarmQueue.Merge(q, found, root, Recovered(found, root)) == WarmQueue.Merge(q, disk, root, Recovered(disk, root))
  {
    BuildingScenesFound(disk, root);
    InsertAgrees(q, disk, BuildingScenes(disk, root), Recovered(disk, root));
  }

  predicate OfRetry(step: Step) {
    step.Look? || step.Push? || step.UndoPush? || step.Check? || step.Read? || step.Merge?
  }

  predicate AllOfRetry(steps: seq<Step>) {
    forall step | step in steps :: OfRetry(step)
  }

  lemma PushPlays(m: Machine)
    requires m.hand.Looking? && Unscheduled(m.queue) != {} && |m.queue.channel| < WARM_QUEUE_CAPACITY
    ensures Plays(m, [Look, Push]) && Outcome(m, [Look, Push]) == m.(queue := Pushed(m.queue))
  {
    OneStepPlays(AfterLook(m), Push);
    StepThenPlays(m, Look, [Push]);
  }

  lemma RefusedPlays(m: Machine)
    requires m.hand.Looking? && Unscheduled(m.queue) != {} && |m.queue.channel| >= WARM_QUEUE_CAPACITY
    ensures Plays(m, [Look, Push, UndoPush]) && Outcome(m, [Look, Push, UndoPush]) == m.(hand := Resting)
  {
    var key := LeastKey(Unscheduled(m.queue));
    var looked := AfterLook(m);
    assert m.queue.scheduled + {key} - {key} == m.queue.scheduled;
    OneStepPlays(AfterPush(looked, key), UndoPush);
    StepThenPlays(looked, Push, [UndoPush]);
    StepThenPlays(m, Look, [Push, UndoPush]);
  }

  lemma StopPlays(m: Machine)
    requires m.hand.Looking? && Unscheduled(m.queue) == {}
    requires |m.queue.latest| >= WARM_LATEST_CAPACITY || m.queue.dirty == {}
    ensures Plays(m, [Look, Check]) && Outcome(m, [Look, Check]) == m.(hand := Resting)
  {
    OneStepPlays(AfterLook(m), Check);
    StepThenPlays(m, Look, [Check]);
  }

  lemma DrainPlays(m: Machine)
    requires m.hand.Looking? && Unscheduled(m.queue) == {}
    requires |m.queue.latest| < WARM_LATEST_CAPACITY && m.queue.dirty != {}
    ensures Plays(m, [Look, Check, Read, Step.Merge])
    ensures Outcome(m, [Look, Check, Read, Step.Merge]) == m.(queue := Drained(m.queue, m.disk))
  {
    var root := Least(m.queue.dirty);
    var looked := AfterLook(m);
    var popped := AfterCheck(looked);
    var reading := Apply(popped, Read);
    MergeAgrees(popped.queue, m.disk, root);
    OneStepPlays(reading, Step.Merge);
    StepThenPlays(popped, Read, [Step.Merge]);
    StepThenPlays(looked, Check, [Read, Step.Merge]);
    StepThenPlays(m, Look, [Check, Read, Step.Merge]);
  }

  lemma AppendOfRetry(first: seq<Step>, second: seq<Step>)
    requires AllOfRetry(first) && AllOfRetry(second)
    ensures AllOfRetry(first + second)
  {
  }

  ghost predicate PassLeads(m: Machine, pass: seq<Step>, next: Machine) {
    && AllOfRetry(pass) && Plays(m, pass) && Outcome(m, pass) == next
    && next == m.(queue := next.queue) && next.queue.receiverAlive
    && Retry(m.queue, m.disk) == Retry(next.queue, m.disk)
  }

  ghost predicate LoopLeads(m: Machine, steps: seq<Step>) {
    AllOfRetry(steps) && Plays(m, steps)
    && Outcome(m, steps) == m.(queue := Retry(m.queue, m.disk), hand := Resting)
  }

  predicate GoesOn(q: Queue) {
    if Unscheduled(q) != {} then |q.channel| < WARM_QUEUE_CAPACITY
    else |q.latest| < WARM_LATEST_CAPACITY && q.dirty != {}
  }

  lemma PushPass(m: Machine)
    requires m.hand.Looking? && m.queue.receiverAlive
    requires Unscheduled(m.queue) != {} && |m.queue.channel| < WARM_QUEUE_CAPACITY
    ensures PassLeads(m, [Look, Push], m.(queue := Pushed(m.queue)))
  {
    PushPlays(m);
  }

  lemma DrainPass(m: Machine)
    requires m.hand.Looking? && m.queue.receiverAlive && Unscheduled(m.queue) == {}
    requires |m.queue.latest| < WARM_LATEST_CAPACITY && m.queue.dirty != {}
    ensures PassLeads(m, [Look, Check, Read, Step.Merge], m.(queue := Drained(m.queue, m.disk)))
  {
    DrainPlays(m);
    var root := Least(m.queue.dirty);
    MergeFrame(m.queue.(dirty := m.queue.dirty - {root}), m.disk, root, Recovered(m.disk, root));
  }

  /** One pass that goes on. */
  lemma RetryPass(m: Machine) returns (pass: seq<Step>, next: Machine)
    requires m.hand.Looking? && m.queue.receiverAlive && GoesOn(m.queue)
    ensures PassLeads(m, pass, next)
    ensures var q, r := m.queue, next.queue;
      || FreeSlots(r) < FreeSlots(q)
      || (FreeSlots(r) == FreeSlots(q) && Unscheduled(q) == {} && (Unscheduled(r) != {} || |r.dirty| < |q.dirty|))
  {
    if Unscheduled(m.queue) != {} {
      PushPass(m);
      pass, next := [Look, Push], m.(queue := Pushed(m.queue));
    } else {
      DrainPass(m);
      DrainMakesProgress(m.queue, m.disk);
      pass, next := [Look, Check, Read, Step.Merge], m.(queue := Drained(m.queue, m.disk));
    }
  }

  /** The loop, left alone, ends where `Retry` says. */
  lemma {:induction false} RetryPlays(m: Machine) returns (steps: seq<Step>)
    requires m.hand.Looking? && m.queue.receiverAlive
    ensures LoopLeads(m, steps)
    decreases FreeSlots(m.queue), if Unscheduled(m.queue) == {} then 1 else 0, |m.queue.dirty|
  {
    if GoesOn(m.queue) {
      var pass, next := RetryPass(m);
      var rest := RetryPlays(next);
      PassThenLoop(m, pass, next, rest);
      steps := pass + rest;
    } else {
      steps := LoopEnds(m);
    }
  }

  lemma PassThenLoop(m: Machine, pass: seq<Step>, next: Machine, rest: seq<Step>)
    requires PassLeads(m, pass, next) && LoopLeads(next, rest)
    ensures LoopLeads(m, pass + rest)
  {
    PlaysOn(m, pass, rest);
    AppendOfRetry(pass, rest);
  }

  lemma LoopEnds(m: Machine) returns (steps: seq<Step>)
    requires m.hand.Looking? && m.queue.receiverAlive && !GoesOn(m.queue)
    ensures LoopLeads(m, steps)
  {
    if Unscheduled(m.queue) != {} {
      RefusedPlays(m);
      steps := [Look, Push, UndoPush];
    } else {
      StopPlays(m);
      steps := [Look, Check];
    }
  }

  /** The end of a job, left alone, is `FinishAndRetry`. */
  lemma FinishPlays(m: Machine) returns (steps: seq<Step>)
    requires m.hand.Warming? && m.queue.receiverAlive
    ensures Plays(m, steps)
    ensures Outcome(m, steps)
            == m.(queue := FinishAndRetry(m.queue, m.disk, m.hand.key, m.senderOpen), hand := Resting)
  {
    var key := m.hand.key;
    var ending := m.(hand := Ending(key, m.senderOpen));
    var released := AfterRelease(ending, key, m.senderOpen);
    if m.senderOpen {
      var rest := RetryPlays(released);
      StepThenPlays(ending, Release, rest);
      StepThenPlays(m, CloneSender, [Release] + rest);
      steps := [CloneSender] + ([Release] + rest);
    } else {
      OneStepPlays(ending, Release);
      StepThenPlays(m, CloneSender, [Release]);
      steps := [CloneSender] + [Release];
    }
  }
}
