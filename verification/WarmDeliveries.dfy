/** The same ledger over locked sections: whatever other producers and the retry loop do in between, the worker is
    handed the last target put into `latest` for the key it received. */
module WarmDeliveries {
  import opened Wrappers
  import opened WarmKeys
  import opened WarmQueue
  import opened WarmSteps
  import WarmLedger

  /** The entries after one section; `back` are the keys that a fold of recovered work brought in. */
  function Entered(m: Machine, step: Step, entries: WarmLedger.Entries, back: set<Key>): WarmLedger.Entries {
    match step
    case Begin(key, target) =>
      if WarmLedger.FindsRoom(entries, m.queue.scheduled, key) then entries[key := target] else entries
    case Withdraw(key) => entries - {key}
    case Remove(key) => entries - {key}
    case Take => if m.hand.Received? then entries - {m.hand.key} else entries
    case Merge => if m.hand.Merging? then entries + WarmLedger.FromDisk(m.hand.found, back) else entries
    case _ => entries
  }

  ghost function Ledger(run: Run, t: nat): WarmLedger.Entries
    requires |run.states| == |run.steps| + 1 && t < |run.states|
  {
    if t == 0 then map[] else
    var before := Ledger(run, t - 1);
    Entered(run.states[t - 1], run.steps[t - 1], before, run.states[t].queue.latest.Keys - before.Keys)
  }

  // ----- the ledger is `latest`

  lemma MergeEnters(q: Queue, root: nat, found: Disk)
    ensures var after := WarmQueue.Merge(q, found, root, Recovered(found, root)).latest;
      after == q.latest + WarmLedger.FromDisk(found, after.Keys - q.latest.Keys)
  {
    MergeGrows(q, root, found);
    WarmLedger.GrownByRecovery(q.latest, found, WarmQueue.Merge(q, found, root, Recovered(found, root)).latest);
  }

  lemma MergeGrows(q: Queue, root: nat, found: Disk)
    ensures WarmLedger.GrowsFromDisk(q.latest, found, WarmQueue.Merge(q, found, root, Recovered(found, root)).latest)
  {
    InsertRecoveredFrame(q, found, Recovered(found, root));
  }

  lemma TakeEnters(m: Machine, key: Key)
    ensures AfterTake(m, key).queue.latest == m.queue.latest - {key}
  {
    if key !in m.queue.latest { assert m.queue.latest - {key} == m.queue.latest; }
  }

  lemma BeginEnters(m: Machine, key: Key, target: Target)
    requires Enabled(m, Begin(key, target))
    ensures AfterBegin(m, key, target).queue.latest
            == if WarmLedger.FindsRoom(m.queue.latest, m.queue.scheduled, key) then m.queue.latest[key := target]
               else m.queue.latest
  {
  }

  predicate OfRetry(step: Step) {
    step.Look? || step.Push? || step.UndoPush? || step.Check? || step.Read? || step.Release?
  }

  lemma RetryLeavesLatest(m: Machine, step: Step)
    requires Enabled(m, step) && OfRetry(step)
    ensures Apply(m, step).queue.latest == m.queue.latest
  {
  }

  lemma OtherSectionEnters(m: Machine, step: Step)
    requires Enabled(m, step) && !step.Begin? && !step.Take? && !step.Merge? && !OfRetry(step)
    ensures Apply(m, step).queue.latest
            == if step.Withdraw? || step.Remove? then m.queue.latest - {step.key} else m.queue.latest
  {
  }

  lemma LedgerEnters(m: Machine, step: Step)
    requires Enabled(m, step)
    ensures var after := Apply(m, step).queue.latest;
      after == Entered(m, step, m.queue.latest, after.Keys - m.queue.latest.Keys)
  {
    match step
    case Begin(key, target) => BeginEnters(m, key, target);
    case Take => TakeEnters(m, m.hand.key);
    case Merge => MergeEnters(m.queue, m.hand.root, m.hand.found);
    case _ => if OfRetry(step) { RetryLeavesLatest(m, step); } else { OtherSectionEnters(m, step); }
  }

  lemma {:induction false} LatestIsTheLedger(run: Run, t: nat)
    requires IsRun(run) && t < |run.states|
    ensures run.states[t].queue.latest == Ledger(run, t)
  {
    if t > 0 {
      LatestIsTheLedger(run, t - 1);
      assert StepAt(run, t - 1);
      LedgerEnters(run.states[t - 1], run.steps[t - 1]);
    }
  }

  /** A take hands the worker exactly the ledger's entry for the job it received, or nothing if there is none. */
  lemma TakeYieldsTheEntry(run: Run, t: nat)
    requires IsRun(run) && t < |run.steps| && run.steps[t] == Take
    ensures run.states[t].hand.Received?
    ensures var key, entries := run.states[t].hand.key, Ledger(run, t);
      && run.states[t + 1].hand == Warming(key, if key in entries then Some(entries[key]) else None)
      && key !in run.states[t + 1].queue.latest
  {
    assert StepAt(run, t);
    LatestIsTheLedger(run, t);
  }

  // ----- one target, from its record to the worker

  ghost predicate PlacedAt(run: Run, t: nat, key: Key, target: Target)
    requires IsRun(run) && t < |run.steps|
  {
    && run.steps[t] == Begin(key, target)
    && WarmLedger.FindsRoom(run.states[t].queue.latest, run.states[t].queue.scheduled, key)
  }

  /** The sections after which another target stands for the key, or none. */
  predicate Displaces(m: Machine, step: Step, key: Key) {
    match step
    case Begin(k, _) => k == key
    case Withdraw(k) => k == key
    case Remove(k) => k == key
    case Take => m.hand.Received? && m.hand.key == key
    case _ => false
  }

  ghost predicate Undisplaced(run: Run, from: nat, t: nat, key: Key)
    requires IsRun(run) && t < |run.states|
  {
    forall k | from < k < t :: !Displaces(run.states[k], run.steps[k], key)
  }

  lemma EntryIsMade(run: Run, t: nat, key: Key, target: Target)
    requires IsRun(run) && t < |run.steps| && PlacedAt(run, t, key, target)
    ensures key in Ledger(run, t + 1) && Ledger(run, t + 1)[key] == target
  {
    LatestIsTheLedger(run, t);
  }

  lemma EntryStays(run: Run, t: nat, key: Key)
    requires IsRun(run) && t < |run.steps| && !Displaces(run.states[t], run.steps[t], key) && key in Ledger(run, t)
    ensures key in Ledger(run, t + 1) && Ledger(run, t + 1)[key] == Ledger(run, t)[key]
  {
  }

  lemma {:induction false} EntryStands(run: Run, from: nat, t: nat, key: Key, target: Target)
    requires IsRun(run) && from < t < |run.states| && PlacedAt(run, from, key, target)
    requires Undisplaced(run, from, t, key)
    ensures key in Ledger(run, t) && Ledger(run, t)[key] == target
  {
    if from == t - 1 {
      EntryIsMade(run, from, key, target);
    } else {
      EntryStands(run, from, t - 1, key, target);
      assert !Displaces(run.states[t - 1], run.steps[t - 1], key);
      EntryStays(run, t - 1, key);
    }
  }

  /** A target that its producer put into `latest` stands there as recorded until another section displaces it, even
      while its job is refused and undone; and if that section is the worker's take, the worker is handed it. */
  lemma RecordedTargetIsDelivered(run: Run, from: nat, t: nat, key: Key, target: Target)
    requires IsRun(run) && from < t < |run.states| && PlacedAt(run, from, key, target)
    requires Undisplaced(run, from, t, key)
    ensures key in run.states[t].queue.latest && run.states[t].queue.latest[key] == target
    ensures t < |run.steps| && run.steps[t] == Take && run.states[t].hand == Received(key) ==>
              run.states[t + 1].hand == Warming(key, Some(target))
  {
    EntryStands(run, from, t, key, target);
    LatestIsTheLedger(run, t);
    if t < |run.steps| && run.steps[t] == Take { TakeYieldsTheEntry(run, t); }
  }
}
