/** The warm queue as the program runs it: maps and sets updated in place, a bounded channel, and a retry
    loop. Each method's new state is the one `WarmQueue` gives for the old. */
module WarmState {
  import opened Wrappers
  import opened WarmKeys
  import WarmQueue

  /** The sending end of the bounded job channel. */
  class WarmChannel {
    var jobs: seq<Key>
    var receiverAlive: bool

    constructor ()
      ensures jobs == [] && receiverAlive
    {
      jobs, receiverAlive := [], true;
    }

    method TrySend(job: Key) returns (result: WarmQueue.SendResult)
      modifies this
      ensures receiverAlive == old(receiverAlive)
      ensures result == (if !old(receiverAlive) then WarmQueue.Disconnected
                         else if |old(jobs)| >= WarmQueue.WARM_QUEUE_CAPACITY then WarmQueue.Full
                         else WarmQueue.Sent)
      ensures jobs == if result == WarmQueue.Sent then old(jobs) + [job] else old(jobs)
    {
      if !receiverAlive {
        return WarmQueue.Disconnected;
      }
      if |jobs| >= WarmQueue.WARM_QUEUE_CAPACITY {
        return WarmQueue.Full;
      }
      jobs := jobs + [job];
      return WarmQueue.Sent;
    }
  }

  class LatestWarmState {
    var latest: map<Key, WarmQueue.Target>
    var scheduled: set<Key>
    var dirtyProjects: set<nat>
    var failures: map<Key, string>

    /** The state as a value, together with the channel it feeds. */
    ghost function View(sender: WarmChannel): WarmQueue.Queue
      reads this, sender
    {
      WarmQueue.Queue(latest, scheduled, dirtyProjects, failures, sender.jobs, sender.receiverAlive)
    }

    constructor ()
      ensures latest == map[] && scheduled == {} && dirtyProjects == {} && failures == map[]
    {
      latest, scheduled, dirtyProjects, failures := map[], {}, {}, map[];
    }

    /** A producer that would block waits outside; this is the pass on which it does not. */
    method Record(key: Key, target: WarmQueue.Target, sender: WarmChannel) returns (accepted: bool)
      requires !WarmQueue.Blocked(View(sender), key, target)
      modifies this, sender
      ensures (View(sender), accepted) == WarmQueue.Record(old(View(sender)), key, target)
    {
      failures := failures - {key};
      var known := key in latest || key in scheduled;
      if !known && |latest| >= WarmQueue.WARM_LATEST_CAPACITY {
        if target.sceneGeneration.None? {
          return false;
        }
        dirtyProjects := dirtyProjects + {key.project};
        return true;
      }
      latest := latest[key := target];
      if key in scheduled {
        return true;
      }
      ghost var before := scheduled;
      scheduled := scheduled + {key};
      var result := sender.TrySend(key);
      match result {
        case Sent =>
          accepted := true;
        case Full =>
          scheduled := scheduled - {key};
          assert scheduled == before;
          accepted := true;
        case Disconnected =>
          scheduled := scheduled - {key};
          assert scheduled == before;
          latest := latest - {key};
          dirtyProjects := dirtyProjects - {key.project};
          accepted := false;
      }
    }

    method TakeLatest(key: Key, ghost sender: WarmChannel) returns (target: Option<WarmQueue.Target>)
      modifies this
      ensures (View(sender), target) == WarmQueue.TakeLatest(old(View(sender)), key)
      ensures target == if key in old(latest) then Some(old(latest[key])) else None
      ensures latest == old(latest) - {key}
    {
      if key in latest {
        target := Some(latest[key]);
        latest := latest - {key};
      } else {
        target := None;
      }
    }

    method Cancel(key: Key, ghost sender: WarmChannel)
      modifies this
      ensures View(sender) == WarmQueue.Cancel(old(View(sender)), key)
    {
      latest := latest - {key};
    }

    method FinishAndRetry(key: Key, sender: WarmChannel, open: bool, disk: WarmQueue.Disk)
      modifies this, sender
      ensures View(sender) == WarmQueue.FinishAndRetry(old(View(sender)), disk, key, open)
    {
      scheduled := scheduled - {key};
      if open {
        RetryUnscheduled(sender, disk);
      }
    }

    method RetryUnscheduled(sender: WarmChannel, disk: WarmQueue.Disk)
      modifies this, sender
      ensures View(sender) == WarmQueue.Retry(old(View(sender)), disk)
    {
      while true
        invariant WarmQueue.Retry(View(sender), disk) == WarmQueue.Retry(old(View(sender)), disk)
        decreases WarmQueue.FreeSlots(View(sender)),
                  if WarmQueue.Unscheduled(View(sender)) == {} then 1 else 0,
                  |dirtyProjects|
      {
        ghost var q := View(sender);
        var waiting := latest.Keys - scheduled;
        if waiting != {} {
          var key := LeastOf(waiting);
          scheduled := scheduled + {key};
          var result := sender.TrySend(key);
          if result == WarmQueue.Sent {
            assert View(sender) == WarmQueue.Pushed(q);
            continue;
          }
          if result == WarmQueue.Full {
            scheduled := scheduled - {key};
            assert View(sender) == q;
            return;
          }
          latest, scheduled, dirtyProjects := map[], {}, {};
          return;
        }
        if |latest| >= WarmQueue.WARM_LATEST_CAPACITY || dirtyProjects == {} {
          return;
        }
        WarmQueue.DrainMakesProgress(q, disk);
        DrainDirtyProject(sender, disk);
      }
    }

    /** The least dirty Project is recovered from disk, and dirty again if not everything fits. */
    method DrainDirtyProject(ghost sender: WarmChannel, disk: WarmQueue.Disk)
      requires dirtyProjects != {}
      modifies this
      ensures View(sender) == WarmQueue.Drained(old(View(sender)), disk)
    {
      LeastExists(dirtyProjects);
      var root :| root in dirtyProjects && IsLeast(dirtyProjects, root);
      dirtyProjects := dirtyProjects - {root};
      var recovered := RecoverBuildingSceneTargets(disk, root);
      var overflow := InsertRecovered(recovered, sender, disk);
      if overflow && (root in dirtyProjects || |dirtyProjects| < WarmQueue.WARM_DIRTY_PROJECT_CAPACITY) {
        dirtyProjects := dirtyProjects + {root};
      }
    }

    method InsertRecovered(recovered: seq<Key>, ghost sender: WarmChannel, disk: WarmQueue.Disk)
      returns (overflow: bool)
      requires forall key | key in recovered :: key in disk
      modifies this
      ensures (View(sender), overflow) == WarmQueue.InsertRecovered(old(View(sender)), disk, recovered)
    {
      overflow := false;
      for i := 0 to |recovered|
        invariant WarmQueue.InsertRecovered(View(sender), disk, recovered[i..])
               == WarmQueue.InsertRecovered(old(View(sender)), disk, recovered)
      {
        var key := recovered[i];
        assert recovered[i..][1..] == recovered[i + 1..];
        if key in latest || key in scheduled {
          continue;
        }
        if |latest| >= WarmQueue.WARM_LATEST_CAPACITY {
          overflow := true;
          return;
        }
        latest := latest[key := WarmQueue.RecoveredTarget(disk, key)];
      }
    }
  }

  method LeastOf(keys: set<Key>) returns (least: Key)
    requires keys != {}
    ensures least == LeastKey(keys)
  {
    LeastKeyExists(keys);
    least :| least in keys && IsLeastKey(keys, least);
    LeastKeyIsUnique(keys, least, LeastKey(keys));
  }

  /** Takes the least key out of a set that is listed in ascending order from the given position on. */
  method TakeLeast(keys: set<Key>, ghost all: seq<Key>, ghost i: nat) returns (least: Key, rest: set<Key>)
    requires keys != {} && i <= |all| && Ascending(keys) == all[i..]
    ensures i < |all| && least == all[i] && Ascending(rest) == all[i + 1..] && |rest| < |keys|
  {
    LeastComesNext(all, i, keys);
    least := LeastOf(keys);
    rest := keys - {least};
  }

  lemma NothingLeft(keys: set<Key>)
    ensures keys == {} <==> Ascending(keys) == []
  {
  }

  /** The Building Scenes of one Project in key order. */
  method RecoverBuildingSceneTargets(disk: WarmQueue.Disk, project: nat) returns (targets: seq<Key>)
    ensures targets == WarmQueue.Recovered(disk, project)
  {
    var rest := set key | key in disk && key.project == project && disk[key].building;
    assert rest == WarmQueue.BuildingKeys(disk, project);
    targets := InOrder(rest);
  }

  method InOrder(keys: set<Key>) returns (sorted: seq<Key>)
    ensures sorted == Ascending(keys)
  {
    sorted := [];
    var rest := keys;
    ghost var all := Ascending(keys);
    while rest != {}
      invariant |sorted| <= |all| && sorted == all[..|sorted|] && Ascending(rest) == all[|sorted|..]
      decreases |rest|
    {
      var least;
      least, rest := TakeLeast(rest, all, |sorted|);
      sorted := sorted + [least];
    }
    NothingLeft(rest);
  }
}
