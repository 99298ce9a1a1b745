/** The task provider of the workers: the lock, status and attempts keys of one redis database. */
module TaskProvider {
  import opened Concepts
  import opened Decimal
  import opened WorkerProtocol

  datatype Kind = TaskKind | AttemptsKind | LockKind | StatusKind | KeepAliveKind | SolutionKind | StateKind

  const PREFIX := "assfire.tsp."
  const LOCK_VALUE := "1"
  const KEEPALIVE_VALUE := "1"

  function Suffix(kind: Kind): (suffix: string)
    ensures 5 <= |suffix|
  {
    match kind
    case TaskKind => ".task"
    case AttemptsKind => ".attempts"
    case LockKind => ".lock"
    case StatusKind => ".status"
    case KeepAliveKind => ".keepAlive"
    case SolutionKind => ".solution"
    case StateKind => ".state"
  }

  function Key(kind: Kind, t: Task): string {
    PREFIX + t + Suffix(kind)
  }

  lemma KeysSpelled(t: Task)
    ensures Key(TaskKind, t) == "assfire.tsp." + t + ".task" && Key(AttemptsKind, t) == "assfire.tsp." + t + ".attempts"
    ensures Key(LockKind, t) == "assfire.tsp." + t + ".lock" && Key(StatusKind, t) == "assfire.tsp." + t + ".status"
    ensures Key(KeepAliveKind, t) == "assfire.tsp." + t + ".keepAlive"
    ensures Key(SolutionKind, t) == "assfire.tsp." + t + ".solution" && Key(StateKind, t) == "assfire.tsp." + t + ".state"
  {
  }

  lemma SuffixesEndDifferently(a: Kind, b: Kind)
    requires Suffix(a)[|Suffix(a)| - 1] == Suffix(b)[|Suffix(b)| - 1]
    requires Suffix(a)[|Suffix(a)| - 2] == Suffix(b)[|Suffix(b)| - 2]
    ensures a == b
  {
  }

  /** Whatever the task ids look like, no key of one task or kind is a key of another. */
  lemma KeysAreSeparate(a: Kind, t: Task, b: Kind, u: Task)
    requires Key(a, t) == Key(b, u)
    ensures a == b && t == u
  {
    var key := Key(a, t);
    assert key[|key| - 1] == Suffix(a)[|Suffix(a)| - 1] == Suffix(b)[|Suffix(b)| - 1];
    assert key[|key| - 2] == Suffix(a)[|Suffix(a)| - 2] == Suffix(b)[|Suffix(b)| - 2];
    SuffixesEndDifferently(a, b);
    var n := |key| - |Suffix(a)|;
    assert key[|PREFIX|..n] == t;
    assert key[|PREFIX|..n] == u;
  }

  function StatusName(status: Status): string
    requires !status.NoStatus?
  {
    "WORKER_TSP_STATUS_UPDATE_TYPE_" + match status
      case Started => "STARTED"
      case InProgress => "IN_PROGRESS"
      case Finished => "FINISHED"
      case Paused => "PAUSED"
      case Interrupted => "INTERRUPTED"
      case Error => "ERROR"
  }

  lemma StatusNamesSpelled()
    ensures StatusName(Started) == "WORKER_TSP_STATUS_UPDATE_TYPE_STARTED"
    ensures StatusName(InProgress) == "WORKER_TSP_STATUS_UPDATE_TYPE_IN_PROGRESS"
    ensures StatusName(Finished) == "WORKER_TSP_STATUS_UPDATE_TYPE_FINISHED"
    ensures StatusName(Paused) == "WORKER_TSP_STATUS_UPDATE_TYPE_PAUSED"
    ensures StatusName(Interrupted) == "WORKER_TSP_STATUS_UPDATE_TYPE_INTERRUPTED"
    ensures StatusName(Error) == "WORKER_TSP_STATUS_UPDATE_TYPE_ERROR"
  {
  }

  lemma StatusNamesDiffer(a: Status, b: Status)
    requires !a.NoStatus? && !b.NoStatus? && StatusName(a) == StatusName(b)
    ensures a == b
  {
    var n := |"WORKER_TSP_STATUS_UPDATE_TYPE_"|;
    assert StatusName(a)[n..] == StatusName(b)[n..];
    assert StatusName(a)[n] == StatusName(b)[n] && |StatusName(a)| == |StatusName(b)|;
  }

  /*---------- The keys as the step system's store ----------*/

  ghost predicate RepresentsTask(data: map<string, string>, store: Store, t: Task) {
    && (Key(LockKind, t) in data <==> t in store.locks)
    && (Key(StatusKind, t) in data <==> !store.StatusOf(t).NoStatus?)
    && (Key(StatusKind, t) in data ==> data[Key(StatusKind, t)] == StatusName(store.StatusOf(t)))
    && (Key(AttemptsKind, t) in data ==> data[Key(AttemptsKind, t)] == PrintNat(store.Attempts(t)))
    && (Key(AttemptsKind, t) !in data ==> store.Attempts(t) == 0)
  }

  ghost predicate Represents(data: map<string, string>, store: Store) {
    forall t :: RepresentsTask(data, store, t)
  }

  /** Only the given key of the given task differs. */
  ghost predicate OnlyKeyChanged(data: map<string, string>, data': map<string, string>, kind: Kind, t: Task) {
    data - {Key(kind, t)} == data' - {Key(kind, t)}
  }

  lemma OtherKeysUnchanged(data: map<string, string>, data': map<string, string>, kind: Kind, t: Task, kind': Kind, u: Task)
    requires OnlyKeyChanged(data, data', kind, t) && (kind' != kind || u != t)
    ensures Key(kind', u) in data <==> Key(kind', u) in data'
    ensures Key(kind', u) in data ==> data'[Key(kind', u)] == data[Key(kind', u)]
  {
    var key := Key(kind', u);
    if key == Key(kind, t) { KeysAreSeparate(kind', u, kind, t); }
    assert key in data <==> key in data - {Key(kind, t)};
    assert key in data' <==> key in data' - {Key(kind, t)};
    if key in data { assert (data - {Key(kind, t)})[key] == (data' - {Key(kind, t)})[key]; }
  }

  lemma OtherTaskRepresented(data: map<string, string>, data': map<string, string>, kind: Kind, t: Task, store: Store, store': Store, u: Task)
    requires OnlyKeyChanged(data, data', kind, t) && u != t && RepresentsTask(data, store, u)
    requires (u in store.locks <==> u in store'.locks) && store.StatusOf(u) == store'.StatusOf(u) && store.Attempts(u) == store'.Attempts(u)
    ensures RepresentsTask(data', store', u)
  {
    OtherKeysUnchanged(data, data', kind, t, LockKind, u);
    OtherKeysUnchanged(data, data', kind, t, StatusKind, u);
    OtherKeysUnchanged(data, data', kind, t, AttemptsKind, u);
  }

  lemma LockChangeRepresented(data: map<string, string>, data': map<string, string>, t: Task, store: Store, locks: set<Task>)
    requires Represents(data, store) && OnlyKeyChanged(data, data', LockKind, t)
    requires locks == (if Key(LockKind, t) in data' then store.locks + {t} else store.locks - {t})
    ensures Represents(data', store.(locks := locks))
  {
    forall u ensures RepresentsTask(data', store.(locks := locks), u) {
      assert RepresentsTask(data, store, u);
      if u == t {
        OtherKeysUnchanged(data, data', LockKind, t, StatusKind, t);
        OtherKeysUnchanged(data, data', LockKind, t, AttemptsKind, t);
      } else {
        OtherTaskRepresented(data, data', LockKind, t, store, store.(locks := locks), u);
      }
    }
  }

  lemma StatusChangeRepresented(data: map<string, string>, data': map<string, string>, t: Task, store: Store, status: Status)
    requires Represents(data, store) && OnlyKeyChanged(data, data', StatusKind, t) && !status.NoStatus?
    requires Key(StatusKind, t) in data' && data'[Key(StatusKind, t)] == StatusName(status)
    ensures Represents(data', store.(status := store.status[t := status]))
  {
    var store' := store.(status := store.status[t := status]);
    forall u ensures RepresentsTask(data', store', u) {
      assert RepresentsTask(data, store, u);
      if u == t {
        OtherKeysUnchanged(data, data', StatusKind, t, LockKind, t);
        OtherKeysUnchanged(data, data', StatusKind, t, AttemptsKind, t);
      } else {
        OtherTaskRepresented(data, data', StatusKind, t, store, store', u);
      }
    }
  }

  lemma AttemptsChangeRepresented(data: map<string, string>, data': map<string, string>, t: Task, store: Store, attempts: nat)
    requires Represents(data, store) && OnlyKeyChanged(data, data', AttemptsKind, t)
    requires Key(AttemptsKind, t) in data' && data'[Key(AttemptsKind, t)] == PrintNat(attempts)
    ensures Represents(data', store.(attempts := store.attempts[t := attempts]))
  {
    var store' := store.(attempts := store.attempts[t := attempts]);
    forall u ensures RepresentsTask(data', store', u) {
      assert RepresentsTask(data, store, u);
      if u == t {
        OtherKeysUnchanged(data, data', AttemptsKind, t, LockKind, t);
        OtherKeysUnchanged(data, data', AttemptsKind, t, StatusKind, t);
      } else {
        OtherTaskRepresented(data, data', AttemptsKind, t, store, store', u);
      }
    }
  }

  /** The database that all providers share; every method is one command that takes effect at once. */
  class RedisTaskProvider {
    var data: map<string, string>

    constructor ()
      ensures data == map[]
    {
      data := map[];
    }

    /** GETSET: sets the key whatever it was; the lock is ours if there was nothing. An error reply counts as not locked. */
    method TryLock(t: Task, outcome: Outcome, ghost store: Store) returns (locked: bool)
      requires Represents(data, store)
      modifies this
      ensures locked <==> outcome.Answered? && t !in store.locks
      ensures Represents(data, if outcome.Refused? then store else store.(locks := store.locks + {t}))
      ensures data == if outcome.Refused? then old(data) else old(data)["assfire.tsp." + t + ".lock" := "1"]
    {
      if outcome.Refused? { return false; }
      assert RepresentsTask(data, store, t);
      ghost var before := data;
      locked := outcome.Answered? && Key(LockKind, t) !in data;
      data := data[Key(LockKind, t) := LOCK_VALUE];
      LockChangeRepresented(before, data, t, store, store.locks + {t});
    }

    /** A failed DEL is only logged. */
    method Unlock(t: Task, failed: bool, ghost store: Store)
      requires Represents(data, store)
      modifies this
      ensures Represents(data, if failed then store else store.(locks := store.locks - {t}))
      ensures data == if failed then old(data) else old(data) - {"assfire.tsp." + t + ".lock"}
    {
      if failed { return; }
      ghost var before := data;
      data := data - {Key(LockKind, t)};
      LockChangeRepresented(before, data, t, store, store.locks - {t});
    }

    /** INCR takes an absent key for zero; None stands for the exception on an error reply. */
    method IncAttempts(t: Task, outcome: Outcome, ghost store: Store) returns (attempts: Option<nat>)
      requires Represents(data, store)
      modifies this
      ensures attempts == if outcome.Answered? then Some(store.Attempts(t) + 1) else None
      ensures Represents(data, if outcome.Refused? then store else store.(attempts := store.attempts[t := store.Attempts(t) + 1]))
      ensures data == if outcome.Refused? then old(data) else old(data)["assfire.tsp." + t + ".attempts" := PrintNat(store.Attempts(t) + 1)]
    {
      if outcome.Refused? { return None; }
      assert RepresentsTask(data, store, t);
      ParsePrinted(store.Attempts(t));
      ghost var before := data;
      var key := Key(AttemptsKind, t);
      var count := if key in data then ParseNat(data[key]) + 1 else 1;
      data := data[key := PrintNat(count)];
      AttemptsChangeRepresented(before, data, t, store, count);
      attempts := if outcome.Answered? then Some(count) else None;
    }

    /** Two commands at once, of which only the first one's reply is looked at; the expiry of the second's key is not modelled. */
    method SendStatusSignal(t: Task, status: Status, outcome: Outcome, keepAliveFailed: bool, ghost store: Store) returns (sent: bool)
      requires Represents(data, store) && !status.NoStatus?
      modifies this
      ensures sent <==> outcome.Answered?
      ensures Represents(data, if outcome.Refused? then store else store.(status := store.status[t := status]))
      ensures var sending := if outcome.Refused? then old(data) else old(data)["assfire.tsp." + t + ".status" := StatusName(status)];
              data == if keepAliveFailed then sending else sending["assfire.tsp." + t + ".keepAlive" := "1"]
    {
      ghost var after := store;
      if !outcome.Refused? {
        ghost var before := data;
        data := data[Key(StatusKind, t) := StatusName(status)];
        StatusChangeRepresented(before, data, t, store, status);
        after := store.(status := store.status[t := status]);
      }
      if !keepAliveFailed {
        KeepAliveIsApart(data, t, after);
        data := data[Key(KeepAliveKind, t) := KEEPALIVE_VALUE];
      }
      sent := outcome.Answered?;
    }

    /** An error reply is no string, so it is taken for another status. */
    method HasStatus(t: Task, status: Status, failed: bool, ghost store: Store) returns (has: bool)
      requires Represents(data, store) && !status.NoStatus?
      ensures has <==> !failed && store.StatusOf(t) == status
    {
      assert RepresentsTask(data, store, t);
      var key := Key(StatusKind, t);
      has := !failed && key in data && data[key] == StatusName(status);
      if has { StatusNamesDiffer(store.StatusOf(t), status); }
    }

    method IsFinished(t: Task, failed: bool, ghost store: Store) returns (finished: bool)
      requires Represents(data, store)
      ensures finished <==> !failed && store.StatusOf(t).Finished?
    {
      finished := HasStatus(t, Finished, failed, store);
    }

    method IsPaused(t: Task, failed: bool, ghost store: Store) returns (paused: bool)
      requires Represents(data, store)
      ensures paused <==> !failed && store.StatusOf(t).Paused?
    {
      paused := HasStatus(t, Paused, failed, store);
    }
  }

  lemma KeepAliveIsApart(data: map<string, string>, t: Task, store: Store)
    requires Represents(data, store)
    ensures Represents(data[Key(KeepAliveKind, t) := KEEPALIVE_VALUE], store)
  {
    var data' := data[Key(KeepAliveKind, t) := KEEPALIVE_VALUE];
    assert OnlyKeyChanged(data, data', KeepAliveKind, t);
    forall u ensures RepresentsTask(data', store, u) {
      assert RepresentsTask(data, store, u);
      OtherKeysUnchanged(data, data', KeepAliveKind, t, LockKind, u);
      OtherKeysUnchanged(data, data', KeepAliveKind, t, StatusKind, u);
      OtherKeysUnchanged(data, data', KeepAliveKind, t, AttemptsKind, u);
    }
  }
}
