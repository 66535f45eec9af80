/**
 * Transition records assembled from two partial sources (window manager and
 * shell), their field-wise merge, and the lookup of the transactions that
 * started and finished a transition.  `Transition.kt` itself is not part of
 * this model: the rules below are the ones the transition tests pin down.
 */
module Transitions {
  import opened Wrappers

  datatype TransitionType = Open | Close | ToFront | ToBack | Change | Other(code: int)

  /** One window change of a transition; its content plays no part in merging. */
  datatype TransitionChange = TransitionChange(windowId: int, mode: int)

  /** The window-manager side; an absent field was not reported by this source. */
  datatype WmTransitionData = WmTransitionData(
    createTime: Option<int>,
    sendTime: Option<int>,
    abortTime: Option<int>,
    finishTime: Option<int>,
    startTransactionId: Option<int>,
    finishTransactionId: Option<int>,
    transitionType: Option<TransitionType>,
    changes: Option<seq<TransitionChange>>)

  /** The shell side. */
  datatype ShellTransitionData = ShellTransitionData(
    dispatchTime: Option<int>,
    mergeRequestTime: Option<int>,
    mergeTime: Option<int>,
    abortTime: Option<int>,
    handler: Option<string>,
    mergedInto: Option<int>)

  datatype Transition = Transition(id: int, wmData: WmTransitionData, shellData: ShellTransitionData)

  const NoWmData := WmTransitionData(None, None, None, None, None, None, None, None)
  const NoShellData := ShellTransitionData(None, None, None, None, None, None)

  /** A transition for which neither source reported anything yet. */
  function Blank(id: int): Transition
  {
    Transition(id, NoWmData, NoShellData)
  }

  // ---------------------------------------------------------------------------
  // merge
  // ---------------------------------------------------------------------------

  /** One field of a merge: the argument's value when it has one, the receiver's otherwise. */
  function Prefer<T>(mine: Option<T>, theirs: Option<T>): (r: Option<T>)
    ensures r.Some? <==> mine.Some? || theirs.Some?
    ensures theirs.Some? ==> r == theirs
    ensures theirs.None? ==> r == mine
  {
    if theirs.Some? then theirs else mine
  }

  function MergeWm(a: WmTransitionData, b: WmTransitionData): WmTransitionData
  {
    WmTransitionData(
      Prefer(a.createTime, b.createTime),
      Prefer(a.sendTime, b.sendTime),
      Prefer(a.abortTime, b.abortTime),
      Prefer(a.finishTime, b.finishTime),
      Prefer(a.startTransactionId, b.startTransactionId),
      Prefer(a.finishTransactionId, b.finishTransactionId),
      Prefer(a.transitionType, b.transitionType),
      Prefer(a.changes, b.changes))
  }

  function MergeShell(a: ShellTransitionData, b: ShellTransitionData): ShellTransitionData
  {
    ShellTransitionData(
      Prefer(a.dispatchTime, b.dispatchTime),
      Prefer(a.mergeRequestTime, b.mergeRequestTime),
      Prefer(a.mergeTime, b.mergeTime),
      Prefer(a.abortTime, b.abortTime),
      Prefer(a.handler, b.handler),
      Prefer(a.mergedInto, b.mergedInto))
  }

  /** `a.merge(b)`: both records must describe the same transition. */
  function Merge(a: Transition, b: Transition): (r: Result<Transition>)
    ensures r.Success? <==> a.id == b.id
    ensures r.Success? ==> r.value.id == a.id
  {
    if a.id != b.id then Failure("Can't merge transitions with different ids")
    else Success(Transition(a.id, MergeWm(a.wmData, b.wmData), MergeShell(a.shellData, b.shellData)))
  }

  /** `a.merge(b).merge(c)`, failing as soon as one merge fails. */
  function MergeAll(a: Transition, rest: seq<Transition>): (r: Result<Transition>)
    ensures r.Success? <==> forall i | 0 <= i < |rest| :: rest[i].id == a.id
    ensures r.Success? ==> r.value.id == a.id
    decreases |rest|
  {
    if rest == [] then Success(a)
    else
      var m := Merge(a, rest[0]);
      if m.Failure? then m else
        assert rest == [rest[0]] + rest[1..];
        MergeAll(m.value, rest[1..])
  }

  /** Merging one more record into a chain is one more `merge` on the chain's result. */
  lemma {:induction false} MergeAllAppend(a: Transition, rest: seq<Transition>, b: Transition)
    requires forall i | 0 <= i < |rest| :: rest[i].id == a.id
    requires b.id == a.id
    ensures MergeAll(a, rest + [b]) == Merge(MergeAll(a, rest).value, b)
    decreases |rest|
  {
    if rest == [] {
      assert [b][1..] == [];
    } else {
      assert (rest + [b])[0] == rest[0];
      assert (rest + [b])[1..] == rest[1..] + [b];
      MergeAllAppend(Merge(a, rest[0]).value, rest[1..], b);
    }
  }

  /** Every WM field reported by either record survives, with the argument's value on conflict. */
  lemma MergeWmPrecedence(a: Transition, b: Transition)
    requires a.id == b.id
    ensures var m := Merge(a, b).value.wmData;
      (b.wmData.createTime.Some? ==> m.createTime == b.wmData.createTime) &&
      (b.wmData.createTime.None? ==> m.createTime == a.wmData.createTime) &&
      (b.wmData.sendTime.Some? ==> m.sendTime == b.wmData.sendTime) &&
      (b.wmData.sendTime.None? ==> m.sendTime == a.wmData.sendTime) &&
      (b.wmData.abortTime.Some? ==> m.abortTime == b.wmData.abortTime) &&
      (b.wmData.abortTime.None? ==> m.abortTime == a.wmData.abortTime) &&
      (b.wmData.finishTime.Some? ==> m.finishTime == b.wmData.finishTime) &&
      (b.wmData.finishTime.None? ==> m.finishTime == a.wmData.finishTime) &&
      (b.wmData.startTransactionId.Some? ==> m.startTransactionId == b.wmData.startTransactionId) &&
      (b.wmData.startTransactionId.None? ==> m.startTransactionId == a.wmData.startTransactionId) &&
      (b.wmData.finishTransactionId.Some? ==> m.finishTransactionId == b.wmData.finishTransactionId) &&
      (b.wmData.finishTransactionId.None? ==> m.finishTransactionId == a.wmData.finishTransactionId) &&
      (b.wmData.transitionType.Some? ==> m.transitionType == b.wmData.transitionType) &&
      (b.wmData.transitionType.None? ==> m.transitionType == a.wmData.transitionType) &&
      (b.wmData.changes.Some? ==> m.changes == b.wmData.changes) &&
      (b.wmData.changes.None? ==> m.changes == a.wmData.changes)
  {
  }

  /** Every shell field reported by either record survives, with the argument's value on conflict. */
  lemma MergeShellPrecedence(a: Transition, b: Transition)
    requires a.id == b.id
    ensures var m := Merge(a, b).value.shellData;
      (b.shellData.dispatchTime.Some? ==> m.dispatchTime == b.shellData.dispatchTime) &&
      (b.shellData.dispatchTime.None? ==> m.dispatchTime == a.shellData.dispatchTime) &&
      (b.shellData.mergeRequestTime.Some? ==> m.mergeRequestTime == b.shellData.mergeRequestTime) &&
      (b.shellData.mergeRequestTime.None? ==> m.mergeRequestTime == a.shellData.mergeRequestTime) &&
      (b.shellData.mergeTime.Some? ==> m.mergeTime == b.shellData.mergeTime) &&
      (b.shellData.mergeTime.None? ==> m.mergeTime == a.shellData.mergeTime) &&
      (b.shellData.abortTime.Some? ==> m.abortTime == b.shellData.abortTime) &&
      (b.shellData.abortTime.None? ==> m.abortTime == a.shellData.abortTime) &&
      (b.shellData.handler.Some? ==> m.handler == b.shellData.handler) &&
      (b.shellData.handler.None? ==> m.handler == a.shellData.handler) &&
      (b.shellData.mergedInto.Some? ==> m.mergedInto == b.shellData.mergedInto) &&
      (b.shellData.mergedInto.None? ==> m.mergedInto == a.shellData.mergedInto)
  {
  }

  predicate WmComplete(d: WmTransitionData)
  {
    d.createTime.Some? && d.sendTime.Some? && d.abortTime.Some? && d.finishTime.Some? &&
    d.startTransactionId.Some? && d.finishTransactionId.Some? && d.transitionType.Some? && d.changes.Some?
  }

  predicate ShellComplete(d: ShellTransitionData)
  {
    d.dispatchTime.Some? && d.mergeRequestTime.Some? && d.mergeTime.Some? && d.abortTime.Some? &&
    d.handler.Some? && d.mergedInto.Some?
  }

  /** Merging in a fully populated record overrides every field: the result is that record. */
  lemma FullRecordOverrides(a: Transition, b: Transition)
    requires a.id == b.id && WmComplete(b.wmData) && ShellComplete(b.shellData)
    ensures Merge(a, b) == Success(b)
  {
  }

  /** Records that report disjoint fields merge the same way in either order. */
  lemma DisjointRecordsCommute(a: Transition, b: Transition)
    requires a.id == b.id
    requires a.wmData.createTime.None? || b.wmData.createTime.None?
    requires a.wmData.sendTime.None? || b.wmData.sendTime.None?
    requires a.wmData.abortTime.None? || b.wmData.abortTime.None?
    requires a.wmData.finishTime.None? || b.wmData.finishTime.None?
    requires a.wmData.startTransactionId.None? || b.wmData.startTransactionId.None?
    requires a.wmData.finishTransactionId.None? || b.wmData.finishTransactionId.None?
    requires a.wmData.transitionType.None? || b.wmData.transitionType.None?
    requires a.wmData.changes.None? || b.wmData.changes.None?
    requires a.shellData.dispatchTime.None? || b.shellData.dispatchTime.None?
    requires a.shellData.mergeRequestTime.None? || b.shellData.mergeRequestTime.None?
    requires a.shellData.mergeTime.None? || b.shellData.mergeTime.None?
    requires a.shellData.abortTime.None? || b.shellData.abortTime.None?
    requires a.shellData.handler.None? || b.shellData.handler.None?
    requires a.shellData.mergedInto.None? || b.shellData.mergedInto.None?
    ensures Merge(a, b) == Merge(b, a)
  {
  }

  /** A chain of merges is a left fold whose grouping does not matter. */
  lemma MergeIsAssociative(a: Transition, b: Transition, c: Transition)
    requires a.id == b.id == c.id
    ensures Merge(Merge(a, b).value, c) == Merge(a, Merge(b, c).value)
  {
  }

  /** A record with nothing reported is a two-sided identity, and merging a record with itself changes nothing. */
  lemma MergeIdentityAndIdempotence(a: Transition)
    ensures Merge(a, Blank(a.id)) == Success(a)
    ensures Merge(Blank(a.id), a) == Success(a)
    ensures Merge(a, a) == Success(a)
  {
  }

  // ---------------------------------------------------------------------------
  // getStartTransaction / getFinishTransaction
  // ---------------------------------------------------------------------------

  datatype Transaction = Transaction(
    id: int, pid: int, uid: int, requestedVSyncId: int, postTime: int, mergedTransactionIds: seq<int>)

  /** One batch of a transactions trace: the transactions applied at one timestamp. */
  datatype TransactionsTraceEntry = TransactionsTraceEntry(timestamp: int, vSyncId: int, transactions: seq<Transaction>)

  /** The first batch with the given timestamp. */
  function BatchAt(trace: seq<TransactionsTraceEntry>, timestamp: int): (r: Option<TransactionsTraceEntry>)
    ensures r.Some? ==> r.value.timestamp == timestamp
    ensures r.Some? ==> exists i | 0 <= i < |trace| :: trace[i] == r.value && forall j | 0 <= j < i :: trace[j].timestamp != timestamp
    ensures r.None? ==> forall i | 0 <= i < |trace| :: trace[i].timestamp != timestamp
  {
    if trace == [] then None
    else if trace[0].timestamp == timestamp then
      assert trace[0] == trace[0];
      Some(trace[0])
    else
      var r := BatchAt(trace[1..], timestamp);
      if r.Some? then
        var i :| 0 <= i < |trace[1..]| && trace[1..][i] == r.value && forall j | 0 <= j < i :: trace[1..][j].timestamp != timestamp;
        assert trace[i + 1] == r.value;
        assert forall j | 0 <= j < i + 1 :: trace[j].timestamp != timestamp by {
          forall j | 0 <= j < i + 1 ensures trace[j].timestamp != timestamp {
            if j > 0 {
              assert trace[j] == trace[1..][j - 1];
            }
          }
        }
        r
      else r
  }

  /** The first transaction of the list with the given id. */
  function FindDirect(ts: seq<Transaction>, target: int): (r: Option<Transaction>)
    ensures r.Some? ==> exists i | 0 <= i < |ts| ::
      ts[i] == r.value && ts[i].id == target && forall j | 0 <= j < i :: ts[j].id != target
    ensures r.None? ==> forall i | 0 <= i < |ts| :: ts[i].id != target
  {
    if ts == [] then None
    else if ts[0].id == target then Some(ts[0])
    else
      var r := FindDirect(ts[1..], target);
      if r.Some? then
        var i :| 0 <= i < |ts[1..]| && ts[1..][i] == r.value && ts[1..][i].id == target &&
          forall j | 0 <= j < i :: ts[1..][j].id != target;
        assert ts[i + 1] == r.value;
        assert forall j | 0 < j < i + 1 :: ts[j] == ts[1..][j - 1];
        r
      else
        assert forall j | 0 < j < |ts| :: ts[j] == ts[1..][j - 1];
        r
  }

  /** The first transaction of the list into which `target` was merged. */
  function FindIndirect(ts: seq<Transaction>, target: int): (r: Option<Transaction>)
    ensures r.Some? ==> exists i | 0 <= i < |ts| ::
      ts[i] == r.value && target in ts[i].mergedTransactionIds &&
      forall j | 0 <= j < i :: target !in ts[j].mergedTransactionIds
    ensures r.None? ==> forall i | 0 <= i < |ts| :: target !in ts[i].mergedTransactionIds
  {
    if ts == [] then None
    else if target in ts[0].mergedTransactionIds then Some(ts[0])
    else
      var r := FindIndirect(ts[1..], target);
      if r.Some? then
        var i :| 0 <= i < |ts[1..]| && ts[1..][i] == r.value && target in ts[1..][i].mergedTransactionIds &&
          forall j | 0 <= j < i :: target !in ts[1..][j].mergedTransactionIds;
        assert ts[i + 1] == r.value;
        assert forall j | 0 < j < i + 1 :: ts[j] == ts[1..][j - 1];
        r
      else
        assert forall j | 0 < j < |ts| :: ts[j] == ts[1..][j - 1];
        r
  }

  /** `tx` is the transaction `target` itself, or one it was merged into. */
  predicate Matches(tx: Transaction, target: int)
  {
    tx.id == target || target in tx.mergedTransactionIds
  }

  /**
   * The transaction of the batch at `sendTime` that is `target` itself, or
   * failing that, the one `target` was merged into; the first such in the batch.
   */
  function FindTransaction(trace: seq<TransactionsTraceEntry>, sendTime: int, target: int): (r: Option<Transaction>)
    ensures r.Some? ==> BatchAt(trace, sendTime).Some?
    ensures r.Some? ==> var ts := BatchAt(trace, sendTime).value.transactions;
      exists i | 0 <= i < |ts| :: ts[i] == r.value &&
        ((ts[i].id == target && forall j | 0 <= j < i :: ts[j].id != target) ||
         (target in ts[i].mergedTransactionIds && forall j | 0 <= j < i :: target !in ts[j].mergedTransactionIds))
    ensures r.Some? && r.value.id != target ==>
      forall t | t in BatchAt(trace, sendTime).value.transactions :: t.id != target
    ensures BatchAt(trace, sendTime).Some? ==>
      (r.None? <==> forall t | t in BatchAt(trace, sendTime).value.transactions :: !Matches(t, target))
  {
    var batch := BatchAt(trace, sendTime);
    if batch.None? then None
    else
      var ts := batch.value.transactions;
      var direct := FindDirect(ts, target);
      if direct.Some? then
        var i :| 0 <= i < |ts| && ts[i] == direct.value && ts[i].id == target && forall j | 0 <= j < i :: ts[j].id != target;
        assert ts[i] in ts && Matches(ts[i], target);
        direct
      else
        var indirect := FindIndirect(ts, target);
        if indirect.Some? then
          var i :| 0 <= i < |ts| && ts[i] == indirect.value && target in ts[i].mergedTransactionIds &&
            forall j | 0 <= j < i :: target !in ts[j].mergedTransactionIds;
          assert ts[i] in ts && Matches(ts[i], target);
          indirect
        else
          assert forall t | t in ts :: !Matches(t, target) by {
            forall t | t in ts ensures !Matches(t, target) {
              var k :| 0 <= k < |ts| && ts[k] == t;
            }
          }
          indirect
  }

  /**
   * `getStartTransaction`: none when the transition has no send time or no
   * start transaction id; otherwise a match in the batch at the send time is
   * found whenever one exists, the transaction with the id itself before one
   * it was merged into.
   */
  function GetStartTransaction(t: Transition, trace: seq<TransactionsTraceEntry>): (r: Option<Transaction>)
    ensures t.wmData.sendTime.None? || t.wmData.startTransactionId.None? ==> r.None?
    ensures r.Some? ==> Matches(r.value, t.wmData.startTransactionId.value)
    ensures r.Some? ==> (BatchAt(trace, t.wmData.sendTime.value).Some? &&
                         r.value in BatchAt(trace, t.wmData.sendTime.value).value.transactions)
    ensures (t.wmData.sendTime.Some? && t.wmData.startTransactionId.Some? &&
             BatchAt(trace, t.wmData.sendTime.value).Some? &&
             exists tx | tx in BatchAt(trace, t.wmData.sendTime.value).value.transactions ::
               Matches(tx, t.wmData.startTransactionId.value)) ==> r.Some?
    ensures (r.Some? && exists tx | tx in BatchAt(trace, t.wmData.sendTime.value).value.transactions ::
               tx.id == t.wmData.startTransactionId.value) ==> r.value.id == t.wmData.startTransactionId.value
  {
    if t.wmData.sendTime.None? || t.wmData.startTransactionId.None? then None
    else
      var r := FindTransaction(trace, t.wmData.sendTime.value, t.wmData.startTransactionId.value);
      assert r.Some? ==> r.value in BatchAt(trace, t.wmData.sendTime.value).value.transactions;
      r
  }

  /** `getFinishTransaction`: the same lookup on the finish transaction id. */
  function GetFinishTransaction(t: Transition, trace: seq<TransactionsTraceEntry>): (r: Option<Transaction>)
    ensures t.wmData.sendTime.None? || t.wmData.finishTransactionId.None? ==> r.None?
    ensures r.Some? ==> Matches(r.value, t.wmData.finishTransactionId.value)
    ensures r.Some? ==> (BatchAt(trace, t.wmData.sendTime.value).Some? &&
                         r.value in BatchAt(trace, t.wmData.sendTime.value).value.transactions)
    ensures (t.wmData.sendTime.Some? && t.wmData.finishTransactionId.Some? &&
             BatchAt(trace, t.wmData.sendTime.value).Some? &&
             exists tx | tx in BatchAt(trace, t.wmData.sendTime.value).value.transactions ::
               Matches(tx, t.wmData.finishTransactionId.value)) ==> r.Some?
    ensures (r.Some? && exists tx | tx in BatchAt(trace, t.wmData.sendTime.value).value.transactions ::
               tx.id == t.wmData.finishTransactionId.value) ==> r.value.id == t.wmData.finishTransactionId.value
  {
    if t.wmData.sendTime.None? || t.wmData.finishTransactionId.None? then None
    else
      var r := FindTransaction(trace, t.wmData.sendTime.value, t.wmData.finishTransactionId.value);
      assert r.Some? ==> r.value in BatchAt(trace, t.wmData.sendTime.value).value.transactions;
      r
  }

  /** The finish lookup is the start lookup applied to the finish transaction id. */
  lemma FinishLookupIsStartLookup(t: Transition, trace: seq<TransactionsTraceEntry>)
    ensures GetFinishTransaction(t, trace) ==
      GetStartTransaction(t.(wmData := t.wmData.(startTransactionId := t.wmData.finishTransactionId)), trace)
  {
  }

  /** `canMerge`: three partial records of transition 1 merge into one carrying every reported time. */
  method CanMergeClient()
  {
    var t1 := Transition(1, NoWmData.(createTime := Some(10), sendTime := Some(20)), NoShellData);
    var t2 := Transition(1, NoWmData, NoShellData.(dispatchTime := Some(22), handler := Some("DefaultHandler")));
    var t3 := Transition(1, NoWmData.(finishTime := Some(40)), NoShellData);
    var m12 := Merge(t1, t2);
    var merged := Merge(m12.value, t3);
    assert merged.Success?;
    assert merged.value.wmData.createTime == Some(10) && merged.value.wmData.sendTime == Some(20);
    assert merged.value.shellData.dispatchTime == Some(22) && merged.value.wmData.finishTime == Some(40);
  }

  /** `getStartTransaction_directMatch`, `_indirectMatch` and `_noMatch`, on transaction id 8 sent at time 1. */
  method StartLookupClient()
  {
    var transition := Transition(1, NoWmData.(sendTime := Some(1), startTransactionId := Some(8)), NoShellData);
    var direct := [TransactionsTraceEntry(1, 1, [Transaction(8, 0, 0, 0, 0, [])])];
    var indirect := [TransactionsTraceEntry(1, 1, [Transaction(18, 0, 0, 0, 0, [8])])];
    var none := [TransactionsTraceEntry(1, 1, [Transaction(18, 0, 0, 0, 0, [])])];
    assert GetStartTransaction(transition, direct).value.id == 8;
    assert GetStartTransaction(transition, indirect).value.id == 18;
    assert GetStartTransaction(transition, none).None?;
  }
}
