/**
 * The auto-logout manager: one stored timer handle (or null). Storing a handle
 * replaces the previous one without cancelling it; clearing cancels the stored
 * handle, if any, and forgets it. Timer handles are compared only for identity;
 * a browser timer id is a positive integer and a Node.js handle is an object,
 * so a stored handle is always truthy.
 */
module AutoLogout {
  import opened Options

  datatype Timer = Timer(id: nat)

  datatype Manager = Manager(stored: Option<Timer>)

  datatype Op = SetTimeoutId(timer: Timer) | ClearTimeout

  /** The manager after an operation and the handles it passed to the runtime's `clearTimeout`. */
  datatype Effect = Effect(manager: Manager, cancelled: seq<Timer>)

  /** The manager as the class declares it: no handle stored. */
  const Initial: Manager := Manager(None)

  function Apply(m: Manager, op: Op): (r: Effect)
    ensures op.ClearTimeout? ==> r.manager.stored == None
    ensures op.ClearTimeout? ==> r.cancelled == (if m.stored.Some? then [m.stored.value] else [])
    ensures op.SetTimeoutId? ==> r.manager.stored == Some(op.timer) && r.cancelled == []
  {
    match op
    case SetTimeoutId(t) => Effect(Manager(Some(t)), [])
    case ClearTimeout =>
      match m.stored
      case None => Effect(m, [])
      case Some(t) => Effect(Manager(None), [t])
  }

  function Run(m: Manager, ops: seq<Op>): Effect
    decreases |ops|
  {
    if |ops| == 0 then Effect(m, [])
    else
      var first := Apply(m, ops[0]);
      var rest := Run(first.manager, ops[1..]);
      Effect(rest.manager, first.cancelled + rest.cancelled)
  }

  /** Clearing twice cancels the stored handle once and leaves the same state. */
  lemma ClearIdempotent(m: Manager)
    ensures Run(m, [ClearTimeout, ClearTimeout]) == Apply(m, ClearTimeout)
  {
    assert [ClearTimeout, ClearTimeout][1..] == [ClearTimeout];
  }

  /** Storing a second handle leaks the first: a later clear cancels only the second. */
  lemma SetOverwritesWithoutCancel(m: Manager, a: Timer, b: Timer)
    ensures Run(m, [SetTimeoutId(a), SetTimeoutId(b), ClearTimeout]).cancelled == [b]
    ensures Run(m, [SetTimeoutId(a), SetTimeoutId(b), ClearTimeout]).manager.stored == None
  {
    var ops := [SetTimeoutId(a), SetTimeoutId(b), ClearTimeout];
    assert ops[1..] == [SetTimeoutId(b), ClearTimeout];
    assert ops[1..][1..] == [ClearTimeout];
    var mb := Manager(Some(b));
    assert Run(mb, [ClearTimeout]) == Effect(Manager(None), [b]);
    assert Run(Manager(Some(a)), ops[1..]) == Effect(Manager(None), [b]);
  }

  /** The handles stored by a sequence of operations. */
  predicate SetIn(t: Timer, ops: seq<Op>) {
    exists i :: 0 <= i < |ops| && ops[i] == SetTimeoutId(t)
  }

  /** Only handles that were stored are ever cancelled. */
  lemma {:induction false} CancelsOnlyStored(m: Manager, ops: seq<Op>)
    ensures forall t :: t in Run(m, ops).cancelled ==> m.stored == Some(t) || SetIn(t, ops)
    decreases |ops|
  {
    if |ops| > 0 {
      var first := Apply(m, ops[0]);
      CancelsOnlyStored(first.manager, ops[1..]);
      forall t | t in Run(m, ops).cancelled
        ensures m.stored == Some(t) || SetIn(t, ops)
      {
        if t !in first.cancelled {
          assert t in Run(first.manager, ops[1..]).cancelled;
          if first.manager.stored == Some(t) {
            assert ops[0] == SetTimeoutId(t) || m.stored == Some(t);
          } else {
            var i :| 0 <= i < |ops[1..]| && ops[1..][i] == SetTimeoutId(t);
            assert ops[i + 1] == SetTimeoutId(t);
          }
        }
      }
    }
  }

  /** Every handle is set at most once, and never the one already stored. */
  predicate FreshHandles(m: Manager, ops: seq<Op>) {
    && (forall i, j :: 0 <= i < j < |ops| && ops[i].SetTimeoutId? && ops[j].SetTimeoutId? ==> ops[i].timer != ops[j].timer)
    && (forall i :: 0 <= i < |ops| && ops[i].SetTimeoutId? ==> m.stored != Some(ops[i].timer))
  }

  predicate NoRepeats(ts: seq<Timer>) {
    forall i, j :: 0 <= i < j < |ts| ==> ts[i] != ts[j]
  }

  /** With fresh handles, no handle is ever cancelled twice. */
  lemma {:induction false} NoDoubleCancel(m: Manager, ops: seq<Op>)
    requires FreshHandles(m, ops)
    ensures NoRepeats(Run(m, ops).cancelled)
    decreases |ops|
  {
    if |ops| > 0 {
      var first := Apply(m, ops[0]);
      var rest := Run(first.manager, ops[1..]);
      assert FreshHandles(first.manager, ops[1..]) by {
        forall i | 0 <= i < |ops[1..]| && ops[1..][i].SetTimeoutId?
          ensures first.manager.stored != Some(ops[1..][i].timer)
        {
          assert ops[i + 1] == ops[1..][i];
          if ops[0].SetTimeoutId? {
            assert ops[0].timer != ops[i + 1].timer;
          }
        }
      }
      NoDoubleCancel(first.manager, ops[1..]);
      CancelsOnlyStored(first.manager, ops[1..]);
      if first.cancelled != [] {
        var t := first.cancelled[0];
        assert ops[0].ClearTimeout? && m.stored == Some(t) && first.manager.stored == None;
        assert !SetIn(t, ops[1..]) by {
          forall i | 0 <= i < |ops[1..]|
            ensures ops[1..][i] != SetTimeoutId(t)
          {
            assert ops[i + 1] == ops[1..][i];
          }
        }
        assert t !in rest.cancelled;
      }
    }
  }

  /**
   * From the manager's initial null handle, when each handle is set at most
   * once, no handle is cancelled twice and every cancelled handle was set by
   * the run itself.
   */
  lemma {:induction false} NoDoubleCancelFromStart(ops: seq<Op>)
    requires forall i, j :: 0 <= i < j < |ops| && ops[i].SetTimeoutId? && ops[j].SetTimeoutId? ==>
               ops[i].timer != ops[j].timer
    ensures NoRepeats(Run(Initial, ops).cancelled)
    ensures forall t :: t in Run(Initial, ops).cancelled ==> SetIn(t, ops)
  {
    NoDoubleCancel(Initial, ops);
    CancelsOnlyStored(Initial, ops);
  }
}
