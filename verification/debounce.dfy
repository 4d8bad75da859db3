/**
 * The search debounce of the inventory page, in discrete time. The search key
 * is the pair (column, term). Each time the key actually changes (and once on
 * mount), the pending timer is cleared and a new one is set to fire 500 ticks
 * later; when it fires it issues a list fetch for the key current at that
 * moment. Setting the key to its current value changes nothing, because the
 * effect only reruns when its dependencies change.
 *
 * The state records two observation logs: the key changes with their times,
 * and the fetches the timer issued with their times. The main theorem says the
 * fetch log is determined by the change log: a change produces a fetch exactly
 * when 500 ticks have passed since it and no other change came in between.
 */
module Debounce {
  import opened Options

  const Delay: nat := 500

  const DefaultColumn: string := "Inventory Item"

  datatype SearchKey = SearchKey(column: string, term: string)

  const InitialKey: SearchKey := SearchKey(DefaultColumn, "")

  /** The key became `key` at time `at`. */
  datatype Change = Change(at: nat, key: SearchKey)

  /** The timer issued a fetch for `key` at time `at`. */
  datatype Fetch = Fetch(at: nat, key: SearchKey)

  datatype Search = Search(
    now: nat,
    key: SearchKey,
    deadline: Option<nat>,
    changes: seq<Change>,
    fetches: seq<Fetch>)

  datatype Input = Tick | SetTerm(term: string) | SetColumn(column: string)

  /** On mount the effect runs once with the initial key. */
  function Mount(): Search {
    Search(0, InitialKey, Some(Delay), [Change(0, InitialKey)], [])
  }

  /** Rerun the effect if the key changed: clear the pending timer, set a new one. */
  function Rekey(s: Search, k: SearchKey): Search {
    if k == s.key then s
    else s.(key := k, deadline := Some(s.now + Delay), changes := s.changes + [Change(s.now, k)])
  }

  function Step(s: Search, i: Input): Search {
    match i
    case Tick =>
      var t := s.now + 1;
      if s.deadline == Some(t)
      then s.(now := t, deadline := None, fetches := s.fetches + [Fetch(t, s.key)])
      else s.(now := t)
    case SetTerm(x) => Rekey(s, s.key.(term := x))
    case SetColumn(c) => Rekey(s, s.key.(column := c))
  }

  function Run(s: Search, ins: seq<Input>): Search
    decreases |ins|
  {
    if |ins| == 0 then s else Run(Step(s, ins[0]), ins[1..])
  }

  function Ticks(k: nat): (ins: seq<Input>)
    ensures |ins| == k && forall i :: 0 <= i < k ==> ins[i] == Tick
  {
    seq(k, _ => Tick)
  }

  // ---------------------------------------------------------------------------
  // The reference definition of the fetch log

  /** The change at position i is followed by 500 quiet ticks (no later change before then). */
  predicate Quiet(cs: seq<Change>, i: nat)
    requires i < |cs|
  {
    i + 1 == |cs| || cs[i + 1].at >= cs[i].at + Delay
  }

  /** Change i has produced a fetch by time `now`. */
  predicate Fires(cs: seq<Change>, i: nat, now: nat)
    requires i < |cs|
  {
    Quiet(cs, i) && cs[i].at + Delay <= now
  }

  /** The fetches the changes `cs` produce by time `now`, in order. */
  function Expected(cs: seq<Change>, now: nat): seq<Fetch>
    decreases |cs|
  {
    if |cs| == 0 then []
    else
      (if Fires(cs, 0, now) then [Fetch(cs[0].at + Delay, cs[0].key)] else []) + Expected(cs[1..], now)
  }

  predicate Sorted(cs: seq<Change>) {
    forall i, j :: 0 <= i < j < |cs| ==> cs[i].at <= cs[j].at
  }

  function Last(cs: seq<Change>): Change
    requires |cs| > 0
  {
    cs[|cs| - 1]
  }

  /** The state agrees with its logs: the timer is pending for the last change, if any. */
  predicate Valid(s: Search) {
    && |s.changes| > 0
    && Sorted(s.changes)
    && Last(s.changes).at <= s.now
    && s.key == Last(s.changes).key
    && s.deadline == (if s.now < Last(s.changes).at + Delay then Some(Last(s.changes).at + Delay) else None)
    && s.fetches == Expected(s.changes, s.now)
  }

  /** One tick adds to the reference log only the fetch of the last change, when it is due. */
  lemma {:induction false} ExpectedTick(cs: seq<Change>, now: nat)
    requires |cs| > 0 && Sorted(cs) && Last(cs).at <= now
    ensures Expected(cs, now + 1) ==
            Expected(cs, now) + (if Last(cs).at + Delay == now + 1 then [Fetch(now + 1, Last(cs).key)] else [])
    decreases |cs|
  {
    if |cs| == 1 {
      assert Expected(cs[1..], now + 1) == [] && Expected(cs[1..], now) == [];
    } else {
      assert cs[1].at <= Last(cs).at;
      assert Fires(cs, 0, now + 1) == Fires(cs, 0, now);
      assert Last(cs[1..]) == Last(cs);
      ExpectedTick(cs[1..], now);
    }
  }

  /** A change at the current time adds nothing to the reference log yet. */
  lemma {:induction false} ExpectedAppend(cs: seq<Change>, c: Change, now: nat)
    requires |cs| > 0 && Sorted(cs) && Last(cs).at <= c.at && c.at == now
    ensures Expected(cs + [c], now) == Expected(cs, now)
    decreases |cs|
  {
    var cs' := cs + [c];
    assert cs'[1..] == cs[1..] + [c];
    if |cs| == 1 {
      assert Fires(cs', 0, now) == Fires(cs, 0, now);
      assert Expected([c], now) == [];
    } else {
      assert cs'[1] == cs[1];
      assert Fires(cs', 0, now) == Fires(cs, 0, now);
      assert Last(cs[1..]) == Last(cs);
      ExpectedAppend(cs[1..], c, now);
    }
  }

  lemma MountValid()
    ensures Valid(Mount())
  {
  }

  lemma StepValid(s: Search, i: Input)
    requires Valid(s)
    ensures Valid(Step(s, i))
  {
    var cs := s.changes;
    match i {
      case Tick =>
        ExpectedTick(cs, s.now);
      case SetTerm(x) =>
        if s.key.(term := x) != s.key {
          ExpectedAppend(cs, Change(s.now, s.key.(term := x)), s.now);
        }
      case SetColumn(c) =>
        if s.key.(column := c) != s.key {
          ExpectedAppend(cs, Change(s.now, s.key.(column := c)), s.now);
        }
    }
  }

  lemma {:induction false} RunValid(s: Search, ins: seq<Input>)
    requires Valid(s)
    ensures Valid(Run(s, ins))
    decreases |ins|
  {
    if |ins| > 0 {
      StepValid(s, ins[0]);
      RunValid(Step(s, ins[0]), ins[1..]);
    }
  }

  /**
   * Whatever the user does after mount, the fetches issued are exactly those
   * of the changes followed by 500 quiet ticks, each for the key that change set.
   */
  lemma DebounceFetchLog(ins: seq<Input>)
    ensures var s := Run(Mount(), ins);
            |s.changes| > 0 && s.fetches == Expected(s.changes, s.now) && s.key == Last(s.changes).key
  {
    MountValid();
    RunValid(Mount(), ins);
  }

  /** Every fetch in the reference log comes from a change followed by 500 quiet ticks. */
  lemma {:induction false} ExpectedSound(cs: seq<Change>, now: nat, f: Fetch)
    requires f in Expected(cs, now)
    ensures exists i :: 0 <= i < |cs| && Fires(cs, i, now) && f == Fetch(cs[i].at + Delay, cs[i].key)
    decreases |cs|
  {
    if !(Fires(cs, 0, now) && f == Fetch(cs[0].at + Delay, cs[0].key)) {
      ExpectedSound(cs[1..], now, f);
      var i :| 0 <= i < |cs[1..]| && Fires(cs[1..], i, now) && f == Fetch(cs[1..][i].at + Delay, cs[1..][i].key);
      assert Fires(cs, i + 1, now);
    }
  }

  /** Every change followed by 500 quiet ticks has its fetch in the reference log. */
  lemma {:induction false} ExpectedComplete(cs: seq<Change>, now: nat, i: nat)
    requires i < |cs| && Fires(cs, i, now)
    ensures Fetch(cs[i].at + Delay, cs[i].key) in Expected(cs, now)
    decreases |cs|
  {
    if i > 0 {
      assert Fires(cs[1..], i - 1, now);
      ExpectedComplete(cs[1..], now, i - 1);
    }
  }

  /**
   * A fetch for key k at time t is issued exactly when the key was changed to
   * k at time t - 500 and not changed again before t.
   */
  lemma FetchIffQuiet(ins: seq<Input>, f: Fetch)
    ensures var s := Run(Mount(), ins);
            f in s.fetches <==>
              exists i :: 0 <= i < |s.changes| && Fires(s.changes, i, s.now) &&
                          f == Fetch(s.changes[i].at + Delay, s.changes[i].key)
  {
    var s := Run(Mount(), ins);
    DebounceFetchLog(ins);
    if f in s.fetches {
      ExpectedSound(s.changes, s.now, f);
    }
    if exists i :: 0 <= i < |s.changes| && Fires(s.changes, i, s.now) &&
                   f == Fetch(s.changes[i].at + Delay, s.changes[i].key) {
      var i :| 0 <= i < |s.changes| && Fires(s.changes, i, s.now) &&
               f == Fetch(s.changes[i].at + Delay, s.changes[i].key);
      ExpectedComplete(s.changes, s.now, i);
    }
  }

  /** Ticks alone issue at most the pending fetch, once its deadline is reached. */
  lemma {:induction false} RunTicks(s: Search, k: nat)
    requires Valid(s)
    ensures Run(s, Ticks(k)).fetches ==
            s.fetches + (if s.deadline.Some? && s.deadline.value <= s.now + k then [Fetch(s.deadline.value, s.key)] else [])
    ensures Run(s, Ticks(k)).key == s.key && Run(s, Ticks(k)).now == s.now + k
    decreases k
  {
    if k > 0 {
      var s' := Step(s, Tick);
      assert Ticks(k)[1..] == Ticks(k - 1);
      StepValid(s, Tick);
      RunTicks(s', k - 1);
    }
  }

  /**
   * Changing the term cancels the pending fetch: fewer than 500 quiet ticks
   * later nothing has been fetched, and after exactly 500 one fetch with the
   * new key has.
   */
  lemma ChangeRestartsTimer(s: Search, x: string, k: nat)
    requires Valid(s) && x != s.key.term
    ensures var s' := Step(s, SetTerm(x));
            && (k < Delay ==> Run(s', Ticks(k)).fetches == s.fetches)
            && (k == Delay ==> Run(s', Ticks(k)).fetches == s.fetches + [Fetch(s.now + Delay, SearchKey(s.key.column, x))])
  {
    StepValid(s, SetTerm(x));
    RunTicks(Step(s, SetTerm(x)), k);
  }

  /** After mount and 500 quiet ticks, the debounced fetch with the default key is issued. */
  lemma MountFetchesDefault()
    ensures Run(Mount(), Ticks(Delay)).fetches == [Fetch(Delay, InitialKey)]
  {
    MountValid();
    RunTicks(Mount(), Delay);
  }

  lemma {:induction false} RunAppend(s: Search, a: seq<Input>, b: seq<Input>)
    ensures Run(s, a + b) == Run(Run(s, a), b)
    decreases |a|
  {
    if |a| > 0 {
      assert (a + b)[0] == a[0] && (a + b)[1..] == a[1..] + b;
      RunAppend(Step(s, a[0]), a[1..], b);
    } else {
      assert a + b == b;
    }
  }

  /**
   * Two keystrokes less than 500 ticks apart, then quiet: only the final term
   * is fetched, once, 500 ticks after the second keystroke.
   */
  lemma TypingBurstFetchesFinalTerm(s: Search, x: string, y: string, k: nat)
    requires Valid(s) && x != s.key.term && y != x && k < Delay
    ensures Run(s, [SetTerm(x)] + Ticks(k) + [SetTerm(y)] + Ticks(Delay)).fetches ==
            s.fetches + [Fetch(s.now + k + Delay, SearchKey(s.key.column, y))]
  {
    var s1 := Step(s, SetTerm(x));
    StepValid(s, SetTerm(x));
    RunTicks(s1, k);
    var s2 := Run(s1, Ticks(k));
    RunValid(s1, Ticks(k));
    var s3 := Step(s2, SetTerm(y));
    StepValid(s2, SetTerm(y));
    RunTicks(s3, Delay);
    assert Run(s2, [SetTerm(y)]) == s3;
    RunAppend(s, [SetTerm(x)], Ticks(k));
    assert Run(s, [SetTerm(x)]) == s1;
    RunAppend(s, [SetTerm(x)] + Ticks(k), [SetTerm(y)]);
    RunAppend(s, [SetTerm(x)] + Ticks(k) + [SetTerm(y)], Ticks(Delay));
  }

  /** The key an input asks for: ticks keep it, the setters replace one component. */
  function RequestedKey(s: Search, i: Input): SearchKey {
    match i
    case Tick => s.key
    case SetTerm(x) => s.key.(term := x)
    case SetColumn(c) => s.key.(column := c)
  }

  /**
   * The change log follows the inputs: an input that changes the key appends
   * exactly that change at the current time, and any other input leaves the
   * log alone; the key becomes the requested one either way.
   */
  lemma StepRecordsChange(s: Search, i: Input)
    ensures Step(s, i).key == RequestedKey(s, i)
    ensures Step(s, i).changes ==
            (if RequestedKey(s, i) != s.key then s.changes + [Change(s.now, RequestedKey(s, i))] else s.changes)
    ensures !i.Tick? ==> Step(s, i).now == s.now && Step(s, i).fetches == s.fetches
  {
  }

  /**
   * Changing the column also cancels the pending fetch: fewer than 500 quiet
   * ticks later nothing has been fetched, and after exactly 500 one fetch with
   * the new key has.
   */
  lemma ChangeColumnRestartsTimer(s: Search, c: string, k: nat)
    requires Valid(s) && c != s.key.column
    ensures var s' := Step(s, SetColumn(c));
            && (k < Delay ==> Run(s', Ticks(k)).fetches == s.fetches)
            && (k == Delay ==> Run(s', Ticks(k)).fetches == s.fetches + [Fetch(s.now + Delay, SearchKey(c, s.key.term))])
  {
    StepValid(s, SetColumn(c));
    RunTicks(Step(s, SetColumn(c)), k);
  }
}
