// Runs that meet the overshoot bound of Meter exactly, and runs that break it as soon as the largest
// overshoot no longer fits in an int: the bound holds on every run exactly when it fits.
module MeterRuns {
  import opened Arithmetic
  import opened Prelude
  import opened Meter

  ghost predicate AllMetered(lim: Limits, acts: seq<Action>) {
    forall i :: 0 <= i < |acts| ==> Metered(lim, acts[i])
  }

  /** A move of a task that works on a largest chunk: it may end early, but asks only within its quota. */
  predicate Plain(lim: Limits, a: Action) {
    match a
    case Begin(size) => size == lim.largest
    case Task(_, m) => !m.Offer? && !m.Drop?
    case _ => false
  }

  ghost predicate AllPlain(lim: Limits, acts: seq<Action>) {
    forall i :: 0 <= i < |acts| ==> Plain(lim, acts[i])
  }

  lemma PlainIsMetered(lim: Limits, acts: seq<Action>)
    requires AllPlain(lim, acts)
    ensures AllMetered(lim, acts)
  {
  }

  /** A limit and a chunk size that allow progress; the quota of an unused second is the limit. */
  predicate Usable(lim: Limits) {
    1 <= lim.limit <= INT_MAX && lim.largest >= 1
  }

  /** The first `k` tasks hold a request for as much as possible; every later one is gone. */
  ghost predicate Holding(lim: Limits, s: State, k: nat) {
    && k <= |s.slots|
    && (forall i :: 0 <= i < k ==> s.slots[i] == Reserved(lim.largest, MaxAsk(lim)))
    && (forall i :: k <= i < |s.slots| ==> s.slots[i] == Off)
  }

  lemma {:induction false} ActivePrefix(slots: seq<Slot>, k: nat)
    requires k <= |slots|
    requires forall i :: 0 <= i < k ==> !slots[i].Off?
    requires forall i :: k <= i < |slots| ==> slots[i].Off?
    ensures Active(slots) == k
  {
    if slots != [] {
      var n := |slots| - 1;
      ActivePrefix(slots[..n], if k <= n then k else n);
      assert Busies(slots)[..n] == Busies(slots[..n]);
    }
  }

  lemma ExecOne(lim: Limits, acts: seq<Action>, a: Action)
    ensures Exec(lim, START, acts + [a]) == Step(lim, Exec(lim, START, acts), a)
  {
    assert (acts + [a])[..|acts|] == acts;
  }

  /** A new task starts and passes the gate. */
  lemma StartGated(lim: Limits, acts: seq<Action>, s: State) returns (more: seq<Action>, t: State)
    requires Usable(lim) && s == Exec(lim, START, acts) && AllPlain(lim, acts)
    requires s.used <= lim.limit && Active(s.slots) < lim.threads
    ensures AllPlain(lim, more) && t == Exec(lim, START, more)
    ensures t == s.(slots := s.slots + [Gated(lim.largest)])
  {
    var i := |s.slots|;
    var a1, s1 := acts + [Begin(lim.largest)], s.(slots := s.slots + [Loop(lim.largest)]);
    ExecOne(lim, acts, Begin(lim.largest));
    assert Step(lim, s, Begin(lim.largest)) == s1;
    more, t := a1 + [Task(i, Gate)], s.(slots := s.slots + [Gated(lim.largest)]);
    ExecOne(lim, a1, Task(i, Gate));
    assert Step(lim, s1, Task(i, Gate)) == t;
  }

  /** A new task passes the gate and asks; `ask` is what it may receive. */
  lemma StartAsking(lim: Limits, acts: seq<Action>, s: State) returns (more: seq<Action>, t: State, ask: nat)
    requires Usable(lim) && s == Exec(lim, START, acts) && AllPlain(lim, acts)
    requires s.used < lim.limit && Active(s.slots) < lim.threads
    ensures ask == Min(lim.limit - s.used, lim.largest)
    ensures AllPlain(lim, more) && t == Exec(lim, START, more)
    ensures t == s.(slots := s.slots + [Reserved(lim.largest, ask)])
  {
    hide Quota, Exec, Active;
    var i := |s.slots|;
    ask := Min(lim.limit - s.used, lim.largest);
    var before, p := StartGated(lim, acts, s);
    QuotaExact(lim.limit, s.used);
    LastSlot(s.slots, Gated(lim.largest), Reserved(lim.largest, ask));
    more, t := before + [Task(i, Reserve)], s.(slots := s.slots + [Reserved(lim.largest, ask)]);
    ExecOne(lim, before, Task(i, Reserve));
    assert Step(lim, p, Task(i, Reserve)) == t;
  }

  lemma LastSlot(rest: seq<Slot>, x: Slot, y: Slot)
    ensures (rest + [x])[|rest|] == x && (rest + [x])[|rest| := y] == rest + [y]
  {
  }

  /** The last task receives all it asked for, adds it, and ends. */
  lemma FinishLast(lim: Limits, acts: seq<Action>, s: State, rest: seq<Slot>, left: nat, ask: nat)
    returns (more: seq<Action>, t: State)
    requires s == Exec(lim, START, acts) && AllPlain(lim, acts)
    requires s.slots == rest + [Reserved(left, ask)] && 1 <= ask <= left
    ensures AllPlain(lim, more) && t == Exec(lim, START, more)
    ensures t == s.(slots := rest + [Off], used := s.used + ask, second := s.second + ask, moved := s.moved + ask)
  {
    hide Exec, Quota;
    var i := |rest|;
    var a1, s1 := acts + [Task(i, Receive(ask))],
                  s.(slots := rest + [Got(left, ask)], second := s.second + ask, moved := s.moved + ask);
    ExecOne(lim, acts, Task(i, Receive(ask)));
    LastSlot(rest, Reserved(left, ask), Got(left, ask));
    assert Step(lim, s, Task(i, Receive(ask))) == s1;
    more, t := AddAndQuit(lim, a1, s1, rest, left, ask);
  }

  lemma AddAndQuit(lim: Limits, acts: seq<Action>, s: State, rest: seq<Slot>, left: nat, ask: nat)
    returns (more: seq<Action>, t: State)
    requires s == Exec(lim, START, acts) && AllPlain(lim, acts)
    requires s.slots == rest + [Got(left, ask)] && 1 <= ask <= left
    ensures AllPlain(lim, more) && t == Exec(lim, START, more)
    ensures t == s.(slots := rest + [Off], used := s.used + ask)
  {
    hide Exec, Quota;
    var i := |rest|;
    var a1, s1 := acts + [Task(i, Add)], s.(slots := rest + [Loop(left - ask)], used := s.used + ask);
    ExecOne(lim, acts, Task(i, Add));
    LastSlot(rest, Got(left, ask), Loop(left - ask));
    assert Step(lim, s, Task(i, Add)) == s1;
    more, t := a1 + [Task(i, Quit)], s1.(slots := rest + [Off]);
    ExecOne(lim, a1, Task(i, Quit));
    LastSlot(rest, Loop(left - ask), Off);
    assert Step(lim, s1, Task(i, Quit)) == t;
  }

  /** `k` tasks ask for the whole limit before anything was received. */
  lemma {:induction false} HoldRequests(lim: Limits, k: nat) returns (acts: seq<Action>, s: State)
    requires Usable(lim) && k <= lim.threads
    ensures AllPlain(lim, acts) && s == Exec(lim, START, acts)
    ensures Holding(lim, s, k) && |s.slots| == k && s.used == 0 && s.second == 0
  {
    if k == 0 {
      acts, s := [], START;
    } else {
      var before, p := HoldRequests(lim, k - 1);
      ActivePrefix(p.slots, k - 1);
      var ask;
      acts, s, ask := StartAsking(lim, before, p);
    }
  }

  /** Meanwhile further tasks, one at a time, use up the limit. */
  lemma {:induction false} UseUpLimit(lim: Limits, k: nat, acts: seq<Action>, s: State)
    returns (more: seq<Action>, t: State)
    requires Usable(lim) && k < lim.threads
    requires AllPlain(lim, acts) && s == Exec(lim, START, acts)
    requires Holding(lim, s, k) && s.used == s.second <= lim.limit
    ensures AllPlain(lim, more) && t == Exec(lim, START, more)
    ensures Holding(lim, t, k) && t.used == t.second == lim.limit
    decreases lim.limit - s.used
  {
    if s.used == lim.limit {
      more, t := acts, s;
    } else {
      ActivePrefix(s.slots, k);
      var a1, s1, ask := StartAsking(lim, acts, s);
      var a2, s2 := FinishLast(lim, a1, s1, s.slots, lim.largest, ask);
      more, t := UseUpLimit(lim, k, a2, s2);
    }
  }

  /** One stale request is received in full. */
  lemma ServeOne(lim: Limits, i: nat, acts: seq<Action>, s: State) returns (more: seq<Action>, t: State)
    requires Usable(lim) && i < |s.slots| && s.slots[i] == Reserved(lim.largest, MaxAsk(lim))
    requires AllPlain(lim, acts) && s == Exec(lim, START, acts)
    ensures AllPlain(lim, more) && t == Exec(lim, START, more)
    ensures t.slots == s.slots[i := Got(lim.largest, MaxAsk(lim))]
    ensures t.second == s.second + MaxAsk(lim) && t.used == s.used
  {
    var a := Task(i, Receive(MaxAsk(lim)));
    ExecOne(lim, acts, a);
    more, t := acts + [a], TaskStep(lim, s, i, Receive(MaxAsk(lim)));
  }

  /** The stale requests of tasks `lo` up to `hi` are received in full. */
  lemma {:induction false} ServeRequests(lim: Limits, lo: nat, hi: nat, acts: seq<Action>, s: State)
    returns (more: seq<Action>, t: State)
    requires Usable(lim) && lo <= hi <= |s.slots|
    requires AllPlain(lim, acts) && s == Exec(lim, START, acts)
    requires forall i :: lo <= i < hi ==> s.slots[i] == Reserved(lim.largest, MaxAsk(lim))
    ensures AllPlain(lim, more) && t == Exec(lim, START, more)
    ensures t.second == s.second + MaxAsk(lim) * (hi - lo) && t.used == s.used
    ensures |t.slots| == |s.slots|
    ensures forall i :: lo <= i < hi ==> t.slots[i] == Got(lim.largest, MaxAsk(lim))
    ensures forall i :: 0 <= i < |t.slots| && !(lo <= i < hi) ==> t.slots[i] == s.slots[i]
    decreases hi
  {
    hide Exec, Step, MaxAsk;
    if lo == hi {
      more, t := acts, s;
    } else {
      var before, p := ServeRequests(lim, lo, hi - 1, acts, s);
      more, t := ServeOne(lim, hi - 1, before, p);
      MulNext(MaxAsk(lim), hi - 1 - lo);
    }
  }

  /** What the first `j` tasks received is added to the counter. */
  lemma {:induction false} AddServed(lim: Limits, j: nat, acts: seq<Action>, s: State)
    returns (more: seq<Action>, t: State)
    requires Usable(lim) && j <= |s.slots|
    requires AllPlain(lim, acts) && s == Exec(lim, START, acts)
    requires forall i :: 0 <= i < j ==> s.slots[i] == Got(lim.largest, MaxAsk(lim))
    ensures AllPlain(lim, more) && t == Exec(lim, START, more)
    ensures t.used == s.used + MaxAsk(lim) * j && t.second == s.second
    ensures |t.slots| == |s.slots|
    ensures forall i :: j <= i < |t.slots| ==> t.slots[i] == s.slots[i]
  {
    if j == 0 {
      more, t := acts, s;
    } else {
      var before, p := AddServed(lim, j - 1, acts, s);
      ExecOne(lim, before, Task(j - 1, Add));
      assert p.slots[j - 1] == Got(lim.largest, MaxAsk(lim));
      more, t := before + [Task(j - 1, Add)], TaskStep(lim, p, j - 1, Add);
      MulNext(MaxAsk(lim), j - 1);
    }
  }

  /** The bound on the bytes of one second is met exactly, for every limit, chunk size and thread count. */
  lemma OvershootIsReached(lim: Limits) returns (acts: seq<Action>)
    requires Usable(lim) && lim.threads >= 1
    ensures AllPlain(lim, acts)
    ensures Exec(lim, START, acts).second == Bound(lim)
  {
    var k := lim.threads - 1;
    var a1, s1 := HoldRequests(lim, k);
    var a2, s2 := UseUpLimit(lim, k, a1, s1);
    var s3;
    acts, s3 := ServeRequests(lim, 0, k, a2, s2);
  }

  // ----- when the overshoot does not fit in an int -----

  /** The limit is used up, `k` tasks hold stale requests, and one more has just passed the gate. */
  lemma GateAtLimit(lim: Limits, k: nat) returns (acts: seq<Action>, s: State)
    requires Usable(lim) && k < lim.threads
    ensures AllPlain(lim, acts) && s == Exec(lim, START, acts)
    ensures s.used == s.second == lim.limit && |s.slots| > k
    ensures forall i :: 0 <= i < k ==> s.slots[i] == Reserved(lim.largest, MaxAsk(lim))
    ensures s.slots[|s.slots| - 1] == Gated(lim.largest)
  {
    var a1, s1 := HoldRequests(lim, k);
    var a2, s2 := UseUpLimit(lim, k, a1, s1);
    ActivePrefix(s2.slots, k);
    acts, s := StartGated(lim, a2, s2);
  }

  /** The fewest full requests whose sum no longer fits in an int. */
  lemma {:induction false} FirstOverflow(m: nat, k: nat) returns (j: nat)
    requires m <= INT_MAX && m * k > INT_MAX + 1
    ensures j <= k && INT_MAX + 1 < m * j < 2 * (INT_MAX + 1)
  {
    if k > 0 && m * (k - 1) > INT_MAX + 1 {
      j := FirstOverflow(m, k - 1);
    } else {
      j := k;
      MulNext(m, k - 1);
    }
  }

  /** A counter that far above the limit makes the stored quota positive. */
  lemma WrappedQuota(limit: nat, x: nat)
    requires INT_MAX + 1 < x < 2 * (INT_MAX + 1)
    ensures Quota(limit, limit + x) == 2 * (INT_MAX + 1) - x > 0
  {
    var below: int := limit - (limit + x);
    var u := AsUInt64(below);
    assert u == 0x1_0000_0000_0000_0000 - x;
    assert u % 0x1_0000_0000 == 0x1_0000_0000 - x;
  }

  lemma MaxAskIsInt(lim: Limits)
    ensures MaxAsk(lim) <= INT_MAX
  {
  }

  /** The gated task reads the wrapped quota and receives beyond the limit. */
  lemma WrappedRequest(lim: Limits, acts: seq<Action>, s: State, x: nat)
    returns (more: seq<Action>, t: State)
    requires Usable(lim) && AllPlain(lim, acts) && s == Exec(lim, START, acts)
    requires INT_MAX + 1 < x < 2 * (INT_MAX + 1) && s.used == lim.limit + x
    requires |s.slots| > 0 && s.slots[|s.slots| - 1] == Gated(lim.largest)
    ensures AllPlain(lim, more) && t == Exec(lim, START, more)
    ensures t.second > s.second && |t.slots| == |s.slots|
    ensures forall i :: 0 <= i < |s.slots| - 1 ==> t.slots[i] == s.slots[i]
  {
    WrappedQuota(lim.limit, x);
    var i := |s.slots| - 1;
    var ask := Min(2 * (INT_MAX + 1) - x, lim.largest);
    ExecOne(lim, acts, Task(i, Reserve));
    var a1, s1 := acts + [Task(i, Reserve)], s.(slots := s.slots[i := Reserved(lim.largest, ask)]);
    assert Step(lim, s, Task(i, Reserve)) == s1;
    ExecOne(lim, a1, Task(i, Receive(ask)));
    more, t := a1 + [Task(i, Receive(ask))], TaskStep(lim, s1, i, Receive(ask));
  }

  /** As soon as the largest overshoot does not fit in an int, a run exceeds the bound. */
  lemma OvershootBreaks(lim: Limits) returns (acts: seq<Action>)
    requires Usable(lim) && lim.threads >= 1 && !Fits(lim)
    ensures AllPlain(lim, acts)
    ensures Exec(lim, START, acts).second > Bound(lim)
  {
    hide Exec, MaxAsk;
    var k := lim.threads - 1;
    var m := MaxAsk(lim);
    MaxAskIsInt(lim);
    var j := FirstOverflow(m, k);
    var a1, s1 := GateAtLimit(lim, k);
    var a2, s2 := ServeRequests(lim, 0, j, a1, s1);
    var a3, s3 := AddServed(lim, j, a2, s2);
    var a4, s4 := WrappedRequest(lim, a3, s3, m * j);
    var s5;
    acts, s5 := ServeRequests(lim, j, k, a4, s4);
    MulSplit(m, j, k);
  }

  /** For limits that are ints, the bound holds on every run exactly when the largest overshoot fits in an int. */
  lemma BoundHoldsIffFits(lim: Limits)
    requires Usable(lim) && lim.threads >= 1
    ensures Fits(lim) <==> forall acts :: AllMetered(lim, acts) ==> Exec(lim, START, acts).second <= Bound(lim)
  {
    if Fits(lim) {
      forall acts | AllMetered(lim, acts) ensures Exec(lim, START, acts).second <= Bound(lim) {
        OvershootBound(lim, acts, Exec(lim, START, acts));
      }
    } else {
      var acts := OvershootBreaks(lim);
      PlainIsMetered(lim, acts);
    }
  }
}
