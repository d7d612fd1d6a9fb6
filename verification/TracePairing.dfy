/**
 Accounting of CPU time from scheduler traces: the switch events of one task are picked from the traces
 of all CPUs, merged in time order and paired, and every pair gives one elapsed time.  Events are exact
 records here; times are in ticks of the trace's resolution.
 */
module TracePairing {

  datatype Task = Task(name: string, pid: nat)

  /** One line of sched_switch: at `time` the CPU goes over from `prev` to `next`. */
  datatype Event = Event(time: int, prev: Task, next: Task)

  predicate Touches(e: Event, t: Task) {
    e.prev == t || e.next == t
  }

  // ---------------------------------------------------------------- grep, sort, pair

  /** The lines of one trace that name the task. */
  function Pick(evs: seq<Event>, t: Task): seq<Event> {
    if evs == [] then []
    else (if Touches(evs[0], t) then [evs[0]] else []) + Pick(evs[1..], t)
  }

  function PickAll(cpus: seq<seq<Event>>, t: Task): seq<Event> {
    if cpus == [] then [] else Pick(cpus[0], t) + PickAll(cpus[1..], t)
  }

  function Insert(e: Event, s: seq<Event>): seq<Event> {
    if s == [] || e.time <= s[0].time then [e] + s else [s[0]] + Insert(e, s[1..])
  }

  /** sort -n, by the time that starts each line. */
  function Sort(s: seq<Event>): seq<Event> {
    if s == [] then [] else Insert(s[0], Sort(s[1..]))
  }

  /** The merged events of a task. */
  function Merged(cpus: seq<seq<Event>>, t: Task): seq<Event> {
    Sort(PickAll(cpus, t))
  }

  ghost predicate Ascending(s: seq<Event>) {
    forall j, k | 0 <= j < k < |s| :: s[j].time < s[k].time
  }

  ghost predicate TimesDiffer(s: seq<Event>) {
    forall j, k | 0 <= j < k < |s| :: s[j].time != s[k].time
  }

  lemma {:induction false} InsertAscends(e: Event, s: seq<Event>)
    requires Ascending(s) && forall x | x in s :: x.time != e.time
    ensures Ascending(Insert(e, s))
    ensures forall x :: x in Insert(e, s) <==> x == e || x in s
  {
    if s != [] && s[0].time < e.time {
      InsertAscends(e, s[1..]);
      var rest := Insert(e, s[1..]);
      assert forall x | x in rest :: x == e || x in s[1..];
      assert forall x | x in rest :: s[0].time < x.time;
    }
  }

  /** Sorting keeps the events, and distinct times make the order strict. */
  lemma {:induction false} SortAscends(s: seq<Event>)
    requires TimesDiffer(s)
    ensures Ascending(Sort(s))
    ensures forall x :: x in Sort(s) <==> x in s
  {
    if s != [] {
      SortAscends(s[1..]);
      InsertAscends(s[0], Sort(s[1..]));
    }
  }

  ghost predicate InTimeOrder(s: seq<Event>) {
    forall j, k | 0 <= j < k < |s| :: s[j].time <= s[k].time
  }

  lemma {:induction false} InsertAdds(e: Event, s: seq<Event>)
    ensures multiset(Insert(e, s)) == multiset(s) + multiset{e}
  {
    if s != [] && s[0].time < e.time {
      InsertAdds(e, s[1..]);
      assert s == [s[0]] + s[1..];
    }
  }

  lemma InOrderCons(x: Event, rest: seq<Event>)
    requires InTimeOrder(rest) && (rest != [] ==> x.time <= rest[0].time)
    ensures InTimeOrder([x] + rest)
  {}

  lemma {:induction false} InsertOrders(e: Event, s: seq<Event>)
    requires InTimeOrder(s)
    ensures InTimeOrder(Insert(e, s))
    ensures Insert(e, s)[0] == e || (s != [] && Insert(e, s)[0] == s[0])
  {
    if s == [] || e.time <= s[0].time {
      InOrderCons(e, s);
    } else {
      InsertOrders(e, s[1..]);
      InOrderCons(s[0], Insert(e, s[1..]));
    }
  }

  /** Whatever the times, sorting keeps every line as often as it is there, in order of time. */
  lemma {:induction false} SortKeeps(s: seq<Event>)
    ensures InTimeOrder(Sort(s)) && multiset(Sort(s)) == multiset(s)
  {
    if s != [] {
      SortKeeps(s[1..]);
      InsertOrders(s[0], Sort(s[1..]));
      InsertAdds(s[0], Sort(s[1..]));
      assert s == [s[0]] + s[1..];
    }
  }

  /** The lines of all traces. */
  function Lines(cpus: seq<seq<Event>>): seq<Event> {
    if cpus == [] then [] else cpus[0] + Lines(cpus[1..])
  }

  lemma {:induction false} PickKeeps(evs: seq<Event>, t: Task, e: Event)
    ensures multiset(Pick(evs, t))[e] == if Touches(e, t) then multiset(evs)[e] else 0
  {
    if evs != [] {
      PickKeeps(evs[1..], t, e);
      assert evs == [evs[0]] + evs[1..];
    }
  }

  lemma {:induction false} PickAllKeeps(cpus: seq<seq<Event>>, t: Task, e: Event)
    ensures multiset(PickAll(cpus, t))[e] == if Touches(e, t) then multiset(Lines(cpus))[e] else 0
  {
    if cpus != [] {
      PickKeeps(cpus[0], t, e);
      PickAllKeeps(cpus[1..], t, e);
    }
  }

  /** For any traces: the merged events are in order of time, with each line of the task as often as in the traces. */
  lemma MergedExact(cpus: seq<seq<Event>>, t: Task, e: Event)
    ensures InTimeOrder(Merged(cpus, t))
    ensures multiset(Merged(cpus, t))[e] == if Touches(e, t) then multiset(Lines(cpus))[e] else 0
  {
    SortKeeps(PickAll(cpus, t));
    PickAllKeeps(cpus, t, e);
  }

  // ---------------------------------------------------------------- traces

  /** What a CPU records: its events chain, in order of time, and each is a real switch. */
  ghost predicate Recorded(evs: seq<Event>) {
    && (forall i | 0 <= i < |evs| :: evs[i].prev != evs[i].next)
    && (forall i, j | 0 <= i < j < |evs| :: evs[i].time <= evs[j].time)
    && (forall i | 0 <= i < |evs| - 1 :: evs[i].next == evs[i + 1].prev)
  }

  /** Event `i` was the last by time `x`. */
  predicate LastBy(evs: seq<Event>, i: int, x: int)
    requires 0 <= i < |evs|
  {
    evs[i].time <= x && (i + 1 < |evs| ==> x < evs[i + 1].time)
  }

  /** A CPU runs the task at time `x`: it was switched in last, or the first switch takes it off. */
  ghost predicate RunsAt(evs: seq<Event>, t: Task, x: int) {
    || (evs != [] && x < evs[0].time && evs[0].prev == t)
    || (exists i | 0 <= i < |evs| :: LastBy(evs, i, x) && evs[i].next == t)
  }

  predicate At(cpus: seq<seq<Event>>, t: Task, c: nat, i: nat) {
    c < |cpus| && i < |cpus[c]| && Touches(cpus[c][i], t)
  }

  ghost predicate TimesApart(cpus: seq<seq<Event>>, t: Task) {
    forall c: nat, i: nat, d: nat, j: nat | At(cpus, t, c, i) && At(cpus, t, d, j) ::
      cpus[c][i].time == cpus[d][j].time ==> c == d && i == j
  }

  ghost predicate NeverOnTwo(cpus: seq<seq<Event>>, t: Task) {
    forall c: nat, d: nat, x: int | c < |cpus| && d < |cpus| && RunsAt(cpus[c], t, x) && RunsAt(cpus[d], t, x) ::
      c == d
  }

  /** A trace of all CPUs, as far as the task goes. */
  ghost predicate Traced(cpus: seq<seq<Event>>, t: Task) {
    (forall c | 0 <= c < |cpus| :: Recorded(cpus[c])) && TimesApart(cpus, t) && NeverOnTwo(cpus, t)
  }

  // ---------------------------------------------------------------- the merged events are those of the trace

  lemma {:induction false} PickPosition(evs: seq<Event>, t: Task, a: nat, b: nat) returns (i: nat, j: nat)
    requires a < b < |Pick(evs, t)|
    ensures i < j < |evs| && evs[i] == Pick(evs, t)[a] && evs[j] == Pick(evs, t)[b]
    ensures Touches(evs[i], t) && Touches(evs[j], t)
  {
    if !Touches(evs[0], t) {
      i, j := PickPosition(evs[1..], t, a, b);
      i, j := i + 1, j + 1;
    } else if a > 0 {
      i, j := PickPosition(evs[1..], t, a - 1, b - 1);
      i, j := i + 1, j + 1;
    } else {
      i := 0;
      j := PickFrom(evs[1..], t, Pick(evs, t)[b]);
      j := j + 1;
    }
  }

  lemma {:induction false} PickFrom(evs: seq<Event>, t: Task, e: Event) returns (i: nat)
    requires e in Pick(evs, t)
    ensures i < |evs| && evs[i] == e && Touches(e, t)
  {
    if Touches(evs[0], t) && evs[0] == e {
      i := 0;
    } else {
      i := PickFrom(evs[1..], t, e);
      i := i + 1;
    }
  }

  lemma {:induction false} PickHas(evs: seq<Event>, t: Task, i: nat)
    requires i < |evs| && Touches(evs[i], t)
    ensures evs[i] in Pick(evs, t)
  {
    if i > 0 {
      PickHas(evs[1..], t, i - 1);
    }
  }

  lemma {:induction false} PickAllFrom(cpus: seq<seq<Event>>, t: Task, e: Event) returns (c: nat, i: nat)
    requires e in PickAll(cpus, t)
    ensures At(cpus, t, c, i) && cpus[c][i] == e
  {
    if e in Pick(cpus[0], t) {
      c := 0;
      i := PickFrom(cpus[0], t, e);
    } else {
      c, i := PickAllFrom(cpus[1..], t, e);
      c := c + 1;
    }
  }

  lemma {:induction false} PickAllHas(cpus: seq<seq<Event>>, t: Task, c: nat, i: nat)
    requires At(cpus, t, c, i)
    ensures cpus[c][i] in PickAll(cpus, t)
  {
    if c == 0 {
      PickHas(cpus[0], t, i);
    } else {
      PickAllHas(cpus[1..], t, c - 1, i);
    }
  }

  lemma {:induction false} PickAllPosition(cpus: seq<seq<Event>>, t: Task, a: nat, b: nat)
    returns (c: nat, i: nat, d: nat, j: nat)
    requires a < b < |PickAll(cpus, t)|
    ensures At(cpus, t, c, i) && At(cpus, t, d, j) && (c < d || (c == d && i < j))
    ensures cpus[c][i] == PickAll(cpus, t)[a] && cpus[d][j] == PickAll(cpus, t)[b]
  {
    var n := |Pick(cpus[0], t)|;
    if a >= n {
      c, i, d, j := PickAllPosition(cpus[1..], t, a - n, b - n);
      c, d := c + 1, d + 1;
    } else if b < n {
      i, j := PickPosition(cpus[0], t, a, b);
      c, d := 0, 0;
    } else {
      i := PickFrom(cpus[0], t, Pick(cpus[0], t)[a]);
      d, j := PickAllFrom(cpus[1..], t, PickAll(cpus[1..], t)[b - n]);
      c, d := 0, d + 1;
    }
  }

  lemma MergedAscends(cpus: seq<seq<Event>>, t: Task)
    requires TimesApart(cpus, t)
    ensures Ascending(Merged(cpus, t))
    ensures forall e :: e in Merged(cpus, t) <==> e in PickAll(cpus, t)
  {
    forall a, b | 0 <= a < b < |PickAll(cpus, t)|
      ensures PickAll(cpus, t)[a].time != PickAll(cpus, t)[b].time
    {
      var c, i, d, j := PickAllPosition(cpus, t, a, b);
    }
    SortAscends(PickAll(cpus, t));
  }

  // ---------------------------------------------------------------- what follows an event of the task

  /** A CPU runs the task from its switching in on, and until just before its switching out. */
  lemma RunsAround(cpus: seq<seq<Event>>, t: Task, c: nat, i: nat)
    requires Traced(cpus, t) && At(cpus, t, c, i)
    ensures cpus[c][i].next == t ==> RunsAt(cpus[c], t, cpus[c][i].time)
    ensures cpus[c][i].prev == t ==> RunsAt(cpus[c], t, cpus[c][i].time - 1)
  {
    var evs := cpus[c];
    if evs[i].next == t {
      if i + 1 < |evs| {
        assert At(cpus, t, c, i + 1);
      }
      assert LastBy(evs, i, evs[i].time);
    } else if i > 0 {
      assert At(cpus, t, c, i - 1);
      assert evs[i - 1].next == evs[i - 1 + 1].prev;
      assert LastBy(evs, i - 1, evs[i].time - 1);
    }
  }

  lemma SameCpu(cpus: seq<seq<Event>>, t: Task, c: nat, d: nat, x: int)
    requires NeverOnTwo(cpus, t) && c < |cpus| && d < |cpus|
    requires RunsAt(cpus[c], t, x) && RunsAt(cpus[d], t, x)
    ensures c == d
  {}

  /** While CPU `c` runs the task, from its event `i` on, the task has no other event. */
  lemma AloneWhileRunning(cpus: seq<seq<Event>>, t: Task, c: nat, i: nat, d: nat, j: nat)
    requires Traced(cpus, t) && At(cpus, t, c, i) && At(cpus, t, d, j) && cpus[c][i].next == t
    requires cpus[c][i].time < cpus[d][j].time
    ensures i + 1 < |cpus[c]| && cpus[c][i + 1].time <= cpus[d][j].time
  {
    var evs, g := cpus[c], cpus[d][j];
    var x := if g.next == t then g.time else g.time - 1;
    RunsAround(cpus, t, d, j);
    if LastBy(evs, i, x) {
      SameCpu(cpus, t, c, d, x);
    }
  }

  /** Between two switchings out the task is switched in, where it is switched out next. */
  lemma InBeforeOut(cpus: seq<seq<Event>>, t: Task, c: nat, i: nat, d: nat, j: nat)
    requires Traced(cpus, t) && At(cpus, t, c, i) && At(cpus, t, d, j)
    requires cpus[c][i].prev == t && cpus[d][j].prev == t && cpus[c][i].time < cpus[d][j].time
    ensures j > 0 && At(cpus, t, d, j - 1) && cpus[d][j - 1].next == t
    ensures cpus[c][i].time < cpus[d][j - 1].time < cpus[d][j].time
  {
    var evs, x := cpus[d], cpus[c][i].time - 1;
    RunsAround(cpus, t, c, i);
    if j == 0 {
      SameCpu(cpus, t, c, d, x);
    } else {
      assert evs[j - 1].next == evs[j - 1 + 1].prev;
      assert At(cpus, t, d, j - 1);
      assert evs[j - 1].prev != evs[j - 1].next;
      if LastBy(evs, j - 1, x) {
        SameCpu(cpus, t, c, d, x);
      }
    }
  }

  /** `a` and `b` bound one run of the task: consecutive events of one CPU, in and out. */
  ghost predicate IsRun(cpus: seq<seq<Event>>, t: Task, a: Event, b: Event) {
    exists c: nat, i: nat | c < |cpus| && i + 1 < |cpus[c]| ::
      cpus[c][i] == a && cpus[c][i + 1] == b && a.next == t
  }

  lemma InMerged(cpus: seq<seq<Event>>, t: Task, c: nat, i: nat) returns (k: nat)
    requires TimesApart(cpus, t) && At(cpus, t, c, i)
    ensures k < |Merged(cpus, t)| && Merged(cpus, t)[k] == cpus[c][i]
  {
    MergedAscends(cpus, t);
    PickAllHas(cpus, t, c, i);
    k :| 0 <= k < |Merged(cpus, t)| && Merged(cpus, t)[k] == cpus[c][i];
  }

  lemma FromMerged(cpus: seq<seq<Event>>, t: Task, k: nat) returns (c: nat, i: nat)
    requires TimesApart(cpus, t) && k < |Merged(cpus, t)|
    ensures At(cpus, t, c, i) && cpus[c][i] == Merged(cpus, t)[k]
  {
    MergedAscends(cpus, t);
    assert Merged(cpus, t)[k] in Merged(cpus, t);
    c, i := PickAllFrom(cpus, t, Merged(cpus, t)[k]);
  }

  /** A switching in is followed, in the merged events, by the next event of its own CPU, if by any. */
  lemma InIsFollowedByOut(cpus: seq<seq<Event>>, t: Task, k: nat)
    requires Traced(cpus, t) && k + 1 < |Merged(cpus, t)| && Merged(cpus, t)[k].next == t
    ensures IsRun(cpus, t, Merged(cpus, t)[k], Merged(cpus, t)[k + 1])
  {
    var s := Merged(cpus, t);
    MergedAscends(cpus, t);
    var c, i := FromMerged(cpus, t, k);
    var d, j := FromMerged(cpus, t, k + 1);
    AloneWhileRunning(cpus, t, c, i, d, j);
    assert cpus[c][i].next == cpus[c][i + 1].prev;
    assert At(cpus, t, c, i + 1);
    var m := InMerged(cpus, t, c, i + 1);
    assert s[k].time < s[m].time <= s[k + 1].time;
    assert m == k + 1;
  }

  /** A switching out is followed by a switching in. */
  lemma OutIsFollowedByIn(cpus: seq<seq<Event>>, t: Task, k: nat)
    requires Traced(cpus, t) && k + 1 < |Merged(cpus, t)| && Merged(cpus, t)[k].prev == t
    ensures Merged(cpus, t)[k + 1].next == t
  {
    var s := Merged(cpus, t);
    MergedAscends(cpus, t);
    var c, i := FromMerged(cpus, t, k);
    var d, j := FromMerged(cpus, t, k + 1);
    if s[k + 1].prev == t {
      InBeforeOut(cpus, t, c, i, d, j);
      var m := InMerged(cpus, t, d, j - 1);
    }
  }

  /** Each merged event switches the task in or out, not both. */
  lemma InOrOut(cpus: seq<seq<Event>>, t: Task, k: nat)
    requires Traced(cpus, t) && k < |Merged(cpus, t)|
    ensures Merged(cpus, t)[k].next == t <==> Merged(cpus, t)[k].prev != t
  {
    var c, i := FromMerged(cpus, t, k);
  }

  lemma TurnsRound(cpus: seq<seq<Event>>, t: Task, k: nat)
    requires Traced(cpus, t) && k + 1 < |Merged(cpus, t)|
    ensures Merged(cpus, t)[k + 1].next == t <==> Merged(cpus, t)[k].next != t
  {
    InOrOut(cpus, t, k);
    InOrOut(cpus, t, k + 1);
    if Merged(cpus, t)[k].next == t {
      InIsFollowedByOut(cpus, t, k);
      RunEnds(cpus, t, Merged(cpus, t)[k], Merged(cpus, t)[k + 1]);
    } else {
      OutIsFollowedByIn(cpus, t, k);
    }
  }

  /** The merged events are the task's switchings in and out in turn. */
  lemma {:induction false} Alternates(cpus: seq<seq<Event>>, t: Task, k: nat)
    requires Traced(cpus, t) && k < |Merged(cpus, t)|
    ensures Merged(cpus, t)[k].next == t <==> Merged(cpus, t)[k].prev != t
    ensures Merged(cpus, t)[k].next == t <==> (Merged(cpus, t)[0].next == t <==> k % 2 == 0)
  {
    InOrOut(cpus, t, k);
    if k > 0 {
      Alternates(cpus, t, k - 1);
      TurnsRound(cpus, t, k - 1);
    }
  }

  lemma RunEnds(cpus: seq<seq<Event>>, t: Task, a: Event, b: Event)
    requires Traced(cpus, t) && IsRun(cpus, t, a, b)
    ensures b.prev == t && a.time < b.time
  {
    var c: nat, i: nat :| c < |cpus| && i + 1 < |cpus[c]|
      && cpus[c][i] == a && cpus[c][i + 1] == b && a.next == t;
    assert cpus[c][i].next == cpus[c][i + 1].prev;
    assert At(cpus, t, c, i) && At(cpus, t, c, i + 1);
  }

  // ---------------------------------------------------------------- runs and gaps

  /** Some CPU runs the task from `from` on until just before `to`. */
  ghost predicate RunsThroughout(cpus: seq<seq<Event>>, t: Task, from: int, to: int) {
    exists c: nat | c < |cpus| :: forall x: int | from <= x < to :: RunsAt(cpus[c], t, x)
  }

  /** No CPU runs the task from `from` on until just before `to`. */
  ghost predicate RunsNowhere(cpus: seq<seq<Event>>, t: Task, from: int, to: int) {
    forall c: nat, x: int | c < |cpus| && from <= x < to :: !RunsAt(cpus[c], t, x)
  }

  /** Between a switching in and the next event the task runs. */
  lemma RunBetween(cpus: seq<seq<Event>>, t: Task, k: nat)
    requires Traced(cpus, t) && k + 1 < |Merged(cpus, t)| && Merged(cpus, t)[k].next == t
    ensures RunsThroughout(cpus, t, Merged(cpus, t)[k].time, Merged(cpus, t)[k + 1].time)
  {
    var a, b := Merged(cpus, t)[k], Merged(cpus, t)[k + 1];
    InIsFollowedByOut(cpus, t, k);
    var c: nat, i: nat :| c < |cpus| && i + 1 < |cpus[c]| && cpus[c][i] == a && cpus[c][i + 1] == b && a.next == t;
    forall x: int | a.time <= x < b.time
      ensures RunsAt(cpus[c], t, x)
    {
      assert LastBy(cpus[c], i, x);
    }
  }

  /** An event of the task is among the merged ones, at or before `k` if it is not later than that one. */
  lemma MergedPlace(cpus: seq<seq<Event>>, t: Task, c: nat, i: nat, k: nat) returns (m: nat)
    requires TimesApart(cpus, t) && At(cpus, t, c, i) && k + 1 < |Merged(cpus, t)|
    ensures m < |Merged(cpus, t)| && Merged(cpus, t)[m] == cpus[c][i]
    ensures cpus[c][i].time < Merged(cpus, t)[k + 1].time ==> m <= k
    ensures cpus[c][i].time > Merged(cpus, t)[k].time ==> m >= k + 1
    ensures m < k ==> cpus[c][i].time < Merged(cpus, t)[k].time
  {
    m := InMerged(cpus, t, c, i);
    MergedAscends(cpus, t);
  }

  /** A CPU that was running the task before its first event is the one that switches it out there. */
  lemma StartRunsOn(cpus: seq<seq<Event>>, t: Task, c: nat, d: nat, j: nat)
    requires Traced(cpus, t) && c < |cpus| && cpus[c] != [] && cpus[c][0].prev == t
    requires At(cpus, t, d, j) && cpus[d][j].next == t
    ensures cpus[c][0].time < cpus[d][j].time
  {
    var first, b := cpus[c][0], cpus[d][j];
    assert At(cpus, t, c, 0);
    if b.time < first.time {
      RunsAround(cpus, t, d, j);
      SameCpu(cpus, t, c, d, b.time);
    }
  }

  /** Between a switching out and the next event the task does not run. */
  lemma GapAt(cpus: seq<seq<Event>>, t: Task, k: nat, c: nat, x: int)
    requires Traced(cpus, t) && k + 1 < |Merged(cpus, t)| && Merged(cpus, t)[k].prev == t
    requires c < |cpus| && Merged(cpus, t)[k].time <= x < Merged(cpus, t)[k + 1].time
    ensures !RunsAt(cpus[c], t, x)
  {
    var s, evs := Merged(cpus, t), cpus[c];
    OutIsFollowedByIn(cpus, t, k);
    InOrOut(cpus, t, k);
    if evs != [] && x < evs[0].time && evs[0].prev == t {
      var d, j := FromMerged(cpus, t, k + 1);
      StartRunsOn(cpus, t, c, d, j);
      var m := MergedPlace(cpus, t, c, 0, k);
    }
    if i :| 0 <= i < |evs| && LastBy(evs, i, x) && evs[i].next == t {
      assert At(cpus, t, c, i);
      var m := MergedPlace(cpus, t, c, i, k);
      var d, j := FromMerged(cpus, t, k);
      assert m < k;
      AloneWhileRunning(cpus, t, c, i, d, j);
    }
  }

  lemma GapBetween(cpus: seq<seq<Event>>, t: Task, k: nat)
    requires Traced(cpus, t) && k + 1 < |Merged(cpus, t)| && Merged(cpus, t)[k].prev == t
    ensures RunsNowhere(cpus, t, Merged(cpus, t)[k].time, Merged(cpus, t)[k + 1].time)
  {
    forall c: nat, x: int | c < |cpus| && Merged(cpus, t)[k].time <= x < Merged(cpus, t)[k + 1].time
      ensures !RunsAt(cpus[c], t, x)
    {
      GapAt(cpus, t, k, c, x);
    }
  }

  // ---------------------------------------------------------------- pairing

  /** Every pair of merged events bounds a run of the task, and no event is left over. */
  ghost predicate PairsAreRuns(cpus: seq<seq<Event>>, t: Task) {
    var s := Merged(cpus, t);
    |s| % 2 == 0 && forall k | 0 <= k < |s| - 1 && k % 2 == 0 :: IsRun(cpus, t, s[k], s[k + 1])
  }

  /** The test of fix_data(): the first line switches the task in, the last one switches it out. */
  predicate FirstInLastOut(s: seq<Event>, t: Task) {
    s != [] ==> s[0].next == t && s[|s| - 1].prev == t
  }

  lemma PairsPassTest(cpus: seq<seq<Event>>, t: Task, s: seq<Event>)
    requires Traced(cpus, t) && s == Merged(cpus, t) && s != [] && PairsAreRuns(cpus, t)
    ensures FirstInLastOut(s, t)
  {
    assert IsRun(cpus, t, s[0], s[0 + 1]);
    Alternates(cpus, t, |s| - 1);
  }

  lemma EvenStartsRun(cpus: seq<seq<Event>>, t: Task, s: seq<Event>, k: nat)
    requires Traced(cpus, t) && s == Merged(cpus, t) && k + 1 < |s| && k % 2 == 0 && s[0].next == t
    ensures IsRun(cpus, t, s[k], s[k + 1])
  {
    Alternates(cpus, t, k);
    InIsFollowedByOut(cpus, t, k);
  }

  lemma EvenCount(cpus: seq<seq<Event>>, t: Task, s: seq<Event>)
    requires Traced(cpus, t) && s == Merged(cpus, t) && s != [] && FirstInLastOut(s, t)
    ensures |s| % 2 == 0
  {
    Alternates(cpus, t, |s| - 1);
  }

  lemma TestGivesPairs(cpus: seq<seq<Event>>, t: Task, s: seq<Event>)
    requires Traced(cpus, t) && s == Merged(cpus, t) && s != [] && FirstInLastOut(s, t)
    ensures PairsAreRuns(cpus, t)
  {
    EvenCount(cpus, t, s);
    forall k | 0 <= k < |s| - 1 && k % 2 == 0
      ensures IsRun(cpus, t, s[k], s[k + 1])
    {
      EvenStartsRun(cpus, t, s, k);
    }
  }

  /** The test is exact. */
  lemma TestIsExact(cpus: seq<seq<Event>>, t: Task)
    requires Traced(cpus, t)
    ensures PairsAreRuns(cpus, t) <==> FirstInLastOut(Merged(cpus, t), t)
  {
    var s := Merged(cpus, t);
    if s != [] {
      if PairsAreRuns(cpus, t) {
        PairsPassTest(cpus, t, s);
      }
      if FirstInLastOut(s, t) {
        TestGivesPairs(cpus, t, s);
      }
    }
  }

  /** No run is missed: every switching in that has a switching out after it is the first of a pair. */
  lemma EveryRunPaired(cpus: seq<seq<Event>>, t: Task, c: nat, i: nat) returns (k: nat)
    requires Traced(cpus, t) && FirstInLastOut(Merged(cpus, t), t)
    requires c < |cpus| && i + 1 < |cpus[c]| && cpus[c][i].next == t
    ensures k % 2 == 0 && k + 1 < |Merged(cpus, t)|
    ensures Merged(cpus, t)[k] == cpus[c][i] && Merged(cpus, t)[k + 1] == cpus[c][i + 1]
  {
    var s := Merged(cpus, t);
    MergedAscends(cpus, t);
    assert cpus[c][i].next == cpus[c][i + 1].prev;
    assert At(cpus, t, c, i) && At(cpus, t, c, i + 1);
    k := InMerged(cpus, t, c, i);
    var m := InMerged(cpus, t, c, i + 1);
    Alternates(cpus, t, k);
    Alternates(cpus, t, 0);
    assert s[k].time < s[m].time;
    assert k < m;
    var d, j := FromMerged(cpus, t, k + 1);
    AloneWhileRunning(cpus, t, c, i, d, j);
    assert s[m].time <= s[k + 1].time;
  }

  /**
   check_n_fix_data() looks for an odd count only.  When the first event switches the task out, an even
   count passes, and every pair is a gap between two runs instead of a run.
   */
  lemma EvenCountMissesGaps(cpus: seq<seq<Event>>, t: Task)
    requires Traced(cpus, t) && Merged(cpus, t) != [] && Merged(cpus, t)[0].prev == t
    ensures forall k | 0 <= k < |Merged(cpus, t)| - 1 && k % 2 == 0 ::
              Merged(cpus, t)[k].prev == t && Merged(cpus, t)[k + 1].next == t
    ensures |Merged(cpus, t)| % 2 == 0 <==> Merged(cpus, t)[|Merged(cpus, t)| - 1].next == t
  {
    var s := Merged(cpus, t);
    Alternates(cpus, t, 0);
    Alternates(cpus, t, |s| - 1);
    forall k | 0 <= k < |s| - 1 && k % 2 == 0
      ensures s[k].prev == t && s[k + 1].next == t
    {
      Alternates(cpus, t, k);
      Alternates(cpus, t, k + 1);
    }
  }

  lemma MergedTwo(a: Event, b: Event, t: Task)
    requires Touches(a, t) && Touches(b, t) && a.time < b.time
    ensures Merged([[a, b]], t) == [a, b]
  {
    assert [[a, b]][1..] == [] && [a, b][1..] == [b] && [b][1..] == [];
    assert Pick([b], t) == [b];
    assert Pick([a, b], t) == [a, b] && PickAll([[a, b]], t) == [a, b];
    assert Sort([b]) == Insert(b, Sort([])) == [b];
    assert Sort([a, b]) == Insert(a, [b]) == [a, b];
  }

  lemma TracedTwo(a: Event, b: Event, t: Task)
    requires a.prev != a.next && a.next == b.prev && b.prev != b.next && a.time < b.time
    ensures Traced([[a, b]], t)
  {}

  /** Such a trace: one CPU, the task running at first, off at 1 and on again from 2. */
  lemma GapMeasured(t: Task, u: Task)
    requires t != u
    ensures var cpus := [[Event(1, t, u), Event(2, u, t)]];
            && Traced(cpus, t) && Merged(cpus, t) == cpus[0] && |Merged(cpus, t)| % 2 == 0
            && Merged(cpus, t)[0].prev == t && !PairsAreRuns(cpus, t)
            && PairTime(Merged(cpus, t)) == 1 && TotalRunTime(cpus, t) == 0
  {
    var a, b := Event(1, t, u), Event(2, u, t);
    var cpus := [[a, b]];
    MergedTwo(a, b, t);
    TracedTwo(a, b, t);
    TestIsExact(cpus, t);
    assert [a, b][1..] == [b] && cpus[1..] == [];
    assert PairTime([a, b]) == b.time - a.time + PairTime([a, b][2..]);
    assert RunTime([a, b], t) == RunTime([b], t) == 0;
  }

  // ---------------------------------------------------------------- nothing is lost or counted twice

  /** The time of a switching out, less that of a switching in. */
  function Signed(e: Event, t: Task): int {
    (if e.prev == t then e.time else 0) - (if e.next == t then e.time else 0)
  }

  function Net(s: seq<Event>, t: Task): int {
    if s == [] then 0 else Signed(s[0], t) + Net(s[1..], t)
  }

  /** The time the task spent in the complete runs of one CPU. */
  function RunTime(evs: seq<Event>, t: Task): int {
    if |evs| < 2 then 0
    else (if evs[0].next == t then evs[1].time - evs[0].time else 0) + RunTime(evs[1..], t)
  }

  function TotalRunTime(cpus: seq<seq<Event>>, t: Task): int {
    if cpus == [] then 0 else RunTime(cpus[0], t) + TotalRunTime(cpus[1..], t)
  }

  /** The sum of the elapsed times. */
  function PairTime(s: seq<Event>): int {
    if |s| < 2 then 0 else s[1].time - s[0].time + PairTime(s[2..])
  }

  function Total(xs: seq<int>): int {
    if xs == [] then 0 else xs[0] + Total(xs[1..])
  }

  lemma {:induction false} PairTimeIsTotal(s: seq<Event>, elapsed: seq<int>)
    requires |s| == 2 * |elapsed|
    requires forall k | 0 <= k < |elapsed| :: elapsed[k] == s[2 * k + 1].time - s[2 * k].time
    ensures Total(elapsed) == PairTime(s)
  {
    if elapsed != [] {
      assert elapsed[0] == s[2 * 0 + 1].time - s[2 * 0].time;
      forall k | 0 <= k < |elapsed[1..]|
        ensures elapsed[1..][k] == s[2..][2 * k + 1].time - s[2..][2 * k].time
      {
        assert elapsed[k + 1] == s[2 * (k + 1) + 1].time - s[2 * (k + 1)].time;
      }
      PairTimeIsTotal(s[2..], elapsed[1..]);
    }
  }

  lemma {:induction false} NetAppend(a: seq<Event>, b: seq<Event>, t: Task)
    ensures Net(a + b, t) == Net(a, t) + Net(b, t)
  {
    if a == [] {
      assert a + b == b;
    } else {
      assert (a + b)[1..] == a[1..] + b;
      NetAppend(a[1..], b, t);
    }
  }

  lemma {:induction false} NetPick(evs: seq<Event>, t: Task)
    ensures Net(Pick(evs, t), t) == Net(evs, t)
  {
    if evs != [] {
      NetPick(evs[1..], t);
      NetAppend(if Touches(evs[0], t) then [evs[0]] else [], Pick(evs[1..], t), t);
      assert Touches(evs[0], t) ==> [evs[0]][1..] == [];
    }
  }

  lemma {:induction false} NetInsert(e: Event, s: seq<Event>, t: Task)
    ensures Net(Insert(e, s), t) == Signed(e, t) + Net(s, t)
  {
    if s == [] || e.time <= s[0].time {
      assert ([e] + s)[1..] == s;
    } else {
      NetInsert(e, s[1..], t);
      assert ([s[0]] + Insert(e, s[1..]))[1..] == Insert(e, s[1..]);
    }
  }

  lemma {:induction false} NetSort(s: seq<Event>, t: Task)
    ensures Net(Sort(s), t) == Net(s, t)
  {
    if s != [] {
      NetSort(s[1..], t);
      NetInsert(s[0], Sort(s[1..]), t);
    }
  }

  /** On one CPU the net time is that of the complete runs, but for a run cut off by the start. */
  lemma {:induction false} NetOfCpu(evs: seq<Event>, t: Task)
    requires Recorded(evs) && evs != [] && evs[|evs| - 1].next != t
    ensures Net(evs, t) == RunTime(evs, t) + if evs[0].prev == t then evs[0].time else 0
  {
    if |evs| > 1 {
      assert Recorded(evs[1..]) by {
        forall i | 0 <= i < |evs[1..]| - 1
          ensures evs[1..][i].next == evs[1..][i + 1].prev
        {
          assert evs[i + 1].next == evs[i + 1 + 1].prev;
        }
      }
      NetOfCpu(evs[1..], t);
      assert evs[0].next == evs[0 + 1].prev;
    } else {
      assert evs[1..] == [];
    }
  }

  /** The task starts and ends off the CPU. */
  ghost predicate WholeRuns(evs: seq<Event>, t: Task) {
    evs != [] ==> evs[0].prev != t && evs[|evs| - 1].next != t
  }

  lemma {:induction false} NetOfAll(cpus: seq<seq<Event>>, t: Task)
    requires forall c | 0 <= c < |cpus| :: Recorded(cpus[c]) && WholeRuns(cpus[c], t)
    ensures Net(PickAll(cpus, t), t) == TotalRunTime(cpus, t)
  {
    if cpus != [] {
      NetAppend(Pick(cpus[0], t), PickAll(cpus[1..], t), t);
      NetPick(cpus[0], t);
      if cpus[0] != [] {
        NetOfCpu(cpus[0], t);
      }
      NetOfAll(cpus[1..], t);
    }
  }

  /** The events switch in and out in turn, in first, out last. */
  ghost predicate InOut(s: seq<Event>, t: Task) {
    && |s| % 2 == 0
    && forall k | 0 <= k < |s| ::
         if k % 2 == 0 then s[k].next == t != s[k].prev else s[k].prev == t != s[k].next
  }

  lemma {:induction false} NetOfPairs(s: seq<Event>, t: Task)
    requires InOut(s, t)
    ensures Net(s, t) == PairTime(s)
  {
    if s != [] {
      assert s[1..][1..] == s[2..];
      forall k | 0 <= k < |s[2..]|
        ensures s[2..][k] == s[k + 2] && k % 2 == (k + 2) % 2
      {}
      NetOfPairs(s[2..], t);
    }
  }

  /** If the merged events pass the test, no CPU has a run that is cut off. */
  lemma TestGivesWholeRuns(cpus: seq<seq<Event>>, t: Task, c: nat)
    requires Traced(cpus, t) && FirstInLastOut(Merged(cpus, t), t) && c < |cpus|
    ensures WholeRuns(cpus[c], t)
  {
    var evs, s := cpus[c], Merged(cpus, t);
    MergedAscends(cpus, t);
    if evs != [] && evs[0].prev == t {
      var k := InMerged(cpus, t, c, 0);
      var d, j := FromMerged(cpus, t, 0);
      InOrOut(cpus, t, 0);
      RunsAround(cpus, t, d, j);
      SameCpu(cpus, t, c, d, s[0].time);
    } else if evs != [] && evs[|evs| - 1].next == t {
      var k := InMerged(cpus, t, c, |evs| - 1);
      var d, j := FromMerged(cpus, t, |s| - 1);
      InOrOut(cpus, t, |s| - 1);
      AloneWhileRunning(cpus, t, c, |evs| - 1, d, j);
    }
  }

  /** Conservation: the elapsed times add up to the time of all runs on all CPUs. */
  lemma UsageConserved(cpus: seq<seq<Event>>, t: Task)
    requires Traced(cpus, t) && FirstInLastOut(Merged(cpus, t), t)
    ensures PairTime(Merged(cpus, t)) == TotalRunTime(cpus, t)
  {
    var s := Merged(cpus, t);
    forall c | 0 <= c < |cpus|
      ensures WholeRuns(cpus[c], t)
    {
      TestGivesWholeRuns(cpus, t, c);
    }
    NetOfAll(cpus, t);
    NetSort(PickAll(cpus, t), t);
    forall k | 0 <= k < |s|
      ensures s[k].next == t <==> k % 2 == 0
      ensures s[k].prev == t <==> s[k].next != t
    {
      Alternates(cpus, t, k);
    }
    NetOfPairs(s, t);
  }

  // ---------------------------------------------------------------- the script

  /** grep_info_with_name_n_pid(): the lines of each trace are appended to one file, which is sorted. */
  method GrepInfo(cpus: seq<seq<Event>>, t: Task) returns (merged: seq<Event>)
    ensures merged == Merged(cpus, t)
  {
    var tmp: seq<Event> := [];
    ghost var todo := cpus;
    for c := 0 to |cpus|
      invariant todo == cpus[c..]
      invariant tmp + PickAll(todo, t) == PickAll(cpus, t)
    {
      tmp := tmp + Pick(cpus[c], t);
      todo := todo[1..];
    }
    assert tmp + [] == tmp;
    merged := Sort(tmp);
  }

  /** get_cpuusage_for_task(): the times two by two; a last time alone is taken from nothing. */
  method ElapsedTimes(times: seq<int>) returns (elapsed: seq<int>)
    ensures |elapsed| == (|times| + 1) / 2
    ensures forall k | 0 <= k < |times| / 2 :: elapsed[k] == times[2 * k + 1] - times[2 * k]
    ensures |times| % 2 == 1 ==> elapsed[|elapsed| - 1] == -times[|times| - 1]
  {
    elapsed := [];
    var i := 0;
    while i < |times|
      invariant 0 <= i <= |times| + 1 && i % 2 == 0
      invariant |elapsed| == i / 2
      invariant forall k | 0 <= k < |elapsed| && 2 * k + 1 < |times| :: elapsed[k] == times[2 * k + 1] - times[2 * k]
      invariant i > |times| ==> elapsed[|elapsed| - 1] == -times[|times| - 1]
    {
      var start := times[i];
      if i + 1 < |times| {
        elapsed := elapsed + [times[i + 1] - start];
      } else {
        elapsed := elapsed + [-start];
      }
      i := i + 2;
    }
  }

  /** Pair number `k` of the merged events. */
  lemma PairOf(cpus: seq<seq<Event>>, t: Task, s: seq<Event>, k: nat)
    requires Traced(cpus, t) && s == Merged(cpus, t) && FirstInLastOut(s, t)
    requires k < (|s| + 1) / 2
    ensures 2 * k + 1 < |s| && IsRun(cpus, t, s[2 * k], s[2 * k + 1]) && s[2 * k].time < s[2 * k + 1].time
  {
    TestIsExact(cpus, t);
    var j := 2 * k;
    assert IsRun(cpus, t, s[j], s[j + 1]);
    RunEnds(cpus, t, s[j], s[j + 1]);
  }

  /** What the elapsed times of the merged events are. */
  lemma UsageOf(cpus: seq<seq<Event>>, t: Task, s: seq<Event>, elapsed: seq<int>)
    requires Traced(cpus, t) && s == Merged(cpus, t) && FirstInLastOut(s, t)
    requires |elapsed| == (|s| + 1) / 2
    requires forall k | 0 <= k < |s| / 2 :: elapsed[k] == s[2 * k + 1].time - s[2 * k].time
    ensures |s| == 2 * |elapsed|
    ensures forall k | 0 <= k < |elapsed| ::
              IsRun(cpus, t, s[2 * k], s[2 * k + 1]) && elapsed[k] == s[2 * k + 1].time - s[2 * k].time > 0
  {
    TestIsExact(cpus, t);
    forall k: nat | k < |elapsed|
      ensures IsRun(cpus, t, s[2 * k], s[2 * k + 1]) && s[2 * k].time < s[2 * k + 1].time
    {
      PairOf(cpus, t, s, k);
    }
  }

  lemma UsageTotal(cpus: seq<seq<Event>>, t: Task, s: seq<Event>, elapsed: seq<int>)
    requires Traced(cpus, t) && s == Merged(cpus, t) && FirstInLastOut(s, t)
    requires |s| == 2 * |elapsed|
    requires forall k | 0 <= k < |elapsed| :: elapsed[k] == s[2 * k + 1].time - s[2 * k].time
    ensures Total(elapsed) == TotalRunTime(cpus, t)
  {
    UsageConserved(cpus, t);
    PairTimeIsTotal(s, elapsed);
  }

  /** Every pair is a run of the task if its first event switches it in, and a gap between two runs if not. */
  lemma PairsRunOrGap(cpus: seq<seq<Event>>, t: Task, k: nat)
    requires Traced(cpus, t) && 2 * k + 1 < |Merged(cpus, t)|
    ensures var s := Merged(cpus, t);
            && s[2 * k].time < s[2 * k + 1].time
            && (if s[0].next == t then RunsThroughout(cpus, t, s[2 * k].time, s[2 * k + 1].time)
                else RunsNowhere(cpus, t, s[2 * k].time, s[2 * k + 1].time))
  {
    var j := 2 * k;
    MergedAscends(cpus, t);
    Alternates(cpus, t, j);
    Alternates(cpus, t, 0);
    if Merged(cpus, t)[0].next == t {
      RunBetween(cpus, t, j);
    } else {
      GapBetween(cpus, t, j);
    }
  }

  /** The elapsed times of the events two by two, and the negative of a time left over. */
  predicate TwoByTwo(s: seq<Event>, elapsed: seq<int>) {
    && |elapsed| == (|s| + 1) / 2
    && (forall k | 0 <= k < |s| / 2 :: elapsed[k] == s[2 * k + 1].time - s[2 * k].time)
    && (|s| % 2 == 1 ==> elapsed[|elapsed| - 1] == -s[|s| - 1].time)
  }

  /** Each time of a whole pair is one in which the task runs throughout, or one in which it runs nowhere. */
  ghost predicate RunsOrGaps(cpus: seq<seq<Event>>, t: Task, s: seq<Event>, elapsed: seq<int>)
    requires TwoByTwo(s, elapsed)
  {
    forall k | 0 <= k < |s| / 2 ::
      && elapsed[k] > 0
      && (if s[0].next == t then RunsThroughout(cpus, t, s[2 * k].time, s[2 * k].time + elapsed[k])
          else RunsNowhere(cpus, t, s[2 * k].time, s[2 * k].time + elapsed[k]))
  }

  /** The k-th time is the length of the k-th run, and together they are the time of all runs. */
  ghost predicate WholeUsage(cpus: seq<seq<Event>>, t: Task, s: seq<Event>, elapsed: seq<int>) {
    && |s| == 2 * |elapsed|
    && (forall k | 0 <= k < |elapsed| ::
          IsRun(cpus, t, s[2 * k], s[2 * k + 1]) && elapsed[k] == s[2 * k + 1].time - s[2 * k].time > 0)
    && Total(elapsed) == TotalRunTime(cpus, t)
  }

  lemma TimesTwoByTwo(s: seq<Event>, times: seq<int>, elapsed: seq<int>)
    requires |times| == |s| && forall i | 0 <= i < |s| :: times[i] == s[i].time
    requires |elapsed| == (|times| + 1) / 2
    requires forall k | 0 <= k < |times| / 2 :: elapsed[k] == times[2 * k + 1] - times[2 * k]
    requires |times| % 2 == 1 ==> elapsed[|elapsed| - 1] == -times[|times| - 1]
    ensures TwoByTwo(s, elapsed)
  {}

  lemma UsageRunsOrGaps(cpus: seq<seq<Event>>, t: Task, s: seq<Event>, elapsed: seq<int>)
    requires Traced(cpus, t) && s == Merged(cpus, t) && TwoByTwo(s, elapsed)
    ensures RunsOrGaps(cpus, t, s, elapsed)
  {
    forall k: nat | k < |s| / 2
      ensures elapsed[k] > 0
      ensures if s[0].next == t then RunsThroughout(cpus, t, s[2 * k].time, s[2 * k].time + elapsed[k])
              else RunsNowhere(cpus, t, s[2 * k].time, s[2 * k].time + elapsed[k])
    {
      PairsRunOrGap(cpus, t, k);
    }
  }

  lemma UsageWhole(cpus: seq<seq<Event>>, t: Task, s: seq<Event>, elapsed: seq<int>)
    requires Traced(cpus, t) && s == Merged(cpus, t) && FirstInLastOut(s, t) && TwoByTwo(s, elapsed)
    ensures WholeUsage(cpus, t, s, elapsed)
  {
    UsageOf(cpus, t, s, elapsed);
    UsageTotal(cpus, t, s, elapsed);
  }

  /**
   The usage of a task from the traces, whatever they hold: the merged events two by two, and the negative
   of a time left over.  What the values mean is told by the first event: if that switches the task in, in
   each pair the task runs throughout, and if not, it runs nowhere.  If the merged events pass the test,
   the k-th value is the length of the k-th run, whatever CPUs it was on, and together they are the time
   of all runs.
   */
  method CpuUsage(cpus: seq<seq<Event>>, t: Task) returns (elapsed: seq<int>)
    ensures TwoByTwo(Merged(cpus, t), elapsed)
    ensures Traced(cpus, t) ==> RunsOrGaps(cpus, t, Merged(cpus, t), elapsed)
    ensures Traced(cpus, t) && FirstInLastOut(Merged(cpus, t), t) ==> WholeUsage(cpus, t, Merged(cpus, t), elapsed)
  {
    var s := GrepInfo(cpus, t);
    var times := seq(|s|, i requires 0 <= i < |s| => s[i].time);
    elapsed := ElapsedTimes(times);
    TimesTwoByTwo(s, times, elapsed);
    if Traced(cpus, t) {
      UsageRunsOrGaps(cpus, t, s, elapsed);
      if FirstInLastOut(s, t) {
        UsageWhole(cpus, t, s, elapsed);
      }
    }
  }
}
