/** OOM kills attributed to launches: `create` samples the cgroup's kill counter before a launch, `launch` samples it
    again after chromium has exited, and adds the difference to a metric. */
module OomAccounting {
  import opened Options

  newtype uint64 = n: int | 0 <= n < 0x1_0000_0000_0000_0000

  // What launch adds to the metric. A read is None if it failed.
  function Delta(before: Option<uint64>, after: Option<uint64>): uint64 {
    match (before, after)
    case (Some(b), Some(a)) => if a < b then 0 else a - b
    case _ => 0
  }

  /** What happens to the counter and to the launches, which are numbered as they start: a kill by the kernel, a cgroup
      recreated with another count, the sample before a launch, and the sample after the launch w. `ok` says whether
      the sample could be read. */
  datatype Event = Kill | Reset(to: nat) | Before(ok: bool) | After(w: nat, ok: bool)

  // The kernel's counter, the baselines of the launches that are running and have one, and the metric.
  datatype Meter = Meter(kernel: nat, open: seq<Option<nat>>, total: nat)

  function Gain(base: nat, kernel: nat): nat {
    if kernel < base then 0 else kernel - base
  }

  function Next(m: Meter, e: Event): Meter {
    match e
    case Kill => m.(kernel := m.kernel + 1)
    case Reset(to) => m.(kernel := to)
    case Before(ok) => m.(open := m.open + [if ok then Some(m.kernel) else None])
    case After(w, ok) =>
      if w < |m.open| && m.open[w].Some? then
        m.(open := m.open[w := None], total := m.total + if ok then Gain(m.open[w].value, m.kernel) else 0)
      else m
  }

  function Play(m: Meter, es: seq<Event>): Meter
    decreases |es|
  {
    if es == [] then m else Play(Next(m, es[0]), es[1..])
  }

  // The samples are 64 bits wide in the source: there the subtraction never underflows, and gives the same.
  lemma DeltaIsGain(before: uint64, after: uint64)
    ensures Delta(Some(before), Some(after)) as nat == Gain(before as nat, after as nat)
    ensures Delta(None, Some(after)) == 0 && Delta(Some(before), None) == 0
    ensures Delta(Some(before), Some(after)) <= after
  {
  }

  // The accounting at the end of launch, with the early exits of the source.
  method Account(before: Option<uint64>, after: Option<uint64>, total: nat) returns (total': nat)
    ensures total' == total + Delta(before, after) as nat
    ensures before.Some? && after.Some? ==> total' == total + Gain(before.value as nat, after.value as nat)
  {
    total' := total;
    if before.Some? {
      if after.None? {
        // a warning is logged
      } else if after.value < before.value {
        // a warning is logged
      } else {
        var delta := after.value - before.value;
        if delta > 0 {
          total' := total' + delta as nat;
        }
      }
    }
  }

  // ---- The reference: kills, and the launches they fall into

  // Whether the launch w, which is running, comes to an end with a sample that can be read.
  predicate EndsWell(es: seq<Event>, w: nat)
    decreases |es|
  {
    if es == [] then false
    else if es[0].After? && es[0].w == w then es[0].ok
    else EndsWell(es[1..], w)
  }

  predicate Counts(open: seq<Option<nat>>, es: seq<Event>, w: nat)
    requires w < |open|
  {
    open[w].Some? && EndsWell(es, w)
  }

  // The number of the first n launches that are running and whose two samples can both be read.
  function Open(open: seq<Option<nat>>, es: seq<Event>, n: nat): nat
    requires n <= |open|
  {
    if n == 0 then 0 else Open(open, es, n - 1) + if Counts(open, es, n - 1) then 1 else 0
  }

  // Summed over all kills to come: the number of launches that are running at that kill, with both samples readable.
  function Credit(m: Meter, es: seq<Event>): nat
    decreases |es|
  {
    if es == [] then 0
    else (if es[0].Kill? then Open(m.open, es[1..], |m.open|) else 0) + Credit(Next(m, es[0]), es[1..])
  }

  function Kills(es: seq<Event>): nat
    decreases |es|
  {
    if es == [] then 0 else (if es[0].Kill? then 1 else 0) + Kills(es[1..])
  }

  // What the first n launches have seen so far.
  function Seen(open: seq<Option<nat>>, kernel: nat, es: seq<Event>, n: nat): nat
    requires n <= |open|
  {
    if n == 0 then 0
    else Seen(open, kernel, es, n - 1) + if Counts(open, es, n - 1) then Gain(open[n - 1].value, kernel) else 0
  }

  ghost predicate BasesBelow(m: Meter) {
    forall w :: 0 <= w < |m.open| && m.open[w].Some? ==> m.open[w].value <= m.kernel
  }

  // The counter is only ever set back, never forward, from the given state on.
  ghost predicate SetBackFrom(m: Meter, es: seq<Event>)
    decreases |es|
  {
    es == [] || ((es[0].Reset? ==> es[0].to <= m.kernel) && SetBackFrom(Next(m, es[0]), es[1..]))
  }

  ghost predicate NeverReset(es: seq<Event>) {
    forall e :: e in es ==> !e.Reset?
  }

  lemma {:induction false} SeenKill(open: seq<Option<nat>>, kernel: nat, es: seq<Event>, n: nat)
    requires n <= |open| && es != [] && es[0].Kill?
    ensures Seen(open, kernel + 1, es[1..], n) <= Seen(open, kernel, es, n) + Open(open, es[1..], n)
    ensures (forall w :: 0 <= w < n && open[w].Some? ==> open[w].value <= kernel) ==>
              Seen(open, kernel + 1, es[1..], n) == Seen(open, kernel, es, n) + Open(open, es[1..], n)
  {
    if n > 0 {
      SeenKill(open, kernel, es, n - 1);
    }
  }

  lemma {:induction false} SeenReset(open: seq<Option<nat>>, kernel: nat, es: seq<Event>, n: nat)
    requires n <= |open| && es != [] && es[0].Reset? && es[0].to <= kernel
    ensures Seen(open, es[0].to, es[1..], n) <= Seen(open, kernel, es, n)
  {
    if n > 0 {
      SeenReset(open, kernel, es, n - 1);
    }
  }

  lemma {:induction false} SeenBefore(open: seq<Option<nat>>, kernel: nat, es: seq<Event>, base: Option<nat>, n: nat)
    requires n <= |open| && es != [] && es[0].Before?
    ensures Seen(open + [base], kernel, es[1..], n) == Seen(open, kernel, es, n)
  {
    if n > 0 {
      SeenBefore(open, kernel, es, base, n - 1);
    }
  }

  lemma {:induction false} SeenAfter(open: seq<Option<nat>>, kernel: nat, es: seq<Event>, n: nat)
    requires n <= |open| && es != [] && es[0].After?
    ensures var w := es[0].w;
            Seen(open, kernel, es, n)
            == (if w < n then Seen(open[w := None], kernel, es[1..], n) else Seen(open, kernel, es[1..], n))
               + (if w < n && open[w].Some? && es[0].ok then Gain(open[w].value, kernel) else 0)
  {
    if n > 0 {
      SeenAfter(open, kernel, es, n - 1);
      var w := es[0].w;
      if w == n - 1 {
        SeenPrefix(open, open[w := None], kernel, es[1..], n - 1);
      }
    }
  }

  lemma {:induction false} SeenPrefix(a: seq<Option<nat>>, b: seq<Option<nat>>, kernel: nat, es: seq<Event>, n: nat)
    requires n <= |a| && n <= |b| && forall w :: 0 <= w < n ==> a[w] == b[w]
    ensures Seen(a, kernel, es, n) == Seen(b, kernel, es, n)
  {
    if n > 0 {
      SeenPrefix(a, b, kernel, es, n - 1);
    }
  }

  lemma {:induction false} SeenNothing(open: seq<Option<nat>>, kernel: nat, n: nat)
    requires n <= |open|
    ensures Seen(open, kernel, [], n) == 0
  {
    if n > 0 {
      SeenNothing(open, kernel, n - 1);
    }
  }

  // What the running launches have seen, plus what is to come.
  function Due(m: Meter, es: seq<Event>): nat {
    m.total + Seen(m.open, m.kernel, es, |m.open|) + Credit(m, es)
  }

  lemma DueAfter(m: Meter, es: seq<Event>)
    requires es != [] && es[0].After?
    ensures Due(Next(m, es[0]), es[1..]) == Due(m, es)
  {
    SeenAfter(m.open, m.kernel, es, |m.open|);
    var w := es[0].w;
    if w < |m.open| && m.open[w].None? {
      assert m.open[w := None] == m.open;
    }
  }

  lemma DueBefore(m: Meter, es: seq<Event>)
    requires es != [] && es[0].Before?
    ensures Due(Next(m, es[0]), es[1..]) == Due(m, es)
  {
    var base := if es[0].ok then Some(m.kernel) else None;
    SeenBefore(m.open, m.kernel, es, base, |m.open|);
    assert Next(m, es[0]).open == m.open + [base];
  }

  lemma {:induction false} CountsAtMost(m: Meter, es: seq<Event>)
    requires SetBackFrom(m, es)
    ensures Play(m, es).total <= Due(m, es)
    decreases |es|
  {
    if es == [] {
      SeenNothing(m.open, m.kernel, |m.open|);
    } else {
      CountsAtMost(Next(m, es[0]), es[1..]);
      match es[0]
      case Kill => SeenKill(m.open, m.kernel, es, |m.open|);
      case Reset(_) => SeenReset(m.open, m.kernel, es, |m.open|);
      case Before(_) => DueBefore(m, es);
      case After(_, _) => DueAfter(m, es);
    }
  }

  lemma {:induction false} CountsExactly(m: Meter, es: seq<Event>)
    requires NeverReset(es) && BasesBelow(m)
    ensures Play(m, es).total == Due(m, es)
    decreases |es|
  {
    if es == [] {
      SeenNothing(m.open, m.kernel, |m.open|);
    } else {
      assert es[0] in es;
      CountsExactly(Next(m, es[0]), es[1..]);
      match es[0]
      case Kill => SeenKill(m.open, m.kernel, es, |m.open|);
      case Before(_) => DueBefore(m, es);
      case After(_, _) => DueAfter(m, es);
    }
  }

  function Fresh(kernel: nat): Meter {
    Meter(kernel, [], 0)
  }

  // What the four kinds of events do, spelled out.
  lemma EventsAreTaken(m: Meter, ok: bool, w: nat)
    ensures Next(m, Kill) == Meter(m.kernel + 1, m.open, m.total)
    ensures forall to: nat :: Next(m, Reset(to)) == Meter(to, m.open, m.total)
    ensures Next(m, Before(true)) == Meter(m.kernel, m.open + [Some(m.kernel)], m.total)
    ensures Next(m, Before(false)) == Meter(m.kernel, m.open + [None], m.total)
    ensures w < |m.open| && m.open[w].Some? ==>
              && Next(m, After(w, ok)).open == m.open[w := None]
              && Next(m, After(w, ok)).total
                 == if ok && m.open[w].value < m.kernel then m.total + (m.kernel - m.open[w].value) else m.total
    ensures w >= |m.open| || m.open[w].None? ==> Next(m, After(w, ok)) == m
  {
  }

  // ---- The same reference, from the events alone

  // The number of launches that have started.
  function Launches(es: seq<Event>): nat {
    if es == [] then 0 else Launches(es[..|es| - 1]) + if es[|es| - 1].Before? then 1 else 0
  }

  // What the kernel's counter says after the events, from what it said before them.
  function Counter(kernel: nat, es: seq<Event>): nat {
    if es == [] then kernel
    else
      var before := Counter(kernel, es[..|es| - 1]);
      match es[|es| - 1]
      case Kill => before + 1
      case Reset(to) => to
      case _ => before
  }

  ghost predicate OnlySetBack(kernel: nat, es: seq<Event>) {
    forall i :: 0 <= i < |es| && es[i].Reset? ==> es[i].to <= Counter(kernel, es[..i])
  }

  // The w-th launch starts at b, with a sample that can be read.
  ghost predicate StartsWellAt(es: seq<Event>, w: nat, b: nat) {
    b < |es| && es[b] == Before(true) && Launches(es[..b]) == w
  }

  // The launch w does not end after i and before j.
  ghost predicate RunsBetween(es: seq<Event>, w: nat, i: nat, j: nat) {
    forall x :: i < x < j && x < |es| && es[x].After? ==> es[x].w != w
  }

  ghost predicate EndsWellAt(es: seq<Event>, w: nat, a: nat) {
    a < |es| && es[a] == After(w, true)
  }

  // The position k lies between the two samples of the launch w, and both can be read.
  ghost predicate Covers(es: seq<Event>, w: nat, k: nat) {
    exists b: nat, a: nat :: b < k < a && StartsWellAt(es, w, b) && EndsWellAt(es, w, a) && RunsBetween(es, w, b, a)
  }

  // How many of the first n launches cover the position.
  ghost function Covering(es: seq<Event>, k: nat, n: nat): nat {
    if n == 0 then 0 else Covering(es, k, n - 1) + if Covers(es, n - 1, k) then 1 else 0
  }

  // Summed over all kills from k on: the number of launches that cover it.
  ghost function Coverings(es: seq<Event>, k: nat): nat
    requires k <= |es|
    decreases |es| - k
  {
    if k == |es| then 0
    else (if es[k].Kill? then Covering(es, k, Launches(es)) else 0) + Coverings(es, k + 1)
  }

  // The number of kills from k on that some launch covers.
  ghost function Covered(es: seq<Event>, k: nat): nat
    requires k <= |es|
    decreases |es| - k
  {
    if k == |es| then 0
    else (if es[k].Kill? && exists w :: Covers(es, w, k) then 1 else 0) + Covered(es, k + 1)
  }

  // No kill is covered by two launches.
  ghost predicate OneAtATime(es: seq<Event>) {
    forall k, v, w :: 0 <= k < |es| && es[k].Kill? && Covers(es, v, k) && Covers(es, w, k) ==> v == w
  }

  lemma {:induction false} PlayOneMore(m: Meter, es: seq<Event>, e: Event)
    ensures Play(m, es + [e]) == Next(Play(m, es), e)
    decreases |es|
  {
    if es == [] {
      assert [e][1..] == [] && es + [e] == [e];
    } else {
      PlayOneMore(Next(m, es[0]), es[1..], e);
      assert (es + [e])[1..] == es[1..] + [e];
    }
  }

  lemma {:induction false} LaunchesGrow(es: seq<Event>, i: nat, j: nat)
    requires i <= j <= |es|
    ensures Launches(es[..i]) <= Launches(es[..j])
    ensures i < j && es[i].Before? ==> Launches(es[..i]) < Launches(es[..j])
  {
    if i < j {
      LaunchesGrow(es, i, j - 1);
      assert es[..j][..j - 1] == es[..j - 1];
    }
  }

  // The launch w, after the first i events, is running and has a baseline.
  ghost predicate HasBaseline(es: seq<Event>, w: nat, i: nat) {
    exists b: nat :: b < i && StartsWellAt(es, w, b) && RunsBetween(es, w, b, i)
  }

  // The state after the first i events.
  function StateAt(kernel: nat, es: seq<Event>, i: nat): Meter
    requires i <= |es|
  {
    Play(Fresh(kernel), es[..i])
  }

  lemma StateAtNext(kernel: nat, es: seq<Event>, i: nat)
    requires i < |es|
    ensures StateAt(kernel, es, i + 1) == Next(StateAt(kernel, es, i), es[i])
    ensures Launches(es[..i + 1]) == Launches(es[..i]) + if es[i].Before? then 1 else 0
  {
    assert es[..i + 1] == es[..i] + [es[i]];
    PlayOneMore(Fresh(kernel), es[..i], es[i]);
    assert es[..i + 1][..i] == es[..i];
  }

  // A launch that has not started has no baseline.
  lemma NotStarted(es: seq<Event>, w: nat, i: nat)
    requires i <= |es| && Launches(es[..i]) <= w
    ensures !HasBaseline(es, w, i)
  {
    if HasBaseline(es, w, i) {
      var b: nat :| b < i && StartsWellAt(es, w, b) && RunsBetween(es, w, b, i);
      LaunchesGrow(es, b, i);
    }
  }

  lemma BaselineStep(es: seq<Event>, w: nat, i: nat)
    requires i < |es| && w <= Launches(es[..i])
    ensures HasBaseline(es, w, i + 1) <==>
            if es[i].Before? && w == Launches(es[..i]) then es[i].ok
            else HasBaseline(es, w, i) && !(es[i].After? && es[i].w == w)
  {
    NotStarted(es, Launches(es[..i]), i);
    if es[i].Before? && w == Launches(es[..i]) && es[i].ok {
      assert StartsWellAt(es, w, i) && RunsBetween(es, w, i, i + 1);
    }
    if HasBaseline(es, w, i + 1) {
      var b: nat :| b < i + 1 && StartsWellAt(es, w, b) && RunsBetween(es, w, b, i + 1);
      if b < i {
        assert RunsBetween(es, w, b, i);
      }
    }
    if HasBaseline(es, w, i) && !(es[i].After? && es[i].w == w) {
      var b: nat :| b < i && StartsWellAt(es, w, b) && RunsBetween(es, w, b, i);
      assert RunsBetween(es, w, b, i + 1);
    }
  }

  // The meter's baselines are those of the events.
  lemma {:induction false} BaselinesAre(kernel: nat, es: seq<Event>, i: nat)
    requires i <= |es|
    ensures |StateAt(kernel, es, i).open| == Launches(es[..i])
    ensures forall w: nat :: w < Launches(es[..i]) ==> (StateAt(kernel, es, i).open[w].Some? <==> HasBaseline(es, w, i))
  {
    if i > 0 {
      BaselinesAre(kernel, es, i - 1);
      StateAtNext(kernel, es, i - 1);
      forall w: nat | w < Launches(es[..i])
        ensures StateAt(kernel, es, i).open[w].Some? <==> HasBaseline(es, w, i)
      {
        BaselineStep(es, w, i - 1);
      }
    }
  }

  lemma {:induction false} EndIs(es: seq<Event>, w: nat, k: nat)
    requires k < |es|
    ensures EndsWell(es[k + 1..], w) <==> exists a: nat :: k < a && EndsWellAt(es, w, a) && RunsBetween(es, w, k, a)
    decreases |es| - k
  {
    if k + 1 < |es| {
      var n := k + 1;
      EndIs(es, w, n);
      assert es[n..][0] == es[n] && es[n..][1..] == es[n + 1..];
      if es[n].After? && es[n].w == w {
        assert RunsBetween(es, w, k, n);
      } else {
        forall a: nat | n < a
          ensures RunsBetween(es, w, k, a) <==> RunsBetween(es, w, n, a)
        {
        }
      }
    }
  }

  // A kill counts for the launches that cover it.
  lemma CountsIsCovers(kernel: nat, es: seq<Event>, w: nat, k: nat)
    requires k < |es| && es[k].Kill? && w < Launches(es[..k])
    ensures w < |StateAt(kernel, es, k).open|
    ensures Counts(StateAt(kernel, es, k).open, es[k + 1..], w) <==> Covers(es, w, k)
  {
    BaselinesAre(kernel, es, k);
    EndIs(es, w, k);
    if HasBaseline(es, w, k) && EndsWell(es[k + 1..], w) {
      var b: nat :| b < k && StartsWellAt(es, w, b) && RunsBetween(es, w, b, k);
      var a: nat :| k < a && EndsWellAt(es, w, a) && RunsBetween(es, w, k, a);
      assert RunsBetween(es, w, b, a);
    }
    if Covers(es, w, k) {
      var b: nat, a: nat :| b < k < a && StartsWellAt(es, w, b) && EndsWellAt(es, w, a) && RunsBetween(es, w, b, a);
      assert RunsBetween(es, w, b, k) && RunsBetween(es, w, k, a);
    }
  }

  lemma {:induction false} OpenIsCovering(kernel: nat, es: seq<Event>, k: nat, n: nat)
    requires k < |es| && es[k].Kill? && n <= Launches(es[..k])
    ensures n <= |StateAt(kernel, es, k).open|
    ensures Open(StateAt(kernel, es, k).open, es[k + 1..], n) == Covering(es, k, n)
  {
    BaselinesAre(kernel, es, k);
    if n > 0 {
      OpenIsCovering(kernel, es, k, n - 1);
      CountsIsCovers(kernel, es, n - 1, k);
    }
  }

  // Launches that start later cover nothing before.
  lemma {:induction false} LaterCoverNothing(es: seq<Event>, k: nat, n: nat)
    requires k < |es| && Launches(es[..k]) <= n
    ensures Covering(es, k, n) == Covering(es, k, Launches(es[..k]))
    decreases n
  {
    if Launches(es[..k]) < n {
      LaterCoverNothing(es, k, n - 1);
      if Covers(es, n - 1, k) {
        NoneCoversBeforeStart(es, n - 1, k);
      }
    }
  }

  lemma NoneCoversBeforeStart(es: seq<Event>, w: nat, k: nat)
    requires k < |es| && Covers(es, w, k)
    ensures w < Launches(es[..k]) <= Launches(es)
  {
    var b: nat, a: nat :| b < k < a && StartsWellAt(es, w, b) && EndsWellAt(es, w, a) && RunsBetween(es, w, b, a);
    LaunchesGrow(es, b, k);
    LaunchesGrow(es, k, |es|);
    assert es[..|es|] == es;
  }

  lemma {:induction false} CreditIsCoverings(kernel: nat, es: seq<Event>, k: nat)
    requires k <= |es|
    ensures Credit(StateAt(kernel, es, k), es[k..]) == Coverings(es, k)
    decreases |es| - k
  {
    if k < |es| {
      CreditIsCoverings(kernel, es, k + 1);
      StateAtNext(kernel, es, k);
      assert es[k..][0] == es[k] && es[k..][1..] == es[k + 1..];
      if es[k].Kill? {
        BaselinesAre(kernel, es, k);
        OpenIsCovering(kernel, es, k, Launches(es[..k]));
        LaunchesGrow(es, k, |es|);
        assert es[..|es|] == es;
        LaterCoverNothing(es, k, Launches(es));
      }
    }
  }

  lemma {:induction false} CounterIsKernel(kernel: nat, es: seq<Event>, i: nat)
    requires i <= |es|
    ensures StateAt(kernel, es, i).kernel == Counter(kernel, es[..i])
  {
    if i > 0 {
      CounterIsKernel(kernel, es, i - 1);
      StateAtNext(kernel, es, i - 1);
      assert es[..i][..i - 1] == es[..i - 1];
    }
  }

  lemma {:induction false} SetBackIs(kernel: nat, es: seq<Event>, k: nat)
    requires OnlySetBack(kernel, es) && k <= |es|
    ensures SetBackFrom(StateAt(kernel, es, k), es[k..])
    decreases |es| - k
  {
    if k < |es| {
      CounterIsKernel(kernel, es, k);
      StateAtNext(kernel, es, k);
      SetBackIs(kernel, es, k + 1);
      assert es[k..][0] == es[k] && es[k..][1..] == es[k + 1..];
    }
  }

  lemma FromTheStart(kernel: nat, es: seq<Event>)
    ensures StateAt(kernel, es, 0) == Fresh(kernel) && StateAt(kernel, es, |es|) == Play(Fresh(kernel), es)
    ensures es[0..] == es && es[..|es|] == es
  {
    assert es[..|es|] == es && es[..0] == [];
  }

  /** With a counter that is only ever set back, the metric never exceeds the number of kills, each counted once for
      every launch whose two samples it lies between and can be read. */
  lemma NeverOvercounts(kernel: nat, es: seq<Event>)
    requires OnlySetBack(kernel, es)
    ensures Play(Fresh(kernel), es).total <= Coverings(es, 0)
  {
    FromTheStart(kernel, es);
    SetBackIs(kernel, es, 0);
    CountsAtMost(Fresh(kernel), es);
    CreditIsCoverings(kernel, es, 0);
  }

  /** Double counting: if the counter is never reset, the metric is, summed over all kills, the number of launches whose
      two samples the kill lies between and can be read. */
  lemma MetricIsSumOverKills(kernel: nat, es: seq<Event>)
    requires NeverReset(es)
    ensures Play(Fresh(kernel), es).total == Coverings(es, 0)
  {
    FromTheStart(kernel, es);
    CountsExactly(Fresh(kernel), es);
    CreditIsCoverings(kernel, es, 0);
  }

  lemma {:induction false} CoveringIs(es: seq<Event>, k: nat, n: nat)
    ensures Covering(es, k, n) > 0 <==> exists w: nat :: w < n && Covers(es, w, k)
    ensures Covering(es, k, n) <= 1 <==> forall v: nat, w: nat :: v < w < n ==> !Covers(es, v, k) || !Covers(es, w, k)
  {
    if n > 0 {
      CoveringIs(es, k, n - 1);
    }
  }

  ghost predicate OneAtATimeFrom(es: seq<Event>, k: nat) {
    forall i, v, w :: k <= i < |es| && es[i].Kill? && Covers(es, v, i) && Covers(es, w, i) ==> v == w
  }

  lemma {:induction false} CoveringsAgainstCovered(es: seq<Event>, k: nat)
    requires k <= |es|
    ensures Covered(es, k) <= Coverings(es, k) && Covered(es, k) <= Kills(es[k..])
    ensures Covered(es, k) == Coverings(es, k) <==> OneAtATimeFrom(es, k)
    decreases |es| - k
  {
    if k < |es| {
      CoveringsAgainstCovered(es, k + 1);
      assert es[k..][0] == es[k] && es[k..][1..] == es[k + 1..];
      CoveringIs(es, k, Launches(es));
      CoveredByLaunches(es, k);
    }
  }

  // Only launches that have started cover anything.
  lemma CoveredByLaunches(es: seq<Event>, k: nat)
    requires k < |es|
    ensures forall w: nat :: Covers(es, w, k) ==> w < Launches(es)
  {
    forall w: nat | Covers(es, w, k)
      ensures w < Launches(es)
    {
      NoneCoversBeforeStart(es, w, k);
    }
  }

  /** The metric never misses a kill between the samples of a launch, and it is the number of those kills exactly when
      none lies between the samples of two; then it is at most the growth of the kernel's counter. */
  lemma NoDoubleCountIsExact(kernel: nat, es: seq<Event>)
    requires NeverReset(es)
    ensures var m := Play(Fresh(kernel), es);
            && Covered(es, 0) <= m.total
            && (m.total == Covered(es, 0) <==> OneAtATime(es))
            && (OneAtATime(es) ==> m.total <= m.kernel - kernel)
  {
    MetricIsSumOverKills(kernel, es);
    CoveringsAgainstCovered(es, 0);
    FromTheStart(kernel, es);
    KernelCountsKills(Fresh(kernel), es);
  }

  lemma {:induction false} KernelCountsKills(m: Meter, es: seq<Event>)
    requires NeverReset(es)
    ensures Play(m, es).kernel == m.kernel + Kills(es)
    decreases |es|
  {
    if es != [] {
      assert es[0] in es;
      KernelCountsKills(Next(m, es[0]), es[1..]);
    }
  }

  // With an overlap it can be more: one kill, counted for two launches.
  lemma OverlapCountsTwice(kernel: nat)
    ensures var es := [Before(true), Before(true), Kill, After(0, true), After(1, true)];
            && Play(Fresh(kernel), es).kernel == kernel + 1
            && Play(Fresh(kernel), es).total == 2
  {
  }

  // Without one, two sessions that are killed are two kills.
  lemma SessionsInTurnCountOnce(kernel: nat)
    ensures var es := [Before(true), Kill, After(0, true), Before(true), Kill, After(1, true)];
            Play(Fresh(kernel), es).total == 2
  {
    var es := [Before(true), Kill, After(0, true), Before(true), Kill, After(1, true)];
    var m := Next(Next(Next(Fresh(kernel), es[0]), es[1]), es[2]);
    assert m == Meter(kernel + 1, [None], 1);
    assert Next(Next(m, es[3]), es[4]) == Meter(kernel + 2, [None, Some(kernel + 1)], 1);
    assert Play(Fresh(kernel), es) == Play(m, es[1..][1..][1..]);
    assert es[1..][1..][1..] == [es[3], es[4], es[5]];
  }
}
