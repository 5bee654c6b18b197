/** The scale-down stabilization window of internal/app/reconciler/stabilizer.go.  Times and
    durations are integers on one clock. */
module Stabilization {
  import opened Words

  datatype Sample = Sample(at: int, rec: Word)

  // ----- what one call computes -----

  /** The samples not older than the cutoff, in order. */
  function Kept(h: seq<Sample>, cutoff: int): seq<Sample> {
    if h == [] then []
    else
      var rest := Kept(h[..|h| - 1], cutoff);
      if h[|h| - 1].at < cutoff then rest else rest + [h[|h| - 1]]
  }

  function MaxRec(h: seq<Sample>, floor: Word): Word {
    if h == [] then floor
    else
      var m := MaxRec(h[..|h| - 1], floor);
      if h[|h| - 1].rec > m then h[|h| - 1].rec else m
  }

  /** The history of one service after a call. */
  function Next(h: seq<Sample>, window: int, desired: Word, now: int): seq<Sample> {
    if window <= 0 then h else Kept(h, now - window) + [Sample(now, desired)]
  }

  /** The answer of a call whose updated history is `h`. */
  function Answer(h: seq<Sample>, window: int, current: Word, desired: Word): Word {
    if window <= 0 || desired >= current then desired
    else if MaxRec(h, desired) > current then current
    else MaxRec(h, desired)
  }

  // ----- the class -----

  /** A Go slice that starts at the front of its backing array. */
  datatype Slice = Slice(buf: array<Sample>, len: nat)

  /** Prunes the first `len` elements in place: the write position `k` never overtakes the
      read position. */
  method Compact(buf: array<Sample>, len: nat, cutoff: int) returns (k: nat)
    requires len <= buf.Length
    modifies buf
    ensures k <= len
    ensures buf[..k] == Kept(old(buf[..len]), cutoff)
  {
    k := 0;
    for i := 0 to len
      invariant k <= i
      invariant buf[..k] == Kept(old(buf[..i]), cutoff)
      invariant forall j :: i <= j < len ==> buf[j] == old(buf[j])
    {
      assert old(buf[..i + 1])[..i] == old(buf[..i]);
      if buf[i].at >= cutoff {
        buf[k] := buf[i];
        k := k + 1;
      }
    }
  }

  /** Go's append: in place while there is capacity, otherwise into a new array. */
  method Append(s: Slice, x: Sample) returns (r: Slice)
    requires s.len <= s.buf.Length
    modifies s.buf
    ensures r.len == s.len + 1 <= r.buf.Length
    ensures r.buf[..r.len] == old(s.buf[..s.len]) + [x]
    ensures r.buf == s.buf || fresh(r.buf)
  {
    var buf := s.buf;
    if s.len == s.buf.Length {
      buf := new Sample[2 * s.len + 1](_ => x);
      for i := 0 to s.len
        invariant s.buf[..s.len] == old(s.buf[..s.len])
        invariant buf[..i] == s.buf[..i]
      {
        buf[i] := s.buf[i];
      }
    }
    buf[s.len] := x;
    r := Slice(buf, s.len + 1);
  }

  method CompactAndAppend(s: Slice, cutoff: int, x: Sample) returns (r: Slice)
    requires s.len <= s.buf.Length
    modifies s.buf
    ensures r.len <= r.buf.Length
    ensures r.buf[..r.len] == Kept(old(s.buf[..s.len]), cutoff) + [x]
    ensures r.buf == s.buf || fresh(r.buf)
  {
    var k := Compact(s.buf, s.len, cutoff);
    r := Append(Slice(s.buf, k), x);
  }

  method Largest(s: Slice, floor: Word) returns (m: Word)
    requires s.len <= s.buf.Length
    ensures m == MaxRec(s.buf[..s.len], floor)
  {
    m := floor;
    for i := 0 to s.len
      invariant m == MaxRec(s.buf[..i], floor)
    {
      assert s.buf[..i + 1][..i] == s.buf[..i];
      if s.buf[i].rec > m {
        m := s.buf[i].rec;
      }
    }
  }

  class Stabilizer {
    const window: int
    var history: map<ServiceId, Slice>
    /** The recorded samples of every service. */
    ghost var samples: map<ServiceId, seq<Sample>>
    /** Which service a backing array belongs to: no two services share one. */
    ghost var owner: map<array<Sample>, ServiceId>

    ghost function Repr(): set<array<Sample>>
      reads this
    {
      owner.Keys
    }

    ghost predicate Valid()
      reads this, Repr()
    {
      history.Keys == samples.Keys && forall s :: s in history ==> ValidSlice(s)
    }

    ghost predicate ValidExcept(service: ServiceId)
      reads this, Repr()
    {
      history.Keys == samples.Keys && forall s :: s in history && s != service ==> ValidSlice(s)
    }

    ghost predicate ValidSlice(s: ServiceId)
      requires s in history && s in samples
      reads this, Repr()
    {
      && history[s].buf in owner && owner[history[s].buf] == s
      && history[s].len <= history[s].buf.Length
      && history[s].buf[..history[s].len] == samples[s]
    }

    constructor (window: int)
      ensures Valid() && this.window == window && samples == map[]
    {
      this.window := window;
      history := map[];
      samples := map[];
      owner := map[];
    }

    /** The service's slice; an empty one for a service never seen. */
    method Open(service: ServiceId) returns (slice: Slice)
      requires Valid()
      ensures slice.len <= slice.buf.Length
      ensures slice.buf[..slice.len] == Lookup(samples, service)
      ensures if service in history then slice == history[service] else fresh(slice.buf)
    {
      if service in history {
        slice := history[service];
      } else {
        var buf := new Sample[0];
        slice := Slice(buf, 0);
      }
    }

    /** Stores a slice as the history of a service; the slice it had before may be stale. */
    method Store(service: ServiceId, kept: Slice)
      requires ValidExcept(service) && kept.len <= kept.buf.Length
      requires kept.buf in owner ==> owner[kept.buf] == service
      modifies this`history, this`owner, this`samples
      ensures Valid() && Repr() == old(Repr()) + {kept.buf}
      ensures history == old(history)[service := kept]
      ensures samples == old(samples)[service := kept.buf[..kept.len]]
    {
      history := history[service := kept];
      owner := owner[kept.buf := service];
      samples := samples[service := kept.buf[..kept.len]];
    }

    /** Writing into one service's array leaves the other services' slices as they are. */
    twostate lemma OthersStayValid(service: ServiceId, new buf: array<Sample>)
      requires old(Valid()) && history == old(history) && samples == old(samples) && owner == old(owner)
      requires buf in owner ==> owner[buf] == service
      requires unchanged(Repr() - {buf})
      ensures ValidExcept(service)
    {
      forall s | s in history && s != service ensures ValidSlice(s) {
        assert old(ValidSlice(s)) && history[s].buf != buf;
      }
    }

    /** Prunes the service's history, appends the sample and returns the updated slice. */
    method Record(service: ServiceId, desired: Word, now: int) returns (kept: Slice)
      requires Valid() && window > 0
      modifies this, Repr()
      ensures Valid() && fresh(Repr() - old(Repr()))
      ensures samples == old(samples)[service := Next(Lookup(old(samples), service), window, desired, now)]
      ensures service in history && kept == history[service]
    {
      var slice := Open(service);
      ghost var next := Next(Lookup(samples, service), window, desired, now);
      kept := CompactAndAppend(slice, now - window, Sample(now, desired));
      OthersStayValid(service, slice.buf);
      assert kept.buf[..kept.len] == next;
      assert kept.buf in owner ==> kept.buf == slice.buf;
      Store(service, kept);
      assert samples == old(samples)[service := next];
    }

    /** Records the recommendation and returns the stabilized value.  Only the history of the
        named service changes. */
    method Recommend(service: ServiceId, current: Word, desired: Word, now: int) returns (r: Word)
      requires Valid()
      modifies this, Repr()
      ensures Valid() && fresh(Repr() - old(Repr()))
      ensures samples == After(old(samples), window, Call(service, current, desired, now))
      ensures r == Result(old(samples), window, Call(service, current, desired, now))
    {
      if window <= 0 {
        return desired;
      }
      var kept := Record(service, desired, now);
      if desired >= current {
        return desired;
      }
      var maxRec := Largest(kept, desired);
      return if maxRec > current then current else maxRec;
    }
  }

  // ----- runs -----

  datatype Call = Call(service: ServiceId, current: Word, desired: Word, now: int)

  function Lookup(state: map<ServiceId, seq<Sample>>, service: ServiceId): seq<Sample> {
    if service in state then state[service] else []
  }

  function After(state: map<ServiceId, seq<Sample>>, window: int, c: Call): map<ServiceId, seq<Sample>> {
    if window <= 0 then state
    else state[c.service := Next(Lookup(state, c.service), window, c.desired, c.now)]
  }

  function Result(state: map<ServiceId, seq<Sample>>, window: int, c: Call): Word {
    Answer(Next(Lookup(state, c.service), window, c.desired, c.now), window, c.current, c.desired)
  }

  function Run(calls: seq<Call>, window: int): map<ServiceId, seq<Sample>> {
    if calls == [] then map[] else After(Run(calls[..|calls| - 1], window), window, calls[|calls| - 1])
  }

  // ----- the specification that forgets nothing -----

  predicate Counts(c: Call, service: ServiceId, cutoff: int) {
    c.service == service && c.now >= cutoff
  }

  /** The largest of `floor` and every recommendation any call of the run made for the
      service at or after the cutoff. */
  function WindowMax(calls: seq<Call>, service: ServiceId, cutoff: int, floor: Word): Word {
    if calls == [] then floor
    else
      var m := WindowMax(calls[..|calls| - 1], service, cutoff, floor);
      var c := calls[|calls| - 1];
      if Counts(c, service, cutoff) && c.desired > m then c.desired else m
  }

  lemma {:induction false} WindowMaxIsMax(calls: seq<Call>, service: ServiceId, cutoff: int, floor: Word)
    ensures var m := WindowMax(calls, service, cutoff, floor);
            && m >= floor
            && (forall i :: 0 <= i < |calls| && Counts(calls[i], service, cutoff) ==> calls[i].desired <= m)
            && (m == floor || exists i :: 0 <= i < |calls| && Counts(calls[i], service, cutoff) && calls[i].desired == m)
  {
    if calls != [] {
      var front := calls[..|calls| - 1];
      WindowMaxIsMax(front, service, cutoff, floor);
      assert forall i :: 0 <= i < |front| ==> front[i] == calls[i];
    }
  }

  /** Every recommendation ever made for a service. */
  function Forever(calls: seq<Call>, service: ServiceId): seq<Sample> {
    if calls == [] then []
    else
      var rest := Forever(calls[..|calls| - 1], service);
      var c := calls[|calls| - 1];
      if c.service == service then rest + [Sample(c.now, c.desired)] else rest
  }

  lemma {:induction false} KeptTwice(h: seq<Sample>, c1: int, c2: int)
    requires c1 <= c2
    ensures Kept(Kept(h, c1), c2) == Kept(h, c2)
  {
    if h != [] {
      var front, last := h[..|h| - 1], h[|h| - 1];
      KeptTwice(front, c1, c2);
      if last.at >= c1 {
        assert (Kept(front, c1) + [last])[..|Kept(front, c1)|] == Kept(front, c1);
      }
    }
  }

  lemma {:induction false} KeptCommutes(h: seq<Sample>, c1: int, c2: int)
    ensures Kept(Kept(h, c1), c2) == Kept(Kept(h, c2), c1)
  {
    if h != [] {
      var front, last := h[..|h| - 1], h[|h| - 1];
      KeptCommutes(front, c1, c2);
      KeptAppend(Kept(front, c1), last, c2);
      KeptAppend(Kept(front, c2), last, c1);
    }
  }

  lemma {:induction false} KeptAll(h: seq<Sample>, cutoff: int)
    requires forall e :: e in h ==> e.at >= cutoff
    ensures Kept(h, cutoff) == h
  {
    if h != [] { KeptAll(h[..|h| - 1], cutoff); }
  }

  /** A later call of the service has pruned the i-th call's sample, which a query with the given
      cutoff asks for. */
  predicate Lost(calls: seq<Call>, service: ServiceId, window: int, cutoff: int, i: nat) {
    && i < |calls| && Counts(calls[i], service, cutoff)
    && exists j :: i < j < |calls| && calls[j].service == service && calls[j].now - window > calls[i].now
  }

  predicate NothingLost(calls: seq<Call>, service: ServiceId, window: int, cutoff: int) {
    forall i :: 0 <= i < |calls| ==> !Lost(calls, service, window, cutoff, i)
  }

  /** If no call of the service was later than the query, nothing is lost; on Go's monotonic readings
      that is always so within one process. */
  lemma NothingLostWithoutLaterCalls(calls: seq<Call>, service: ServiceId, window: int, now: int)
    requires forall i :: 0 <= i < |calls| && calls[i].service == service ==> calls[i].now <= now
    ensures NothingLost(calls, service, window, now - window)
  {
  }

  lemma {:induction false} ForeverMembers(calls: seq<Call>, service: ServiceId, e: Sample) returns (i: nat)
    requires e in Forever(calls, service)
    ensures i < |calls| && calls[i].service == service && e.at == calls[i].now
  {
    var n := |calls| - 1;
    if calls[n].service == service && e == Sample(calls[n].now, calls[n].desired) {
      i := n;
    } else {
      i := ForeverMembers(calls[..n], service, e);
    }
  }

  lemma {:induction false} KeptMembers(h: seq<Sample>, cutoff: int)
    ensures forall e :: e in Kept(h, cutoff) ==> e in h && e.at >= cutoff
  {
    if h != [] { KeptMembers(h[..|h| - 1], cutoff); }
  }

  lemma NothingLostInFront(calls: seq<Call>, service: ServiceId, window: int, cutoff: int)
    requires calls != [] && NothingLost(calls, service, window, cutoff)
    ensures NothingLost(calls[..|calls| - 1], service, window, cutoff)
  {
    var front := calls[..|calls| - 1];
    forall i | 0 <= i < |front| ensures !Lost(front, service, window, cutoff, i) {
      assert !Lost(calls, service, window, cutoff, i);
    }
  }

  /** What the last call prunes is nothing the query asks for. */
  lemma LastPrunesNothing(calls: seq<Call>, service: ServiceId, window: int, cutoff: int)
    requires calls != [] && calls[|calls| - 1].service == service && NothingLost(calls, service, window, cutoff)
    ensures var f := Kept(Forever(calls[..|calls| - 1], service), cutoff);
            Kept(f, calls[|calls| - 1].now - window) == f
  {
    var front, c := calls[..|calls| - 1], calls[|calls| - 1];
    var f := Forever(front, service);
    KeptMembers(f, cutoff);
    forall e | e in Kept(f, cutoff) ensures e.at >= c.now - window {
      var i := ForeverMembers(front, service, e);
      assert calls[i] == front[i] && !Lost(calls, service, window, cutoff, i);
    }
    KeptAll(Kept(f, cutoff), c.now - window);
  }

  lemma CompleteStep(h: seq<Sample>, f: seq<Sample>, c1: int, cutoff: int, s: Sample)
    requires Kept(h, cutoff) == Kept(f, cutoff) && Kept(Kept(f, cutoff), c1) == Kept(f, cutoff)
    ensures Kept(Kept(h, c1) + [s], cutoff) == Kept(f + [s], cutoff)
  {
    KeptCommutes(h, c1, cutoff);
    KeptAppend(Kept(h, c1), s, cutoff);
    KeptAppend(f, s, cutoff);
  }

  /** Pruning is unobservable: as long as nothing is lost that the query asks for, the compacted
      history and the complete one agree from its cutoff on. */
  lemma {:induction false} HistoryIsComplete(calls: seq<Call>, window: int, service: ServiceId, cutoff: int)
    requires window > 0 && NothingLost(calls, service, window, cutoff)
    ensures Kept(Lookup(Run(calls, window), service), cutoff) == Kept(Forever(calls, service), cutoff)
  {
    if calls != [] {
      var front, c := calls[..|calls| - 1], calls[|calls| - 1];
      NothingLostInFront(calls, service, window, cutoff);
      HistoryIsComplete(front, window, service, cutoff);
      RunOfLast(calls, window, service);
      if c.service == service {
        LastPrunesNothing(calls, service, window, cutoff);
        CompleteStep(Lookup(Run(front, window), service), Forever(front, service), c.now - window, cutoff,
                     Sample(c.now, c.desired));
      }
    }
  }

  lemma RunOfLast(calls: seq<Call>, window: int, service: ServiceId)
    requires window > 0 && calls != []
    ensures var front, c := calls[..|calls| - 1], calls[|calls| - 1];
            var h := Lookup(Run(front, window), service);
            Lookup(Run(calls, window), service)
              == if c.service == service then Kept(h, c.now - window) + [Sample(c.now, c.desired)] else h
  {
  }

  lemma KeptAppend(h: seq<Sample>, s: Sample, cutoff: int)
    ensures Kept(h + [s], cutoff) == if s.at < cutoff then Kept(h, cutoff) else Kept(h, cutoff) + [s]
  {
    assert (h + [s])[..|h|] == h;
  }

  lemma {:induction false} MaxRecForever(calls: seq<Call>, service: ServiceId, cutoff: int, floor: Word)
    ensures MaxRec(Kept(Forever(calls, service), cutoff), floor) == WindowMax(calls, service, cutoff, floor)
  {
    if calls != [] {
      var front, c := calls[..|calls| - 1], calls[|calls| - 1];
      MaxRecForever(front, service, cutoff, floor);
      var s := Sample(c.now, c.desired);
      KeptAppend(Forever(front, service), s, cutoff);
      var h := Kept(Forever(front, service), cutoff);
      assert (h + [s])[..|h|] == h;
    }
  }

  lemma MaxRecAppend(h: seq<Sample>, s: Sample, floor: Word)
    ensures MaxRec(h + [s], floor) == if s.rec > MaxRec(h, floor) then s.rec else MaxRec(h, floor)
  {
    assert (h + [s])[..|h|] == h;
  }

  /** The documented answer, given the window maximum `m`. */
  function Held(c: Call, m: Word): Word {
    if c.desired >= c.current then c.desired else if m > c.current then c.current else m
  }

  lemma ResultHoldsMax(state: map<ServiceId, seq<Sample>>, window: int, c: Call, m: Word)
    requires window > 0 && MaxRec(Kept(Lookup(state, c.service), c.now - window), c.desired) == m
    ensures Result(state, window, c) == Held(c, m)
  {
    var kept := Kept(Lookup(state, c.service), c.now - window);
    MaxRecAppend(kept, Sample(c.now, c.desired), c.desired);
    MaxRecAtLeast(kept, c.desired);
  }

  lemma {:induction false} MaxRecAtLeast(h: seq<Sample>, floor: Word)
    ensures MaxRec(h, floor) >= floor
  {
    if h != [] { MaxRecAtLeast(h[..|h| - 1], floor); }
  }

  /** The stabilizer answers as if it had kept every recommendation: a shrink is held at the window
      maximum but never above the current count, anything else passes through. */
  predicate Refines(calls: seq<Call>, c: Call, window: int) {
    Result(Run(calls, window), window, c) == Held(c, WindowMax(calls, c.service, c.now - window, c.desired))
  }

  /** It does so over every run in which nothing is lost that the query asks for: in particular
      whenever no call of the service is later than the query. */
  lemma RecommendRefinesWindowMax(calls: seq<Call>, c: Call, window: int)
    requires window > 0 && NothingLost(calls, c.service, window, c.now - window)
    ensures Refines(calls, c, window)
  {
    var cutoff, state := c.now - window, Run(calls, window);
    HistoryIsComplete(calls, window, c.service, cutoff);
    MaxRecForever(calls, c.service, cutoff, c.desired);
    ResultHoldsMax(state, window, c, WindowMax(calls, c.service, cutoff, c.desired));
  }

  /** The largest of the call's recommendation and those made for its service in its window. */
  ghost predicate IsLargest(calls: seq<Call>, c: Call, window: int, m: Word) {
    && m >= c.desired
    && (forall i :: 0 <= i < |calls| && calls[i].service == c.service && calls[i].now >= c.now - window ==> calls[i].desired <= m)
    && (m == c.desired || exists i :: && 0 <= i < |calls| && calls[i].service == c.service
                                      && calls[i].now >= c.now - window && calls[i].desired == m)
  }

  /** The answer, outright: without a window, and unless the service is to shrink, the
      recommendation; otherwise the largest of the window, but not above the current count. */
  lemma RecommendMeans(calls: seq<Call>, c: Call, window: int) returns (m: Word)
    requires forall i :: 0 <= i < |calls| && calls[i].service == c.service ==> calls[i].now <= c.now
    ensures IsLargest(calls, c, window, m)
    ensures Result(Run(calls, window), window, c)
              == if window <= 0 || c.desired >= c.current then c.desired else if m < c.current then m else c.current
  {
    m := WindowMax(calls, c.service, c.now - window, c.desired);
    WindowMaxIsMax(calls, c.service, c.now - window, c.desired);
    if window > 0 {
      NothingLostWithoutLaterCalls(calls, c.service, window, c.now);
      RecommendRefinesWindowMax(calls, c, window);
    }
  }

  predicate SameTimes(a: seq<Call>, b: seq<Call>) {
    |a| == |b| && forall i :: 0 <= i < |a| ==> a[i].service == b[i].service && a[i].now == b[i].now
  }

  /** The same calls, with a recommendation of one by the i-th and of none by the others. */
  function Marked(calls: seq<Call>, i: nat): seq<Call> {
    seq(|calls|, k requires 0 <= k < |calls| => calls[k].(desired := if k == i then 1 else 0))
  }

  /** At most the mark is not zero, and only while it is alive. */
  predicate OnlyMark(h: seq<Sample>, at: int, alive: bool) {
    forall e :: e in h ==> e.rec == 0 || (alive && e.at == at)
  }

  lemma OnlyMarkNext(h: seq<Sample>, window: int, desired: Word, now: int, at: int, alive: bool, still: bool)
    requires window > 0 && OnlyMark(h, at, alive)
    requires desired == 0 || (still && now == at)
    requires alive ==> still || now - window > at
    ensures OnlyMark(Next(h, window, desired, now), at, still)
  {
    KeptMembers(h, now - window);
  }

  /** The history of one service after the first m calls. */
  function HistoryOf(calls: seq<Call>, service: ServiceId, window: int, m: nat): seq<Sample>
    requires m <= |calls|
  {
    if m == 0 then []
    else
      var h, c := HistoryOf(calls, service, window, m - 1), calls[m - 1];
      if c.service == service then Next(h, window, c.desired, c.now) else h
  }

  lemma {:induction false} HistoryOfFront(calls: seq<Call>, service: ServiceId, window: int, m: nat)
    requires m < |calls|
    ensures HistoryOf(calls, service, window, m) == HistoryOf(calls[..|calls| - 1], service, window, m)
  {
    if m > 0 { HistoryOfFront(calls, service, window, m - 1); }
  }

  lemma {:induction false} HistoryOfIsRun(calls: seq<Call>, service: ServiceId, window: int)
    requires window > 0
    ensures HistoryOf(calls, service, window, |calls|) == Lookup(Run(calls, window), service)
  {
    if calls != [] {
      HistoryOfIsRun(calls[..|calls| - 1], service, window);
      HistoryOfFront(calls, service, window, |calls| - 1);
    }
  }

  lemma {:induction false} MarkIsPruned(calls: seq<Call>, service: ServiceId, window: int, i: nat, j: nat, m: nat)
    requires window > 0 && i < j < |calls| && m <= |calls| && calls[i].service == service == calls[j].service
    requires calls[j].now - window > calls[i].now
    ensures OnlyMark(HistoryOf(Marked(calls, i), service, window, m), calls[i].now, m <= j)
  {
    if m > 0 {
      var k := m - 1;
      MarkIsPruned(calls, service, window, i, j, k);
      var c := Marked(calls, i)[k];
      if c.service == service {
        OnlyMarkNext(HistoryOf(Marked(calls, i), service, window, k), window, c.desired, c.now, calls[i].now, k <= j, m <= j);
      }
    }
  }

  lemma MaxOfZeros(h: seq<Sample>)
    requires forall e :: e in h ==> e.rec == 0
    ensures MaxRec(h, 0) == 0
  {
    if h != [] { MaxOfZeros(h[..|h| - 1]); }
  }

  lemma ZerosAnswerZero(state: map<ServiceId, seq<Sample>>, window: int, service: ServiceId, now: int, at: int)
    requires window > 0 && OnlyMark(Lookup(state, service), at, false)
    ensures Result(state, window, Call(service, 1, 0, now)) == 0
  {
    OnlyMarkNext(Lookup(state, service), window, 0, now, at, false, false);
    MaxOfZeros(Next(Lookup(state, service), window, 0, now));
  }

  lemma MarkIsMax(calls: seq<Call>, service: ServiceId, cutoff: int, i: nat)
    requires i < |calls| && Counts(calls[i], service, cutoff)
    ensures WindowMax(Marked(calls, i), service, cutoff, 0) == 1
  {
    var marked := Marked(calls, i);
    WindowMaxIsMax(marked, service, cutoff, 0);
    assert Counts(marked[i], service, cutoff) && marked[i].desired == 1;
  }

  lemma PrunedAnswersZero(calls: seq<Call>, service: ServiceId, window: int, now: int, i: nat, j: nat)
    requires window > 0 && i < j < |calls| && calls[i].service == service == calls[j].service
    requires calls[j].now - window > calls[i].now
    ensures Result(Run(Marked(calls, i), window), window, Call(service, 1, 0, now)) == 0
  {
    MarkIsPruned(calls, service, window, i, j, |calls|);
    HistoryOfIsRun(Marked(calls, i), service, window);
    ZerosAnswerZero(Run(Marked(calls, i), window), window, service, now, calls[i].now);
  }

  lemma PrunedIsMissed(calls: seq<Call>, service: ServiceId, window: int, now: int, i: nat, j: nat)
    requires window > 0 && i < j < |calls| && Counts(calls[i], service, now - window) && calls[j].service == service
    requires calls[j].now - window > calls[i].now
    ensures !Refines(Marked(calls, i), Call(service, 1, 0, now), window)
  {
    PrunedAnswersZero(calls, service, window, now, i, j);
    MarkIsMax(calls, service, now - window, i);
    assert Held(Call(service, 1, 0, now), 1) == 1;
  }

  lemma LostIsMissed(calls: seq<Call>, service: ServiceId, window: int, now: int, i: nat)
    requires window > 0 && Lost(calls, service, window, now - window, i)
    ensures !Refines(Marked(calls, i), Call(service, 1, 0, now), window)
  {
    var j :| i < j < |calls| && calls[j].service == service && calls[j].now - window > calls[i].now;
    PrunedIsMissed(calls, service, window, now, i, j);
  }

  /** For given services and times of the calls: every query at `now` for the service is answered as
      documented, whatever was recommended, exactly if no later call has pruned a sample that is in
      the query's window. */
  lemma RefinesIffNothingLost(calls: seq<Call>, service: ServiceId, now: int, window: int)
    requires window > 0
    ensures NothingLost(calls, service, window, now - window) <==>
              forall alt, c: Call :: SameTimes(alt, calls) && c.service == service && c.now == now ==> Refines(alt, c, window)
  {
    var cutoff := now - window;
    if NothingLost(calls, service, window, cutoff) {
      forall alt, c: Call | SameTimes(alt, calls) && c.service == service && c.now == now ensures Refines(alt, c, window) {
        forall i | 0 <= i < |alt| ensures !Lost(alt, service, window, cutoff, i) {
          assert !Lost(calls, service, window, cutoff, i);
        }
        RecommendRefinesWindowMax(alt, c, window);
      }
    } else {
      var i :| 0 <= i < |calls| && Lost(calls, service, window, cutoff, i);
      LostIsMissed(calls, service, window, now, i);
      assert SameTimes(Marked(calls, i), calls);
    }
  }

  /** A call for another service is invisible to this one. */
  lemma ServicesAreIndependent(state: map<ServiceId, seq<Sample>>, window: int, other: Call, c: Call)
    requires other.service != c.service
    ensures Result(After(state, window, other), window, c) == Result(state, window, c)
    ensures Lookup(After(After(state, window, other), window, c), other.service)
         == Lookup(After(state, window, other), other.service)
  {
  }
}
