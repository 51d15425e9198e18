/** Which frames are processed. */
module Sampling {

  datatype Policy = All | Interval | Adaptive

  datatype SamplerState = SamplerState(
    policy: Policy,
    interval: int,
    current: int,
    lastActivity: int,
    processed: int,
    skipped: int)

  ghost predicate Running(s: SamplerState)
  {
    s.interval >= 1 && s.current >= 1
  }

  function Started(policy: Policy, interval: int): (s: SamplerState)
    ensures Running(s)
  {
    var i := if interval > 0 then interval else 1;
    SamplerState(policy, i, i, 0, 0, 0)
  }

  predicate Accepts(s: SamplerState, frame: int)
    requires s.interval != 0 && s.current != 0
  {
    match s.policy
    case All => true
    case Interval => frame % s.interval == 0
    case Adaptive => frame % s.current == 0
  }

  function Asked(s: SamplerState, frame: int): SamplerState
    requires s.interval != 0 && s.current != 0
  {
    if Accepts(s, frame) then s.(processed := s.processed + 1) else s.(skipped := s.skipped + 1)
  }

  /** Feedback after a frame that was processed to the end. */
  function Noted(s: SamplerState, count: int): SamplerState
  {
    if s.policy != Adaptive then s
    else
      var next :=
        if count > s.lastActivity + 2 then (if s.interval > 1 then s.interval / 2 else 1)
        else if count == 0 && s.lastActivity == 0 then (if s.interval * 2 < 30 then s.interval * 2 else 30)
        else s.interval;
      s.(current := if next < 1 then 1 else next, lastActivity := count)
  }

  class FrameSampler {
    var policy: Policy
    var interval: int
    var currentInterval: int
    var processed: int
    var skipped: int
    var lastActivity: int

    function State(): SamplerState
      reads this
    {
      SamplerState(policy, interval, currentInterval, lastActivity, processed, skipped)
    }

    constructor (policy: Policy, interval: int)
      ensures State() == Started(policy, interval) && Running(State())
    {
      this.policy := policy;
      this.interval := if interval > 0 then interval else 1;
      currentInterval := if interval > 0 then interval else 1;
      processed, skipped, lastActivity := 0, 0, 0;
    }

    method ShouldProcess(frame: int) returns (process: bool)
      requires Running(State())
      modifies this
      ensures Running(State())
      ensures process == Accepts(old(State()), frame) && State() == Asked(old(State()), frame)
    {
      process := false;
      match policy {
        case All => process := true;
        case Interval => process := frame % interval == 0;
        case Adaptive => process := frame % currentInterval == 0;
      }
      if process {
        processed := processed + 1;
      } else {
        skipped := skipped + 1;
      }
    }

    method NotifyActivity(count: int)
      requires Running(State())
      modifies this
      ensures State() == Noted(old(State()), count) && Running(State())
    {
      if policy != Adaptive {
        return;
      }
      if count > lastActivity + 2 {
        currentInterval := if interval > 1 then interval / 2 else 1;
      } else if count == 0 && lastActivity == 0 {
        var doubled := interval * 2;
        currentInterval := if doubled < 30 then doubled else 30;
      } else {
        currentInterval := interval;
      }
      currentInterval := if currentInterval < 1 then 1 else currentInterval;
      lastActivity := count;
    }

    method Reset()
      requires Running(State())
      modifies this
      ensures State() == Started(old(policy), old(interval))
    {
      processed, skipped, lastActivity := 0, 0, 0;
      currentInterval := interval;
    }
  }

  // ----- runs -----

  /** What becomes of a frame that was accepted: it fails, or it is processed to the end
      with some number of detections. */
  datatype Outcome = Failed | Done(count: int)

  function StepState(s: SamplerState, frame: int, outcome: Outcome): SamplerState
    requires s.interval != 0 && s.current != 0
  {
    var asked := Asked(s, frame);
    if Accepts(s, frame) && outcome.Done? then Noted(asked, outcome.count) else asked
  }

  ghost function After(s: SamplerState, outcomes: seq<Outcome>, n: nat): (r: SamplerState)
    requires Running(s) && n <= |outcomes|
    ensures Running(r) && r.policy == s.policy && r.interval == s.interval
  {
    if n == 0 then s else StepState(After(s, outcomes, n - 1), n - 1, outcomes[n - 1])
  }

  ghost predicate Accepted(s: SamplerState, outcomes: seq<Outcome>, f: nat)
    requires Running(s) && f < |outcomes|
  {
    Accepts(After(s, outcomes, f), f)
  }

  /** The longest stretch adaptive sampling may leave between accepted frames. */
  function GapBound(interval: int): int
  {
    var doubled := if interval * 2 < 30 then interval * 2 else 30;
    if interval >= doubled then interval else doubled
  }

  lemma {:induction false} CurrentBounded(s: SamplerState, outcomes: seq<Outcome>, n: nat)
    requires Running(s) && s.current <= GapBound(s.interval) && n <= |outcomes|
    ensures 1 <= After(s, outcomes, n).current <= GapBound(s.interval)
  {
    if n > 0 {
      CurrentBounded(s, outcomes, n - 1);
    }
  }

  /** While nothing is accepted the current interval stands still. */
  lemma {:induction false} QuietKeepsInterval(s: SamplerState, outcomes: seq<Outcome>, from: nat, n: nat)
    requires Running(s) && from <= n <= |outcomes|
    requires forall f :: from <= f < n ==> !Accepted(s, outcomes, f)
    ensures After(s, outcomes, n).current == After(s, outcomes, from).current
    decreases n
  {
    if from < n {
      QuietKeepsInterval(s, outcomes, from, n - 1);
      assert !Accepted(s, outcomes, n - 1);
    }
  }

  lemma NextMultiple(f: nat, c: nat) returns (m: nat)
    requires c > 0
    ensures f <= m < f + c && m % c == 0
  {
    var q := f / c;
    assert f == q * c + f % c;
    if f % c == 0 {
      m := f;
    } else {
      m := (q + 1) * c;
      assert m == q * c + c;
      MultipleMod(q + 1, c);
    }
  }

  lemma MultipleMod(q: int, c: int)
    requires c > 0
    ensures q * c % c == 0
  {
    var n := q * c;
    assert n == (n / c) * c + n % c;
    var e := q - n / c;
    assert e * c == n % c;
    assert e >= 1 ==> e * c >= c;
    assert e <= -1 ==> e * c <= -c;
  }

  /** Every run accepts its first frame, however short it is and whatever the policy. */
  lemma FirstFrameAccepted(policy: Policy, interval: int, outcomes: seq<Outcome>)
    requires outcomes != []
    ensures Accepted(Started(policy, interval), outcomes, 0)
  {
  }

  lemma MultipleIff(f: nat, i: int)
    requires i > 0
    ensures f % i == 0 <==> exists k :: f == k * i
  {
    assert f == (f / i) * i + f % i;
    if exists k :: f == k * i {
      var k :| f == k * i;
      MultipleMod(k, i);
    }
  }

  /** Sampling by interval accepts exactly the multiples of the interval, and sampling of
      all frames accepts them all; neither looks at what is detected. */
  lemma FixedPolicies(interval: int, outcomes: seq<Outcome>, f: nat)
    requires f < |outcomes|
    ensures var i := if interval > 0 then interval else 1;
      Accepted(Started(Interval, interval), outcomes, f) <==> exists k :: f == k * i
    ensures Accepted(Started(All, interval), outcomes, f)
  {
    var i := if interval > 0 then interval else 1;
    MultipleIff(f, i);
  }

  /** What the adaptive sampler makes of a frame: a burst halves its interval, two frames in
      a row without a detection double it up to 30, anything else resets it. Doubling up to
      30 lengthens the gap only while the configured interval is below 30, and shortens it
      when it is above. */
  lemma ActivityAdapts(s: SamplerState, count: int)
    requires Running(s) && s.policy == Adaptive
    ensures var r := Noted(s, count);
      && r == s.(current := r.current, lastActivity := count)
      && (count > s.lastActivity + 2 ==>
            1 <= r.current <= s.interval && (s.interval > 1 ==> s.interval - 1 <= 2 * r.current <= s.interval))
      && (count == s.lastActivity == 0 ==>
            && r.current <= 30 && r.current <= 2 * s.interval && (r.current == 30 || r.current == 2 * s.interval)
            && (r.current > s.interval <==> s.interval < 30) && (r.current < s.interval <==> s.interval > 30))
      && (count <= s.lastActivity + 2 && (count != 0 || s.lastActivity != 0) ==> r.current == s.interval)
  {
  }

  lemma {:induction false} FailuresTellNothing(policy: Policy, interval: int, outcomes: seq<Outcome>, n: nat)
    requires n <= |outcomes| && forall k :: 0 <= k < n ==> outcomes[k] == Failed
    ensures var s, r := Started(policy, interval), After(Started(policy, interval), outcomes, n);
      r.current == s.current && r.lastActivity == s.lastActivity
  {
    if n > 0 {
      FailuresTellNothing(policy, interval, outcomes, n - 1);
    }
  }

  /** Until a frame is processed to the end, the adaptive sampler too accepts exactly the
      multiples of its interval; an empty frame before any other counts as the second in a
      row. */
  lemma {:induction false} AdaptiveStart(interval: int, outcomes: seq<Outcome>, f: nat)
    requires f < |outcomes| && forall k :: 0 <= k < f ==> outcomes[k] == Failed
    ensures var i, s := if interval > 0 then interval else 1, Started(Adaptive, interval);
      && (Accepted(s, outcomes, f) <==> exists k :: f == k * i)
      && (Accepted(s, outcomes, f) && outcomes[f] == Done(0) ==>
            After(s, outcomes, f + 1).current == if 2 * i < 30 then 2 * i else 30)
  {
    FailuresTellNothing(Adaptive, interval, outcomes, f);
    var i := if interval > 0 then interval else 1;
    MultipleIff(f, i);
  }

  /** In adaptive mode every stretch of GapBound frames holds an accepted one, whatever
      the detection counts and whichever frames fail. */
  lemma AdaptiveGap(interval: int, outcomes: seq<Outcome>, f: nat) returns (g: nat)
    requires var b := GapBound(if interval > 0 then interval else 1); f + b <= |outcomes|
    ensures f <= g < f + GapBound(if interval > 0 then interval else 1)
    ensures g < |outcomes| && Accepted(Started(Adaptive, interval), outcomes, g)
  {
    var s := Started(Adaptive, interval);
    CurrentBounded(s, outcomes, f);
    var c := After(s, outcomes, f).current;
    var m := NextMultiple(f, c);
    if forall k :: f <= k < m ==> !Accepted(s, outcomes, k) {
      QuietKeepsInterval(s, outcomes, f, m);
      g := m;
    } else {
      g :| f <= g < m && Accepted(s, outcomes, g);
    }
  }

  /** Two accepted frames with none in between are at most GapBound apart. */
  lemma AcceptedFramesClose(interval: int, outcomes: seq<Outcome>, a: nat, b: nat)
    requires a < b < |outcomes|
    requires Accepted(Started(Adaptive, interval), outcomes, a) && Accepted(Started(Adaptive, interval), outcomes, b)
    requires forall k :: a < k < b ==> !Accepted(Started(Adaptive, interval), outcomes, k)
    ensures b - a <= GapBound(if interval > 0 then interval else 1)
  {
    var bound := GapBound(if interval > 0 then interval else 1);
    if b - a > bound {
      var g := AdaptiveGap(interval, outcomes, a + 1);
      assert false;
    }
  }
}
