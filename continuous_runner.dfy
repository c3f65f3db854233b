/**
 * continuous_runner.py: the delay setting, the random topic, and the
 * control flow of `run_continuous`. The pipeline stages are one oracle
 * that tells how a generation cycle ends; the Ctrl+C handler is modelled
 * by the number of times the exit flag is read before the signal arrives.
 */
module ContinuousRunner {
  import opened Wrappers
  import opened PyText
  import Sampling

  // ---------------------------------------------------------------------
  // Delay

  /** The delay used when the environment sets none or an invalid one. */
  const DefaultDelay: int := 120

  /** The smallest delay accepted. */
  const MinimumDelay: int := 60

  /**
   * `get_delay_between_videos()` given `VIDEO_GEN_DELAY_SECONDS`: unset or
   * empty gives the default; an integer is raised to at least 60; anything
   * `int()` rejects gives the default.
   */
  function DelayBetweenVideos(env: Option<string>): (delay: int)
    ensures delay >= MinimumDelay
  {
    if env.None? || env.value == "" then DefaultDelay
    else
      match ParseInt(env.value)
      case None => DefaultDelay
      case Some(v) => if v < MinimumDelay then MinimumDelay else v
  }

  /** An integer setting `v` gives `max(v, 60)`. */
  lemma DelayOfInteger(v: int)
    ensures DelayBetweenVideos(Some(IntStr(v))) == if v < MinimumDelay then MinimumDelay else v
  {
    IntStrRoundTrip(v);
    assert IntStr(v) != "" by {
      if v >= 0 { assert |Decimal(v)| > 0; }
    }
  }

  /** A value `int()` rejects gives the default. */
  lemma DelayOfInvalid(s: string)
    requires ParseInt(s).None?
    ensures DelayBetweenVideos(Some(s)) == DefaultDelay
  {
  }

  /**
   * The `--delay` option: a non-zero value is written to the environment
   * as `str(delay)`; zero is falsy and leaves the environment as it was.
   */
  function EnvironmentAfterOption(delayOption: Option<int>, env: Option<string>): (r: Option<string>)
    ensures delayOption.None? || delayOption.value == 0 ==> r == env
  {
    if delayOption.Some? && delayOption.value != 0 then Some(IntStr(delayOption.value)) else env
  }

  /** `--delay d` with `d != 0` makes the delay `max(d, 60)`; `--delay 0` changes nothing. */
  lemma DelayOption(d: int, env: Option<string>)
    ensures d != 0 ==> DelayBetweenVideos(EnvironmentAfterOption(Some(d), env))
                       == (if d < MinimumDelay then MinimumDelay else d)
    ensures d == 0 ==> DelayBetweenVideos(EnvironmentAfterOption(Some(d), env)) == DelayBetweenVideos(env)
  {
    if d != 0 {
      DelayOfInteger(d);
    }
  }

  // ---------------------------------------------------------------------
  // Topic

  /** The fixed word list of `generate_random_topic`. */
  const MotivationWords: seq<string> := [
    "perseverance", "success", "growth mindset", "overcoming obstacles",
    "self-discipline", "positive thinking", "goal setting", "resilience",
    "personal growth", "mindfulness", "confidence", "leadership",
    "courage", "inspiration", "passion", "productivity", "focus",
    "gratitude", "determination", "consistency", "ambition", "excellence"]

  /** `generate_random_topic()`: one of the 22 listed words. */
  method GenerateRandomTopic() returns (topic: string)
    ensures topic in MotivationWords
  {
    var pick := Sampling.Choice(MotivationWords);
    topic := pick.value;
  }

  // ---------------------------------------------------------------------
  // The loop

  /**
   * How one generation cycle ends: a stage (1 script, 2 images, 3 audio,
   * 4 video) returned a falsy result, an exception was raised, or the video
   * was completed.
   */
  datatype Cycle = StageFailed(stage: nat) | Raised | Completed

  /**
   * One pass of the loop: its `video_count`, its topic, how it ended, how
   * many seconds it waited, whether it stopped the loop, and the flag-read
   * counts at its loop-head read and once it was over.
   */
  datatype Iteration = Iteration(number: nat, topic: string, outcome: Cycle, waited: nat, stopped: bool,
                                 startRead: nat, endRead: nat)

  /** The smaller of two integers. */
  function Min(a: int, b: int): int
  {
    if a < b then a else b
  }

  /**
   * The end of a cycle whose first flag read is read number `first`: the
   * flag reads true exactly from read number `exitRead` on. Nothing is read
   * after a failed stage. After an exception the flag is read once, and the
   * whole delay is slept if it read false. After a completed video the flag
   * is read once and the loop stops if it read true; otherwise one second is
   * slept per false read, up to `delay`, and a true read ends the wait.
   * `after` is the read count at the end.
   */
  predicate CycleEnd(outcome: Cycle, delay: int, first: nat, exitRead: nat, waited: nat, stopNow: bool, after: nat)
  {
    match outcome
    case StageFailed(_) => waited == 0 && !stopNow && after == first
    case Raised => !stopNow && after == first + 1 && waited == (if first < exitRead then delay else 0)
    case Completed =>
      && stopNow == (first >= exitRead)
      && (stopNow ==> waited == 0 && after == first + 1)
      && (!stopNow ==>
            && waited == Min(delay, exitRead - first - 1)
            && after == first + 1 + waited + (if waited < delay then 1 else 0))
  }

  /** What each kind of ending does with the delay. */
  predicate WaitRule(outcome: Cycle, waited: nat, delay: int)
  {
    match outcome
    case StageFailed(_) => waited == 0
    case Raised => waited == 0 || waited == delay
    case Completed => waited <= delay
  }

  /** An iteration whose wait was cut short or skipped because exit was requested. */
  predicate ShortWait(outcome: Cycle, waited: nat, delay: int)
  {
    (outcome.Raised? && waited == 0) || (outcome.Completed? && waited < delay)
  }

  /**
   * Every cycle waits no more than the delay, and one whose wait was cut
   * short has already read the flag as set, so the next loop-head read
   * ends the loop.
   */
  lemma CycleEndWaits(outcome: Cycle, delay: int, first: nat, exitRead: nat, waited: nat, stopNow: bool, after: nat)
    requires delay > 0
    requires CycleEnd(outcome, delay, first, exitRead, waited, stopNow, after)
    ensures WaitRule(outcome, waited, delay)
    ensures ShortWait(outcome, waited, delay) ==> after > exitRead
    ensures stopNow ==> outcome.Completed? && after > exitRead
    ensures first <= after
  {
  }

  /**
   * Iteration `k` (from 0) of the loop: it is video number `k + 1`, its
   * topic is one of the words, its ending is the oracle's, its loop-head
   * read found the flag clear, and its end follows `CycleEnd` from the read
   * after that.
   */
  predicate Recorded(it: Iteration, k: nat, cycle: (nat, string) -> Cycle, delay: int, exitRead: nat)
  {
    && it.number == k + 1
    && it.topic in MotivationWords
    && it.outcome == cycle(k + 1, it.topic)
    && it.startRead < exitRead
    && CycleEnd(it.outcome, delay, it.startRead + 1, exitRead, it.waited, it.stopped, it.endRead)
  }

  /**
   * The end of one cycle (lines 154-171), reading the flag from read number
   * `flagReads` on.
   */
  method AfterCycle(outcome: Cycle, delay: nat, flagReads: nat, exitRead: nat)
    returns (waited: nat, stopNow: bool, after: nat)
    requires delay > 0
    ensures CycleEnd(outcome, delay, flagReads, exitRead, waited, stopNow, after)
  {
    waited := 0;
    stopNow := false;
    after := flagReads;
    match outcome {
      case StageFailed(_) =>
      case Raised =>
        var exitSeen := after >= exitRead;
        after := after + 1;
        if !exitSeen {
          waited := delay;
        }
      case Completed =>
        stopNow := after >= exitRead;
        after := after + 1;
        if !stopNow {
          while waited < delay
            invariant waited <= delay
            invariant after == flagReads + 1 + waited && after <= exitRead
            decreases delay - waited
          {
            var exitSeen := after >= exitRead;
            after := after + 1;
            if exitSeen {
              break;
            }
            waited := waited + 1;
          }
        }
    }
  }

  /**
   * A run so far: every iteration recorded as it happened, the first one
   * starting at the first flag read and each later one at the read where
   * the previous one ended.
   */
  predicate History(its: seq<Iteration>, cycle: (nat, string) -> Cycle, delay: int, exitRead: nat)
  {
    && (forall k :: 0 <= k < |its| ==> Recorded(its[k], k, cycle, delay, exitRead))
    && (its != [] ==> its[0].startRead == 0)
    && (forall k :: 0 <= k < |its| - 1 ==> its[k + 1].startRead == its[k].endRead)
  }

  /** A new iteration that starts where the last one ended extends the run. */
  lemma AppendIteration(its: seq<Iteration>, it: Iteration, cycle: (nat, string) -> Cycle, delay: int, exitRead: nat)
    requires History(its, cycle, delay, exitRead)
    requires Recorded(it, |its|, cycle, delay, exitRead)
    requires if its == [] then it.startRead == 0 else it.startRead == its[|its| - 1].endRead
    ensures History(its + [it], cycle, delay, exitRead)
  {
    var its' := its + [it];
    forall k | 0 <= k < |its'| ensures Recorded(its'[k], k, cycle, delay, exitRead) {
      if k < |its| {
        assert its'[k] == its[k];
      }
    }
    forall k | 0 <= k < |its'| - 1 ensures its'[k + 1].startRead == its'[k].endRead {
      assert its'[k] == its[k];
    }
  }

  /**
   * Each iteration takes at least one flag read, so iteration `k` starts at
   * read `k` or later; as every loop-head read found the flag clear, there
   * are at most `exitRead` iterations, and every one before the last waited
   * the whole delay or had a stage fail.
   */
  lemma {:induction false} HistoryBounds(its: seq<Iteration>, cycle: (nat, string) -> Cycle, delay: int, exitRead: nat)
    requires delay > 0 && History(its, cycle, delay, exitRead)
    ensures forall k :: 0 <= k < |its| ==> k <= its[k].startRead
    ensures |its| <= exitRead
    ensures forall k :: 0 <= k < |its| - 1 ==> !ShortWait(its[k].outcome, its[k].waited, delay)
  {
    if its != [] {
      var init := its[..|its| - 1];
      assert History(init, cycle, delay, exitRead) by {
        forall k | 0 <= k < |init| ensures Recorded(init[k], k, cycle, delay, exitRead) {
          assert init[k] == its[k];
        }
      }
      HistoryBounds(init, cycle, delay, exitRead);
      var n := |its| - 1;
      if n > 0 {
        var prev := its[n - 1];
        CycleEndWaits(prev.outcome, delay, prev.startRead + 1, exitRead, prev.waited, prev.stopped, prev.endRead);
        assert init[n - 1] == prev;
        assert n - 1 <= prev.startRead;
        assert its[n].startRead == prev.endRead;
      }
      forall k | 0 <= k < |its| ensures k <= its[k].startRead {
        if k < n {
          assert its[k] == init[k];
        }
      }
      forall k | 0 <= k < |its| - 1 ensures !ShortWait(its[k].outcome, its[k].waited, delay) {
        var it := its[k];
        CycleEndWaits(it.outcome, delay, it.startRead + 1, exitRead, it.waited, it.stopped, it.endRead);
        assert its[k + 1].startRead == it.endRead;
      }
    }
  }

  /**
   * How the loop ended: with no iteration, the first loop-head read found
   * the flag set; otherwise either the last video stopped the loop at its
   * own read, or the loop-head read after the last iteration found the
   * flag set.
   */
  predicate Finished(its: seq<Iteration>, flagReads: nat, exitRead: nat)
  {
    if its == [] then exitRead == 0 && flagReads == 1
    else
      var last := its[|its| - 1];
      if last.stopped then flagReads == last.endRead
      else last.endRead >= exitRead && flagReads == last.endRead + 1
  }

  /**
   * However the loop ended, the flag was last read as set, and at most
   * one read after the first read that found it set.
   */
  lemma FinishedReads(its: seq<Iteration>, flagReads: nat, cycle: (nat, string) -> Cycle, delay: int, exitRead: nat)
    requires delay > 0 && History(its, cycle, delay, exitRead) && Finished(its, flagReads, exitRead)
    ensures exitRead < flagReads <= exitRead + 2
  {
    if its != [] {
      var last := its[|its| - 1];
      assert Recorded(last, |its| - 1, cycle, delay, exitRead);
      CycleEndWaits(last.outcome, delay, last.startRead + 1, exitRead, last.waited, last.stopped, last.endRead);
    }
  }

  /**
   * `run_continuous()`: `apiKeyOk` is `verify_api_key()`; `cycle(n, topic)`
   * tells how cycle `n` ends; the exit flag reads false until it has been
   * read `exitRead` times, and true from then on. The flag is read at the
   * loop head, after a completed video, at every second of the wait after
   * it, and before the wait after an exception.
   */
  method RunContinuous(apiKeyOk: bool, env: Option<string>, cycle: (nat, string) -> Cycle, exitRead: nat)
    returns (videoCount: nat, iterations: seq<Iteration>, flagReads: nat)
    ensures !apiKeyOk ==> videoCount == 0 && iterations == [] && flagReads == 0
    ensures videoCount == |iterations|
    ensures apiKeyOk ==> History(iterations, cycle, DelayBetweenVideos(env), exitRead)
    ensures apiKeyOk ==> Finished(iterations, flagReads, exitRead)
    ensures apiKeyOk ==> exitRead < flagReads <= exitRead + 2
    ensures apiKeyOk && exitRead > 0 ==> iterations != []
    ensures |iterations| <= exitRead
    ensures forall k :: 0 <= k < |iterations| - 1 ==> !ShortWait(iterations[k].outcome, iterations[k].waited, DelayBetweenVideos(env))
  {
    videoCount := 0;
    iterations := [];
    flagReads := 0;
    if !apiKeyOk {
      return;
    }
    var delay: nat := DelayBetweenVideos(env);
    while true
      invariant videoCount == |iterations|
      invariant History(iterations, cycle, delay, exitRead)
      invariant iterations == [] ==> flagReads == 0
      invariant iterations != [] ==> flagReads == iterations[|iterations| - 1].endRead
                                     && !iterations[|iterations| - 1].stopped
      decreases exitRead - flagReads
    {
      // loop head: while not should_exit
      var start := flagReads;
      var exitSeen := flagReads >= exitRead;
      flagReads := flagReads + 1;
      if exitSeen {
        break;
      }
      videoCount := videoCount + 1;
      var topic := GenerateRandomTopic();
      var outcome := cycle(videoCount, topic);
      var waited, stopNow;
      waited, stopNow, flagReads := AfterCycle(outcome, delay, flagReads, exitRead);
      CycleEndWaits(outcome, delay, start + 1, exitRead, waited, stopNow, flagReads);
      var it := Iteration(videoCount, topic, outcome, waited, stopNow, start, flagReads);
      AppendIteration(iterations, it, cycle, delay, exitRead);
      iterations := iterations + [it];
      if stopNow {
        break;
      }
    }
    HistoryBounds(iterations, cycle, delay, exitRead);
    FinishedReads(iterations, flagReads, cycle, delay, exitRead);
  }
}
