/**
 * The narration step of src/generators/audio_generator.py
 * (`generate_audio`): pick the voice, clean the script once, and ask the
 * speech engine for it up to `max_retries` times. The engine is a
 * parameter: given the attempt number, the text and the voice, it either
 * raises or yields a sequence of segments, each carrying its samples.
 */
module AudioGenerator {
  import opened Wrappers
  import opened PyText
  import MediaUtils

  // ---------------------------------------------------------------------
  // Voices

  /** VOICE_OPTIONS, group by group: American English, British English, Custom. */
  const AmericanVoices: seq<string> := ["af", "af_bella", "af_sarah", "am_adam", "am_michael"]
  const BritishVoices: seq<string> := ["bf_emma", "bf_isabella", "bm_george", "bm_lewis"]
  const CustomVoices: seq<string> := ["af_nicole", "af_sky", "af_heart"]

  /** Every voice name the engine is offered, flattened over the groups. */
  const Voices: seq<string> := AmericanVoices + BritishVoices + CustomVoices

  /** DEFAULT_VOICES: the voice preferred for each kind of content. */
  const DefaultVoices: map<string, string> := map[
    "motivation" := "af_bella",
    "storytelling" := "af_heart",
    "instruction" := "am_michael",
    "default" := "af_bella"]

  /** The voice actually used: the requested one when it is offered, else the motivation default. */
  function ResolveVoice(requested: Option<string>): (r: string)
    ensures r in Voices
    ensures requested.Some? && requested.value in Voices ==> r == requested.value
    ensures r != DefaultVoices["motivation"] ==> requested == Some(r)
  {
    if requested.None? || requested.value == "" || requested.value !in Voices
    then DefaultVoices["motivation"]
    else requested.value
  }

  /** Resolving an already resolved voice changes nothing. */
  lemma ResolveVoiceIdempotent(requested: Option<string>)
    ensures ResolveVoice(Some(ResolveVoice(requested))) == ResolveVoice(requested)
  {
  }

  /** Every default voice is one of the offered voices. */
  lemma DefaultVoicesOffered()
    ensures forall kind :: kind in DefaultVoices ==> DefaultVoices[kind] in Voices
  {
    assert Voices[1] == "af_bella" && Voices[11] == "af_heart" && Voices[4] == "am_michael";
  }

  // ---------------------------------------------------------------------
  // The engine

  /** One yielded segment: graphemes, phonemes (`ps`) and its samples. */
  datatype Segment = Segment(graphemes: string, phonemes: string, samples: seq<real>)

  /** What one attempt of the engine does: raise, or yield segments. */
  datatype Attempt = Raised(message: string) | Yielded(segments: seq<Segment>)

  /** An attempt that ends the retry loop: it yielded at least one segment. */
  predicate Succeeds(a: Attempt)
  {
    a.Yielded? && a.segments != []
  }

  /** `np.concatenate` of the segment samples, in yield order. */
  function Combined(segments: seq<Segment>): (r: seq<real>)
  {
    if segments == [] then []
    else Combined(segments[..|segments| - 1]) + segments[|segments| - 1].samples
  }

  /** Concatenating two runs of segments concatenates their samples. */
  lemma {:induction false} CombinedAppend(a: seq<Segment>, b: seq<Segment>)
    ensures Combined(a + b) == Combined(a) + Combined(b)
    decreases |b|
  {
    if b == [] {
      assert a + b == a;
    } else {
      var b' := b[..|b| - 1];
      assert (a + b)[..|a + b| - 1] == a + b';
      CombinedAppend(a, b');
    }
  }

  /** The sample rate of the written file. */
  const SampleRate: nat := 24000

  /** The returned dictionary: path of the written file, its samples and rate. */
  datatype AudioInfo = AudioInfo(path: string, samples: seq<real>, rate: nat)

  /**
   * The retry loop as a function: attempts `attempt + 1 .. maxRetries`, the
   * first one that yields segments giving the combined samples.
   */
  function Retry(engine: (nat, string, string) -> Attempt, text: string, voice: string,
                 attempt: nat, maxRetries: int): Option<seq<real>>
    decreases maxRetries - attempt
  {
    if attempt >= maxRetries then None
    else
      var outcome := engine(attempt + 1, text, voice);
      if Succeeds(outcome) then Some(Combined(outcome.segments))
      else Retry(engine, text, voice, attempt + 1, maxRetries)
  }

  /** When no attempt up to `maxRetries` succeeds there is no audio, and conversely. */
  lemma {:induction false} RetryNone(engine: (nat, string, string) -> Attempt, text: string, voice: string,
                                      attempt: nat, maxRetries: int)
    ensures Retry(engine, text, voice, attempt, maxRetries).None?
      <==> forall j: nat :: attempt < j <= maxRetries ==> !Succeeds(engine(j, text, voice))
    decreases maxRetries - attempt
  {
    if attempt < maxRetries {
      RetryNone(engine, text, voice, attempt + 1, maxRetries);
    }
  }

  /** The audio comes from the first attempt that succeeds. */
  lemma {:induction false} RetryFirst(engine: (nat, string, string) -> Attempt, text: string, voice: string,
                                       attempt: nat, maxRetries: int, k: nat)
    requires attempt < k <= maxRetries && Succeeds(engine(k, text, voice))
    requires forall j: nat :: attempt < j < k ==> !Succeeds(engine(j, text, voice))
    ensures Retry(engine, text, voice, attempt, maxRetries) == Some(Combined(engine(k, text, voice).segments))
    decreases k - attempt
  {
    if attempt + 1 < k {
      RetryFirst(engine, text, voice, attempt + 1, maxRetries, k);
    }
  }

  /** Allowing one more retry never loses audio that was already obtained. */
  lemma {:induction false} RetryMoreAttempts(engine: (nat, string, string) -> Attempt, text: string, voice: string,
                                              attempt: nat, maxRetries: int)
    requires Retry(engine, text, voice, attempt, maxRetries).Some?
    ensures Retry(engine, text, voice, attempt, maxRetries + 1) == Retry(engine, text, voice, attempt, maxRetries)
    decreases maxRetries - attempt
  {
    if !Succeeds(engine(attempt + 1, text, voice)) {
      RetryMoreAttempts(engine, text, voice, attempt + 1, maxRetries);
    }
  }

  /** With no retries allowed nothing is generated. */
  lemma NoRetries(engine: (nat, string, string) -> Attempt, text: string, voice: string, maxRetries: int)
    requires maxRetries <= 0
    ensures Retry(engine, text, voice, 0, maxRetries) == None
  {
  }

  /** None of the attempts `1 .. n` yields segments. */
  predicate NoneSucceedUpTo(engine: (nat, string, string) -> Attempt, text: string, voice: string, n: nat)
  {
    forall j: nat :: 1 <= j <= n ==> !Succeeds(engine(j, text, voice))
  }

  /** A failed attempt `n + 1` extends the run of failures and leaves the outcome to the later ones. */
  lemma FailedAttempt(engine: (nat, string, string) -> Attempt, text: string, voice: string, n: nat, maxRetries: int)
    requires n < maxRetries
    requires NoneSucceedUpTo(engine, text, voice, n) && !Succeeds(engine(n + 1, text, voice))
    ensures NoneSucceedUpTo(engine, text, voice, n + 1)
    ensures Retry(engine, text, voice, n + 1, maxRetries) == Retry(engine, text, voice, n, maxRetries)
  {
  }

  /** A successful attempt `n + 1` decides the outcome. */
  lemma SucceededAttempt(engine: (nat, string, string) -> Attempt, text: string, voice: string, n: nat, maxRetries: int)
    requires n < maxRetries && Succeeds(engine(n + 1, text, voice))
    ensures Retry(engine, text, voice, n, maxRetries) == Some(Combined(engine(n + 1, text, voice).segments))
  {
  }

  /** The number of attempts the loop may make. */
  function AttemptBudget(maxRetries: int): nat
  {
    if maxRetries > 0 then maxRetries else 0
  }

  /**
   * The inner loop of one attempt: every yielded segment is counted and its
   * samples appended, in yield order.
   */
  method CollectSegments(segments: seq<Segment>) returns (collected: seq<real>, count: nat)
    ensures collected == Combined(segments)
    ensures count == |segments|
  {
    collected, count := [], 0;
    for i := 0 to |segments|
      invariant collected == Combined(segments[..i])
      invariant count == i
    {
      assert segments[..i + 1][..i] == segments[..i];
      count := count + 1;
      collected := collected + segments[i].samples;
    }
    assert segments[..|segments|] == segments;
  }

  /**
   * `generate_audio`: the engine is called with the cleaned script and the
   * resolved voice, at most `max_retries` times; the first attempt that
   * yields segments is written to `<audioDir>/<audioName>.wav` at 24 kHz and
   * returned; when every attempt raises or yields nothing the result is none.
   */
  method GenerateAudio(script: string, audioDir: string, audioName: string, voiceType: Option<string>,
                       maxRetries: int, engine: (nat, string, string) -> Attempt)
    returns (r: Option<AudioInfo>, attempts: nat)
    ensures attempts <= AttemptBudget(maxRetries)
    ensures var found := Retry(engine, MediaUtils.CleanStory(script), ResolveVoice(voiceType), 0, maxRetries);
      && (r.None? <==> found.None?)
      && (r.Some? ==> r.value == AudioInfo(PathJoin(audioDir, audioName + ".wav"), found.value, SampleRate))
    ensures r.Some? ==> attempts >= 1 && Succeeds(engine(attempts, MediaUtils.CleanStory(script), ResolveVoice(voiceType)))
    ensures r.Some? ==> NoneSucceedUpTo(engine, MediaUtils.CleanStory(script), ResolveVoice(voiceType), attempts - 1)
    ensures r.None? ==> attempts == AttemptBudget(maxRetries)
    ensures r.None? ==> NoneSucceedUpTo(engine, MediaUtils.CleanStory(script), ResolveVoice(voiceType), attempts)
  {
    var voice := ResolveVoice(voiceType);
    var text := MediaUtils.CollectCompleteStory(script);
    r, attempts := Attempts(text, voice, PathJoin(audioDir, audioName + ".wav"), maxRetries, engine);
  }

  /**
   * The `while` loop of `generate_audio` for a fixed text, voice and output
   * path: attempt `k` calls the engine; an exception on the last attempt,
   * or running out of attempts, gives none; the first attempt with segments
   * returns their combined samples.
   */
  method Attempts(text: string, voice: string, path: string, maxRetries: int,
                  engine: (nat, string, string) -> Attempt)
    returns (r: Option<AudioInfo>, attempts: nat)
    ensures attempts <= AttemptBudget(maxRetries)
    ensures var found := Retry(engine, text, voice, 0, maxRetries);
      && (r.None? <==> found.None?)
      && (r.Some? ==> r.value == AudioInfo(path, found.value, SampleRate))
    ensures r.Some? ==> attempts >= 1 && Succeeds(engine(attempts, text, voice))
    ensures r.Some? ==> NoneSucceedUpTo(engine, text, voice, attempts - 1)
    ensures r.None? ==> attempts == AttemptBudget(maxRetries)
    ensures r.None? ==> NoneSucceedUpTo(engine, text, voice, attempts)
  {
    ghost var found := Retry(engine, text, voice, 0, maxRetries);
    attempts := 0;
    while attempts < maxRetries
      invariant attempts <= AttemptBudget(maxRetries)
      invariant Retry(engine, text, voice, attempts, maxRetries) == found
      invariant NoneSucceedUpTo(engine, text, voice, attempts)
      decreases maxRetries - attempts
    {
      attempts := attempts + 1;
      var outcome := engine(attempts, text, voice);
      match outcome {
        case Raised(_) =>
          FailedAttempt(engine, text, voice, attempts - 1, maxRetries);
          if attempts >= maxRetries {
            r := None;
            return;
          }
        case Yielded(segments) =>
          var collected, count := CollectSegments(segments);
          if count > 0 {
            SucceededAttempt(engine, text, voice, attempts - 1, maxRetries);
            r := Some(AudioInfo(path, collected, SampleRate));
            return;
          }
          FailedAttempt(engine, text, voice, attempts - 1, maxRetries);
      }
    }
    r := None;
  }
}
