/**
 * The interactive entry point main.py: the menu choice that decides the
 * topic, the file name of the saved script, and the loop that requests
 * one image per prompt. The typed input, the language model and the image
 * generator are parameters.
 */
module MainMenu {
  import opened Wrappers
  import opened PyText
  import TopicData
  import Sampling
  import ScriptGenerator

  // ---------------------------------------------------------------------
  // Menu choice

  /** What the menu input selects: the typed topic, a numbered suggestion, or any catalog topic. */
  datatype Pick = Typed(topic: string) | Suggestion(index: nat) | AnyTopic

  /**
   * The menu rule: `custom` in any letter case takes the typed topic; a
   * digit string selects `0` (any topic) or suggestion `k`; anything else,
   * and a selection that is empty, falls back to any topic.
   */
  function ResolveChoice(choice: string, customInput: string, suggestions: seq<string>): (p: Pick)
    ensures p.Suggestion? ==> p.index < |suggestions| && suggestions[p.index] != ""
    ensures p.Typed? ==> p.topic == customInput && p.topic != ""
  {
    if Lower(choice) == "custom" then
      (if customInput != "" then Typed(customInput) else AnyTopic)
    else if IsDigits(choice) then
      var k := DigitsValue(choice);
      if k == 0 then AnyTopic
      else if k <= |suggestions| && suggestions[k - 1] != "" then Suggestion(k - 1)
      else AnyTopic
    else AnyTopic
  }

  /** `custom` typed in any letter case selects the typed topic, when one is typed. */
  lemma CustomAnyCase(choice: string, customInput: string, suggestions: seq<string>)
    requires |choice| == 6 && forall i :: 0 <= i < 6 ==> LowerChar(choice[i]) == "custom"[i]
    ensures ResolveChoice(choice, customInput, suggestions)
            == (if customInput != "" then Typed(customInput) else AnyTopic)
  {
    assert Lower(choice) == "custom";
  }

  /** The printed number `k` of a suggestion selects that suggestion. */
  lemma NumberSelects(k: nat, customInput: string, suggestions: seq<string>)
    requires 1 <= k <= |suggestions| && suggestions[k - 1] != ""
    ensures ResolveChoice(Decimal(k), customInput, suggestions) == Suggestion(k - 1)
  {
    DecimalRoundTrip(k);
    assert Lower(Decimal(k))[0] != 'c';
  }

  /** A number outside the list of suggestions falls back to any topic. */
  lemma OutOfRangeFallsBack(k: nat, customInput: string, suggestions: seq<string>)
    requires k > |suggestions|
    ensures ResolveChoice(Decimal(k), customInput, suggestions) == AnyTopic
  {
    DecimalRoundTrip(k);
    assert Lower(Decimal(k))[0] != 'c';
  }

  /** `0`, written with any number of digits, asks for any topic. */
  lemma ZeroSelectsAny(choice: string, customInput: string, suggestions: seq<string>)
    requires IsDigits(choice) && DigitsValue(choice) == 0
    ensures ResolveChoice(choice, customInput, suggestions) == AnyTopic
  {
    assert Lower(choice)[0] == LowerChar(choice[0]);
    assert IsDigit(choice[0]);
  }

  /** Input that is neither `custom` nor a digit string falls back to any topic. */
  lemma OtherInputFallsBack(choice: string, customInput: string, suggestions: seq<string>)
    requires Lower(choice) != "custom" && !IsDigits(choice)
    ensures ResolveChoice(choice, customInput, suggestions) == AnyTopic
  {
  }

  /** A number with surrounding spaces is not a digit string: any topic. */
  lemma PaddedNumberFallsBack(digits: string, customInput: string, suggestions: seq<string>)
    ensures ResolveChoice(" " + digits, customInput, suggestions) == AnyTopic
  {
    assert Lower(" " + digits)[0] == ' ';
    assert !IsDigit((" " + digits)[0]);
  }

  /**
   * `topic` is what the pick names: the typed topic, the chosen suggestion,
   * or some member of the whole catalog (`random.choice(all_topics)`).
   */
  predicate TopicOfPick(p: Pick, topic: string, suggestions: seq<string>)
  {
    && (p.Typed? ==> topic == p.topic)
    && (p.Suggestion? ==> p.index < |suggestions| && topic == suggestions[p.index])
    && (p.AnyTopic? ==> topic in TopicData.AllTopics())
  }

  /** The topic the menu settles on. */
  method SelectTopic(choice: string, customInput: string, suggestions: seq<string>) returns (topic: string)
    ensures TopicOfPick(ResolveChoice(choice, customInput, suggestions), topic, suggestions)
    ensures topic != ""
  {
    var p := ResolveChoice(choice, customInput, suggestions);
    match p {
      case Typed(t) =>
        topic := t;
      case Suggestion(i) =>
        topic := suggestions[i];
      case AnyTopic =>
        var pick := Sampling.Choice(TopicData.AllTopics());
        topic := pick.value;
        TopicsNonEmpty(topic);
    }
  }

  /** No catalog topic is empty. */
  lemma TopicsNonEmpty(topic: string)
    requires topic in TopicData.AllTopics()
    ensures topic != ""
  {
    var all := TopicData.AllTopics();
    var i :| 0 <= i < |all| && all[i] == topic;
    TopicData.CatalogNonEmptyEntries(i);
  }

  // ---------------------------------------------------------------------
  // Names and the image loop

  /** `motivation_script_<ts>.md` under the scripts directory. */
  function ScriptFile(scriptsDir: string, timestamp: string): (r: string)
    ensures EndsWith(r, "motivation_script_" + timestamp + ".md")
  {
    PathJoin(scriptsDir, "motivation_script_" + timestamp + ".md")
  }

  /** `motivation_<ts>_<i>`: the name requested for prompt `i` (counted from 1). */
  function ImageName(timestamp: string, i: nat): (r: string)
    ensures StartsWith(r, "motivation_" + timestamp + "_")
  {
    "motivation_" + timestamp + "_" + Decimal(i)
  }

  /** Prompts at different positions get different names. */
  lemma ImageNamesDistinct(timestamp: string, i: nat, j: nat)
    requires i != j
    ensures ImageName(timestamp, i) != ImageName(timestamp, j)
  {
    var p := "motivation_" + timestamp + "_";
    if ImageName(timestamp, i) == ImageName(timestamp, j) {
      assert Decimal(i) == ImageName(timestamp, i)[|p|..];
      assert Decimal(j) == ImageName(timestamp, j)[|p|..];
      DecimalRoundTrip(i);
      DecimalRoundTrip(j);
    }
  }

  /** One image request: the prompt and the name it is saved under. */
  datatype Request = Request(prompt: string, name: string)

  /** The saved files of every request, concatenated in request order. */
  function Collected(requests: seq<Request>, generate: (string, string) -> seq<string>): seq<string>
  {
    if requests == [] then []
    else
      var last := requests[|requests| - 1];
      Collected(requests[..|requests| - 1], generate) + generate(last.prompt, last.name)
  }

  /** A request whose generation fails (returns nothing) contributes nothing. */
  lemma {:induction false} FailedContributesNothing(a: seq<Request>, q: Request, b: seq<Request>,
                                                    generate: (string, string) -> seq<string>)
    requires generate(q.prompt, q.name) == []
    ensures Collected(a + [q] + b, generate) == Collected(a + b, generate)
    decreases |b|
  {
    if b == [] {
      assert (a + [q] + b)[..|a|] == a;
      assert a + b == a;
    } else {
      var b' := b[..|b| - 1];
      assert (a + [q] + b)[..|a + [q] + b| - 1] == a + [q] + b';
      assert (a + b)[..|a + b| - 1] == a + b';
      FailedContributesNothing(a, q, b', generate);
    }
  }

  /**
   * The per-prompt loop: prompt `i` (from 1) is requested as
   * `motivation_<ts>_<i>`, the returned files are appended in order, and a
   * pause separates consecutive requests.
   */
  method GenerateImages(prompts: seq<string>, timestamp: string, generate: (string, string) -> seq<string>)
    returns (images: seq<string>, requests: seq<Request>, pauses: nat)
    ensures |requests| == |prompts|
    ensures forall i :: 0 <= i < |prompts| ==> requests[i] == Request(prompts[i], ImageName(timestamp, i + 1))
    ensures images == Collected(requests, generate)
    ensures pauses == if prompts == [] then 0 else |prompts| - 1
  {
    images := [];
    requests := [];
    pauses := 0;
    for i := 1 to |prompts| + 1
      invariant |requests| == i - 1
      invariant forall k :: 0 <= k < i - 1 ==> requests[k] == Request(prompts[k], ImageName(timestamp, k + 1))
      invariant images == Collected(requests, generate)
      invariant pauses == if i - 1 == |prompts| && prompts != [] then i - 2 else i - 1
    {
      var request := Request(prompts[i - 1], ImageName(timestamp, i));
      var files := generate(request.prompt, request.name);
      assert (requests + [request])[..|requests|] == requests;
      requests := requests + [request];
      if files != [] {
        images := images + files;
      }
      if i < |prompts| {
        pauses := pauses + 1;
      }
    }
  }

  /**
   * `main`: the menu settles the topic, the script is generated for it and
   * saved under the timestamped name, and one image is requested per
   * extracted prompt with names sharing that timestamp.
   */
  method GenerateContent(choice: string, customInput: string, suggestions: seq<string>,
                         respond: string -> seq<Option<string>>, scriptsDir: string, timestamp: string,
                         generate: (string, string) -> seq<string>)
    returns (topic: string, scriptFile: string, script: string, images: seq<string>, requests: seq<Request>)
    ensures TopicOfPick(ResolveChoice(choice, customInput, suggestions), topic, suggestions)
    ensures topic != ""
    ensures script == ScriptGenerator.StreamText(respond(topic))
    ensures scriptFile == ScriptFile(scriptsDir, timestamp)
    ensures var prompts := ScriptGenerator.Prompts(Split(script, '\n'));
      && |requests| == |prompts|
      && (forall i :: 0 <= i < |prompts| ==> requests[i] == Request(prompts[i], ImageName(timestamp, i + 1)))
    ensures images == Collected(requests, generate)
  {
    topic := SelectTopic(choice, customInput, suggestions);
    var chosen, prompts;
    chosen, script, prompts := ScriptGenerator.GenerateMotivationScript(Some(topic), respond);
    scriptFile := ScriptFile(scriptsDir, timestamp);
    var pauses;
    images, requests, pauses := GenerateImages(prompts, timestamp, generate);
  }
}
