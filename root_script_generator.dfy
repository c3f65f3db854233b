/**
 * The top-level script_generator.py: the same streaming and prompt
 * extraction as src/generators/script_generator.py, with its own copy of
 * the topic list (`SELF_IMPROVEMENT_TOPICS`, entry for entry the catalog
 * of src/utils/topic_data.py) and two small accessors over it.
 */
module RootScriptGenerator {
  import opened Wrappers
  import opened PyText
  import TopicData
  import Sampling
  import ScriptGenerator

  /** This file's `SELF_IMPROVEMENT_TOPICS`; its literal equals the catalog's. */
  const Topics: seq<string> := TopicData.Catalog

  /** `get_available_topics()`: the list itself, unchanged. */
  function GetAvailableTopics(): (r: seq<string>)
    ensures |r| == 215 && r == TopicData.AllTopics()
  {
    Topics
  }

  /**
   * `get_random_topics(n)`: min(n, len) entries from distinct positions of
   * the list; a negative `n` makes `random.sample` raise. Entries may still
   * repeat as strings, since the list itself repeats some.
   */
  method GetRandomTopics(n: int) returns (r: Result<seq<string>>, ghost positions: seq<nat>)
    ensures n < 0 <==> r.Failure?
    ensures r.Success? ==> |r.value| == (if n < |Topics| then n else |Topics|)
    ensures r.Success? ==> Sampling.DrawnFrom(r.value, positions, Topics)
  {
    r, positions := Sampling.Sample(Topics, if n < |Topics| then n else |Topics|);
  }

  /**
   * `generate_motivation_script(topic)`: a falsy topic is replaced by a
   * member of the list; the script is the streamed response and the prompts
   * are one per marker line of it.
   */
  method GenerateMotivationScript(topic: Option<string>, respond: string -> seq<Option<string>>)
    returns (chosen: string, script: string, prompts: seq<string>)
    ensures ScriptGenerator.Falsy(topic) ==> chosen in Topics
    ensures !ScriptGenerator.Falsy(topic) ==> chosen == topic.value
    ensures script == ScriptGenerator.StreamText(respond(chosen))
    ensures prompts == ScriptGenerator.Prompts(Split(script, '\n'))
  {
    if ScriptGenerator.Falsy(topic) {
      var pick := Sampling.Choice(Topics);
      chosen := pick.value;
    } else {
      chosen := topic.value;
    }
    script := ScriptGenerator.AccumulateResponse(respond(chosen));
    prompts := ScriptGenerator.ExtractImagePrompts(script);
  }

  /** An empty stream gives an empty script and no prompt. */
  lemma EmptyStream(topic: string, respond: string -> seq<Option<string>>)
    requires respond(topic) == []
    ensures ScriptGenerator.StreamText(respond(topic)) == ""
    ensures ScriptGenerator.Prompts(Split(ScriptGenerator.StreamText(respond(topic)), '\n')) == []
  {
    ScriptGenerator.EmptyResponse();
  }
}
