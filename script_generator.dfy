/**
 * The script step of src/generators/script_generator.py
 * (`generate_motivation_script`): pick a topic, accumulate the streamed
 * model response, and pull the image prompts out of it line by line.
 * The language model is a parameter: it maps the chosen topic to the
 * sequence of streamed chunks, each carrying a text or none.
 */
module ScriptGenerator {
  import opened Wrappers
  import opened PyText
  import MediaUtils
  import TopicData
  import Sampling

  // ---------------------------------------------------------------------
  // Streaming: full_response += chunk.text for every chunk with a text

  /** What a chunk adds to the response: its text, or nothing when it has none. */
  function ChunkText(chunk: Option<string>): string
  {
    if chunk.Some? then chunk.value else ""
  }

  /** The chunk texts of a stream, concatenated in stream order. */
  function StreamText(chunks: seq<Option<string>>): string
  {
    if chunks == [] then ""
    else StreamText(chunks[..|chunks| - 1]) + ChunkText(chunks[|chunks| - 1])
  }

  /** Streaming two parts one after the other gives the texts of both, in order. */
  lemma {:induction false} StreamTextAppend(a: seq<Option<string>>, b: seq<Option<string>>)
    ensures StreamText(a + b) == StreamText(a) + StreamText(b)
    decreases |b|
  {
    if b == [] {
      assert a + b == a;
    } else {
      var b' := b[..|b| - 1];
      assert (a + b)[..|a + b| - 1] == a + b';
      StreamTextAppend(a, b');
    }
  }

  /** Chunks without text (or with an empty one) leave the response unchanged. */
  lemma {:induction false} StreamTextSkipsEmpty(a: seq<Option<string>>, b: seq<Option<string>>)
    ensures StreamText(a + [None] + b) == StreamText(a + b)
    ensures StreamText(a + [Some("")] + b) == StreamText(a + b)
  {
    StreamTextAppend(a + [None], b);
    StreamTextAppend(a + [Some("")], b);
    StreamTextAppend(a, b);
    assert (a + [None])[..|a|] == a;
    assert (a + [Some("")])[..|a|] == a;
  }

  /** The streaming loop: the response is the in-order concatenation of chunk texts. */
  method AccumulateResponse(chunks: seq<Option<string>>) returns (full: string)
    ensures full == StreamText(chunks)
  {
    full := "";
    for i := 0 to |chunks|
      invariant full == StreamText(chunks[..i])
    {
      assert chunks[..i + 1][..i] == chunks[..i];
      if chunks[i].Some? && chunks[i].value != "" {
        full := full + chunks[i].value;
      }
    }
    assert chunks[..|chunks|] == chunks;
  }

  // ---------------------------------------------------------------------
  // Prompt extraction

  /** One prompt: every marker occurrence removed from the line, then stripped. */
  function PromptOf(line: string): (r: string)
    ensures Stripped(r)
  {
    Strip(ReplaceAll(line, MediaUtils.Marker, ""))
  }

  /** The prompts of a list of lines, one per marker line, in line order. */
  function Prompts(lines: seq<string>): seq<string>
  {
    if lines == [] then []
    else
      var last := lines[|lines| - 1];
      Prompts(lines[..|lines| - 1]) + (if MediaUtils.IsMarkerLine(last) then [PromptOf(last)] else [])
  }

  /** The positions below `n` of marker lines, in increasing order. */
  ghost function MarkerPositions(lines: seq<string>, n: nat): (r: seq<nat>)
    requires n <= |lines|
    ensures forall k :: 0 <= k < |r| ==> r[k] < n && MediaUtils.IsMarkerLine(lines[r[k]])
    ensures forall k, m :: 0 <= k < m < |r| ==> r[k] < r[m]
    ensures forall i :: 0 <= i < n && MediaUtils.IsMarkerLine(lines[i]) ==> i in r
  {
    if n == 0 then []
    else MarkerPositions(lines, n - 1) + (if MediaUtils.IsMarkerLine(lines[n - 1]) then [n - 1] else [])
  }

  /**
   * Exactly one prompt per marker line, in line order: the k-th prompt
   * comes from the k-th marker line.
   */
  lemma {:induction false} PromptsByPosition(lines: seq<string>)
    ensures var pos := MarkerPositions(lines, |lines|);
      |Prompts(lines)| == |pos| &&
      forall k :: 0 <= k < |pos| ==> Prompts(lines)[k] == PromptOf(lines[pos[k]])
  {
    if lines != [] {
      var n := |lines|;
      var init := lines[..n - 1];
      PromptsByPosition(init);
      MarkersOfPrefix(lines, n - 1);
    }
  }

  /** Marker positions of a prefix are those of the whole list below its length. */
  lemma {:induction false} MarkersOfPrefix(lines: seq<string>, n: nat)
    requires n <= |lines|
    ensures MarkerPositions(lines[..n], n) == MarkerPositions(lines, n)
  {
    if n > 0 {
      MarkersOfPrefix(lines, n - 1);
      assert lines[..n][..n - 1] == lines[..n - 1];
      MarkersOfPrefixShort(lines[..n], lines, n - 1);
    }
  }

  /** Two lists agreeing below `n` have the same marker positions below `n`. */
  lemma {:induction false} MarkersOfPrefixShort(a: seq<string>, b: seq<string>, n: nat)
    requires n <= |a| && n <= |b| && a[..n] == b[..n]
    ensures MarkerPositions(a, n) == MarkerPositions(b, n)
  {
    if n > 0 {
      assert a[n - 1] == a[..n][n - 1];
      assert b[n - 1] == b[..n][n - 1];
      assert a[..n - 1] == a[..n][..n - 1];
      assert b[..n - 1] == b[..n][..n - 1];
      MarkersOfPrefixShort(a, b, n - 1);
    }
  }

  /** Every extracted prompt has no outer whitespace. */
  lemma {:induction false} PromptsStripped(lines: seq<string>)
    ensures forall k :: 0 <= k < |Prompts(lines)| ==> Stripped(Prompts(lines)[k])
  {
    if lines != [] {
      PromptsStripped(lines[..|lines| - 1]);
    }
  }

  /** Prompts of two consecutive runs of lines are the prompts of each, in order. */
  lemma {:induction false} PromptsAppend(a: seq<string>, b: seq<string>)
    ensures Prompts(a + b) == Prompts(a) + Prompts(b)
    decreases |b|
  {
    if b == [] {
      assert a + b == a;
    } else {
      var b' := b[..|b| - 1];
      assert (a + b)[..|a + b| - 1] == a + b';
      PromptsAppend(a, b');
    }
  }

  /**
   * An indented marker line yields the rest of the line, stripped, when the
   * rest holds no further marker.
   */
  lemma MarkerLinePrompt(w: string, rest: string)
    requires AllSpace(w) && !Contains(rest, MediaUtils.Marker)
    ensures MediaUtils.IsMarkerLine(w + MediaUtils.Marker + rest)
    ensures PromptOf(w + MediaUtils.Marker + rest) == Strip(rest)
  {
    var m := MediaUtils.Marker;
    var line := w + m + rest;
    assert line == w + (m + rest);
    forall i | 0 <= i < |w| ensures w[i] != m[0] {
      assert IsSpace(w[i]);
    }
    ReplaceSkipsPrefix(w, m + rest, m, "");
    assert OccursAt(m + rest, m, 0);
    assert (m + rest)[|m|..] == rest;
    ReplaceAbsent(rest, m, "");
    assert ReplaceAll(line, m, "") == w + rest;
    StripSpacePrefix(w, rest);
    StripSpacePrefix(w, m + rest);
    assert LStrip(m + rest) == m + rest by {
      assert !IsSpace((m + rest)[0]);
    }
    RStripKeepsPrefix(m, rest);
  }

  /** rstrip never cuts into a prefix that ends in a non-space character. */
  lemma {:induction false} RStripKeepsPrefix(p: string, x: string)
    requires p != [] && !IsSpace(p[|p| - 1])
    ensures StartsWith(RStrip(p + x), p)
    decreases |x|
  {
    if x == [] {
      assert p + x == p;
    } else if IsSpace(x[|x| - 1]) {
      assert (p + x)[..|p + x| - 1] == p + x[..|x| - 1];
      RStripKeepsPrefix(p, x[..|x| - 1]);
    }
  }

  /** Leading whitespace does not change what strip returns. */
  lemma {:induction false} StripSpacePrefix(w: string, x: string)
    requires AllSpace(w)
    ensures Strip(w + x) == Strip(x)
  {
    MediaUtils.LStripSpacePrefix(w, x);
  }

  /** A marker in another letter case does not make a prompt line. */
  lemma MarkerCaseSensitive(line: string)
    requires StartsWith(Strip(line), "image prompt:")
    ensures !MediaUtils.IsMarkerLine(line)
  {
    assert Strip(line)[0] == 'i';
  }

  /** The extraction loop over `response.split('\n')`. */
  method ExtractImagePrompts(response: string) returns (prompts: seq<string>)
    ensures prompts == Prompts(Split(response, '\n'))
  {
    var lines := Split(response, '\n');
    prompts := [];
    for i := 0 to |lines|
      invariant prompts == Prompts(lines[..i])
    {
      assert lines[..i + 1][..i] == lines[..i];
      if MediaUtils.IsMarkerLine(lines[i]) {
        prompts := prompts + [PromptOf(lines[i])];
      }
    }
    assert lines[..|lines|] == lines;
  }

  /** An empty response has no prompt. */
  lemma EmptyResponse()
    ensures StreamText([]) == "" && Prompts(Split("", '\n')) == []
  {
    assert Split("", '\n') == [""];
    assert Prompts([""]) == Prompts([]) + [];
  }

  /** Python truthiness of the optional topic argument. */
  predicate Falsy(topic: Option<string>)
  {
    topic.None? || topic.value == ""
  }

  /**
   * `generate_motivation_script(topic)`: a falsy topic is replaced by a
   * catalog member; the script is the streamed response for that topic and
   * the prompts are extracted from it.
   */
  method GenerateMotivationScript(topic: Option<string>, respond: string -> seq<Option<string>>)
    returns (chosen: string, script: string, prompts: seq<string>)
    ensures Falsy(topic) ==> chosen in TopicData.AllTopics()
    ensures !Falsy(topic) ==> chosen == topic.value
    ensures script == StreamText(respond(chosen))
    ensures prompts == Prompts(Split(script, '\n'))
  {
    if Falsy(topic) {
      var pick := Sampling.Choice(TopicData.AllTopics());
      chosen := pick.value;
    } else {
      chosen := topic.value;
    }
    script := AccumulateResponse(respond(chosen));
    prompts := ExtractImagePrompts(script);
  }
}
