/**
 * The narration cleaner of src/utils/media_utils.py: `collect_complete_story`
 * drops image-prompt lines (and what follows them up to a blank line),
 * rewrites headings, then runs fixed rewriting passes over the joined text.
 */
module MediaUtils {
  import opened Wrappers
  import opened PyText

  const Marker := "IMAGE PROMPT:"

  predicate IsMarkerLine(line: string) { StartsWith(Strip(line), Marker) }

  predicate IsBlank(line: string) { Strip(line) == [] }

  predicate IsHeading(line: string) { StartsWith(Strip(line), "#") }

  // ---------------------------------------------------------------------
  // Headings: re.sub(r'^#+\s+', '', line).strip()

  /** The number of `#` characters at the very start of `line`. */
  function HashRun(line: string): (k: nat)
    ensures k <= |line|
    ensures forall i :: 0 <= i < k ==> line[i] == '#'
    ensures k < |line| ==> line[k] != '#'
  {
    if line != [] && line[0] == '#' then 1 + HashRun(line[1..]) else 0
  }

  /**
   * A heading line without its markers: a run of `#` at the very start
   * followed by whitespace is removed; the rest is stripped.
   */
  function HeadingText(line: string): (r: string)
    ensures Stripped(r) && |r| <= |line|
  {
    var k := HashRun(line);
    if 0 < k < |line| && IsSpace(line[k]) then Strip(line[k..]) else Strip(line)
  }

  /** lstrip ignores a whitespace prefix. */
  lemma {:induction false} LStripSpacePrefix(w: string, x: string)
    requires AllSpace(w)
    ensures LStrip(w + x) == LStrip(x)
  {
    if w != [] {
      assert (w + x)[1..] == w[1..] + x;
      LStripSpacePrefix(w[1..], x);
    } else {
      assert w + x == x;
    }
  }

  /**
   * `## X` (markers at the very start, then whitespace) becomes `X`
   * stripped; an indented heading, or markers without whitespace after
   * them, are only stripped.
   */
  lemma HeadingCases(k: nat, w: string, x: string, line: string)
    requires k > 0 && w != [] && AllSpace(w) && (x != [] ==> !IsSpace(x[0]))
    requires line != [] && (IsSpace(line[0]) || line[HashRun(line)..] == [] || !IsSpace(line[HashRun(line)]))
    ensures HeadingText(Repeat('#', k) + w + x) == Strip(x)
    ensures HeadingText(line) == Strip(line)
  {
    var h := Repeat('#', k) + w + x;
    HashRunOf(k, w + x);
    assert h == Repeat('#', k) + (w + x);
    assert h[k..] == w + x;
    LStripSpacePrefix(w, x);
  }

  lemma {:induction false} HashRunOf(k: nat, rest: string)
    requires rest == [] || rest[0] != '#'
    ensures HashRun(Repeat('#', k) + rest) == k
  {
    if k > 0 {
      assert (Repeat('#', k) + rest)[1..] == Repeat('#', k - 1) + rest;
      HashRunOf(k - 1, rest);
    } else {
      assert Repeat('#', k) + rest == rest;
    }
  }

  /** What the loop emits for a line it keeps. */
  function Render(line: string): string
  {
    if IsHeading(line) then HeadingText(line) else line
  }

  // ---------------------------------------------------------------------
  // The line pass, declaratively

  /**
   * Line `i` comes after a marker line with no blank line in between:
   * the `skip_line` flag is set when line `i` is reached.
   */
  ghost predicate SkipBefore(lines: seq<string>, i: nat)
    requires i <= |lines|
  {
    exists j :: 0 <= j < i && IsMarkerLine(lines[j]) && NoBlankBetween(lines, j, i)
  }

  ghost predicate NoBlankBetween(lines: seq<string>, j: nat, i: nat)
    requires j < i <= |lines|
  {
    forall k :: j < k < i ==> !IsBlank(lines[k])
  }

  /** Line `i` survives: it is no marker and no marker's skip region holds it. */
  ghost predicate Kept(lines: seq<string>, i: nat)
    requires i < |lines|
  {
    !IsMarkerLine(lines[i]) && !SkipBefore(lines, i)
  }

  /** The rendered kept lines among the first `n`, in input order. */
  ghost function KeptLines(lines: seq<string>, n: nat): seq<string>
    requires n <= |lines|
  {
    if n == 0 then []
    else KeptLines(lines, n - 1) + (if Kept(lines, n - 1) then [Render(lines[n - 1])] else [])
  }

  /** A marker line is never blank. */
  lemma MarkerNotBlank(line: string)
    requires IsMarkerLine(line)
    ensures !IsBlank(line)
  {
  }

  /**
   * The flag's transition: it is set after a marker, cleared after a blank
   * line, and otherwise kept.
   */
  lemma SkipStep(lines: seq<string>, i: nat)
    requires i < |lines|
    ensures SkipBefore(lines, i + 1) <==>
      IsMarkerLine(lines[i]) || (SkipBefore(lines, i) && !IsBlank(lines[i]))
  {
    if IsMarkerLine(lines[i]) {
      assert NoBlankBetween(lines, i, i + 1);
    }
    if SkipBefore(lines, i) && !IsBlank(lines[i]) {
      var j :| 0 <= j < i && IsMarkerLine(lines[j]) && NoBlankBetween(lines, j, i);
      assert NoBlankBetween(lines, j, i + 1);
    }
    if SkipBefore(lines, i + 1) && !IsMarkerLine(lines[i]) {
      var j :| 0 <= j < i + 1 && IsMarkerLine(lines[j]) && NoBlankBetween(lines, j, i + 1);
      assert j != i;
      assert NoBlankBetween(lines, j, i);
      assert !IsBlank(lines[i]);
    }
  }

  /**
   * The loop of `collect_complete_story`: the `skip_line` flag and the
   * `cleaned_lines` list, kept line by line.
   */
  method CleanLines(lines: seq<string>) returns (cleaned: seq<string>)
    ensures cleaned == KeptLines(lines, |lines|)
  {
    cleaned := [];
    var skip := false;
    var i := 0;
    while i < |lines|
      invariant 0 <= i <= |lines|
      invariant skip == SkipBefore(lines, i)
      invariant cleaned == KeptLines(lines, i)
    {
      var line := lines[i];
      SkipStep(lines, i);
      if IsMarkerLine(line) {
        skip := true;
      } else if skip && IsBlank(line) {
        skip := false;
      } else if skip {
      } else if IsHeading(line) {
        cleaned := cleaned + [HeadingText(line)];
      } else {
        cleaned := cleaned + [line];
      }
      i := i + 1;
    }
  }

  /** Without marker lines every line is kept, in order. */
  lemma {:induction false} KeptAllWithoutMarkers(lines: seq<string>, n: nat)
    requires n <= |lines|
    requires forall i :: 0 <= i < |lines| ==> !IsMarkerLine(lines[i])
    requires forall i :: 0 <= i < |lines| ==> !IsHeading(lines[i])
    ensures KeptLines(lines, n) == lines[..n]
  {
    if n > 0 {
      KeptAllWithoutMarkers(lines, n - 1);
      assert !SkipBefore(lines, n - 1);
      assert lines[..n] == lines[..n - 1] + [lines[n - 1]];
    }
  }

  // ---------------------------------------------------------------------
  // re.sub(r'\n{3,}', '\n\n', text)

  predicate NoTripleNewline(s: string) {
    forall i :: 0 <= i < |s| - 2 ==> !(s[i] == '\n' && s[i + 1] == '\n' && s[i + 2] == '\n')
  }

  /** `s` starts with `k` newlines. */
  predicate StartsNewlines(s: string, k: nat)
    requires k <= 3
  {
    && k <= |s|
    && (k >= 1 ==> s[0] == '\n')
    && (k >= 2 ==> s[1] == '\n')
    && (k >= 3 ==> s[2] == '\n')
  }

  /** `s` without its leading run of newlines. */
  function DropNewlines(s: string): (r: string)
    ensures |r| <= |s| && (r == [] || r[0] != '\n')
  {
    if s != [] && s[0] == '\n' then DropNewlines(s[1..]) else s
  }

  /**
   * Every run of three or more newlines becomes exactly two; the result
   * has no run of three.
   */
  function CollapseNewlines(s: string): (r: string)
    ensures StartsNewlines(r, 1) <==> StartsNewlines(s, 1)
    ensures StartsNewlines(r, 2) <==> StartsNewlines(s, 2)
    ensures NoTripleNewline(r)
    decreases |s|
  {
    if StartsNewlines(s, 3) then
      var rest := CollapseNewlines(DropNewlines(s));
      var r := "\n\n" + rest;
      assert rest != [] ==> rest[0] != '\n';
      assert forall i :: 2 <= i < |r| ==> r[i] == rest[i - 2];
      r
    else if s == [] then []
    else
      var rest := CollapseNewlines(s[1..]);
      var r := [s[0]] + rest;
      assert StartsNewlines(rest, 1) <==> StartsNewlines(s[1..], 1);
      assert StartsNewlines(rest, 2) <==> StartsNewlines(s[1..], 2);
      assert forall i :: 1 <= i < |r| ==> r[i] == rest[i - 1];
      assert !(s[0] == '\n' && StartsNewlines(s[1..], 2));
      r
  }

  /** Text without a run of three newlines is left as it is. */
  lemma {:induction false} CollapseIdentity(s: string)
    requires NoTripleNewline(s)
    ensures CollapseNewlines(s) == s
  {
    if s != [] {
      assert !StartsNewlines(s, 3);
      assert forall i :: 0 <= i < |s| - 1 ==> s[1..][i] == s[i + 1];
      assert NoTripleNewline(s[1..]);
      CollapseIdentity(s[1..]);
      assert s == [s[0]] + s[1..];
    }
  }

  // ---------------------------------------------------------------------
  // The non-greedy single-line patterns

  /**
   * The smallest `j >= from` where `delim` occurs with no newline in
   * `s[from..j]`: where a lazy `(.*?)` followed by `delim` stops.
   */
  function CloseAt(s: string, from: nat, delim: string): (r: Option<nat>)
    requires delim != [] && delim[0] != '\n'
    ensures r.Some? ==> from <= r.value && OccursAt(s, delim, r.value)
    ensures r.Some? ==> forall k :: from <= k < r.value ==> s[k] != '\n'
    decreases |s| - from
  {
    if from + |delim| > |s| then None
    else if OccursAt(s, delim, from) then Some(from)
    else if s[from] == '\n' then None
    else CloseAt(s, from + 1, delim)
  }

  /** A closing delimiter is found past any stretch that cannot hold one. */
  lemma {:induction false} CloseAtFinds(s: string, from: nat, j: nat, delim: string)
    requires delim != [] && delim[0] != '\n' && from <= j
    requires OccursAt(s, delim, j)
    requires forall k :: from <= k < j ==> s[k] != '\n' && s[k] != delim[0]
    ensures CloseAt(s, from, delim) == Some(j)
    decreases j - from
  {
    if from < j {
      assert s[from..from + |delim|][0] == s[from];
      CloseAtFinds(s, from + 1, j, delim);
    }
  }

  /** `re.sub(open (.*?) close, r'\1', s)` for the emphasis markers. */
  function Unwrap(s: string, delim: string): (r: string)
    requires delim != [] && delim[0] != '\n'
    decreases |s|
  {
    if s == [] then []
    else if OccursAt(s, delim, 0) then
      match CloseAt(s, |delim|, delim)
      case Some(j) => s[|delim|..j] + Unwrap(s[j + |delim|..], delim)
      case None => [s[0]] + Unwrap(s[1..], delim)
    else [s[0]] + Unwrap(s[1..], delim)
  }

  /** Text where the marker never occurs passes through unchanged. */
  lemma {:induction false} UnwrapIdentity(s: string, delim: string)
    requires delim != [] && delim[0] != '\n' && !Contains(s, delim)
    ensures Unwrap(s, delim) == s
  {
    if s != [] {
      forall k: nat ensures !OccursAt(s[1..], delim, k) {
        OccursShift(s, delim, 1, k);
      }
      UnwrapIdentity(s[1..], delim);
      assert s == [s[0]] + s[1..];
    }
  }

  /** A string without a character has no occurrence of a pattern starting with it. */
  lemma AbsentChar(s: string, pat: string)
    requires pat != [] && pat[0] !in s
    ensures !Contains(s, pat)
  {
    forall k: nat ensures !OccursAt(s, pat, k) {
      if k + |pat| <= |s| {
        assert s[k..k + |pat|][0] == s[k];
      }
    }
  }

  /** `re.sub(r'\*\*(.*?)\*\*', r'\1', s)` */
  function Unbold(s: string): string { Unwrap(s, "**") }

  /** `re.sub(r'\*(.*?)\*', r'\1', s)` */
  function Unitalic(s: string): string { Unwrap(s, "*") }

  /** The first `c` at or after `from`, with no newline before it. */
  function CharOnLine(s: string, from: nat, c: char): (r: Option<nat>)
    requires c != '\n'
    ensures r.Some? ==> from <= r.value < |s| && s[r.value] == c
    decreases |s| - from
  {
    if from >= |s| then None
    else if s[from] == c then Some(from)
    else if s[from] == '\n' then None
    else CharOnLine(s, from + 1, c)
  }

  /**
   * After an opening `[`, the lazy match of `(.*?)\]\(.*?\)` from `i`:
   * the index of the `]` and of the closing `)`.
   */
  function LinkFrom(s: string, i: nat): (r: Option<(nat, nat)>)
    ensures r.Some? ==> i <= r.value.0 && r.value.0 + 2 <= r.value.1 < |s|
    ensures r.Some? ==> s[r.value.0] == ']' && s[r.value.0 + 1] == '('
    decreases |s| - i
  {
    if i + 2 > |s| then None
    else if s[i] == ']' && s[i + 1] == '(' && CharOnLine(s, i + 2, ')').Some? then
      Some((i, CharOnLine(s, i + 2, ')').value))
    else if s[i] == '\n' then None
    else LinkFrom(s, i + 1)
  }

  /** `re.sub(r'\[(.*?)\]\(.*?\)', r'\1', s)`: a link becomes its text. */
  function Unlink(s: string): string
    decreases |s|
  {
    if s == [] then []
    else if s[0] == '[' && LinkFrom(s, 1).Some? then
      var (i, k) := LinkFrom(s, 1).value;
      s[1..i] + Unlink(s[k + 1..])
    else [s[0]] + Unlink(s[1..])
  }

  /** Text without `[` passes through unchanged. */
  lemma {:induction false} UnlinkIdentity(s: string)
    requires '[' !in s
    ensures Unlink(s) == s
  {
    if s != [] {
      UnlinkIdentity(s[1..]);
      assert s == [s[0]] + s[1..];
    }
  }

  lemma {:induction false} CharOnLineFinds(s: string, from: nat, j: nat, c: char)
    requires c != '\n' && from <= j < |s| && s[j] == c
    requires forall k :: from <= k < j ==> s[k] != '\n' && s[k] != c
    ensures CharOnLine(s, from, c) == Some(j)
    decreases j - from
  {
    if from < j {
      CharOnLineFinds(s, from + 1, j, c);
    }
  }

  /** Where the link text has no `]` and the target no `)`, the first `](` and `)` close the link. */
  lemma {:induction false} LinkFromFinds(s: string, i: nat, close: nat, paren: nat)
    requires i <= close && close + 2 <= paren < |s|
    requires s[close] == ']' && s[close + 1] == '(' && s[paren] == ')'
    requires forall k :: i <= k < close ==> s[k] != '\n' && s[k] != ']'
    requires forall k :: close + 2 <= k < paren ==> s[k] != '\n' && s[k] != ')'
    ensures LinkFrom(s, i) == Some((close, paren))
    decreases close - i
  {
    if i == close {
      CharOnLineFinds(s, close + 2, paren, ')');
    } else {
      LinkFromFinds(s, i + 1, close, paren);
    }
  }

  /** The passes after the join: newline runs, bold, italic, links, strip. */
  function Polish(text: string): (r: string)
    ensures Stripped(r)
  {
    Strip(Unlink(Unitalic(Unbold(CollapseNewlines(text)))))
  }

  /** The cleaned narration text. */
  ghost function CleanStory(story: string): string
  {
    var lines := Split(story, '\n');
    Polish(Join(KeptLines(lines, |lines|), "\n"))
  }

  /**
   * `collect_complete_story`: the line pass, the join, and the rewriting
   * passes. The result has no outer whitespace.
   */
  method CollectCompleteStory(story: string) returns (r: string)
    ensures r == CleanStory(story)
    ensures Stripped(r)
  {
    var lines := Split(story, '\n');
    var cleaned := CleanLines(lines);
    var text := Join(cleaned, "\n");
    r := Polish(text);
  }

  // ---------------------------------------------------------------------
  // Properties of the passes

  /** Within one line, `**x**` becomes `x`. */
  lemma BoldRemoved(x: string)
    requires '*' !in x && '[' !in x && '\n' !in x
    ensures Unlink(Unitalic(Unbold("**" + x + "**"))) == x
  {
    var b := "**" + x + "**";
    assert OccursAt(b, "**", 0) && OccursAt(b, "**", 2 + |x|);
    CloseAtFinds(b, 2, 2 + |x|, "**");
    assert b[2..2 + |x|] == x;
    assert b[2 + |x| + 2..] == [];
    assert Unbold(b) == x + Unwrap([], "**");
    assert Unbold(b) == x;
    AbsentChar(x, "*");
    UnwrapIdentity(x, "*");
    assert Unitalic(x) == x;
    UnlinkIdentity(x);
  }

  /** Within one line, `*x*` becomes `x`; a bold pass does not touch it first. */
  lemma ItalicRemoved(x: string)
    requires '*' !in x && '[' !in x && '\n' !in x
    ensures Unlink(Unitalic(Unbold("*" + x + "*"))) == x
  {
    var it := "*" + x + "*";
    if x == [] {
      assert it == "**";
      assert CloseAt(it, 2, "**") == None;
      assert Unwrap(it[1..], "**") == "*";
      assert Unbold(it) == it;
    } else {
      forall k: nat ensures !OccursAt(it, "**", k) {
        if k + 2 <= |it| {
          assert it[k..k + 2][0] == it[k] && it[k..k + 2][1] == it[k + 1];
          if k == 0 {
            assert it[1] == x[0];
          } else {
            assert it[k] == x[k - 1];
          }
        }
      }
      UnwrapIdentity(it, "**");
    }
    assert OccursAt(it, "*", 0) && OccursAt(it, "*", 1 + |x|);
    CloseAtFinds(it, 1, 1 + |x|, "*");
    assert it[1..1 + |x|] == x;
    assert it[1 + |x| + 1..] == [];
    assert Unitalic(it) == x + Unwrap([], "*");
    assert Unitalic(Unbold(it)) == x;
    UnlinkIdentity(x);
  }

  /** Within one line, `[x](u)` becomes `x`; the emphasis passes do not touch it. */
  lemma LinkRemoved(x: string, u: string)
    requires '*' !in x && ']' !in x && '\n' !in x
    requires '*' !in u && ')' !in u && '\n' !in u
    ensures Unlink(Unitalic(Unbold("[" + x + "](" + u + ")"))) == x
  {
    var l := "[" + x + "](" + u + ")";
    assert '*' !in l;
    AbsentChar(l, "**");
    UnwrapIdentity(l, "**");
    AbsentChar(l, "*");
    UnwrapIdentity(l, "*");
    var close := 1 + |x|;
    var paren := close + 2 + |u|;
    LinkFromFinds(l, 1, close, paren);
    assert l[1..close] == x;
    assert l[paren + 1..] == [];
  }

  /**
   * A story with no marker line, no heading, no `*`, no `[` and no run of
   * three newlines comes out with only its outer whitespace stripped.
   */
  lemma PlainStoryUnchanged(story: string)
    requires forall i :: 0 <= i < |Split(story, '\n')| ==> !IsMarkerLine(Split(story, '\n')[i])
    requires forall i :: 0 <= i < |Split(story, '\n')| ==> !IsHeading(Split(story, '\n')[i])
    requires '*' !in story && '[' !in story && NoTripleNewline(story)
    ensures CleanStory(story) == Strip(story)
  {
    var lines := Split(story, '\n');
    KeptAllWithoutMarkers(lines, |lines|);
    assert lines[..|lines|] == lines;
    JoinSplit(story, '\n');
    assert Join(lines, "\n") == story;
    CollapseIdentity(story);
    AbsentChar(story, "**");
    UnwrapIdentity(story, "**");
    AbsentChar(story, "*");
    UnwrapIdentity(story, "*");
    UnlinkIdentity(story);
  }
}
