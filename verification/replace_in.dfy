/** The pure part of the patch scripts' `replace_in(path, old, new)`: reading
    and writing the file and printing are left out, what remains is the
    transformation of the file's text and the boolean it returns. */
module ReplaceIn {
  import opened Wrappers
  import opened Text

  /** The outcome of one `replace_in` call: whether the pattern was found, and
      the text written back (the unchanged text when it was not). */
  datatype Replaced = Replaced(found: bool, content: string)

  /** `content.replace(old, new, 1)` guarded by `old in content`. */
  function ReplaceFirst(content: string, pattern: string, replacement: string): (r: Replaced)
    ensures r.found <==> Contains(content, pattern)
    ensures !r.found ==> r.content == content
    ensures r.found ==> |r.content| == |content| - |pattern| + |replacement|
  {
    match IndexOf(content, pattern)
    case None => Replaced(false, content)
    case Some(k) => Replaced(true, content[..k] + replacement + content[k + |pattern|..])
  }

  /** `k` is where the first occurrence of `pattern` in `content` starts. */
  predicate IsFirstOccurrence(content: string, pattern: string, k: nat) {
    OccursAt(content, pattern, k) && forall j :: 0 <= j < k ==> !OccursAt(content, pattern, j)
  }

  /** Only the first occurrence is replaced: the text before it and the text
      after it are kept as they were. */
  lemma ReplaceFirstSplits(content: string, pattern: string, replacement: string, k: nat)
    requires IsFirstOccurrence(content, pattern, k)
    ensures ReplaceFirst(content, pattern, replacement)
         == Replaced(true, content[..k] + replacement + content[k + |pattern|..])
  {
    assert 0 <= k <= |content| && OccursAt(content, pattern, k);
  }

  /** An edit on a text that is made of a prefix free of the pattern, the
      pattern, and any suffix: the prefix and the suffix survive verbatim
      around the replacement, even when the suffix holds the pattern again. */
  lemma {:induction false} ReplaceFirstKeepsContext(pre: string, pattern: string, post: string, replacement: string)
    requires |pattern| > 0
    requires !Contains(pre + pattern[..|pattern| - 1], pattern)
    ensures ReplaceFirst(pre + pattern + post, pattern, replacement)
         == Replaced(true, pre + replacement + post)
  {
    var content := pre + pattern + post;
    var k := |pre|;
    assert content[k..k + |pattern|] == pattern;
    forall j | 0 <= j < k
      ensures !OccursAt(content, pattern, j)
    {
      if OccursAt(content, pattern, j) {
        var w := pre + pattern[..|pattern| - 1];
        assert j + |pattern| <= |w|;
        assert w[j..j + |pattern|] == content[j..j + |pattern|];
        assert OccursAt(w, pattern, j);
        assert false;
      }
    }
    ReplaceFirstSplits(content, pattern, replacement, k);
    assert content[..k] == pre;
    assert content[k + |pattern|..] == post;
  }

  /** One `replace_in(F, old, new)` call of a script. */
  datatype Edit = Edit(pattern: string, replacement: string)

  /** A script's effect on one file: its edits in order, each applied to the
      text the previous one produced; a pattern that is not found is reported
      and the script goes on with the next edit. */
  datatype ScriptRun = ScriptRun(content: string, applied: seq<bool>)

  function ApplyEdits(content: string, edits: seq<Edit>): (r: ScriptRun)
    ensures |r.applied| == |edits|
    ensures true !in r.applied ==> r.content == content
    ensures |edits| > 0 ==> (r.applied[0] <==> Contains(content, edits[0].pattern))
    decreases |edits|
  {
    if |edits| == 0 then ScriptRun(content, [])
    else
      var step := ReplaceFirst(content, edits[0].pattern, edits[0].replacement);
      var rest := ApplyEdits(step.content, edits[1..]);
      ScriptRun(rest.content, [step.found] + rest.applied)
  }

  /** A script of one edit is one `replace_in` call: its flag is the call's
      result and its text the text the call writes back. */
  lemma ApplyEditsSingle(content: string, e: Edit)
    ensures var s := ReplaceFirst(content, e.pattern, e.replacement);
            ApplyEdits(content, [e]) == ScriptRun(s.content, [s.found])
  {
    assert [e][1..] == [];
  }

  /** Edit i of a script runs `replace_in` on the text the edits before it
      produced: it reports whether its pattern occurs there, and the text
      after it is what that call writes back. */
  lemma EditRunsOnPreviousText(content: string, edits: seq<Edit>, i: nat)
    requires i < |edits|
    ensures var before := ApplyEdits(content, edits[..i]).content;
            var s := ReplaceFirst(before, edits[i].pattern, edits[i].replacement);
            && (ApplyEdits(content, edits).applied[i] <==> Contains(before, edits[i].pattern))
            && ApplyEdits(content, edits[..i + 1]).content == s.content
  {
    var before := ApplyEdits(content, edits[..i]);
    assert edits == edits[..i] + edits[i..];
    ApplyEditsCompose(content, edits[..i], edits[i..]);
    assert ApplyEdits(before.content, edits[i..]).applied[0] <==> Contains(before.content, edits[i].pattern);
    assert edits[..i + 1] == edits[..i] + [edits[i]];
    ApplyEditsCompose(content, edits[..i], [edits[i]]);
    ApplyEditsSingle(before.content, edits[i]);
  }

  /** Running two groups of edits one after the other is running them as one
      script: the scripts may be split anywhere. */
  lemma ApplyEditsCompose(content: string, first: seq<Edit>, second: seq<Edit>)
    ensures ApplyEdits(content, first + second).content
         == ApplyEdits(ApplyEdits(content, first).content, second).content
    ensures ApplyEdits(content, first + second).applied
         == ApplyEdits(content, first).applied + ApplyEdits(ApplyEdits(content, first).content, second).applied
  {
    ComposeContent(content, first, second);
    ComposeApplied(content, first, second);
  }

  lemma {:induction false} ComposeContent(content: string, first: seq<Edit>, second: seq<Edit>)
    ensures ApplyEdits(content, first + second).content
         == ApplyEdits(ApplyEdits(content, first).content, second).content
    decreases |first|
  {
    if |first| == 0 {
      assert first + second == second;
    } else {
      var step := ReplaceFirst(content, first[0].pattern, first[0].replacement);
      assert (first + second)[0] == first[0];
      assert (first + second)[1..] == first[1..] + second;
      ComposeContent(step.content, first[1..], second);
    }
  }

  lemma {:induction false} ComposeApplied(content: string, first: seq<Edit>, second: seq<Edit>)
    ensures ApplyEdits(content, first + second).applied
         == ApplyEdits(content, first).applied + ApplyEdits(ApplyEdits(content, first).content, second).applied
    decreases |first|
  {
    if |first| == 0 {
      assert first + second == second;
    } else {
      var step := ReplaceFirst(content, first[0].pattern, first[0].replacement);
      assert (first + second)[0] == first[0];
      assert (first + second)[1..] == first[1..] + second;
      ComposeApplied(step.content, first[1..], second);
      ComposeContent(step.content, first[1..], second);
      var a := ApplyEdits(step.content, first[1..]);
      var b := ApplyEdits(a.content, second);
      assert ApplyEdits(content, first + second).applied == [step.found] + (a.applied + b.applied);
      assert [step.found] + (a.applied + b.applied) == ([step.found] + a.applied) + b.applied;
    }
  }
}
