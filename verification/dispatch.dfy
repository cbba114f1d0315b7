/** The PoC generator's dispatch loop with its default concurrency of one:
    each finding to process is matched with its enrichment record and its
    patch, a cooldown is slept before every finding but the first, and one PoC
    is generated per finding. `generateSinglePoC` is a parameter; sleeping is
    recorded as an event. */
module Dispatch {
  import opened Wrappers
  import opened Text
  import opened Seqs

  datatype Location = Location(file: string)

  /** The fields of a finding the loop and the PoC text read. */
  datatype Finding = Finding(title: string, className: string, classId: int, location: Location)

  /** An entry of `enrichedFindings`; `detail` stands for the fields the loop
      hands on without reading. */
  datatype Enrichment = Enrichment(title: string, detail: string)

  /** An entry of `patches`. */
  datatype Patch = Patch(file: string, diff: string)

  /** An enrichment entry belongs to a finding when its title is the finding's
      title or contains the finding's class name. */
  predicate MatchesEnrichment(e: Enrichment, f: Finding) {
    e.title == f.title || Contains(e.title, f.className)
  }

  function FindEnrichment(enriched: Option<seq<Enrichment>>, f: Finding): (r: Option<Enrichment>)
    ensures r.Some? ==> MatchesEnrichment(r.value, f)
  {
    Find(enriched, (e: Enrichment) => MatchesEnrichment(e, f))
  }

  /** A patch belongs to a finding when it is for the finding's file. */
  function FindPatch(patches: Option<seq<Patch>>, f: Finding): (r: Option<Patch>)
    ensures r.Some? ==> r.value.file == f.location.file
  {
    Find(patches, (p: Patch) => p.file == f.location.file)
  }

  /** The first matching enrichment is chosen, absence is not an error, and an
      entry is skipped only because it does not match. */
  lemma EnrichmentIsFirstMatch(enriched: seq<Enrichment>, f: Finding, i: nat)
    requires i < |enriched| && MatchesEnrichment(enriched[i], f)
    requires forall j :: 0 <= j < i ==> !MatchesEnrichment(enriched[j], f)
    ensures FindEnrichment(Some(enriched), f) == Some(enriched[i])
  {
    var p := (e: Enrichment) => MatchesEnrichment(e, f);
    var k := FirstIndexFrom(enriched, p, 0);
    assert p(enriched[i]);
    if k.Some? && k.value < i {
      assert false;
    }
  }

  /** An empty class name is contained in every title, so the first entry
      always matches such a finding. */
  lemma EmptyClassNameMatchesFirst(enriched: seq<Enrichment>, f: Finding)
    requires |enriched| > 0 && f.className == ""
    ensures FindEnrichment(Some(enriched), f) == Some(enriched[0])
  {
    assert OccursAt(enriched[0].title, "", 0);
    EnrichmentIsFirstMatch(enriched, f, 0);
  }

  /** The patch for a file is the first patch listed for it. */
  lemma PatchIsFirstForFile(patches: seq<Patch>, f: Finding, i: nat)
    requires i < |patches| && patches[i].file == f.location.file
    requires forall j :: 0 <= j < i ==> patches[j].file != f.location.file
    ensures FindPatch(Some(patches), f) == Some(patches[i])
  {
    var p := (q: Patch) => q.file == f.location.file;
    var k := FirstIndexFrom(patches, p, 0);
    assert p(patches[i]);
    if k.Some? && k.value < i {
      assert false;
    }
  }

  /** What the loop does, in order. */
  datatype Event = Sleep(ms: int) | Generate(index: nat)

  /** The events of a sequential run over `n` findings: Generate(0), then for
      each later index a cooldown of `delay` followed by its generation. The
      schedule does not depend on what earlier generations returned. */
  function Schedule(n: nat, delay: int): (ev: seq<Event>)
    ensures |ev| == if n == 0 then 0 else 2 * n - 1
    ensures forall i :: 0 <= i < n ==> ev[2 * i] == Generate(i)
    ensures forall i :: 0 < i < n ==> ev[2 * i - 1] == Sleep(delay)
    decreases n
  {
    if n == 0 then []
    else if n == 1 then [Generate(0)]
    else Schedule(n - 1, delay) + [Sleep(delay), Generate(n - 1)]
  }

  /** The cooldown precedes every generation but the first, and nothing
      precedes the first. */
  lemma {:induction false} CooldownBeforeEveryLaterItem(n: nat, delay: int)
    ensures forall k :: 0 <= k < |Schedule(n, delay)| && Schedule(n, delay)[k].Generate? ==>
              (Schedule(n, delay)[k].index == 0 <==> k == 0)
    ensures forall k :: 0 < k < |Schedule(n, delay)| && Schedule(n, delay)[k].Generate? ==>
              Schedule(n, delay)[k - 1] == Sleep(delay)
    ensures forall k :: 0 <= k < |Schedule(n, delay)| && Schedule(n, delay)[k].Sleep? ==>
              Schedule(n, delay)[k].ms == delay && k + 1 < |Schedule(n, delay)|
  {
    var ev := Schedule(n, delay);
    forall k | 0 <= k < |ev|
      ensures ev[k].Generate? <==> k % 2 == 0
      ensures ev[k].Generate? ==> ev[k].index == k / 2
      ensures ev[k].Sleep? ==> ev[k] == Sleep(delay)
    {
      if k % 2 == 0 {
        assert ev[2 * (k / 2)] == Generate(k / 2);
      } else {
        assert ev[2 * ((k + 1) / 2) - 1] == Sleep(delay);
      }
    }
  }

  /** The loop over `toProcess`: one result per finding, in input order, each
      produced from the finding with its first matching enrichment and patch,
      with the cooldown schedule between admissions. */
  method GeneratePocs<R>(
    toProcess: seq<Finding>,
    enriched: Option<seq<Enrichment>>,
    patches: Option<seq<Patch>>,
    interRequestDelayMs: int,
    generate: (Finding, Option<Enrichment>, Option<Patch>) -> R)
    returns (results: seq<R>, events: seq<Event>)
    ensures |results| == |toProcess|
    ensures forall i :: 0 <= i < |toProcess| ==>
              results[i] == generate(toProcess[i], FindEnrichment(enriched, toProcess[i]),
                                     FindPatch(patches, toProcess[i]))
    ensures events == Schedule(|toProcess|, interRequestDelayMs)
  {
    results := [];
    events := [];
    var idx := 0;
    while idx < |toProcess|
      invariant 0 <= idx <= |toProcess|
      invariant |results| == idx
      invariant forall i :: 0 <= i < idx ==>
                  results[i] == generate(toProcess[i], FindEnrichment(enriched, toProcess[i]),
                                         FindPatch(patches, toProcess[i]))
      invariant events == Schedule(idx, interRequestDelayMs)
    {
      if idx > 0 {
        events := events + [Sleep(interRequestDelayMs)];
      }
      events := events + [Generate(idx)];
      var finding := toProcess[idx];
      var enrichment := FindEnrichment(enriched, finding);
      var patch := FindPatch(patches, finding);
      results := results + [generate(finding, enrichment, patch)];
      idx := idx + 1;
    }
  }
}
