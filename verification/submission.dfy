/** The bounty-submission endpoint `GET /api/audits/[id]/submission`: from a
    stored audit job it extracts the pull-request link and the writeup link,
    decides whether the submission is ready, and says what is missing. It also
    holds the names the writeup gist is published under. The database query,
    the storage signer and the HTTP response object are outside the model: the
    job is an argument, signing is a function argument, and the response is a
    datatype carrying its HTTP status. */
module Submission {
  import opened Wrappers
  import opened Text
  import opened Seqs

  /** A nullable string is truthy in JavaScript when present and not empty. */
  predicate Truthy(v: Option<string>) {
    v.Some? && v.value != ""
  }

  /** `a || b` on nullable strings: `a` when truthy, otherwise `b` as it is. */
  function OrElse(a: Option<string>, b: Option<string>): (r: Option<string>)
    ensures Truthy(r) <==> Truthy(a) || Truthy(b)
    ensures Truthy(a) ==> r == a
    ensures !Truthy(a) ==> r == b
  {
    if Truthy(a) then a else b
  }

  /** One entry of the job summary's `runs`. */
  datatype Run = Run(prUrl: Option<string>, writeupUrl: Option<string>)

  /** A stored artifact: its name, type, `metadata.purpose` and storage key. */
  datatype Artifact = Artifact(name: string, kind: string, purpose: Option<string>, objectKey: string)

  /** A stored finding; `detail` stands for the columns the endpoint does not
      return. */
  datatype FindingRow = FindingRow(
    severity: string, title: string, classId: int, className: string,
    confidence: string, proofStatus: string, detail: string)

  /** The finding as the endpoint returns it. */
  datatype FindingSummary = FindingSummary(
    severity: string, title: string, classId: int, className: string,
    confidence: string, proofStatus: string)

  /** The job as loaded: `runs` is absent when the summary has none. The
      artifacts are those the query selected; the findings come in the order
      the query sorted them. */
  datatype Job = Job(
    id: string, repoUrl: string, status: string,
    runs: Option<seq<Run>>, artifacts: seq<Artifact>, findings: seq<FindingRow>)

  datatype SubmissionInfo = SubmissionInfo(
    ready: bool,
    auditId: string,
    repoUrl: string,
    status: string,
    prUrl: Option<string>,
    writeupUrl: Option<string>,
    writeupGistUrl: Option<string>,
    writeupR2Url: Option<string>,
    findings: seq<FindingSummary>,
    findingsCount: nat,
    message: string)

  /** The endpoint's answers other than the internal-error one. */
  datatype Response =
    | NotFound
    | NotSucceeded(status: string, error: string)
    | Info(info: SubmissionInfo)

  function HttpStatus(r: Response): int {
    match r
    case NotFound => 404
    case NotSucceeded(_, _) => 400
    case Info(_) => 200
  }

  /** The value a loop over the runs leaves in a variable that each run with a
      truthy value overwrites: the last truthy value, or null. */
  function LastTruthy(vals: seq<Option<string>>): (r: Option<string>)
    ensures r.None? <==> forall i :: 0 <= i < |vals| ==> !Truthy(vals[i])
    ensures r.Some? ==> Truthy(r)
    ensures r.Some? ==> exists i :: 0 <= i < |vals| && vals[i] == r
                                    && forall j :: i < j < |vals| ==> !Truthy(vals[j])
    decreases |vals|
  {
    if |vals| == 0 then None
    else if Truthy(vals[|vals| - 1]) then vals[|vals| - 1]
    else LastTruthy(vals[..|vals| - 1])
  }

  function PrUrls(runs: seq<Run>): (r: seq<Option<string>>)
    ensures |r| == |runs| && forall i :: 0 <= i < |runs| ==> r[i] == runs[i].prUrl
  {
    seq(|runs|, i requires 0 <= i < |runs| => runs[i].prUrl)
  }

  function WriteupUrls(runs: seq<Run>): (r: seq<Option<string>>)
    ensures |r| == |runs| && forall i :: 0 <= i < |runs| ==> r[i] == runs[i].writeupUrl
  {
    seq(|runs|, i requires 0 <= i < |runs| => runs[i].writeupUrl)
  }

  /** The loop over `summary.runs`: each variable is overwritten by every run
      whose own field is truthy. Both end as the last truthy value of their
      own field, independently of each other, and null without runs. */
  method ExtractRunUrls(runs: Option<seq<Run>>) returns (prUrl: Option<string>, writeupUrl: Option<string>)
    ensures runs.None? ==> prUrl.None? && writeupUrl.None?
    ensures runs.Some? ==> prUrl == LastTruthy(PrUrls(runs.value))
    ensures runs.Some? ==> writeupUrl == LastTruthy(WriteupUrls(runs.value))
  {
    prUrl := None;
    writeupUrl := None;
    if runs.Some? {
      var rs := runs.value;
      var i := 0;
      while i < |rs|
        invariant 0 <= i <= |rs|
        invariant prUrl == LastTruthy(PrUrls(rs[..i]))
        invariant writeupUrl == LastTruthy(WriteupUrls(rs[..i]))
      {
        var run := rs[i];
        assert PrUrls(rs[..i + 1])[..i] == PrUrls(rs[..i]);
        assert WriteupUrls(rs[..i + 1])[..i] == WriteupUrls(rs[..i]);
        if Truthy(run.prUrl) {
          prUrl := run.prUrl;
        }
        if Truthy(run.writeupUrl) {
          writeupUrl := run.writeupUrl;
        }
        i := i + 1;
      }
      assert rs[..i] == rs;
    }
  }

  /** The artifact the writeup is read from: its name contains "submission" or
      its purpose is "bounty_submission". */
  predicate IsWriteupArtifact(a: Artifact)
    ensures IsWriteupArtifact(a) ==> IsQueried(a)
  {
    Contains(a.name, "submission") || a.purpose == Some("bounty_submission")
  }

  /** The artifacts the query selects: purpose "bounty_submission", type
      ADVISORY, or a name containing "submission". */
  predicate IsQueried(a: Artifact) {
    a.purpose == Some("bounty_submission") || a.kind == "ADVISORY" || Contains(a.name, "submission")
  }

  function QueryArtifacts(all: seq<Artifact>): (r: seq<Artifact>)
    ensures forall i :: 0 <= i < |r| ==> IsQueried(r[i])
    ensures forall i :: 0 <= i < |all| && IsQueried(all[i]) ==> all[i] in r
    ensures forall a :: multiset(r)[a] == if IsQueried(a) then multiset(all)[a] else 0
    decreases |all|
  {
    if |all| == 0 then []
    else
      assert all == [all[0]] + all[1..];
      if IsQueried(all[0]) then [all[0]] + QueryArtifacts(all[1..])
      else QueryArtifacts(all[1..])
  }

  function FindWriteupArtifact(artifacts: seq<Artifact>): (r: Option<Artifact>)
    ensures r.Some? ==> IsWriteupArtifact(r.value) && r.value in artifacts
  {
    Find(Some(artifacts), IsWriteupArtifact)
  }

  /** The query drops no candidate writeup: searching what the query selected
      finds the same artifact as searching all the job's artifacts. */
  lemma {:induction false} QueryKeepsWriteupArtifact(all: seq<Artifact>)
    ensures FindWriteupArtifact(QueryArtifacts(all)) == FindWriteupArtifact(all)
    decreases |all|
  {
    if |all| > 0 {
      QueryKeepsWriteupArtifact(all[1..]);
      FindSkipsHead(all);
      if IsQueried(all[0]) {
        FindSkipsHead([all[0]] + QueryArtifacts(all[1..]));
        assert ([all[0]] + QueryArtifacts(all[1..]))[1..] == QueryArtifacts(all[1..]);
      }
    }
  }

  /** A search over a non-empty list answers with its head when the head
      matches, and otherwise as the search over its tail. */
  lemma FindSkipsHead(xs: seq<Artifact>)
    requires |xs| > 0
    ensures IsWriteupArtifact(xs[0]) ==> FindWriteupArtifact(xs) == Some(xs[0])
    ensures !IsWriteupArtifact(xs[0]) ==> FindWriteupArtifact(xs) == FindWriteupArtifact(xs[1..])
  {
    var r := FindWriteupArtifact(xs);
    var t := FindWriteupArtifact(xs[1..]);
    if !IsWriteupArtifact(xs[0]) {
      if r.Some? {
        var i :| 0 <= i < |xs| && xs[i] == r.value && IsWriteupArtifact(r.value)
                 && forall j :: 0 <= j < i ==> !IsWriteupArtifact(xs[j]);
        assert xs[1..][i - 1] == xs[i];
        FindIsFirst(xs[1..], i - 1);
      } else {
        assert forall j :: 0 <= j < |xs[1..]| ==> xs[1..][j] == xs[j + 1];
      }
    } else {
      FindIsFirst(xs, 0);
    }
  }

  /** A search answers with the first matching artifact. */
  lemma FindIsFirst(xs: seq<Artifact>, i: nat)
    requires i < |xs| && IsWriteupArtifact(xs[i])
    requires forall j :: 0 <= j < i ==> !IsWriteupArtifact(xs[j])
    ensures FindWriteupArtifact(xs) == Some(xs[i])
  {
    var k := FirstIndexFrom(xs, IsWriteupArtifact, 0);
    assert IsWriteupArtifact(xs[i]);
    if k.Some? && k.value < i {
      assert false;
    }
  }

  /** `findingsSummary`: one entry per stored finding, in the same order,
      carrying its identifying and grading columns. */
  function Summarize(findings: seq<FindingRow>): (r: seq<FindingSummary>)
    ensures |r| == |findings|
    ensures forall i :: 0 <= i < |findings| ==>
              r[i].classId == findings[i].classId && r[i].title == findings[i].title
              && r[i].severity == findings[i].severity && r[i].className == findings[i].className
              && r[i].confidence == findings[i].confidence && r[i].proofStatus == findings[i].proofStatus
  {
    seq(|findings|, i requires 0 <= i < |findings| =>
      var f := findings[i];
      FindingSummary(f.severity, f.title, f.classId, f.className, f.confidence, f.proofStatus))
  }

  const ReadyMessage := "Submission ready. Use prUrl and writeupUrl for the bounty API call."

  /** The message of a response: the ready text, or what is missing. */
  function Message(hasPr: bool, hasWriteup: bool): (m: string)
    ensures hasPr && hasWriteup ==> m == ReadyMessage
    ensures hasPr && !hasWriteup ==> m == "Missing: writeup link"
    ensures !hasPr && hasWriteup ==> m == "Missing: PR link"
    ensures !hasPr && !hasWriteup ==> m == "Missing: PR link + writeup link"
  {
    if hasPr && hasWriteup then ReadyMessage
    else "Missing: " + (if !hasPr then "PR link" else "")
         + (if !hasPr && !hasWriteup then " + " else "")
         + (if !hasWriteup then "writeup link" else "")
  }

  const NotSucceededPrefix := "Audit is "
  const NotSucceededSuffix := " \U{2014} must be SUCCEEDED to submit"

  /** The error text for a job that has not succeeded: the status between a
      fixed lead-in and a fixed tail. */
  function NotSucceededError(status: string): (e: string)
    ensures |e| == |NotSucceededPrefix| + |status| + |NotSucceededSuffix|
    ensures e[..|NotSucceededPrefix|] == NotSucceededPrefix
    ensures e[|NotSucceededPrefix|..|NotSucceededPrefix| + |status|] == status
    ensures e[|NotSucceededPrefix| + |status|..] == NotSucceededSuffix
  {
    NotSucceededPrefix + status + NotSucceededSuffix
  }

  /** The 400 text names the job's status: different statuses give different
      texts. */
  lemma NotSucceededErrorNamesStatus(s1: string, s2: string)
    requires NotSucceededError(s1) == NotSucceededError(s2)
    ensures s1 == s2
  {
    var e := NotSucceededError(s1);
    assert |s1| == |s2|;
    assert s1 == e[|NotSucceededPrefix|..|NotSucceededPrefix| + |s1|];
  }

  /** The endpoint for a job (None when no job has the id), with `sign`
      standing for the storage signer: None when signing throws, which the
      endpoint swallows. */
  function GetSubmission(job: Option<Job>, sign: string -> Option<string>): (r: Response)
    ensures r.NotFound? <==> job.None?
    ensures r.NotSucceeded? <==> job.Some? && job.value.status != "SUCCEEDED"
    ensures r.NotSucceeded? ==> r.status == job.value.status
    ensures r.NotSucceeded? ==> r.error == NotSucceededError(r.status)
    ensures r.Info? ==> r.info.auditId == job.value.id && r.info.status == "SUCCEEDED"
    ensures r.Info? ==> (r.info.ready <==> Truthy(r.info.prUrl) && Truthy(r.info.writeupUrl))
    ensures r.Info? ==> Truthy(r.info.writeupGistUrl) ==> r.info.writeupUrl == r.info.writeupGistUrl
    ensures r.Info? ==> r.info.findingsCount == |r.info.findings| == |job.value.findings|
    ensures r.Info? ==> r.info.repoUrl == job.value.repoUrl
    ensures r.Info? ==> r.info.prUrl == (if job.value.runs.Some? then LastTruthy(PrUrls(job.value.runs.value)) else None)
    ensures r.Info? ==> r.info.writeupGistUrl == (if job.value.runs.Some? then LastTruthy(WriteupUrls(job.value.runs.value)) else None)
    ensures r.Info? ==> r.info.writeupR2Url == (if FindWriteupArtifact(job.value.artifacts).Some?
                                                then sign(FindWriteupArtifact(job.value.artifacts).value.objectKey) else None)
    ensures r.Info? ==> r.info.writeupUrl == OrElse(r.info.writeupGistUrl, r.info.writeupR2Url)
    ensures r.Info? ==> r.info.findings == Summarize(job.value.findings)
    ensures r.Info? ==> r.info.message == Message(Truthy(r.info.prUrl), Truthy(r.info.writeupUrl))
  {
    if job.None? then NotFound
    else
      var j := job.value;
      if j.status != "SUCCEEDED" then NotSucceeded(j.status, NotSucceededError(j.status))
      else
        var prUrl := if j.runs.Some? then LastTruthy(PrUrls(j.runs.value)) else None;
        var gistUrl := if j.runs.Some? then LastTruthy(WriteupUrls(j.runs.value)) else None;
        var r2Url := match FindWriteupArtifact(j.artifacts)
          case None => None
          case Some(a) => sign(a.objectKey);
        var writeupUrl := OrElse(gistUrl, r2Url);
        var ready := Truthy(prUrl) && Truthy(writeupUrl);
        Info(SubmissionInfo(
          ready, j.id, j.repoUrl, j.status, prUrl, writeupUrl, gistUrl, r2Url,
          Summarize(j.findings), |j.findings|, Message(Truthy(prUrl), Truthy(writeupUrl))))
  }

  /** A job that has not succeeded gets a 400 with no links, whatever its runs,
      artifacts and the signer. */
  lemma NotSucceededExtractsNothing(j: Job, runs: Option<seq<Run>>, artifacts: seq<Artifact>,
                                    sign1: string -> Option<string>, sign2: string -> Option<string>)
    requires j.status != "SUCCEEDED"
    ensures HttpStatus(GetSubmission(Some(j), sign1)) == 400
    ensures GetSubmission(Some(j), sign1) == GetSubmission(Some(j.(runs := runs, artifacts := artifacts)), sign2)
    ensures GetSubmission(Some(j), sign1).NotSucceeded?
  {
  }

  /** Readiness: a submission is ready exactly when some run carries a PR link
      and either some run carries a gist link or the writeup artifact signs to
      a non-empty URL. */
  lemma ReadyIff(j: Job, sign: string -> Option<string>)
    requires j.status == "SUCCEEDED"
    ensures GetSubmission(Some(j), sign).info.ready <==>
      (j.runs.Some? && exists i :: 0 <= i < |j.runs.value| && Truthy(j.runs.value[i].prUrl))
      && ((j.runs.Some? && exists i :: 0 <= i < |j.runs.value| && Truthy(j.runs.value[i].writeupUrl))
          || (FindWriteupArtifact(j.artifacts).Some? && Truthy(sign(FindWriteupArtifact(j.artifacts).value.objectKey))))
  {
    if j.runs.Some? {
      var rs := j.runs.value;
      if exists i :: 0 <= i < |rs| && Truthy(rs[i].prUrl) {
        var i :| 0 <= i < |rs| && Truthy(rs[i].prUrl);
        assert Truthy(PrUrls(rs)[i]);
      }
      if exists i :: 0 <= i < |rs| && Truthy(rs[i].writeupUrl) {
        var i :| 0 <= i < |rs| && Truthy(rs[i].writeupUrl);
        assert Truthy(WriteupUrls(rs)[i]);
      }
    }
  }

  /** When not ready, the message names exactly the missing links. */
  lemma MissingMessageNamesGaps(j: Job, sign: string -> Option<string>)
    requires j.status == "SUCCEEDED"
    requires !GetSubmission(Some(j), sign).info.ready
    ensures var info := GetSubmission(Some(j), sign).info;
      Contains(info.message, "PR link") <==> !Truthy(info.prUrl)
    ensures var info := GetSubmission(Some(j), sign).info;
      Contains(info.message, "writeup link") <==> !Truthy(info.writeupUrl)
  {
    var info := GetSubmission(Some(j), sign).info;
    assert info.message == Message(Truthy(info.prUrl), Truthy(info.writeupUrl));
    MissingTextNamesGaps(Truthy(info.prUrl), Truthy(info.writeupUrl));
  }

  /** The "Missing:" text mentions each link exactly when it is absent. */
  lemma MissingTextNamesGaps(hasPr: bool, hasWriteup: bool)
    requires !(hasPr && hasWriteup)
    ensures Contains(Message(hasPr, hasWriteup), "PR link") <==> !hasPr
    ensures Contains(Message(hasPr, hasWriteup), "writeup link") <==> !hasWriteup
  {
    var m := Message(hasPr, hasWriteup);
    if hasPr {
      assert m == "Missing: writeup link";
      MissingCharExcludesPr();
      assert OccursAt(m, "writeup link", 9);
    } else if hasWriteup {
      assert m == "Missing: PR link";
      assert OccursAt(m, "PR link", 9);
      MissingCharExcludesWriteup();
    } else {
      assert m == "Missing: PR link + writeup link";
      assert OccursAt(m, "PR link", 9);
      assert OccursAt(m, "writeup link", 19);
    }
  }

  /** "Missing: PR link" does not mention the writeup link: it has no 'w'. */
  lemma MissingCharExcludesWriteup()
    ensures !Contains("Missing: PR link", "writeup link")
  {
    var s := "Missing: PR link";
    forall i | 0 <= i <= |s|
      ensures !OccursAt(s, "writeup link", i)
    {
      if i + 12 <= |s| {
        assert s[i..i + 12][0] == s[i];
      }
    }
  }

  /** "Missing: writeup link" does not mention the PR link: it has no 'P'
      after its first character. */
  lemma MissingCharExcludesPr()
    ensures !Contains("Missing: writeup link", "PR link")
  {
    var s := "Missing: writeup link";
    forall i | 0 <= i <= |s|
      ensures !OccursAt(s, "PR link", i)
    {
      if i + 7 <= |s| {
        assert s[i..i + 7][0] == s[i];
      }
    }
  }

  /** The gist link, when a run carries one, is preferred to the signed
      artifact URL, and the signer is then irrelevant to the returned link. */
  lemma GistPreferred(j: Job, sign1: string -> Option<string>, sign2: string -> Option<string>)
    requires j.status == "SUCCEEDED" && j.runs.Some?
    requires exists i :: 0 <= i < |j.runs.value| && Truthy(j.runs.value[i].writeupUrl)
    ensures GetSubmission(Some(j), sign1).info.writeupUrl == GetSubmission(Some(j), sign2).info.writeupUrl
    ensures GetSubmission(Some(j), sign1).info.writeupUrl == LastTruthy(WriteupUrls(j.runs.value))
  {
    var rs := j.runs.value;
    var i :| 0 <= i < |rs| && Truthy(rs[i].writeupUrl);
    assert Truthy(WriteupUrls(rs)[i]);
  }

  /** The gist filename of a repository's writeup: "solaudit-", the owner, a
      hyphen, the name, and "-writeup.md", in that order. */
  function WriteupFilename(owner: string, name: string): (f: string)
    ensures |f| == |owner| + |name| + 21
    ensures f[..9] == "solaudit-"
    ensures f[9..9 + |owner|] == owner
    ensures f[9 + |owner|] == '-'
    ensures f[10 + |owner|..10 + |owner| + |name|] == name
    ensures f[|f| - 11..] == "-writeup.md"
  {
    var f := "solaudit-" + owner + "-" + name + "-writeup.md";
    assert f == "solaudit-" + (owner + ("-" + (name + "-writeup.md")));
    f
  }

  /** For one owner, the filename tells the repository names apart. */
  lemma FilenameSeparatesNames(owner: string, name1: string, name2: string)
    requires WriteupFilename(owner, name1) == WriteupFilename(owner, name2)
    ensures name1 == name2
  {
    var f := WriteupFilename(owner, name1);
    assert name1 == f[10 + |owner|..10 + |owner| + |name1|];
  }

  /** Across owners it does not: hyphens may sit in the owner or in the name,
      so "a-b"/"c" and "a"/"b-c" share a filename. Their descriptions, which
      separate owner and name by '/', differ. */
  lemma FilenameHyphenAmbiguity()
    ensures WriteupFilename("a-b", "c") == WriteupFilename("a", "b-c")
    ensures WriteupDescription("a-b", "c") != WriteupDescription("a", "b-c")
  {
    assert WriteupDescription("a-b", "c")[|DescriptionPrefix| + 1] == '-';
    assert WriteupDescription("a", "b-c")[|DescriptionPrefix| + 1] == '/';
  }

  const DescriptionPrefix := "[SolAudit] Security audit writeup for "

  /** The gist description naming the repository as owner/name. */
  function WriteupDescription(owner: string, name: string): (d: string)
    ensures |d| == |DescriptionPrefix| + |owner| + 1 + |name|
    ensures DescriptionPrefix <= d
    ensures d[|DescriptionPrefix|..|DescriptionPrefix| + |owner|] == owner
    ensures d[|DescriptionPrefix| + |owner|] == '/'
    ensures d[|DescriptionPrefix| + |owner| + 1..] == name
  {
    var d := DescriptionPrefix + owner + "/" + name;
    assert d == DescriptionPrefix + (owner + ("/" + name));
    d
  }

  /** Reading owner and name back from a description: after the prefix, up to
      the first '/', and the rest. */
  function ParseDescription(d: string): Option<(string, string)> {
    if DescriptionPrefix <= d then
      var rest := d[|DescriptionPrefix|..];
      match IndexOf(rest, "/")
      case None => None
      case Some(k) => Some((rest[..k], rest[k + 1..]))
    else None
  }

  /** The description names its repository: for an owner without '/', as
      GitHub owners are, the owner and the name are read back from it. */
  lemma {:induction false} DescriptionRoundTrip(owner: string, name: string)
    requires forall i :: 0 <= i < |owner| ==> owner[i] != '/'
    ensures ParseDescription(WriteupDescription(owner, name)) == Some((owner, name))
  {
    var d := WriteupDescription(owner, name);
    assert d == DescriptionPrefix + (owner + "/" + name);
    var rest := d[|DescriptionPrefix|..];
    assert rest == owner + "/" + name;
    assert OccursAt(rest, "/", |owner|);
    forall j | 0 <= j < |owner|
      ensures !OccursAt(rest, "/", j)
    {
      assert rest[j..j + 1][0] == owner[j];
    }
    assert rest[..|owner|] == owner;
    assert rest[|owner| + 1..] == name;
  }
}
