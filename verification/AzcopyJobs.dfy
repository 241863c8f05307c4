/** Reading the azcopy job list: the parser of its printed form against a plain
    reading of the records it shows. */
module AzcopyJobs {
  import opened Strings

  datatype JobState =
    | Error | NotFound | Running
    | Completed | CompletedWithErrors | CompletedWithSkipped | CompletedWithErrorsAndSkipped

  /** One record of the listing, and whatever the listing puts after it. */
  datatype Job = Job(id: string, start: string, status: string, command: string, gap: string)

  const MARK := "JobId: "

  /** The state a finished record's status stands for; NotFound for any other. */
  function Finished(status: string): JobState {
    if status == "Completed" then Completed
    else if status == "CompletedWithErrors" then CompletedWithErrors
    else if status == "CompletedWithSkipped" then CompletedWithSkipped
    else if status == "CompletedWithErrorsAndSkipped" then CompletedWithErrorsAndSkipped
    else NotFound
  }

  // ---------- the plain reading ----------

  /** The id of the last record in progress, or what stood before. */
  function LastInProgress(jobs: seq<Job>, before: string): string {
    if jobs == [] then before
    else LastInProgress(jobs[1..], if jobs[0].status == "InProgress" then jobs[0].id else before)
  }

  function FirstFinished(jobs: seq<Job>): (state: JobState)
    ensures state != Running && state != Error
  {
    if jobs == [] then NotFound
    else if Finished(jobs[0].status) != NotFound then Finished(jobs[0].status)
    else FirstFinished(jobs[1..])
  }

  /** The first finished record decides; failing that, a record in progress. */
  function Verdict(jobs: seq<Job>): JobState {
    if FirstFinished(jobs) != NotFound then FirstFinished(jobs)
    else if LastInProgress(jobs, "") != "" then Running
    else NotFound
  }

  // ---------- the parser ----------

  /** What the parser's loop makes of the remaining segments. */
  function Scan(segments: seq<string>, jobid: string): (string, JobState) {
    if segments == [] then (jobid, if jobid == "" then NotFound else Running)
    else
      var lines := Split(segments[0], "\n");
      if |lines| < 4 then (jobid, Error)
      else
        var status := Split(lines[2], ": ");
        if |status| < 2 then (jobid, Error)
        else if Finished(status[1]) != NotFound then (jobid, Finished(status[1]))
        else Scan(segments[1..], if status[1] == "InProgress" then lines[0] else jobid)
  }

  function ParseJobList(joblist: string): (string, JobState) {
    Scan(Split(joblist, MARK)[1..], "")
  }

  /** The parser's answer is the plain reading of the records. */
  predicate ReadAs(answer: (string, JobState), jobs: seq<Job>) {
    && answer.1 == Verdict(jobs)
    && (answer.1 == Running ==> answer.0 == LastInProgress(jobs, ""))
  }

  method ParseAzcopyJobList(joblist: string) returns (jobid: string, state: JobState)
    ensures (jobid, state) == ParseJobList(joblist)
  {
    jobid := "";
    var segments := Split(joblist, MARK);
    if |segments| < 2 {
      return "", NotFound;
    }
    segments := segments[1..];
    var i := 0;
    while i < |segments|
      invariant 0 <= i <= |segments|
      invariant Scan(segments, "") == Scan(segments[i..], jobid)
    {
      var lines := Split(segments[i], "\n");
      if |lines| < 4 {
        return jobid, Error;
      }
      var statusSegments := Split(lines[2], ": ");
      if |statusSegments| < 2 {
        return jobid, Error;
      }
      var status := statusSegments[1];
      if status == "InProgress" {
        jobid := lines[0];
      } else if Finished(status) != NotFound {
        return jobid, Finished(status);
      }
      i := i + 1;
    }
    state := if jobid == "" then NotFound else Running;
  }

  // ---------- the printed form ----------

  function Record(j: Job): string {
    Chain([j.id, "Start Time: " + j.start, "Status: " + j.status], "\n", "Command: " + j.command + "\n" + j.gap)
  }

  function Records(jobs: seq<Job>): seq<string>
  {
    if jobs == [] then [] else [Record(jobs[0])] + Records(jobs[1..])
  }

  /** What is printed: each record behind its marker, after some heading. */
  function Listing(head: string, jobs: seq<Job>): string {
    Join([head] + Records(jobs), MARK)
  }

  /** The record's fields fit on their lines, its status carries no ": ", and the marker
      stands only at its head. */
  predicate WellFormed(j: Job) {
    && '\n' !in j.id && '\n' !in j.start && '\n' !in j.status
    && Lacks(j.status, ": ")
    && Lacks(Record(j), MARK)
  }

  lemma ChainFirst(part: string, parts: seq<string>, sep: string, rest: string)
    ensures Chain([part] + parts, sep, rest) == part + sep + Chain(parts, sep, rest)
  {
    assert ([part] + parts)[1..] == parts;
  }

  /** How a listing of one record looks. */
  lemma PrintedForm(head: string, j: Job)
    ensures Listing(head, [j])
            == head + "JobId: " + (j.id + "\n" + ("Start Time: " + j.start + "\n" + ("Status: " + j.status + "\n"
               + ("Command: " + j.command + "\n" + j.gap))))
  {
    var rest := "Command: " + j.command + "\n" + j.gap;
    var start, status := "Start Time: " + j.start, "Status: " + j.status;
    JoinFirst(head, [Record(j)], MARK);
    JoinOne(Record(j), MARK);
    assert Records([j]) == [Record(j)];
    ChainFirst(j.id, [start, status], "\n", rest);
    ChainFirst(start, [status], "\n", rest);
    ChainFirst(status, [], "\n", rest);
    assert [j.id] + [start, status] == [j.id, start, status] && [start] + [status] == [start, status] && [status] + [] == [status];
  }

  /** The lines of one record. */
  lemma SplitRecord(j: Job)
    requires WellFormed(j)
    ensures
      var lines := Split(Record(j), "\n");
      && |lines| >= 4 && lines[0] == j.id && lines[2] == "Status: " + j.status
      && Split(lines[2], ": ") == ["Status", j.status]
  {
    var rest := "Command: " + j.command + "\n" + j.gap;
    var head := [j.id, "Start Time: " + j.start, "Status: " + j.status];
    forall p | p in head ensures CutsAtEnd(p, "\n") {
      AvoidsChar(p, '\n');
    }
    SplitChain(head, "\n", rest);
    SplitStatus(j.status);
  }

  predicate AllWellFormed(jobs: seq<Job>) {
    jobs == [] || (WellFormed(jobs[0]) && AllWellFormed(jobs[1..]))
  }

  lemma SplitStatus(status: string)
    requires Lacks(status, ": ")
    ensures Split("Status: " + status, ": ") == ["Status", status]
  {
    assert "Status: " + status == "Status" + ": " + status;
    assert ':' !in "Status";
    forall k | 0 <= k < 6 ensures !HasAt("Status" + ": ", ": ", k) {
      assert ("Status" + ": ")[k..k + 2][0] == "Status"[k];
    }
    assert HasAt("Status" + ": ", ": ", 6);
    SplitFirst("Status", ": ", status);
    assert IndexOf(status, ": ") == |status|;
  }

  lemma {:induction false} ScanRecords(jobs: seq<Job>, jobid: string)
    requires AllWellFormed(jobs)
    ensures
      var (id, state) := Scan(Records(jobs), jobid);
      if FirstFinished(jobs) != NotFound then state == FirstFinished(jobs)
      else id == LastInProgress(jobs, jobid) && state == if id == "" then NotFound else Running
  {
    if jobs != [] {
      SplitRecord(jobs[0]);
      assert Records(jobs)[1..] == Records(jobs[1..]);
      ScanRecords(jobs[1..], if jobs[0].status == "InProgress" then jobs[0].id else jobid);
    }
  }

  lemma MarkFoundWhole(part: string)
    requires Lacks(part, MARK)
    ensures CutsAtEnd(part, MARK)
  {
    FoundWhole(part, MARK);
  }

  lemma {:induction false} RecordsFound(jobs: seq<Job>, p: string)
    requires AllWellFormed(jobs) && p in Records(jobs)
    ensures CutsAtEnd(p, MARK) && Lacks(p, MARK)
  {
    if p == Record(jobs[0]) {
      MarkFoundWhole(p);
    } else {
      RecordsFound(jobs[1..], p);
    }
  }

  lemma SplitListing(head: string, jobs: seq<Job>)
    requires Lacks(head, MARK) && AllWellFormed(jobs)
    ensures Split(Listing(head, jobs), MARK) == [head] + Records(jobs)
  {
    var parts := [head] + Records(jobs);
    forall p | p in parts ensures CutsAtEnd(p, MARK) && Lacks(p, MARK) {
      if p == head {
        MarkFoundWhole(p);
      } else {
        RecordsFound(jobs, p);
      }
    }
    SplitJoin(parts, MARK);
  }

  /** The parser reads a printed listing of well-formed records as the plain
      reading does, and a running verdict names the last record in progress. */
  lemma ParsesListing(head: string, jobs: seq<Job>)
    requires Lacks(head, MARK) && AllWellFormed(jobs)
    ensures ReadAs(ParseJobList(Listing(head, jobs)), jobs)
  {
    SplitListing(head, jobs);
    DropHead(head, Records(jobs));
    ScanRecords(jobs, "");
  }

  lemma DropHead(head: string, rest: seq<string>)
    ensures ([head] + rest)[1..] == rest
  {
  }

  // ---------- the reported state ----------

  /** What a command gives: its output, with exit status 1 or not, or an error. */
  datatype Output = Printed(text: string) | ExitOne(text: string) | Broken

  /** GetAzcopyJob: lists, and asks again for a job in progress. */
  function GetAzcopyJob(list: Output, show: Output): JobState {
    if list.Broken? then Error
    else
      var (id, state) := ParseJobList(list.text);
      if state != Running then state
      else if !show.Printed? || |Split(show.text, ": ")| < 2 then Error
      else Running
  }

  /** The state reported for a share is an error when the list cannot be had; otherwise
      the plain reading of its records, but an error when one is in progress and its
      progress cannot be had. Grep finding nothing counts as an empty listing. */
  lemma ReportsVerdict(list: Output, show: Output, head: string, jobs: seq<Job>)
    requires Lacks(head, MARK) && AllWellFormed(jobs) && (list.Broken? || list.text == Listing(head, jobs))
    ensures GetAzcopyJob(list, show)
            == if list.Broken? then Error
               else if Verdict(jobs) == Running && (!show.Printed? || Lacks(show.text, ": ")) then Error
               else Verdict(jobs)
  {
    if !list.Broken? {
      ParsesListing(head, jobs);
      if show.Printed? {
        AtLeastTwo(show.text);
      }
    }
  }

  lemma AtLeastTwo(text: string)
    ensures |Split(text, ": ")| < 2 <==> Lacks(text, ": ")
  {
  }

  // ---------- what a verdict tells ----------

  lemma {:induction false} LastIsOne(jobs: seq<Job>, before: string)
    ensures LastInProgress(jobs, before) == before || exists j :: j in jobs && j.status == "InProgress"
    ensures (forall j :: j in jobs ==> j.id != "") && before == "" && LastInProgress(jobs, before) == "" ==>
      forall j :: j in jobs ==> j.status != "InProgress"
    ensures (forall j :: j in jobs ==> j.id != "") && before != "" ==> LastInProgress(jobs, before) != ""
  {
    if jobs != [] {
      LastIsOne(jobs[1..], if jobs[0].status == "InProgress" then jobs[0].id else before);
    }
  }

  lemma {:induction false} FirstIsOne(jobs: seq<Job>)
    ensures FirstFinished(jobs) == NotFound <==> forall j :: j in jobs ==> Finished(j.status) == NotFound
    ensures FirstFinished(jobs) != NotFound ==> exists j :: j in jobs && Finished(j.status) == FirstFinished(jobs)
  {
    if jobs != [] {
      FirstIsOne(jobs[1..]);
    }
  }

  /** When every record has an id: "not found" means no record is in progress or
      finished, "running" that some record is in progress and none finished, and a
      finished state that some record ended in it, by the name that azcopy prints. */
  lemma VerdictTells(jobs: seq<Job>)
    requires forall j :: j in jobs ==> j.id != ""
    ensures Verdict(jobs) == NotFound <==> forall j :: j in jobs ==> j.status != "InProgress" && Finished(j.status) == NotFound
    ensures Verdict(jobs) == Running ==>
      (exists j :: j in jobs && j.status == "InProgress") && forall j :: j in jobs ==> Finished(j.status) == NotFound
    ensures Verdict(jobs) != NotFound && Verdict(jobs) != Running ==> exists j :: j in jobs && Finished(j.status) == Verdict(jobs)
    ensures Verdict(jobs) != Error
    ensures Verdict(jobs) == Completed ==> exists j :: j in jobs && j.status == "Completed"
    ensures Verdict(jobs) == CompletedWithErrors ==> exists j :: j in jobs && j.status == "CompletedWithErrors"
    ensures Verdict(jobs) == CompletedWithSkipped ==> exists j :: j in jobs && j.status == "CompletedWithSkipped"
    ensures Verdict(jobs) == CompletedWithErrorsAndSkipped ==> exists j :: j in jobs && j.status == "CompletedWithErrorsAndSkipped"
  {
    LastIsOne(jobs, "");
    FirstIsOne(jobs);
  }
}
