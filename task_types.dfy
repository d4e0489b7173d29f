/** types/index.ts: the task status and priority enumerations and their wire names. */
module TaskTypes {
  import opened Wrappers

  datatype Status = Pending | InProgress | Completed
  datatype Priority = Low | Medium | High

  function StatusName(s: Status): string {
    match s
    case Pending => "PENDING"
    case InProgress => "IN_PROGRESS"
    case Completed => "COMPLETED"
  }

  function PriorityName(p: Priority): string {
    match p
    case Low => "LOW"
    case Medium => "MEDIUM"
    case High => "HIGH"
  }

  /** The status a string names, when it is one of the three names exactly. */
  function ParseStatus(s: string): (r: Option<Status>)
    ensures r.Some? ==> StatusName(r.value) == s
  {
    if s == "PENDING" then Some(Pending)
    else if s == "IN_PROGRESS" then Some(InProgress)
    else if s == "COMPLETED" then Some(Completed)
    else None
  }

  /** The priority a string names, when it is one of the three names exactly. */
  function ParsePriority(s: string): (r: Option<Priority>)
    ensures r.Some? ==> PriorityName(r.value) == s
  {
    if s == "LOW" then Some(Low)
    else if s == "MEDIUM" then Some(Medium)
    else if s == "HIGH" then Some(High)
    else None
  }

  /** Every status is recognised by its own name, so a string is accepted exactly when it is some status's name. */
  lemma StatusNamesRoundTrip(st: Status, s: string)
    ensures ParseStatus(StatusName(st)) == Some(st)
    ensures ParseStatus(s).Some? <==> exists x :: StatusName(x) == s
  {
    if exists x :: StatusName(x) == s {
      var x :| StatusName(x) == s;
      assert ParseStatus(StatusName(x)) == Some(x);
    }
  }

  lemma PriorityNamesRoundTrip(p: Priority, s: string)
    ensures ParsePriority(PriorityName(p)) == Some(p)
    ensures ParsePriority(s).Some? <==> exists x :: PriorityName(x) == s
  {
    if exists x :: PriorityName(x) == s {
      var x :| PriorityName(x) == s;
      assert ParsePriority(PriorityName(x)) == Some(x);
    }
  }
}
