/**
 * components/tasks/task-card.tsx and components/tasks/edit-task-content.tsx:
 * the badge text of a status. `String.replace` with a string pattern
 * replaces the first occurrence only.
 */
module TaskCard {
  import opened Strings
  import opened TaskTypes

  /** `status.replace("_", " ")`. */
  function FormatStatus(s: string): (r: string)
    ensures |r| == |s|
    ensures '_' !in s ==> r == s
    ensures '_' in s ==> var k := IndexOf(s, '_'); r == s[..k] + " " + s[k + 1..]
  {
    if s == [] then []
    else if s[0] == '_' then " " + s[1..]
    else
      var rest := FormatStatus(s[1..]);
      assert '_' in s ==> '_' in s[1..] && IndexOf(s, '_') == IndexOf(s[1..], '_') + 1;
      [s[0]] + rest
  }

  /** Exactly one character changes: the first underscore becomes a space, and later ones stay. */
  lemma OnlyFirstReplaced(s: string)
    requires '_' in s
    ensures var k := IndexOf(s, '_');
      && FormatStatus(s)[k] == ' '
      && forall i :: 0 <= i < |s| && i != k ==> FormatStatus(s)[i] == s[i]
  {
    var k := IndexOf(s, '_');
    var r := FormatStatus(s);
    assert r == s[..k] + " " + s[k + 1..];
    forall i | 0 <= i < |s| && i != k
      ensures r[i] == s[i]
    {
      if i < k {
        assert r[i] == s[..k][i];
      } else {
        assert r[i] == s[k + 1..][i - k - 1];
      }
    }
  }

  /** The three statuses read "PENDING", "IN PROGRESS" and "COMPLETED". */
  lemma StatusLabels()
    ensures FormatStatus(StatusName(Pending)) == "PENDING"
    ensures FormatStatus(StatusName(InProgress)) == "IN PROGRESS"
    ensures FormatStatus(StatusName(Completed)) == "COMPLETED"
  {
    var p := "PENDING";
    assert forall i :: 0 <= i < |p| ==> p[i] != '_';
    var c := "COMPLETED";
    assert forall i :: 0 <= i < |c| ==> c[i] != '_';
    var n := "IN_PROGRESS";
    assert n[2] == '_' && '_' !in n[..2];
    assert IndexOf(n, '_') == 2;
    assert n[..2] + " " + n[3..] == "IN PROGRESS";
  }
}
