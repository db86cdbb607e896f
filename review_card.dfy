/**
 * The review card's status badge: its label and its colour classes.
 */
module ReviewCard {
  import opened Wrappers
  import opened StringOps
  import opened ContractEditDialog

  /** `statusColors[status]`: undefined for a status outside the table. */
  function StatusColors(status: string): (r: Option<string>)
    ensures r.Some? <==> ValidStatus(status)
  {
    if status == "pending" then Some("bg-yellow-500/10 text-yellow-500 border-yellow-500/50")
    else if status == "in_progress" then Some("bg-blue-500/10 text-blue-500 border-blue-500/50")
    else if status == "completed" then Some("bg-green-500/10 text-green-500 border-green-500/50")
    else None
  }

  /**
   * The badge text: 'In progress' for `in_progress`, otherwise the status
   * with its first character upper-cased.
   */
  function StatusLabel(status: string): (r: string)
    ensures status == "in_progress" ==> r == "In progress"
    ensures status != "in_progress" ==>
              |r| == |status| && (|status| > 0 ==> r[0] == ToUpperAscii(status[0]) && r[1..] == status[1..])
  {
    if status == "in_progress" then "In progress"
    else if |status| == 0 then ""
    else [ToUpperAscii(status[0])] + status[1..]
  }

  /** The three statuses of the schema read 'Pending', 'In progress' and 'Completed', three distinct labels. */
  lemma StatusLabelsDistinct()
    ensures StatusLabel("pending") == "Pending"
    ensures StatusLabel("in_progress") == "In progress"
    ensures StatusLabel("completed") == "Completed"
    ensures forall a, b :: ValidStatus(a) && ValidStatus(b) && a != b ==> StatusLabel(a) != StatusLabel(b)
  {
    assert "pending"[1..] == "ending";
    assert "completed"[1..] == "ompleted";
  }

  /** Distinct statuses of the schema get distinct colour classes. */
  lemma StatusColorsDistinct(a: string, b: string)
    requires ValidStatus(a) && ValidStatus(b) && a != b
    ensures StatusColors(a).value != StatusColors(b).value
  {
  }
}
