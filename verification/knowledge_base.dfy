/** The knowledge base: rows of (device, issue, solution) read once at
    start-up, and `getSolution`, an exact-match linear scan over them. The
    table is a parameter here instead of the server's global array. */
module KnowledgeBase {
  import opened Wrappers

  /** One CSV row, with columns Device, Issue and Solution. */
  datatype Row = Row(device: string, issue: string, solution: string)

  /** What `getSolution` answers when no row matches. */
  const NotFound: string := "Solution not found."

  /** The predicate passed to `Array.prototype.find`: strict equality on
      both key columns. */
  predicate Matches(row: Row, device: string, issue: string) {
    row.device == device && row.issue == issue
  }

  /** `kb[k]` is the lowest-index row matching the key. */
  ghost predicate FirstMatchAt(kb: seq<Row>, device: string, issue: string, k: int) {
    && 0 <= k < |kb|
    && Matches(kb[k], device, issue)
    && forall j :: 0 <= j < k ==> !Matches(kb[j], device, issue)
  }

  /** No row matches the key. */
  ghost predicate NoMatch(kb: seq<Row>, device: string, issue: string) {
    forall j :: 0 <= j < |kb| ==> !Matches(kb[j], device, issue)
  }

  /** `knowledgeBase.find(...)`, answering with the position of the row it
      finds. */
  function Find(kb: seq<Row>, device: string, issue: string): (r: Option<nat>)
    ensures r.Some? ==> FirstMatchAt(kb, device, issue, r.value)
    ensures r.None? ==> NoMatch(kb, device, issue)
  {
    if |kb| == 0 then None
    else if Matches(kb[0], device, issue) then Some(0)
    else
      match Find(kb[1..], device, issue)
      case None => None
      case Some(k) => Some(k + 1)
  }

  /** `getSolution(device, issue)`: the solution of the lowest-index
      matching row, or the not-found sentinel when no row matches. A row
      whose own solution is the sentinel text cannot be told apart from a
      miss. */
  function GetSolution(kb: seq<Row>, device: string, issue: string): (r: string)
    ensures forall k :: FirstMatchAt(kb, device, issue, k) ==> r == kb[k].solution
    ensures NoMatch(kb, device, issue) ==> r == NotFound
  {
    match Find(kb, device, issue)
    case None => NotFound
    case Some(k) => kb[k].solution
  }

  /** Every key either has a first matching row or no matching row at all,
      so the two cases of the lookup cover every table. */
  lemma LookupCases(kb: seq<Row>, device: string, issue: string)
    ensures NoMatch(kb, device, issue) || exists k :: FirstMatchAt(kb, device, issue, k)
  {
    if Find(kb, device, issue).Some? {
      assert FirstMatchAt(kb, device, issue, Find(kb, device, issue).value);
    }
  }

  /** Only the first matching row matters: two tables that agree on that row
      and whose earlier rows all fail to match give the same answer, whatever
      else they hold. */
  lemma OnlyFirstMatchMatters(kb: seq<Row>, kb': seq<Row>, device: string, issue: string, k: int)
    requires FirstMatchAt(kb, device, issue, k)
    requires k < |kb'| && kb'[k] == kb[k]
    requires forall j :: 0 <= j < k ==> !Matches(kb'[j], device, issue)
    ensures GetSolution(kb', device, issue) == GetSolution(kb, device, issue) == kb[k].solution
  {
    assert FirstMatchAt(kb', device, issue, k);
  }

  /** Looking up in two tables laid end to end: the first table answers if
      it holds a match, otherwise the second one does. */
  lemma {:induction false} GetSolutionAppend(front: seq<Row>, back: seq<Row>, device: string, issue: string)
    ensures GetSolution(front + back, device, issue) ==
              if Find(front, device, issue).Some? then GetSolution(front, device, issue)
              else GetSolution(back, device, issue)
  {
    if |front| > 0 {
      assert (front + back)[0] == front[0];
      assert (front + back)[1..] == front[1..] + back;
      GetSolutionAppend(front[1..], back, device, issue);
    } else {
      assert front + back == back;
    }
  }

  /** The example row: a table holding ("Laptop", "Slow performance",
      "Restart and update drivers") answers that solution for that key. */
  lemma ExampleLookup(rest: seq<Row>)
    ensures GetSolution([Row("Laptop", "Slow performance", "Restart and update drivers")] + rest,
                        "Laptop", "Slow performance") == "Restart and update drivers"
  {
    var kb := [Row("Laptop", "Slow performance", "Restart and update drivers")] + rest;
    assert FirstMatchAt(kb, "Laptop", "Slow performance", 0);
  }
}
