/** The POST /api/chat handler: the user's message goes to the generative
    model, the message is classified by device and issue, the knowledge base
    is consulted, and the model's text and the canned solution are joined
    into one reply. The model call itself is an input: `Some(text)` when it
    returns text, `None` when any step of it throws. */
module Chat {
  import opened Wrappers
  import opened Strings
  import opened Classifier
  import opened KnowledgeBase

  /** What the reply template puts between the model's text and the
      solution. */
  const Separator: string := "\n\nAdditional Info: "

  /** The error message of the single failure path. */
  const ProcessingError: string := "Failed to process the AI response"

  /** The JSON body: `{ reply }` or `{ error }`. */
  datatype Body = Reply(reply: string) | Error(error: string)

  /** An HTTP status with its JSON body. */
  datatype Response = Response(status: nat, body: Body)

  /** The reply template `${text}\n\nAdditional Info: ${solution}`: the
      model's text comes first, the separator follows it, and the solution
      fills the rest. */
  function ComposeReply(text: string, solution: string): (r: string)
    ensures |r| == |text| + |Separator| + |solution|
    ensures text <= r
    ensures r[|text|..|text| + |Separator|] == Separator
    ensures r[|text| + |Separator|..] == solution
  {
    var r := text + Separator + solution;
    assert r == text + (Separator + solution);
    assert r[|text|..] == Separator + solution;
    r
  }

  /** Reads the solution back out of a reply, given the model's text. */
  function SolutionOf(reply: string, text: string): Option<string> {
    var head := text + Separator;
    if |head| <= |reply| && reply[..|head|] == head then Some(reply[|head|..]) else None
  }

  /** Composing and reading back are inverse: the solution is recovered from
      a composed reply, and a reply that yields a solution is exactly the
      composition of the text with it. */
  lemma ComposeRoundTrip(text: string, solution: string, reply: string)
    ensures SolutionOf(ComposeReply(text, solution), text) == Some(solution)
    ensures SolutionOf(reply, text) == Some(solution) ==> reply == ComposeReply(text, solution)
  {
    var head := text + Separator;
    var composed := ComposeReply(text, solution);
    assert composed == head + solution;
    assert composed[..|head|] == head;
    if SolutionOf(reply, text) == Some(solution) {
      assert reply == reply[..|head|] + reply[|head|..];
    }
  }

  /** The handler: 200 exactly when the model answered and the message is a
      string, with a reply that starts with the model's text; otherwise 500
      with the fixed error, whatever the table holds. A `message` of `None`
      stands for a body whose `message` is not a string: classifying it
      throws inside the same `try`, so it ends on the error path too. */
  function HandleChat(kb: seq<Row>, message: Option<string>, modelText: Option<string>): (r: Response)
    ensures r.status == 200 <==> message.Some? && modelText.Some?
    ensures r.status != 200 ==> r == Response(500, Error(ProcessingError))
    ensures r.status == 200 ==> r.body.Reply? && modelText.value <= r.body.reply
  {
    if modelText.None? || message.None? then
      Response(500, Error(ProcessingError))
    else
      var device := ExtractDevice(message.value);
      var issue := ExtractIssue(message.value);
      Response(200, Reply(ComposeReply(modelText.value, GetSolution(kb, device, issue))))
  }

  /** On the success path the reply reads back as the solution looked up
      for the device and the issue extracted from the message. */
  lemma HandleChatSpec(kb: seq<Row>, message: string, modelText: string)
    ensures var r := HandleChat(kb, Some(message), Some(modelText));
      && r.status == 200
      && SolutionOf(r.body.reply, modelText) ==
           Some(GetSolution(kb, ExtractDevice(message), ExtractIssue(message)))
  {
    var solution := GetSolution(kb, ExtractDevice(message), ExtractIssue(message));
    ComposeRoundTrip(modelText, solution, ComposeReply(modelText, solution));
  }

  /** The solution in a successful reply is the sentinel or the solution of a
      table row whose key is a device label and an issue label the
      classifiers can produce. */
  lemma ReplySolutionFromTable(kb: seq<Row>, message: string, modelText: string)
    ensures var r := HandleChat(kb, Some(message), Some(modelText));
      var solution := SolutionOf(r.body.reply, modelText).value;
      || solution == NotFound
      || exists j :: 0 <= j < |kb| && kb[j].solution == solution
           && kb[j].device in {"Laptop", "Phone", "Mifi", "Unknown"}
           && kb[j].issue in {"Slow performance", "No internet connection", "App crashing",
                              "Not charging", "No signal", "Slow internet speed", "Unknown"}
  {
    HandleChatSpec(kb, message, modelText);
    var device := ExtractDevice(message);
    var issue := ExtractIssue(message);
    LookupCases(kb, device, issue);
  }

  /** End to end: with the example row first in the table, a message about
      a slow laptop gets the model's text followed by that row's solution. */
  lemma ExampleChat(rest: seq<Row>, message: string, modelText: string)
    requires Occurs(ToLower(message), "laptop")
    requires Occurs(ToLower(message), "slow performance")
    ensures HandleChat([Row("Laptop", "Slow performance", "Restart and update drivers")] + rest,
                       Some(message), Some(modelText))
            == Response(200, Reply(modelText + Separator + "Restart and update drivers"))
  {
    SlowLaptopMessage(message);
    ExampleLookup(rest);
  }
}
