/** The keyword classifiers of the chat handler: the message is lowered, a
    fixed vocabulary is scanned in declaration order, and the first keyword
    found in the message is returned capitalised, or "Unknown". */
module Classifier {
  import opened Wrappers
  import opened Strings

  /** The label returned when no keyword occurs. */
  const Unknown: string := "Unknown"

  /** Device keywords, in the order they are tried. */
  const Devices: seq<string> := ["laptop", "phone", "mifi"]

  /** Issue phrases, in the order they are tried. */
  const Issues: seq<string> := [
    "slow performance",
    "no internet connection",
    "app crashing",
    "not charging",
    "no signal",
    "slow internet speed"
  ]

  /** `vocab[k]` is the first keyword of `vocab` that occurs in `text`. */
  ghost predicate FirstOccurring(text: string, vocab: seq<string>, k: int) {
    && 0 <= k < |vocab|
    && Occurs(text, vocab[k])
    && forall j :: 0 <= j < k ==> !Occurs(text, vocab[j])
  }

  /** No keyword of `vocab` occurs in `text`. */
  ghost predicate NoneOccurring(text: string, vocab: seq<string>) {
    forall j :: 0 <= j < |vocab| ==> !Occurs(text, vocab[j])
  }

  /** The `for ... of` loop with its early return: the index of the first
      keyword that occurs in `text`, if any. */
  function FirstMatch(text: string, vocab: seq<string>): (r: Option<nat>)
    ensures r.Some? ==> FirstOccurring(text, vocab, r.value)
    ensures r.None? ==> NoneOccurring(text, vocab)
  {
    if |vocab| == 0 then None
    else if Contains(text, vocab[0]) then Some(0)
    else
      match FirstMatch(text, vocab[1..])
      case None => None
      case Some(k) => Some(k + 1)
  }

  /** The shared body of both extractors: the capitalised first keyword
      occurring in the lowered message, or "Unknown" when none occurs. */
  function Classify(message: string, vocab: seq<string>): (r: string)
    ensures NoneOccurring(ToLower(message), vocab) ==> r == Unknown
    ensures forall k :: FirstOccurring(ToLower(message), vocab, k) ==> r == Capitalize(vocab[k])
  {
    match FirstMatch(ToLower(message), vocab)
    case None => Unknown
    case Some(k) => Capitalize(vocab[k])
  }

  /** The capitalised device keywords, in vocabulary order. */
  const DeviceLabels: seq<string> := ["Laptop", "Phone", "Mifi"]

  /** The capitalised issue phrases, in vocabulary order. */
  const IssueLabels: seq<string> := [
    "Slow performance",
    "No internet connection",
    "App crashing",
    "Not charging",
    "No signal",
    "Slow internet speed"
  ]

  /** Each device keyword capitalises to its label. */
  lemma DeviceLabelsCapitalized()
    ensures |DeviceLabels| == |Devices|
    ensures forall j :: 0 <= j < |Devices| ==> Capitalize(Devices[j]) == DeviceLabels[j]
  {
    assert UpperChar('l') == 'L';
    CapitalizeTo("laptop", "Laptop");
    assert UpperChar('p') == 'P';
    CapitalizeTo("phone", "Phone");
    assert UpperChar('m') == 'M';
    CapitalizeTo("mifi", "Mifi");
  }

  /** Issue phrase `j` capitalises to its label. */
  lemma IssueLabelCapitalized(j: int)
    requires 0 <= j < |Issues|
    ensures Capitalize(Issues[j]) == IssueLabels[j]
  {
    if j == 0 {
      assert UpperChar('s') == 'S';
      CapitalizeTo("slow performance", "Slow performance");
    } else if j == 1 {
      assert UpperChar('n') == 'N';
      CapitalizeTo("no internet connection", "No internet connection");
    } else if j == 2 {
      assert UpperChar('a') == 'A';
      CapitalizeTo("app crashing", "App crashing");
    } else if j == 3 {
      assert UpperChar('n') == 'N';
      CapitalizeTo("not charging", "Not charging");
    } else if j == 4 {
      assert UpperChar('n') == 'N';
      CapitalizeTo("no signal", "No signal");
    } else {
      assert UpperChar('s') == 'S';
      CapitalizeTo("slow internet speed", "Slow internet speed");
    }
  }

  /** Each issue phrase capitalises to its label. */
  lemma IssueLabelsCapitalized()
    ensures |IssueLabels| == |Issues|
    ensures forall j :: 0 <= j < |Issues| ==> Capitalize(Issues[j]) == IssueLabels[j]
  {
    forall j | 0 <= j < |Issues|
      ensures Capitalize(Issues[j]) == IssueLabels[j]
    {
      IssueLabelCapitalized(j);
    }
  }

  /** `extractDeviceFromMessage`. */
  function ExtractDevice(message: string): (r: string)
    ensures r in {"Laptop", "Phone", "Mifi", "Unknown"}
  {
    DeviceLabelsCapitalized();
    Classify(message, Devices)
  }

  /** `extractIssueFromMessage`. */
  function ExtractIssue(message: string): (r: string)
    ensures r in {"Slow performance", "No internet connection", "App crashing",
                  "Not charging", "No signal", "Slow internet speed", "Unknown"}
  {
    IssueLabelsCapitalized();
    Classify(message, Issues)
  }

  /** At most one index is the first occurring one. */
  lemma FirstOccurringUnique(text: string, vocab: seq<string>, k: int, k': int)
    requires FirstOccurring(text, vocab, k) && FirstOccurring(text, vocab, k')
    ensures k == k'
  {
  }

  /** Against a vocabulary whose labels are pairwise distinct and never
      "Unknown", the classifier's answer is the label of the first occurring
      keyword, and "Unknown" exactly when none occurs. */
  lemma ClassifyLabels(message: string, vocab: seq<string>, labels: seq<string>)
    requires |labels| == |vocab|
    requires forall j :: 0 <= j < |vocab| ==> Capitalize(vocab[j]) == labels[j]
    requires forall i, j :: 0 <= i < j < |labels| ==> labels[i] != labels[j]
    requires forall j :: 0 <= j < |labels| ==> labels[j] != Unknown
    ensures forall k :: 0 <= k < |vocab| ==>
              (Classify(message, vocab) == labels[k] <==> FirstOccurring(ToLower(message), vocab, k))
    ensures Classify(message, vocab) == Unknown <==> NoneOccurring(ToLower(message), vocab)
  {
    var text := ToLower(message);
    forall k | 0 <= k < |vocab|
      ensures Classify(message, vocab) == labels[k] <==> FirstOccurring(text, vocab, k)
    {
      match FirstMatch(text, vocab)
      case None =>
      case Some(m) =>
        if FirstOccurring(text, vocab, k) {
          FirstOccurringUnique(text, vocab, k, m);
        }
        if m < k {
          assert labels[m] != labels[k];
        } else if k < m {
          assert labels[k] != labels[m];
        }
    }
  }

  /** The device labels are pairwise distinct and differ from "Unknown". */
  lemma DeviceLabelsDistinct()
    ensures forall i, j :: 0 <= i < j < |DeviceLabels| ==> DeviceLabels[i] != DeviceLabels[j]
    ensures forall j :: 0 <= j < |DeviceLabels| ==> DeviceLabels[j] != Unknown
  {
  }

  /** The issue labels are pairwise distinct and differ from "Unknown". */
  lemma IssueLabelsDistinct()
    ensures forall i, j :: 0 <= i < j < |IssueLabels| ==> IssueLabels[i] != IssueLabels[j]
    ensures forall j :: 0 <= j < |IssueLabels| ==> IssueLabels[j] != Unknown
  {
  }

  /** `extractDeviceFromMessage` in terms of where the three keywords occur
      in the lowered message: "laptop" wins over everything, "phone" is
      reported only without "laptop", "mifi" only without both, and
      "Unknown" exactly when none occurs. */
  lemma ExtractDeviceFirstMatch(message: string)
    ensures var text := ToLower(message);
      && (ExtractDevice(message) == "Laptop" <==> Occurs(text, "laptop"))
      && (ExtractDevice(message) == "Phone" <==> !Occurs(text, "laptop") && Occurs(text, "phone"))
      && (ExtractDevice(message) == "Mifi" <==>
            !Occurs(text, "laptop") && !Occurs(text, "phone") && Occurs(text, "mifi"))
      && (ExtractDevice(message) == Unknown <==>
            !Occurs(text, "laptop") && !Occurs(text, "phone") && !Occurs(text, "mifi"))
  {
    DeviceLabelsCapitalized();
    DeviceLabelsDistinct();
    ClassifyLabels(message, Devices, DeviceLabels);
    var text := ToLower(message);
    if Occurs(text, "laptop") {
      assert FirstOccurring(text, Devices, 0);
    } else if Occurs(text, "phone") {
      assert FirstOccurring(text, Devices, 1);
    } else if Occurs(text, "mifi") {
      assert FirstOccurring(text, Devices, 2);
    } else {
      assert NoneOccurring(text, Devices);
    }
  }

  /** `extractIssueFromMessage` reports the label of the first listed phrase
      that occurs in the lowered message, and "Unknown" exactly when none of
      the six occurs. */
  lemma ExtractIssueFirstMatch(message: string)
    ensures |IssueLabels| == |Issues|
    ensures forall k :: 0 <= k < |Issues| ==>
              (ExtractIssue(message) == IssueLabels[k] <==> FirstOccurring(ToLower(message), Issues, k))
    ensures ExtractIssue(message) == Unknown <==> NoneOccurring(ToLower(message), Issues)
  {
    IssueLabelsCapitalized();
    IssueLabelsDistinct();
    ClassifyLabels(message, Issues, IssueLabels);
  }

  /** Matching ignores case: messages that differ only in the case of their
      letters get the same device and the same issue. */
  lemma ClassifiersIgnoreCase(a: string, b: string)
    requires SameIgnoringCase(a, b)
    ensures ExtractDevice(a) == ExtractDevice(b)
    ensures ExtractIssue(a) == ExtractIssue(b)
  {
    ToLowerSameIgnoringCase(a, b);
  }

  /** In particular a message and its lowered form classify identically. */
  lemma ClassifiersIgnoreLowering(message: string)
    ensures ExtractDevice(ToLower(message)) == ExtractDevice(message)
    ensures ExtractIssue(ToLower(message)) == ExtractIssue(message)
  {
    ToLowerIdempotent(message);
  }

  /** The worked example, for every message shaped like "My laptop has
      slow performance": both keywords lead their vocabularies, so whatever
      else the message says, it is classified as a slow laptop. */
  lemma SlowLaptopMessage(message: string)
    requires Occurs(ToLower(message), "laptop")
    requires Occurs(ToLower(message), "slow performance")
    ensures ExtractDevice(message) == "Laptop"
    ensures ExtractIssue(message) == "Slow performance"
  {
    ExtractDeviceFirstMatch(message);
    ExtractIssueFirstMatch(message);
    assert FirstOccurring(ToLower(message), Issues, 0);
  }
}
