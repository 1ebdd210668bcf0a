/** The agent record the console receives from the backend's listing (the
    `MCPAgent` interface of the frontend API client), the key the listing
    groups it by, and the display label derived from that key, which the
    listing and the chat view compute the same way. */
module Records {
  import opened Base
  import opened Text

  /** One agent as listed by the backend. `args` and `env` are optional in
      the record type; `fileName` is the batch file the agent was created in
      (absent or empty when none was found) and `fileId` that file's id
      (0 when none). The timestamps are display-only and left out. */
  datatype Agent = Agent(
    id: int,
    name: string,
    agentType: string,
    command: string,
    args: Option<seq<string>>,
    env: Option<map<string, string>>,
    isActive: bool,
    fileName: Option<string>,
    fileId: int)

  /** The group of agents without a batch file. */
  const Ungrouped: string := "Ungrouped"

  /** The suffix stripped from a batch file name before taking its digits. */
  const JsonExtension: string := ".json"

  /** The prefix of every label derived from a batch file name. */
  const GroupedPrefix: string := "Grouped Agent "

  /** JavaScript truthiness of an optional string: present and non-empty. */
  predicate Truthy(s: Option<string>) {
    s.Some? && s.value != ""
  }

  /** `agent.file_name || "Ungrouped"`. */
  function GroupKey(a: Agent): (k: string)
    ensures Truthy(a.fileName) ==> k == a.fileName.value
    ensures !Truthy(a.fileName) ==> k == Ungrouped
  {
    if Truthy(a.fileName) then a.fileName.value else Ungrouped
  }

  /** The name without a trailing `.json`. */
  function StripJson(name: string): (r: string)
    ensures EndsWith(name, JsonExtension) ==> r + JsonExtension == name
    ensures !EndsWith(name, JsonExtension) ==> r == name
  {
    if EndsWith(name, JsonExtension) then name[..|name| - |JsonExtension|] else name
  }

  /** The text matched by the regular expression `\d{4}$`: the last four
      characters when all four are digits, otherwise nothing. */
  function LastFourDigits(s: string): (d: string)
    ensures d == "" || (|d| == 4 && EndsWith(s, d) && forall i :: 0 <= i < 4 ==> IsDigit(d[i]))
    ensures d == "" <==> !(|s| >= 4 && forall i :: |s| - 4 <= i < |s| ==> IsDigit(s[i]))
  {
    if |s| >= 4 && forall i :: |s| - 4 <= i < |s| ==> IsDigit(s[i]) then s[|s| - 4..] else ""
  }

  /** `"Grouped Agent "` followed by the trailing four digits of the file name
      with `.json` removed, or by nothing when there are none. */
  function GroupedLabel(fileName: string): (shown: string)
    ensures StartsWith(shown, GroupedPrefix)
    ensures |shown| == |GroupedPrefix| || |shown| == |GroupedPrefix| + 4
  {
    GroupedPrefix + LastFourDigits(StripJson(fileName))
  }

  /** The worked example: a batch file `batch0001.json` labels its group
      `Grouped Agent 0001`. */
  lemma GroupedLabelExample()
    ensures GroupedLabel("batch0001.json") == "Grouped Agent 0001"
  {
    assert EndsWith("batch0001.json", JsonExtension);
    assert StripJson("batch0001.json") == "batch0001";
    assert LastFourDigits("batch0001") == "0001";
  }

  /** Two file names that differ before their last four digits share a label:
      the label is not a unique name for the group. */
  lemma GroupedLabelCollides()
    ensures GroupedLabel("a0001.json") == GroupedLabel("b0001.json")
  {
    assert StripJson("a0001.json") == "a0001";
    assert StripJson("b0001.json") == "b0001";
    assert LastFourDigits("a0001") == "0001";
    assert LastFourDigits("b0001") == "0001";
  }

  /** A file name without four trailing digits gets the bare prefix. */
  lemma GroupedLabelNoDigits()
    ensures GroupedLabel("alpha.json") == GroupedPrefix
  {
    assert StripJson("alpha.json") == "alpha";
    assert !IsDigit("alpha"[4]);
    assert LastFourDigits("alpha") == "";
  }

  /** A batch file name ending in four digits, with or without `.json`,
      is labelled by exactly those digits. */
  lemma GroupedLabelDigits(stem: string, digits: string)
    requires |digits| == 4 && forall i :: 0 <= i < 4 ==> IsDigit(digits[i])
    ensures GroupedLabel(stem + digits + JsonExtension) == GroupedPrefix + digits
    ensures GroupedLabel(stem + digits) == GroupedPrefix + digits
  {
    var withExt := stem + digits + JsonExtension;
    assert withExt[|withExt| - |JsonExtension|..] == JsonExtension;
    assert StripJson(withExt) == stem + digits;
    var bare := stem + digits;
    assert bare[|bare| - 4..] == digits;
    assert !EndsWith(bare, JsonExtension) by {
      assert bare[|bare| - 1] == digits[3];
    }
  }
}
