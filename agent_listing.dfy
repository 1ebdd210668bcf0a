/** The agent list (frontend/components/agent-listing.tsx): agents grouped
    by their batch file, the group headers, the optimistic list updates
    after create and edit, the sequential group delete, and the set of
    started files that decides which start buttons are enabled. */
module Listing {
  import opened Base
  import opened Text
  import opened Records

  /** Membership in the group with key `k`. */
  function KeyIs(k: string): Agent -> bool {
    (a: Agent) => GroupKey(a) == k
  }

  /** The members of the group with key `k`, in list order. */
  function Members(agents: seq<Agent>, k: string): seq<Agent> {
    Filter(agents, KeyIs(k))
  }

  /** The group keys in order of first appearance: the order in which the
      `forEach` creates the entries of `groups`. */
  function GroupKeys(agents: seq<Agent>): (keys: seq<string>)
    ensures Distinct(keys)
  {
    if agents == [] then []
    else
      var init := agents[..|agents| - 1];
      var k := GroupKey(agents[|agents| - 1]);
      var keys := GroupKeys(init);
      if k in keys then keys else keys + [k]
  }

  /** The keys are exactly the keys of the listed agents. */
  lemma {:induction false} GroupKeysCover(agents: seq<Agent>, k: string)
    ensures k in GroupKeys(agents) <==> exists i :: 0 <= i < |agents| && GroupKey(agents[i]) == k
  {
    if agents != [] {
      var init := agents[..|agents| - 1];
      GroupKeysCover(init, k);
      if exists i :: 0 <= i < |init| && GroupKey(init[i]) == k {
        var i :| 0 <= i < |init| && GroupKey(init[i]) == k;
        assert agents[i] == init[i];
      }
      if exists i :: 0 <= i < |agents| && GroupKey(agents[i]) == k {
        var i :| 0 <= i < |agents| && GroupKey(agents[i]) == k;
        if i < |init| {
          assert agents[i] == init[i];
        }
      }
    }
  }

  /** Adding an agent at the end adds it to its own group only. */
  lemma MembersSnoc(agents: seq<Agent>, a: Agent, k: string)
    ensures Members(agents + [a], k) == Members(agents, k) + (if GroupKey(a) == k then [a] else [])
  {
    FilterAppend(agents, [a], KeyIs(k));
    assert Filter([a], KeyIs(k)) == (if GroupKey(a) == k then [a] else []) by {
      assert [a][1..] == [];
    }
  }

  /** A key has members exactly when it is one of the group keys. */
  lemma MembersEmptyIff(agents: seq<Agent>, k: string)
    ensures Members(agents, k) == [] <==> k !in GroupKeys(agents)
  {
    GroupKeysCover(agents, k);
    if k !in GroupKeys(agents) {
      FilterNone(agents, KeyIs(k));
    } else {
      var i :| 0 <= i < |agents| && GroupKey(agents[i]) == k;
      FilterMembership(agents, KeyIs(k), agents[i]);
    }
  }

  /** Every agent lies in the group of its own key and in no other. */
  lemma ExactlyOneGroup(agents: seq<Agent>, i: nat, k: string)
    requires i < |agents|
    ensures agents[i] in Members(agents, k) <==> GroupKey(agents[i]) == k
  {
    FilterMembership(agents, KeyIs(k), agents[i]);
  }

  /** The total size of the groups with the given keys. */
  function SizeSum(agents: seq<Agent>, keys: seq<string>): nat {
    if keys == [] then 0
    else SizeSum(agents, keys[..|keys| - 1]) + |Members(agents, keys[|keys| - 1])|
  }

  lemma {:induction false} SizeSumSnoc(agents: seq<Agent>, a: Agent, keys: seq<string>)
    ensures SizeSum(agents + [a], keys) == SizeSum(agents, keys) + Occurrences(keys, GroupKey(a))
  {
    if keys != [] {
      var init := keys[..|keys| - 1];
      var last := keys[|keys| - 1];
      SizeSumSnoc(agents, a, init);
      MembersSnoc(agents, a, last);
      OccurrencesSnoc(init, last, GroupKey(a));
      InitLast(keys);
    }
  }

  lemma {:induction false} OccurrencesSnoc(s: seq<string>, y: string, x: string)
    ensures Occurrences(s + [y], x) == Occurrences(s, x) + (if y == x then 1 else 0)
  {
    if s == [] {
      assert [y][1..] == [];
    } else {
      assert (s + [y])[1..] == s[1..] + [y];
      OccurrencesSnoc(s[1..], y, x);
    }
  }

  /** The group sizes add up to the number of agents: no agent is lost or
      counted twice. */
  lemma {:induction false} GroupSizesSum(agents: seq<Agent>)
    ensures SizeSum(agents, GroupKeys(agents)) == |agents|
  {
    if agents != [] {
      var init := agents[..|agents| - 1];
      var a := agents[|agents| - 1];
      var k := GroupKey(a);
      GroupSizesSum(init);
      InitLast(agents);
      var keys := GroupKeys(init);
      SizeSumSnoc(init, a, keys);
      if k in keys {
        OccurrencesDistinct(keys, k);
      } else {
        assert Occurrences(keys, k) == 0;
        MembersEmptyIff(init, k);
        MembersSnoc(init, a, k);
        assert (keys + [k])[..|keys|] == keys;
      }
    }
  }

  /** `groups` and `keys` hold the grouping of `agents`. */
  ghost predicate Grouped(agents: seq<Agent>, keys: seq<string>, groups: map<string, seq<Agent>>) {
    && keys == GroupKeys(agents)
    && (forall k :: k in groups <==> k in keys)
    && (forall k :: k in groups ==> groups[k] == Members(agents, k))
  }

  /** The first-seen keys after one more agent. */
  lemma StepKeys(agents: seq<Agent>, a: Agent, keys: seq<string>)
    requires keys == GroupKeys(agents)
    ensures GroupKeys(agents + [a]) == if GroupKey(a) in keys then keys else keys + [GroupKey(a)]
  {
    var all := agents + [a];
    assert all[..|all| - 1] == agents;
  }

  /** Pushing the agent onto its own group's members keeps every group
      equal to its members. */
  lemma StepMembers(agents: seq<Agent>, a: Agent, groups: map<string, seq<Agent>>, cur: seq<Agent>)
    requires forall k :: k in groups ==> groups[k] == Members(agents, k)
    requires cur == Members(agents, GroupKey(a))
    ensures var result := groups[GroupKey(a) := cur + [a]];
            forall k :: k in result ==> result[k] == Members(agents + [a], k)
  {
    var result := groups[GroupKey(a) := cur + [a]];
    forall k | k in result
      ensures result[k] == Members(agents + [a], k)
    {
      MembersSnoc(agents, a, k);
    }
  }

  /** One iteration of the `forEach`: create the group if it is new, then
      push the agent onto it. */
  lemma {:induction false} GroupStep(agents: seq<Agent>, a: Agent, keys: seq<string>, groups: map<string, seq<Agent>>)
    requires Grouped(agents, keys, groups)
    ensures var key := GroupKey(a);
            var keys' := if key in groups then keys else keys + [key];
            var groups' := if key in groups then groups else groups[key := []];
            Grouped(agents + [a], keys', groups'[key := groups'[key] + [a]])
  {
    var key := GroupKey(a);
    var keys' := if key in groups then keys else keys + [key];
    var groups' := if key in groups then groups else groups[key := []];
    StepKeys(agents, a, keys);
    if key !in groups {
      MembersEmptyIff(agents, key);
    }
    StepMembers(agents, a, groups', groups'[key]);
    var result := groups'[key := groups'[key] + [a]];
    assert forall k :: k in result <==> k in keys';
  }

  /** The body of the `forEach` for a key that is not inherited: create
      the group if it is new, then push the agent onto it. */
  method Place(done: seq<Agent>, a: Agent, keys: seq<string>, groups: map<string, seq<Agent>>)
    returns (keys': seq<string>, groups': map<string, seq<Agent>>)
    requires Grouped(done, keys, groups)
    ensures Grouped(done + [a], keys', groups')
  {
    GroupStep(done, a, keys, groups);
    var key := GroupKey(a);
    keys', groups' := keys, groups;
    if key !in groups' {
      groups' := groups'[key := []];
      keys' := keys' + [key];
    }
    groups' := groups'[key := groups'[key] + [a]];
  }

  /** One turn of the `forEach`: the TypeError for an inherited key,
      otherwise the agent is placed in its group. */
  method Visit(done: seq<Agent>, a: Agent, keys: seq<string>, groups: map<string, seq<Agent>>)
    returns (crashed: bool, keys': seq<string>, groups': map<string, seq<Agent>>)
    requires Grouped(done, keys, groups)
    ensures crashed <==> Inherited(GroupKey(a))
    ensures !crashed ==> Grouped(done + [a], keys', groups')
  {
    crashed := Inherited(GroupKey(a));
    keys', groups' := keys, groups;
    if !crashed {
      keys', groups' := Place(done, a, keys, groups);
    }
  }

  /** The property names a plain object inherits from `Object.prototype`.
      For these `groups[key]` is already truthy, so no group is created and
      `groups[key].push` throws a TypeError. */
  predicate Inherited(key: string) {
    key in {"constructor", "hasOwnProperty", "isPrototypeOf", "propertyIsEnumerable",
     "toLocaleString", "toString", "valueOf", "__proto__",
     "__defineGetter__", "__defineSetter__", "__lookupGetter__", "__lookupSetter__"}
  }

  /** The `groupedAgents` memo: a `forEach` that creates a group the first
      time its key is seen and pushes each agent onto its group. `keys` is
      the order of the groups' entries. `crashed` is the TypeError thrown
      at the first agent whose key is an inherited property name. */
  method GroupAgents(agents: seq<Agent>) returns (crashed: bool, keys: seq<string>, groups: map<string, seq<Agent>>)
    ensures crashed <==> exists i :: 0 <= i < |agents| && Inherited(GroupKey(agents[i]))
    ensures !crashed ==> keys == GroupKeys(agents)
    ensures !crashed ==> forall k :: k in groups <==> k in keys
    ensures !crashed ==> forall k :: k in groups ==> groups[k] == Members(agents, k)
  {
    crashed := false;
    keys := [];
    groups := map[];
    var i := 0;
    while i < |agents| && !crashed
      invariant 0 <= i <= |agents|
      invariant crashed ==> 0 < i && Inherited(GroupKey(agents[i - 1]))
      invariant !crashed ==> (forall j :: 0 <= j < i ==> !Inherited(GroupKey(agents[j]))) && Grouped(agents[..i], keys, groups)
    {
      var a := agents[i];
      TakeSnoc(agents, i);
      crashed, keys, groups := Visit(agents[..i], a, keys, groups);
      i := i + 1;
    }
    if !crashed {
      assert agents[..|agents|] == agents;
    }
  }

  /** A name ending in `.json`, such as every batch file the service
      creates, is never an inherited property name. */
  lemma JsonNamesNotInherited(name: string)
    requires EndsWith(name, JsonExtension)
    ensures !Inherited(name)
  {
    var n := |name|;
    assert name[n - 1] == 'n';
  }

  /** The header of a group: `Ungrouped` verbatim, otherwise the label
      derived from the file name. */
  function GroupLabel(key: string): string {
    if key == Ungrouped then key else GroupedLabel(key)
  }

  /** Only the group without a file is labelled `Ungrouped`: every other
      header starts with `Grouped Agent `. */
  lemma GroupLabelUngroupedIff(key: string)
    ensures GroupLabel(key) == Ungrouped <==> key == Ungrouped
    ensures key != Ungrouped ==> StartsWith(GroupLabel(key), GroupedPrefix)
  {
    if key != Ungrouped {
      assert GroupLabel(key)[0] == 'G';
    }
  }

  /** Appending agents keeps every existing group's members first, in
      order, and adds the new agents after them. */
  lemma AppendKeepsGroups(agents: seq<Agent>, added: seq<Agent>, k: string)
    ensures Members(agents + added, k) == Members(agents, k) + Members(added, k)
  {
    FilterAppend(agents, added, KeyIs(k));
  }

  /** Two agents from one batch file and one without a file make two
      groups: the file's group with the two, then `Ungrouped` with the third
      (for `batch0001.json` the first is headed `Grouped Agent 0001`, by
      `GroupedLabelExample`). */
  lemma GroupingExample(a: Agent, b: Agent, c: Agent, file: string)
    requires file != "" && file != Ungrouped
    requires a.fileName == Some(file) && b.fileName == Some(file) && c.fileName.None?
    ensures GroupKeys([a, b, c]) == [file, Ungrouped]
    ensures Members([a, b, c], file) == [a, b]
    ensures Members([a, b, c], Ungrouped) == [c]
  {
    assert GroupKey(a) == file && GroupKey(b) == file && GroupKey(c) == Ungrouped;
    assert [a, b, c][..2] == [a, b] && [a, b][..1] == [a] && [a][..0] == [];
    assert GroupKeys([a]) == [file];
    assert GroupKeys([a, b]) == [file];
    MembersSnoc([], a, file);
    MembersSnoc([a], b, file);
    MembersSnoc([a, b], c, file);
    MembersSnoc([], a, Ungrouped);
    MembersSnoc([a], b, Ungrouped);
    MembersSnoc([a, b], c, Ungrouped);
    assert [a] + [b] == [a, b] && [a, b] + [c] == [a, b, c];
  }

  /** `prevAgents.map(agent => agent.id === updated.id ? updated : agent)`. */
  function ReplaceById(agents: seq<Agent>, updated: Agent): (r: seq<Agent>)
    ensures |r| == |agents|
  {
    seq(|agents|, i requires 0 <= i < |agents| => if agents[i].id == updated.id then updated else agents[i])
  }

  /** Replacing by id touches only the entries with that id, keeps the length,
      and replacing twice is replacing once; a list without that id is left
      as it is. */
  lemma ReplaceByIdProperties(agents: seq<Agent>, updated: Agent)
    ensures forall i :: 0 <= i < |agents| && agents[i].id != updated.id ==> ReplaceById(agents, updated)[i] == agents[i]
    ensures forall i :: 0 <= i < |agents| && agents[i].id == updated.id ==> ReplaceById(agents, updated)[i] == updated
    ensures ReplaceById(ReplaceById(agents, updated), updated) == ReplaceById(agents, updated)
    ensures (forall i :: 0 <= i < |agents| ==> agents[i].id != updated.id) ==> ReplaceById(agents, updated) == agents
  {
  }

  /** The file ids `handleDeleteGroup` passes to `deleteAgent`, one per
      member in order. */
  function FileIds(members: seq<Agent>): (ids: seq<int>)
    ensures |ids| == |members|
  {
    seq(|members|, i requires 0 <= i < |members| => members[i].fileId)
  }

  /** `handleDeleteGroup`: one delete per member, in order, with `replies`
      standing for what each `deleteAgent` call returned. It reports how
      many succeeded and whether the list is to be fetched again, which is
      only when at least one succeeded. */
  method DeleteGroup(members: seq<Agent>, replies: seq<bool>)
      returns (requested: seq<int>, successCount: nat, refetch: bool)
    requires |replies| == |members|
    ensures requested == FileIds(members)
    ensures successCount == CountTrue(replies) && successCount <= |members|
    ensures refetch <==> exists i :: 0 <= i < |replies| && replies[i]
  {
    requested := [];
    successCount := 0;
    var i := 0;
    while i < |members|
      invariant 0 <= i <= |members|
      invariant requested == FileIds(members[..i])
      invariant successCount == CountTrue(replies[..i])
    {
      assert replies[..i + 1][..i] == replies[..i];
      requested := requested + [members[i].fileId];
      if replies[i] {
        successCount := successCount + 1;
      }
      i := i + 1;
    }
    assert replies[..i] == replies;
    assert members[..i] == members;
    refetch := successCount > 0;
  }

  /** `isAgentRunning`: the agent's file has been started. */
  predicate IsAgentRunning(running: set<int>, a: Agent) {
    a.fileId in running
  }

  /** `isGroupRunning`: some member's file has been started. */
  predicate IsGroupRunning(running: set<int>, group: seq<Agent>) {
    exists i :: 0 <= i < |group| && IsAgentRunning(running, group[i])
  }

  /** The `disabled` condition of an agent's start button. */
  predicate StartDisabled(running: set<int>, group: seq<Agent>, a: Agent) {
    !a.isActive || (IsGroupRunning(running, group) && !IsAgentRunning(running, a))
  }

  /** The group delete button is offered for file groups with members and is
      disabled while any member is running. */
  predicate DeleteGroupOffered(key: string, group: seq<Agent>) {
    key != Ungrouped && |group| > 0
  }

  predicate DeleteGroupDisabled(running: set<int>, group: seq<Agent>) {
    exists i :: 0 <= i < |group| && group[i].fileId in running
  }

  /** Once one member of a group runs, every other non-running member's
      start button is disabled, and the group cannot be deleted. */
  lemma RunningMemberBlocksGroup(running: set<int>, group: seq<Agent>, i: nat, j: nat)
    requires i < |group| && j < |group|
    ensures IsAgentRunning(running, group[j]) && !IsAgentRunning(running, group[i]) ==>
            StartDisabled(running, group, group[i]) && DeleteGroupDisabled(running, group)
  {
  }

  /** What the start request returned: a body that could not be read as
      JSON, or the response status and its `message`. */
  datatype StartReply = Unreadable | Reply(ok: bool, message: Option<string>)

  const AlreadyRunning: string := "Agent is already running"

  /** The replies after which the file counts as running. */
  predicate MarksRunning(r: StartReply) {
    r.Reply? && (r.ok || r.message == Some(AlreadyRunning))
  }

  /** The listing component's state. */
  class AgentList {
    var agents: seq<Agent>
    /** `runningAgents`: the file ids started from this page. */
    var running: set<int>
    var modalOpen: bool
    var editing: Option<Agent>

    constructor ()
      ensures agents == [] && running == {} && !modalOpen && editing.None?
    {
      agents := [];
      running := {};
      modalOpen := false;
      editing := None;
    }

    /** The end of `fetchAgents`: the list becomes what was fetched (the
        client returns an empty list when the request fails). */
    method Refetched(fetched: seq<Agent>)
      modifies this`agents
      ensures agents == fetched
    {
      agents := fetched;
    }

    /** `handleAddAgents`: the created agents go after the existing ones
        and the dialog closes; the refetch follows. */
    method AddAgents(created: seq<Agent>)
      modifies this`agents, this`modalOpen
      ensures agents == old(agents) + created
      ensures !modalOpen
    {
      agents := agents + created;
      modalOpen := false;
    }

    /** `handleEditAgent`. */
    method EditAgent(a: Agent)
      modifies this`editing, this`modalOpen
      ensures editing == Some(a) && modalOpen
    {
      editing := Some(a);
      modalOpen := true;
    }

    /** Closing the dialog. */
    method CloseDialog()
      modifies this`editing, this`modalOpen
      ensures editing.None? && !modalOpen
    {
      editing := None;
      modalOpen := false;
    }

    /** `handleUpdateAgent`: the first returned agent replaces the entries
        with its id; the dialog closes and leaves edit mode. */
    method UpdateAgent(updated: seq<Agent>)
      modifies this`agents, this`modalOpen, this`editing
      ensures agents == (if |updated| > 0 then ReplaceById(old(agents), updated[0]) else old(agents))
      ensures !modalOpen && editing.None?
    {
      if |updated| > 0 {
        agents := ReplaceById(agents, updated[0]);
      }
      modalOpen := false;
      editing := None;
    }

    /** The state update of `handleStartAgent`: the file joins the running
        set when the reply was ok or said it was already running; nothing
        is ever removed. */
    method StartAgent(fileId: int, reply: StartReply)
      modifies this`running
      ensures running == (if MarksRunning(reply) then old(running) + {fileId} else old(running))
      ensures old(running) <= running
    {
      if MarksRunning(reply) {
        running := running + {fileId};
      }
    }
  }
}
