/** The create/edit dialog (frontend/components/add-agent-modal.tsx): a
    non-empty list of agent drafts with one focused tab, the edits the
    dialog offers on them, the validator run at submit time, and the
    payloads it sends. */
module AgentForm {
  import opened Base
  import opened Text
  import opened Records

  /** `AgentFormData`: one draft, keyed by a temporary id. */
  datatype Draft = Draft(
    id: string,
    name: string,
    agentType: string,
    command: string,
    args: seq<string>,
    env: map<string, string>,
    isActive: bool)

  /** `createBlankAgent()` with the fresh id it takes from the clock. */
  function BlankDraft(id: string): Draft {
    Draft(id, "", "", "python", ["app.py"], map[], true)
  }

  /** The single draft of edit mode, copied from the record being edited:
      id `"0"`, and missing arguments or environment read as empty. */
  function FromRecord(a: Agent): (d: Draft)
    ensures d.id == "0" && d.name == a.name && d.agentType == a.agentType
    ensures d.command == a.command && d.isActive == a.isActive
    ensures d.args == (if a.args.Some? then a.args.value else [])
    ensures d.env == (if a.env.Some? then a.env.value else map[])
  {
    Draft("0", a.name, a.agentType, a.command,
          match a.args case Some(xs) => xs case None => [],
          match a.env case Some(m) => m case None => map[],
          a.isActive)
  }

  /** The fields `updateAgentField` is called with, one typed setter each. */
  datatype Field =
    | Name(text: string)
    | AgentType(text: string)
    | Command(text: string)
    | Args(list: seq<string>)
    | Env(vars: map<string, string>)
    | IsActive(flag: bool)

  /** `{ ...agent, [field]: value }`. */
  function WithField(d: Draft, f: Field): Draft {
    match f
    case Name(x) => d.(name := x)
    case AgentType(x) => d.(agentType := x)
    case Command(x) => d.(command := x)
    case Args(xs) => d.(args := xs)
    case Env(m) => d.(env := m)
    case IsActive(b) => d.(isActive := b)
  }

  /** Setting a field changes that field to the given value and leaves the
      id and every other field as they were. */
  lemma WithFieldFrame(d: Draft, f: Field)
    ensures var r := WithField(d, f);
            && r.id == d.id
            && r.name == (if f.Name? then f.text else d.name)
            && r.agentType == (if f.AgentType? then f.text else d.agentType)
            && r.command == (if f.Command? then f.text else d.command)
            && r.args == (if f.Args? then f.list else d.args)
            && r.env == (if f.Env? then f.vars else d.env)
            && r.isActive == (if f.IsActive? then f.flag else d.isActive)
  {
  }

  /** `agents.map(a => a.id === id ? { ...a, [field]: value } : a)`. */
  function UpdateField(drafts: seq<Draft>, id: string, f: Field): (r: seq<Draft>)
    ensures |r| == |drafts|
  {
    seq(|drafts|, i requires 0 <= i < |drafts| =>
      if drafts[i].id == id then WithField(drafts[i], f) else drafts[i])
  }

  /** `agents.find(a => a.id === id)`: the first draft with that id. */
  function FindDraft(drafts: seq<Draft>, id: string): (r: Option<Draft>)
    ensures r.None? <==> forall i :: 0 <= i < |drafts| ==> drafts[i].id != id
    ensures r.Some? ==> exists i :: 0 <= i < |drafts| && drafts[i] == r.value && r.value.id == id &&
                                    forall j :: 0 <= j < i ==> drafts[j].id != id
  {
    if drafts == [] then None
    else if drafts[0].id == id then Some(drafts[0])
    else
      var r := FindDraft(drafts[1..], id);
      if r.Some? then
        var i :| 0 <= i < |drafts[1..]| && drafts[1..][i] == r.value && r.value.id == id &&
                 forall j :: 0 <= j < i ==> drafts[1..][j].id != id;
        assert drafts[i + 1] == r.value;
        assert forall j :: 0 <= j < i + 1 ==> drafts[j].id != id by {
          forall j | 0 <= j < i + 1 ensures drafts[j].id != id {
            if j > 0 { assert drafts[j] == drafts[1..][j - 1]; }
          }
        }
        r
      else
        assert forall i :: 0 <= i < |drafts| ==> drafts[i].id != id by {
          forall i | 0 <= i < |drafts| ensures drafts[i].id != id {
            if i > 0 { assert drafts[i] == drafts[1..][i - 1]; }
          }
        }
        r
  }

  /** An update keeps every id and leaves the drafts with another id as
      they were. */
  lemma UpdateFieldKeepsOthers(drafts: seq<Draft>, id: string, f: Field)
    ensures forall i :: 0 <= i < |drafts| ==> UpdateField(drafts, id, f)[i].id == drafts[i].id
    ensures forall i :: 0 <= i < |drafts| && drafts[i].id != id ==> UpdateField(drafts, id, f)[i] == drafts[i]
  {
    forall i | 0 <= i < |drafts| ensures UpdateField(drafts, id, f)[i].id == drafts[i].id {
      WithFieldFrame(drafts[i], f);
    }
  }

  /** After an update, the draft found by the id is the one found before
      with the field set. */
  lemma UpdateFieldFound(drafts: seq<Draft>, id: string, f: Field)
    requires FindDraft(drafts, id).Some?
    ensures FindDraft(UpdateField(drafts, id, f), id) == Some(WithField(FindDraft(drafts, id).value, f))
  {
    var r := UpdateField(drafts, id, f);
    UpdateFieldKeepsOthers(drafts, id, f);
    var found := FindDraft(drafts, id);
    var i :| 0 <= i < |drafts| && drafts[i] == found.value && found.value.id == id &&
             forall j :: 0 <= j < i ==> drafts[j].id != id;
    assert r[i] == WithField(drafts[i], f);
    assert r[i].id == id;
    var g := FindDraft(r, id);
    assert g.Some?;
    var k :| 0 <= k < |r| && r[k] == g.value && g.value.id == id &&
             forall j :: 0 <= j < k ==> r[j].id != id;
    assert k == i;
  }

  /** `copy.splice(i, 1)` for an index the dialog passes: removes element `i`
      when it exists. */
  function RemoveAt(s: seq<string>, i: nat): seq<string> {
    if i < |s| then s[..i] + s[i + 1..] else s
  }

  /** Removing an argument deletes exactly the one at the index and keeps
      the others in order; an index past the end removes nothing. */
  lemma RemoveAtExact(s: seq<string>, i: nat)
    ensures i < |s| ==> |RemoveAt(s, i)| == |s| - 1
    ensures i < |s| ==> forall k :: 0 <= k < |s| - 1 ==>
                          RemoveAt(s, i)[k] == (if k < i then s[k] else s[k + 1])
    ensures i >= |s| ==> RemoveAt(s, i) == s
  {
  }

  /** The message for a required field left blank by draft number `n`. */
  function RequiredMessage(n: nat, field: string): string {
    "Agent " + Decimal(n) + ": " + field + " is required"
  }

  /** The messages `validateAgents` pushes for one draft, number `n`
      counting from 1: name, agent type and command, in that order. */
  function DraftErrors(d: Draft, n: nat): (errs: seq<string>)
    ensures |errs| <= 3
  {
    (if Trim(d.name) == "" then [RequiredMessage(n, "Name")] else []) +
    (if Trim(d.agentType) == "" then [RequiredMessage(n, "Agent Type")] else []) +
    (if Trim(d.command) == "" then [RequiredMessage(n, "Command")] else [])
  }

  /** The field messages of each draft, numbered from 1. */
  function PerDraft(drafts: seq<Draft>): (errs: seq<seq<string>>)
    ensures |errs| == |drafts|
  {
    seq(|drafts|, i requires 0 <= i < |drafts| => DraftErrors(drafts[i], i + 1))
  }

  /** The field messages of all drafts, in draft order. */
  function FieldErrors(drafts: seq<Draft>): seq<string> {
    Flatten(PerDraft(drafts))
  }

  /** The trimmed names, `agents.map(a => a.name.trim())`. */
  function TrimmedNames(drafts: seq<Draft>): (names: seq<string>)
    ensures |names| == |drafts|
  {
    seq(|drafts|, i requires 0 <= i < |drafts| => Trim(drafts[i].name))
  }

  /** `names.filter((n, i) => names.indexOf(n) !== i)`: every occurrence of
      a name after its first one, in order. */
  function Repeats(names: seq<string>): seq<string> {
    if names == [] then []
    else
      var init := names[..|names| - 1];
      Repeats(init) + (if names[|names| - 1] in init then [names[|names| - 1]] else [])
  }

  /** There are no repeats exactly when the names are pairwise distinct. */
  lemma {:induction false} RepeatsEmptyIff(names: seq<string>)
    ensures Repeats(names) == [] <==> Distinct(names)
  {
    if names != [] {
      var init := names[..|names| - 1];
      var last := names[|names| - 1];
      RepeatsEmptyIff(init);
      InitLast(names);
      if Distinct(names) {
        assert Distinct(init) by {
          forall i, j | 0 <= i < j < |init| ensures init[i] != init[j] {
            assert init[i] == names[i] && init[j] == names[j];
          }
        }
        assert last !in init by {
          forall i | 0 <= i < |init| ensures init[i] != last {
            assert init[i] == names[i];
          }
        }
      }
      if Distinct(init) && last !in init {
        forall i, j | 0 <= i < j < |names| ensures names[i] != names[j] {
          if j < |init| {
            assert names[i] == init[i] && names[j] == init[j];
          } else {
            assert names[i] == init[i];
          }
        }
      }
    }
  }

  /** The one combined message about repeated names. */
  function DuplicatesMessage(dups: seq<string>): string {
    "Duplicate agent names: " + Join(dups, ", ")
  }

  /** Everything `validateAgents` reports: the field messages of every
      draft, then at most one message listing the repeated names. */
  function ValidationErrors(drafts: seq<Draft>): seq<string> {
    var dups := Repeats(TrimmedNames(drafts));
    FieldErrors(drafts) + (if dups != [] then [DuplicatesMessage(dups)] else [])
  }

  /** A draft that passes the per-draft checks. */
  predicate Complete(d: Draft) {
    !Blank(d.name) && !Blank(d.agentType) && !Blank(d.command)
  }

  /** A draft gets no field message exactly when it is complete. */
  lemma DraftErrorsEmptyIff(d: Draft, n: nat)
    ensures DraftErrors(d, n) == [] <==> Complete(d)
  {
    TrimEmptyIff(d.name);
    TrimEmptyIff(d.agentType);
    TrimEmptyIff(d.command);
    var e1 := if Trim(d.name) == "" then [RequiredMessage(n, "Name")] else [];
    var e2 := if Trim(d.agentType) == "" then [RequiredMessage(n, "Agent Type")] else [];
    var e3 := if Trim(d.command) == "" then [RequiredMessage(n, "Command")] else [];
    assert |DraftErrors(d, n)| == |e1| + |e2| + |e3|;
  }

  /** The drafts get no field message exactly when all are complete, and at
      most three each. */
  lemma FieldErrorsEmptyIff(drafts: seq<Draft>)
    ensures FieldErrors(drafts) == [] <==> forall i :: 0 <= i < |drafts| ==> Complete(drafts[i])
    ensures |FieldErrors(drafts)| <= 3 * |drafts|
  {
    var per := PerDraft(drafts);
    forall i | 0 <= i < |drafts| ensures (per[i] == [] <==> Complete(drafts[i])) && |per[i]| <= 3 {
      DraftErrorsEmptyIff(drafts[i], i + 1);
    }
    FlattenEmptyIff(per);
    FlattenBound(per, 3);
  }

  /** The validator reports nothing exactly when every draft has a
      non-blank name, agent type and command and the trimmed names are
      pairwise distinct; it reports at most three messages per draft and
      one more for repeated names. */
  lemma ValidationIff(drafts: seq<Draft>)
    ensures ValidationErrors(drafts) == [] <==>
            (forall i :: 0 <= i < |drafts| ==> Complete(drafts[i])) && Distinct(TrimmedNames(drafts))
    ensures |ValidationErrors(drafts)| <= 3 * |drafts| + 1
  {
    FieldErrorsEmptyIff(drafts);
    RepeatsEmptyIff(TrimmedNames(drafts));
  }

  /** Validation is not fail-fast: every blank field of every draft is
      reported, numbered by the draft's position. */
  lemma ValidationCollectsAll(drafts: seq<Draft>, i: nat)
    requires i < |drafts|
    ensures Blank(drafts[i].name) ==> RequiredMessage(i + 1, "Name") in ValidationErrors(drafts)
    ensures Blank(drafts[i].agentType) ==> RequiredMessage(i + 1, "Agent Type") in ValidationErrors(drafts)
    ensures Blank(drafts[i].command) ==> RequiredMessage(i + 1, "Command") in ValidationErrors(drafts)
  {
    var per := PerDraft(drafts);
    assert per[i] == DraftErrors(drafts[i], i + 1);
    forall e | e in per[i] ensures e in ValidationErrors(drafts) {
      FlattenMember(per, i, e);
    }
    TrimEmptyIff(drafts[i].name);
    TrimEmptyIff(drafts[i].agentType);
    TrimEmptyIff(drafts[i].command);
  }

  /** Two complete drafts whose names agree once trimmed (`"x"` and `"x "`)
      get exactly one message, naming the trimmed name as repeated. */
  lemma DuplicateTrimmedNames(a: Draft, b: Draft)
    requires Complete(a) && Complete(b)
    requires Trim(a.name) == Trim(b.name)
    ensures ValidationErrors([a, b]) == [DuplicatesMessage([Trim(a.name)])]
  {
    var t := Trim(a.name);
    FieldErrorsEmptyIff([a, b]);
    assert TrimmedNames([a, b]) == [t, t];
    assert [t, t][..1] == [t];
    assert [t][..0] == [];
    assert Repeats([t]) == [];
    assert Repeats([t, t]) == [t];
  }

  /** The trailing space is what the trim removes: `"x"` and `"x "` agree. */
  lemma TrimmedNamesAgree()
    ensures Trim("x") == Trim("x ")
  {
    assert "x "[..1] == "x";
  }

  /** One entry of the create or update request: the draft's fields, with
      `args` and `env` left out (`undefined`) when they are empty. */
  datatype Payload = Payload(
    name: string,
    agentType: string,
    command: string,
    args: Option<seq<string>>,
    env: Option<map<string, string>>,
    isActive: bool)

  function ToPayload(d: Draft): Payload {
    Payload(d.name, d.agentType, d.command,
            if |d.args| > 0 then Some(d.args) else None,
            if |d.env.Keys| > 0 then Some(d.env) else None,
            d.isActive)
  }

  /** A payload omits `args` exactly when the draft has none and `env`
      exactly when it has no keys, and copies everything else verbatim;
      filling the omitted fields with the backend's defaults (an empty list,
      an empty map) gives back the draft's values, so the omission loses
      nothing. */
  lemma PayloadOmitsOnlyEmpty(d: Draft)
    ensures var p := ToPayload(d);
            && p.name == d.name && p.agentType == d.agentType
            && p.command == d.command && p.isActive == d.isActive
            && (p.args.None? <==> d.args == [])
            && (p.env.None? <==> d.env == map[])
            && (match p.args case Some(xs) => xs case None => []) == d.args
            && (match p.env case Some(m) => m case None => map[]) == d.env
  {
    if d.env != map[] {
      var k :| k in d.env;
      assert k in d.env.Keys;
    }
  }

  /** What `handleSubmit` sends, if anything. */
  datatype Submission =
    | Rejected(errors: seq<string>)
    | SendUpdate(agentId: int, update: Payload)
    | SendCreate(batch: seq<Payload>)

  /** `handleSubmit`: failed validation sends nothing; edit mode updates the
      record being edited from the first draft; create mode sends every
      draft. */
  function PlanSubmit(editing: Option<Agent>, drafts: seq<Draft>): Submission
    requires |drafts| > 0
  {
    var errors := ValidationErrors(drafts);
    if errors != [] then Rejected(errors)
    else if editing.Some? then SendUpdate(editing.value.id, ToPayload(drafts[0]))
    else SendCreate(Batch(drafts))
  }

  /** The create request: one payload per draft. */
  function Batch(drafts: seq<Draft>): (batch: seq<Payload>)
    ensures |batch| == |drafts|
  {
    seq(|drafts|, i requires 0 <= i < |drafts| => ToPayload(drafts[i]))
  }

  /** A submission is sent exactly when validation passes; a batch has one
      payload per draft, in draft order. */
  lemma PlanSubmitShape(editing: Option<Agent>, drafts: seq<Draft>)
    requires |drafts| > 0
    ensures PlanSubmit(editing, drafts).Rejected? <==> ValidationErrors(drafts) != []
    ensures PlanSubmit(editing, drafts).SendUpdate? ==>
              editing.Some? && PlanSubmit(editing, drafts).agentId == editing.value.id &&
              PlanSubmit(editing, drafts).update == ToPayload(drafts[0])
    ensures PlanSubmit(editing, drafts).SendCreate? ==>
              editing.None? &&
              |PlanSubmit(editing, drafts).batch| == |drafts| &&
              forall i :: 0 <= i < |drafts| ==> PlanSubmit(editing, drafts).batch[i] == ToPayload(drafts[i])
  {
  }

  /** The dialog's state: the drafts, the focused tab, and the three
      text boxes for a new argument and a new environment entry. */
  class DraftEditor {
    /** `initialData`: the record being edited, none when creating. */
    var editing: Option<Agent>
    /** `agents`. */
    var drafts: seq<Draft>
    /** `activeTab`. */
    var activeTab: string
    /** `newArg`, `newEnvKey`, `newEnvValue`. */
    var newArg: string
    var newEnvKey: string
    var newEnvValue: string

    /** The draft list is never empty. */
    ghost predicate Valid()
      reads this
    {
      |drafts| > 0
    }

    /** The dialog after its initialising effect: one draft copied from the
        record in edit mode, one blank draft otherwise; the tab is `"0"` in
        both modes, although the blank draft's id is its fresh id. */
    constructor (initial: Option<Agent>, freshId: string)
      ensures Valid()
      ensures editing == initial && activeTab == "0"
      ensures drafts == [if initial.Some? then FromRecord(initial.value) else BlankDraft(freshId)]
      ensures newArg == "" && newEnvKey == "" && newEnvValue == ""
    {
      editing := initial;
      drafts := [if initial.Some? then FromRecord(initial.value) else BlankDraft(freshId)];
      activeTab := "0";
      newArg, newEnvKey, newEnvValue := "", "", "";
    }

    /** The initialising effect, re-run when the dialog opens or the edited
        record changes. The text boxes keep their contents. */
    method Open(initial: Option<Agent>, freshId: string)
      modifies this`editing, this`drafts, this`activeTab
      ensures Valid()
      ensures editing == initial && activeTab == "0"
      ensures drafts == [if initial.Some? then FromRecord(initial.value) else BlankDraft(freshId)]
    {
      editing := initial;
      drafts := [if initial.Some? then FromRecord(initial.value) else BlankDraft(freshId)];
      activeTab := "0";
    }

    /** `addNewAgent`: append a blank draft and focus it. */
    method AddNewAgent(freshId: string)
      requires Valid()
      modifies this`drafts, this`activeTab
      ensures Valid()
      ensures drafts == old(drafts) + [BlankDraft(freshId)]
      ensures activeTab == freshId
    {
      drafts := drafts + [BlankDraft(freshId)];
      activeTab := freshId;
    }

    /** `duplicateAgent(index)`: append a copy of the draft at `index` with
        the fresh id and `-copy` after its name, and focus it. */
    method DuplicateAgent(index: nat, freshId: string)
      requires Valid()
      requires index < |drafts|
      modifies this`drafts, this`activeTab
      ensures Valid()
      ensures |drafts| == |old(drafts)| + 1 && drafts[..|old(drafts)|] == old(drafts)
      ensures drafts[|drafts| - 1] == old(drafts)[index].(id := freshId, name := old(drafts)[index].name + "-copy")
      ensures activeTab == freshId
    {
      var source := drafts[index];
      drafts := drafts + [source.(id := freshId, name := source.name + "-copy")];
      activeTab := freshId;
    }

    /** `removeAgent(id)`: drop every draft with that id; if the focused
        draft went and others remain, focus the first of them; if none
        remain, start again from one focused blank draft. */
    method RemoveAgent(id: string, freshId: string)
      requires Valid()
      modifies this`drafts, this`activeTab
      ensures Valid()
      ensures var rest := Filter(old(drafts), (d: Draft) => d.id != id);
              if rest == [] then
                drafts == [BlankDraft(freshId)] && activeTab == freshId
              else
                drafts == rest &&
                activeTab == (if old(activeTab) == id then rest[0].id else old(activeTab))
    {
      var rest := Filter(drafts, (d: Draft) => d.id != id);
      drafts := rest;
      if activeTab == id && |rest| > 0 {
        activeTab := rest[0].id;
      }
      if |rest| == 0 {
        drafts := [BlankDraft(freshId)];
        activeTab := freshId;
      }
    }

    /** Selecting a tab. */
    method SelectTab(id: string)
      modifies this`activeTab
      ensures activeTab == id
    {
      activeTab := id;
    }

    /** `updateAgentField(id, field, value)`: the field of every draft with
        that id; nothing else. */
    method UpdateAgentField(id: string, f: Field)
      requires Valid()
      modifies this`drafts
      ensures Valid()
      ensures drafts == UpdateField(old(drafts), id, f)
    {
      drafts := UpdateField(drafts, id, f);
    }

    /** Typing into the three text boxes. */
    method SetNewArg(text: string)
      modifies this`newArg
      ensures newArg == text
    {
      newArg := text;
    }

    method SetNewEnvKey(text: string)
      modifies this`newEnvKey
      ensures newEnvKey == text
    {
      newEnvKey := text;
    }

    method SetNewEnvValue(text: string)
      modifies this`newEnvValue
      ensures newEnvValue == text
    {
      newEnvValue := text;
    }

    /** `handleAddArg(id)`: when the argument box is not blank and a draft
        has that id, append the trimmed argument to that draft's list and
        clear the box; otherwise nothing. */
    method AddArg(id: string)
      requires Valid()
      modifies this`drafts, this`newArg
      ensures Valid()
      ensures var found := FindDraft(old(drafts), id);
              if Trim(old(newArg)) != "" && found.Some? then
                drafts == UpdateField(old(drafts), id, Args(found.value.args + [Trim(old(newArg))])) &&
                newArg == ""
              else
                drafts == old(drafts) && newArg == old(newArg)
    {
      if Trim(newArg) != "" {
        var found := FindDraft(drafts, id);
        if found.Some? {
          drafts := UpdateField(drafts, id, Args(found.value.args + [Trim(newArg)]));
          newArg := "";
        }
      }
    }

    /** `handleRemoveArg(id, index)`: the draft's list without the element
        at `index`. */
    method RemoveArg(id: string, index: nat)
      requires Valid()
      modifies this`drafts
      ensures Valid()
      ensures var found := FindDraft(old(drafts), id);
              if found.Some? then
                drafts == UpdateField(old(drafts), id, Args(RemoveAt(found.value.args, index)))
              else
                drafts == old(drafts)
    {
      var found := FindDraft(drafts, id);
      if found.Some? {
        drafts := UpdateField(drafts, id, Args(RemoveAt(found.value.args, index)));
      }
    }

    /** `handleAddEnv(id)`: when both boxes are non-blank and a draft has
        that id, map the trimmed key to the trimmed value (adding or
        overwriting) and clear both boxes; otherwise nothing. */
    method AddEnv(id: string)
      requires Valid()
      modifies this`drafts, this`newEnvKey, this`newEnvValue
      ensures Valid()
      ensures var found := FindDraft(old(drafts), id);
              if Trim(old(newEnvKey)) != "" && Trim(old(newEnvValue)) != "" && found.Some? then
                drafts == UpdateField(old(drafts), id,
                                      Env(found.value.env[Trim(old(newEnvKey)) := Trim(old(newEnvValue))])) &&
                newEnvKey == "" && newEnvValue == ""
              else
                drafts == old(drafts) && newEnvKey == old(newEnvKey) && newEnvValue == old(newEnvValue)
    {
      if Trim(newEnvKey) != "" && Trim(newEnvValue) != "" {
        var found := FindDraft(drafts, id);
        if found.Some? {
          drafts := UpdateField(drafts, id, Env(found.value.env[Trim(newEnvKey) := Trim(newEnvValue)]));
          newEnvKey, newEnvValue := "", "";
        }
      }
    }

    /** `handleRemoveEnv(id, key)`: the draft's map without that key. */
    method RemoveEnv(id: string, key: string)
      requires Valid()
      modifies this`drafts
      ensures Valid()
      ensures var found := FindDraft(old(drafts), id);
              if found.Some? then
                drafts == UpdateField(old(drafts), id, Env(found.value.env - {key}))
              else
                drafts == old(drafts)
    {
      var found := FindDraft(drafts, id);
      if found.Some? {
        drafts := UpdateField(drafts, id, Env(found.value.env - {key}));
      }
    }

    /** The body of the `forEach` in `validateAgents`, for the draft at
        position `i` (numbered `i + 1` in the messages). */
    static method CheckDraft(ds: seq<Draft>, i: nat) returns (found: seq<string>)
      requires i < |ds|
      ensures found == PerDraft(ds)[i]
    {
      var d := ds[i];
      var n := i + 1;
      found := [];
      if Trim(d.name) == "" {
        found := found + [RequiredMessage(n, "Name")];
      }
      if Trim(d.agentType) == "" {
        found := found + [RequiredMessage(n, "Agent Type")];
      }
      if Trim(d.command) == "" {
        found := found + [RequiredMessage(n, "Command")];
      }
    }

    /** `validateAgents`: the `forEach` over the drafts pushing the field
        messages, then the combined message about repeated names. */
    method ValidateAgents() returns (errors: seq<string>)
      ensures errors == ValidationErrors(drafts)
    {
      errors := [];
      var ds := drafts;
      ghost var per := PerDraft(ds);
      var i := 0;
      while i < |ds|
        invariant 0 <= i <= |ds|
        invariant errors == Flatten(per[..i])
      {
        var found := CheckDraft(ds, i);
        TakeSnoc(per, i);
        FlattenSnoc(per[..i], found);
        errors := errors + found;
        i := i + 1;
      }
      assert per[..i] == per;
      var dups := Repeats(TrimmedNames(ds));
      if |dups| > 0 {
        errors := errors + [DuplicatesMessage(dups)];
      }
    }

    /** `handleSubmit` up to the request: validate, then build the update
        or the batch. The dialog's state is left as it is, so a failed
        request can be retried. */
    method Submit() returns (s: Submission)
      requires Valid()
      ensures s == PlanSubmit(editing, drafts)
    {
      var errors := ValidateAgents();
      if |errors| > 0 {
        s := Rejected(errors);
      } else if editing.Some? {
        s := SendUpdate(editing.value.id, ToPayload(drafts[0]));
      } else {
        s := SendCreate(Batch(drafts));
      }
    }
  }
}
