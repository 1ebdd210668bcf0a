/** The `@mention` autocomplete of the chat box (frontend/components/mention-input.tsx).

    The pure part: detecting the active token `@(\w*)$` before the cursor,
    filtering the candidate agents, moving the highlight, and splicing the
    chosen name into the text. The stateful part: the component's fields
    `mentionSearch`, `showMentions`, `cursorPosition`, `filteredAgents` and
    `selectedIndex`, with the text `value` and the `agents` list it receives
    from its parent, updated by the change and key handlers. */
module MentionInput {
  import opened Base
  import opened Text
  import opened Records

  /** JavaScript `s.substring(0, n)` for a non-negative `n`: clamped to `|s|`. */
  function Before(s: string, n: nat): string {
    if n <= |s| then s[..n] else s
  }

  /** JavaScript `s.substring(n)` for a non-negative `n`: clamped to `|s|`. */
  function After(s: string, n: nat): string {
    if n <= |s| then s[n..] else ""
  }

  /** Every character is a word character. */
  predicate AllWord(s: string) {
    forall i :: 0 <= i < |s| ==> IsWordChar(s[i])
  }

  /** The start of the longest run of word characters that ends at `end`,
      found by scanning backwards. */
  function WordRunStart(t: string, end: nat): (k: nat)
    requires end <= |t|
    ensures k <= end
    ensures forall j :: k <= j < end ==> IsWordChar(t[j])
    ensures k == 0 || !IsWordChar(t[k - 1])
    decreases end
  {
    if end == 0 || !IsWordChar(t[end - 1]) then end else WordRunStart(t, end - 1)
  }

  /** `t` has an `@` at `p` followed only by word characters up to its end:
      a match of `@(\w*)$` starting at `p`. */
  predicate TokenAt(t: string, p: nat) {
    p < |t| && t[p] == '@' && forall j :: p < j < |t| ==> IsWordChar(t[j])
  }

  /** Where `t.match(/@(\w*)$/)` starts, if it matches: the regular
      expression written as a backwards scan over word characters followed
      by a test for the `@`. The match is unique when it exists. */
  function ActiveToken(t: string): (r: Option<nat>)
    ensures r.Some? ==> TokenAt(t, r.value)
    ensures forall p: nat :: TokenAt(t, p) ==> r == Some(p)
  {
    var k := WordRunStart(t, |t|);
    if k > 0 && t[k - 1] == '@' then Some(k - 1) else None
  }

  /** The search key of `handleInputChange`: capture group 1 of `@(\w*)$`
      on the text before the cursor, or nothing when there is no match. */
  function MentionQuery(text: string, position: nat): (r: Option<string>)
    ensures r.Some? ==> AllWord(r.value)
  {
    var t := Before(text, position);
    match ActiveToken(t)
    case None => None
    case Some(p) => Some(t[p + 1..])
  }

  /** Suggestions are shown with key `k` exactly when the text before the
      cursor ends with `@` followed by `k` and `k` is made of word
      characters only (possibly none). */
  lemma MentionQueryIff(text: string, position: nat, k: string)
    ensures MentionQuery(text, position) == Some(k) <==>
            EndsWith(Before(text, position), "@" + k) && AllWord(k)
  {
    if MentionQuery(text, position) == Some(k) {
      MentionQuerySound(text, position, k);
    }
    if EndsWith(Before(text, position), "@" + k) && AllWord(k) {
      MentionQueryComplete(text, position, k);
    }
  }

  /** A shown key is the text after the `@` that ends the text before the
      cursor. */
  lemma MentionQuerySound(text: string, position: nat, k: string)
    requires MentionQuery(text, position) == Some(k)
    ensures EndsWith(Before(text, position), "@" + k)
  {
    var t := Before(text, position);
    var p := ActiveToken(t).value;
    assert t[p..] == "@" + k;
  }

  /** An `@` followed by word characters up to the cursor always shows its
      key. */
  lemma MentionQueryComplete(text: string, position: nat, k: string)
    requires EndsWith(Before(text, position), "@" + k) && AllWord(k)
    ensures MentionQuery(text, position) == Some(k)
  {
    var t := Before(text, position);
    var p := |t| - |k| - 1;
    assert t[p..] == "@" + k;
    assert t[p] == '@';
    forall j | p < j < |t| ensures IsWordChar(t[j]) {
      assert t[j] == k[j - p - 1];
    }
    assert TokenAt(t, p);
    assert t[p + 1..] == k;
  }

  /** The filter test: the lower-cased name or agent type contains the
      lower-cased key. */
  predicate Matches(a: Agent, key: string) {
    Contains(ToLower(a.name), ToLower(key)) || Contains(ToLower(a.agentType), ToLower(key))
  }

  /** The candidate list computed by the filter effect: all agents for an
      empty key, otherwise the matching ones in their original order. */
  function Candidates(agents: seq<Agent>, key: string): seq<Agent> {
    if key == "" then agents else Filter(agents, a => Matches(a, key))
  }

  /** An agent is a candidate exactly when it is listed and the key is empty
      or matches it; candidates come in list order. */
  lemma CandidatesExact(agents: seq<Agent>, more: seq<Agent>, key: string, a: Agent)
    ensures a in Candidates(agents, key) <==> a in agents && (key == "" || Matches(a, key))
    ensures Candidates(agents + more, key) == Candidates(agents, key) + Candidates(more, key)
  {
    if key != "" {
      FilterAppend(agents, more, a => Matches(a, key));
      FilterMembership(agents, a => Matches(a, key), a);
    }
  }

  /** An empty key would match every agent anyway; what sets it apart is
      that the effect does not reset the highlight for it. */
  lemma EmptyKeyMatchesAll(agents: seq<Agent>)
    ensures Filter(agents, a => Matches(a, "")) == Candidates(agents, "")
  {
    forall i | 0 <= i < |agents| ensures Matches(agents[i], "") {
      assert OccursAt(ToLower(agents[i].name), ToLower(""), 0);
    }
    FilterAll(agents, a => Matches(a, ""));
  }

  /** `ArrowDown`: one step down unless already at the last candidate. */
  function StepDown(i: nat, count: nat): (j: nat)
    ensures j == i || j == i + 1
    ensures j == i + 1 <==> i + 1 < count
    ensures i < count ==> j < count
  {
    if i < count - 1 then i + 1 else i
  }

  /** `ArrowUp`: one step up unless already at the first candidate. */
  function StepUp(i: nat, count: nat): (j: nat)
    ensures j == i || j + 1 == i
    ensures j == i <==> i == 0
    ensures i < count ==> j < count
  {
    if i > 0 then i - 1 else i
  }

  /** The text and caret after `insertMention(name)` with the cursor stored
      at `cursor`: the token from its `@` up to the cursor becomes
      `@name ` and the caret goes after the space; nothing when no token is
      active. The offsets are the component's, clamped as `substring` clamps. */
  function SpliceMention(value: string, cursor: nat, name: string): (r: Option<(string, nat)>)
    ensures r.None? <==> ActiveToken(Before(value, cursor)).None?
  {
    var t := Before(value, cursor);
    match ActiveToken(t)
    case None => None
    case Some(p) =>
      var startPos: nat := cursor - (|t| - p);
      Some((Before(value, startPos) + "@" + name + " " + After(value, cursor), startPos + |name| + 2))
  }

  /** With the cursor inside the text, inserting a mention replaces exactly
      the active token `value[p..cursor]` (an `@` and the search key) by
      `@name `, keeps what lies before the token and after the cursor, and
      puts the caret right after the inserted space. */
  lemma SpliceMentionReplacesToken(value: string, cursor: nat, name: string)
    requires cursor <= |value|
    requires ActiveToken(value[..cursor]).Some?
    ensures var p := ActiveToken(value[..cursor]).value;
            var r := SpliceMention(value, cursor, name);
            && r.Some?
            && value[p..cursor] == "@" + MentionQuery(value, cursor).value
            && r.value.0 == value[..p] + "@" + name + " " + value[cursor..]
            && r.value.1 == p + |name| + 2
            && r.value.0[..r.value.1] == value[..p] + "@" + name + " "
            && r.value.0[r.value.1..] == value[cursor..]
  {
    var t := value[..cursor];
    var p := ActiveToken(t).value;
    assert Before(value, cursor) == t;
    assert cursor - (|t| - p) == p;
    assert value[p..cursor] == "@" + t[p + 1..];
    var v := value[..p] + "@" + name + " " + value[cursor..];
    assert v[..p + |name| + 2] == value[..p] + "@" + name + " ";
    assert v[p + |name| + 2..] == value[cursor..];
  }

  /** After the parent clears the text, no token is active whatever the
      stored cursor, so inserting a mention changes nothing. */
  lemma ClearedValueSplicesNothing(cursor: nat, name: string)
    ensures SpliceMention("", cursor, name).None?
  {
    assert Before("", cursor) == "";
  }

  /** The keys the handler distinguishes. */
  datatype Key = Enter | Tab | Escape | ArrowUp | ArrowDown | OtherKey

  /** What a key press did. `Inserted` carries the caret position the
      deferred focus callback sets (none when no token was active); `Fault`
      is the `TypeError` thrown when the highlighted index has no
      candidate. */
  datatype KeyOutcome = Submitted | Inserted(caret: Option<nat>) | Navigated | Dismissed | NoEffect | Fault

  class MentionBox {
    /** The agents passed in by the parent. */
    var agents: seq<Agent>
    /** The controlled text (`value`, updated through `onChange`). */
    var value: string
    /** `mentionSearch`. */
    var search: string
    /** `showMentions`. */
    var showMentions: bool
    /** `cursorPosition`, stored by the change handler only. */
    var cursor: nat
    /** `filteredAgents`. */
    var filtered: seq<Agent>
    /** `selectedIndex`. */
    var selectedIndex: nat

    /** The filter effect has run on the current key and agents. */
    ghost predicate Valid()
      reads this
    {
      filtered == Candidates(agents, search)
    }

    /** The component after mounting: empty key, nothing shown, and the
        effect's first run with an empty key lists every agent. */
    constructor (agents: seq<Agent>, value: string)
      ensures Valid()
      ensures this.agents == agents && this.value == value
      ensures search == "" && !showMentions && cursor == 0 && selectedIndex == 0
      ensures filtered == agents
    {
      this.agents := agents;
      this.value := value;
      search := "";
      showMentions := false;
      cursor := 0;
      filtered := agents;
      selectedIndex := 0;
    }

    /** The filter effect (lines 55-68), run when the key or the agents
        change: a non-empty key filters and resets the highlight to 0, an
        empty key lists all agents and leaves the highlight where it was. */
    method Refilter()
      modifies this`filtered, this`selectedIndex
      ensures Valid()
      ensures search != "" ==> selectedIndex == 0
      ensures search == "" ==> selectedIndex == old(selectedIndex)
    {
      if search != "" {
        var key := search;
        filtered := Filter(agents, a => Matches(a, key));
        selectedIndex := 0;
      } else {
        filtered := agents;
      }
    }

    /** The parent replaces the agent list; the effect re-runs. */
    method SetAgents(newAgents: seq<Agent>)
      modifies this`agents, this`filtered, this`selectedIndex
      ensures Valid() && agents == newAgents
      ensures search != "" ==> selectedIndex == 0
      ensures search == "" ==> selectedIndex == old(selectedIndex)
    {
      agents := newAgents;
      Refilter();
    }

    /** The parent writes the controlled `value` prop, as the chat panel
        does when it clears its input after a send. No effect depends on
        `value`, so the key, the list, the stored cursor and the highlight
        stay as they were. */
    method SetValue(v: string)
      modifies this`value
      ensures value == v
    {
      value := v;
    }

    /** `handleInputChange`: store the text and the cursor, then show the
        suggestions exactly when a token is active before the cursor. A
        missing token hides them and keeps the old key; a changed key
        re-runs the filter effect, an unchanged one does not. */
    method InputChange(newValue: string, position: nat)
      requires Valid()
      modifies this
      ensures Valid()
      ensures value == newValue && cursor == position && agents == old(agents)
      ensures showMentions <==> MentionQuery(newValue, position).Some?
      ensures search == (match MentionQuery(newValue, position)
                         case Some(k) => k
                         case None => old(search))
      ensures selectedIndex == (if search != old(search) && search != "" then 0 else old(selectedIndex))
    {
      value := newValue;
      cursor := position;
      match MentionQuery(newValue, position)
      case Some(k) =>
        showMentions := true;
        if k != search {
          search := k;
          Refilter();
        }
      case None =>
        showMentions := false;
    }

    /** `insertMention(name)`: splice `@name ` over the token before the
        stored cursor, or leave the text alone when there is none; the
        suggestions are hidden either way. The stored cursor is not moved;
        the caret position is returned for the deferred focus callback. */
    method InsertMention(name: string) returns (caret: Option<nat>)
      modifies this`value, this`showMentions
      ensures !showMentions
      ensures match SpliceMention(old(value), cursor, name)
              case None => value == old(value) && caret.None?
              case Some(r) => value == r.0 && caret == Some(r.1)
    {
      match SpliceMention(value, cursor, name) {
        case None =>
          caret := None;
        case Some(r) =>
          value := r.0;
          caret := Some(r.1);
      }
      showMentions := false;
    }

    /** Commit the highlighted candidate (Enter or Tab with candidates). */
    method CommitHighlighted() returns (outcome: KeyOutcome)
      requires |filtered| > 0
      modifies this`value, this`showMentions
      ensures selectedIndex >= |filtered| ==> outcome == Fault && unchanged(this)
      ensures selectedIndex < |filtered| ==>
                !showMentions &&
                match SpliceMention(old(value), cursor, filtered[selectedIndex].name)
                case None => value == old(value) && outcome == Inserted(None)
                case Some(r) => value == r.0 && outcome == Inserted(Some(r.1))
    {
      if selectedIndex < |filtered| {
        var caret := InsertMention(filtered[selectedIndex].name);
        outcome := Inserted(caret);
      } else {
        outcome := Fault;
      }
    }

    /** `handleKeyDown`. Enter commits the highlighted candidate while
        suggestions are shown and some exist, and otherwise submits. While
        suggestions are shown, the arrows move the highlight within the
        candidates, Escape hides them without touching the text, and Tab
        commits only when candidates exist. Every other case does nothing. */
    method KeyDown(key: Key) returns (outcome: KeyOutcome)
      requires Valid()
      modifies this`value, this`showMentions, this`selectedIndex
      ensures Valid()
      ensures var commits := old(showMentions) && |filtered| > 0 && (key == Enter || key == Tab);
              commits ==>
                if old(selectedIndex) < |filtered| then
                  outcome.Inserted? && !showMentions && selectedIndex == old(selectedIndex) &&
                  match SpliceMention(old(value), cursor, filtered[old(selectedIndex)].name)
                  case None => value == old(value) && outcome.caret.None?
                  case Some(r) => value == r.0 && outcome.caret == Some(r.1)
                else
                  outcome == Fault && unchanged(this)
      ensures key == Enter && !(old(showMentions) && |filtered| > 0) ==>
                outcome == Submitted && unchanged(this)
      ensures key == Tab && old(showMentions) && |filtered| == 0 ==>
                outcome == NoEffect && unchanged(this)
      ensures key == ArrowDown && old(showMentions) ==>
                outcome == Navigated && value == old(value) && showMentions &&
                selectedIndex == StepDown(old(selectedIndex), |filtered|)
      ensures key == ArrowUp && old(showMentions) ==>
                outcome == Navigated && value == old(value) && showMentions &&
                selectedIndex == StepUp(old(selectedIndex), |filtered|)
      ensures key == Escape && old(showMentions) ==>
                outcome == Dismissed && value == old(value) && !showMentions &&
                selectedIndex == old(selectedIndex)
      ensures (key == OtherKey || (key != Enter && !old(showMentions))) ==>
                outcome == NoEffect && unchanged(this)
    {
      if key == Enter {
        if showMentions && |filtered| > 0 {
          outcome := CommitHighlighted();
        } else {
          outcome := Submitted;
        }
      } else if showMentions {
        if key == ArrowDown {
          selectedIndex := StepDown(selectedIndex, |filtered|);
          outcome := Navigated;
        } else if key == ArrowUp {
          selectedIndex := StepUp(selectedIndex, |filtered|);
          outcome := Navigated;
        } else if key == Escape {
          showMentions := false;
          outcome := Dismissed;
        } else if key == Tab {
          if |filtered| > 0 {
            outcome := CommitHighlighted();
          } else {
            outcome := NoEffect;
          }
        } else {
          outcome := NoEffect;
        }
      } else {
        outcome := NoEffect;
      }
    }
  }
}
