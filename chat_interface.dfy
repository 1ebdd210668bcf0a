/** The chat panel (frontend/components/chat-interface.tsx): the group name
    shown next to an agent, the mentions found in a sent message, the
    simulated reply, and the session state machine that connects to an
    agent's socket, appends to the message log and routes what is sent. */
module Chat {
  import opened Base
  import opened Text
  import opened Records
  import Listing

  /** `getAgentGroupName`: no group for a missing or empty file name,
      otherwise the label the listing derives from it. */
  function GroupName(a: Agent): (g: Option<string>)
    ensures g.None? <==> !Truthy(a.fileName)
    ensures g.Some? ==> StartsWith(g.value, GroupedPrefix)
  {
    if Truthy(a.fileName) then Some(GroupedLabel(a.fileName.value)) else None
  }

  /** `formatMentionLabel`: the name, followed by the group in parentheses
      when there is one. */
  function MentionLabel(a: Agent): (shown: string)
    ensures GroupName(a).None? ==> shown == a.name
    ensures GroupName(a).Some? ==> shown == a.name + " (" + GroupName(a).value + ")"
  {
    match GroupName(a)
    case None => a.name
    case Some(g) => a.name + " (" + g + ")"
  }

  /** The chat and the listing name a group alike: an agent without a
      batch file has no group here and sits under `Ungrouped` there; any
      other file gets the same label in both, except a file literally
      named `Ungrouped`, which the listing shows verbatim. */
  lemma GroupNameAgreesWithListing(a: Agent)
    ensures !Truthy(a.fileName) ==> GroupName(a).None? && GroupKey(a) == Ungrouped
    ensures Truthy(a.fileName) && a.fileName.value != Ungrouped ==>
              GroupName(a) == Some(Listing.GroupLabel(GroupKey(a)))
    ensures a.fileName == Some(Ungrouped) ==>
              GroupName(a) == Some(GroupedPrefix) && Listing.GroupLabel(GroupKey(a)) == Ungrouped
  {
    if a.fileName == Some(Ungrouped) {
      assert !EndsWith(Ungrouped, JsonExtension) by {
        assert Ungrouped[|Ungrouped| - 1] == 'd';
      }
      assert StripJson(Ungrouped) == Ungrouped;
      assert !IsDigit(Ungrouped[|Ungrouped| - 1]);
      assert LastFourDigits(Ungrouped) == "";
      assert GroupedLabel(Ungrouped) == GroupedPrefix + "";
      assert GroupedPrefix + "" == GroupedPrefix;
      assert GroupName(a) == Some(GroupedPrefix);
      assert GroupKey(a) == Ungrouped;
    }
  }

  /** The length of the run of word characters `t` starts with. */
  function WordRun(t: string): (n: nat)
    ensures n <= |t|
    ensures forall i :: 0 <= i < n ==> IsWordChar(t[i])
    ensures n == |t| || !IsWordChar(t[n])
  {
    if t != [] && IsWordChar(t[0]) then
      var n := 1 + WordRun(t[1..]);
      assert forall i :: 1 <= i < n ==> t[i] == t[1..][i - 1];
      n
    else 0
  }

  /** A run of word characters ended by a character that is not one has
      exactly that length. */
  lemma WordRunExact(t: string, w: nat)
    requires w <= |t|
    requires forall i :: 0 <= i < w ==> IsWordChar(t[i])
    requires w == |t| || !IsWordChar(t[w])
    ensures WordRun(t) == w
  {
  }

  /** A name the mention pattern `\w+(-\w+)*` matches in full. */
  predicate WellFormedName(n: string)
    decreases |n|
  {
    n != [] && IsWordChar(n[0]) &&
    var w := WordRun(n);
    w == |n| || (n[w] == '-' && WellFormedName(n[w + 1..]))
  }

  /** The run of word characters ending before index `w` of `t` goes on
      with a dash and another word character. */
  predicate Continues(t: string, w: nat) {
    w + 1 < |t| && t[w] == '-' && IsWordChar(t[w + 1])
  }

  /** The length of the longest prefix of `t` of the form `\w+(-\w+)*`,
      which is what the greedy pattern matches. */
  function MentionLength(t: string): (n: nat)
    requires t != [] && IsWordChar(t[0])
    ensures 0 < n <= |t|
    decreases |t|
  {
    var w := WordRun(t);
    if Continues(t, w) then w + 1 + MentionLength(t[w + 1..]) else w
  }

  /** The text the greedy pattern matches at the start of `t`. */
  function MentionBody(t: string): (body: string)
    requires t != [] && IsWordChar(t[0])
    ensures 0 < |body| <= |t|
  {
    t[..MentionLength(t)]
  }

  /** A non-empty run of word characters is a well-formed name. */
  lemma WellFormedRun(n: string)
    requires n != [] && forall i :: 0 <= i < |n| ==> IsWordChar(n[i])
    ensures WellFormedName(n)
  {
    WordRunExact(n, |n|);
  }

  /** A run of word characters, a dash and a well-formed name make a
      well-formed name. */
  lemma WellFormedJoin(n: string, w: nat)
    requires 0 < w < |n| && n[w] == '-'
    requires forall i :: 0 <= i < w ==> IsWordChar(n[i])
    requires WellFormedName(n[w + 1..])
    ensures WellFormedName(n)
  {
    WordRunExact(n, w);
  }

  /** What the pattern matches is a well-formed name. */
  lemma {:induction false} MentionBodyWellFormed(t: string)
    requires t != [] && IsWordChar(t[0])
    ensures WellFormedName(MentionBody(t))
    decreases |t|
  {
    var w := WordRun(t);
    var body := MentionBody(t);
    if Continues(t, w) {
      var next := t[w + 1..];
      MentionBodyWellFormed(next);
      assert |body| == w + 1 + MentionLength(next);
      assert body[w + 1..] == MentionBody(next);
      assert body[w] == t[w];
      assert forall i :: 0 <= i < w ==> body[i] == t[i];
      WellFormedJoin(body, w);
    } else {
      assert body == t[..w];
      WellFormedRun(body);
    }
  }

  /** The names of `input.match(/@(\w+(-\w+)*)/g)` with the `@` removed,
      left to right; the search resumes after each match. */
  function MentionNames(s: string): seq<string>
    decreases |s|
  {
    if |s| < 2 then []
    else if s[0] == '@' && IsWordChar(s[1]) then
      var body := MentionBody(s[1..]);
      [body] + MentionNames(s[1 + |body|..])
    else MentionNames(s[1..])
  }

  /** Every name found is a well-formed mention name. */
  lemma {:induction false} MentionNamesWellFormed(s: string)
    ensures forall i :: 0 <= i < |MentionNames(s)| ==> WellFormedName(MentionNames(s)[i])
    decreases |s|
  {
    if |s| >= 2 {
      if s[0] == '@' && IsWordChar(s[1]) {
        var body := MentionBody(s[1..]);
        MentionBodyWellFormed(s[1..]);
        MentionNamesWellFormed(s[1 + |body|..]);
      } else {
        MentionNamesWellFormed(s[1..]);
      }
    }
  }

  /** A text without `@` mentions nobody. */
  lemma {:induction false} NoAtNoMentions(s: string)
    requires '@' !in s
    ensures MentionNames(s) == []
  {
    if |s| >= 2 {
      assert s[0] != '@';
      assert forall i :: 0 <= i < |s[1..]| ==> s[1..][i] == s[i + 1];
      NoAtNoMentions(s[1..]);
    }
  }

  /** A well-formed name followed by a space is matched as exactly that
      name. */
  lemma {:induction false} MentionLengthOfName(n: string, rest: string)
    requires WellFormedName(n)
    ensures MentionLength(n + " " + rest) == |n|
    decreases |n|
  {
    var t := n + " " + rest;
    var w := WordRun(n);
    assert forall i :: 0 <= i < w ==> t[i] == n[i];
    if w == |n| {
      assert t[w] == ' ';
      WordRunExact(t, w);
    } else {
      var tail := n[w + 1..];
      assert t[w] == n[w] == '-';
      WordRunExact(t, w);
      assert t[w + 1..] == tail + " " + rest;
      assert t[w + 1] == tail[0];
      MentionLengthOfName(tail, rest);
    }
  }

  /** A mention written as `@name ` (the way the mention box inserts it)
      is found again as exactly that name, and the search goes on after
      it. */
  lemma MentionRoundTrip(n: string, rest: string)
    requires WellFormedName(n)
    ensures MentionNames("@" + n + " " + rest) == [n] + MentionNames(rest)
  {
    var s := "@" + n + " " + rest;
    assert s[1..] == n + " " + rest;
    MentionLengthOfName(n, rest);
    assert MentionBody(s[1..]) == (n + " " + rest)[..|n|] == n;
    var after := s[1 + |n|..];
    assert after == " " + rest;
    if |after| >= 2 {
      assert after[1..] == rest;
    } else {
      assert rest == [];
    }
  }

  /** `agentNames.includes(agent.name)`. */
  function NameIn(names: seq<string>): Agent -> bool {
    (a: Agent) => a.name in names
  }

  /** The agents a message names, in list order. */
  function Mentioned(agents: seq<Agent>, names: seq<string>): seq<Agent> {
    Filter(agents, NameIn(names))
  }

  /** `agents.find(agent => agentNames.includes(agent.name))`. */
  function FirstNamed(agents: seq<Agent>, names: seq<string>): Option<Agent> {
    if agents == [] then None
    else if agents[0].name in names then Some(agents[0])
    else FirstNamed(agents[1..], names)
  }

  /** The agent auto-connected to is the first of those the simulated
      reply would list. */
  lemma {:induction false} FirstNamedIsFirstMentioned(agents: seq<Agent>, names: seq<string>)
    ensures FirstNamed(agents, names) ==
            (if Mentioned(agents, names) == [] then None else Some(Mentioned(agents, names)[0]))
  {
    if agents != [] {
      FirstNamedIsFirstMentioned(agents[1..], names);
    }
  }

  const Welcome: string := "Welcome to the Agent Platform! You can mention agents using @ symbol (e.g., @slack-agent-1)."
  const ReceivedReply: string := "I received your message."
  const NotFoundReply: string := "I couldn't find " + "any of the mentioned agents in the system."
  const ProcessPrefix: string := "I'll process your request using the "

  /** `agent.args?.join(" ") || ""`. */
  function ArgsText(args: Option<seq<string>>): string {
    match args
    case None => ""
    case Some(xs) => Join(xs, " ")
  }

  /** One line of the agent details. */
  function DetailLine(a: Agent): string {
    "\n- " + a.name + " (" + a.agentType + "): " + a.command + " " + ArgsText(a.args)
  }

  /** The detail lines of the matched agents, in order. */
  function DetailLines(ms: seq<Agent>): string {
    if ms == [] then "" else DetailLine(ms[0]) + DetailLines(ms[1..])
  }

  function NamesOf(ms: seq<Agent>): (names: seq<string>)
    ensures |names| == |ms|
  {
    seq(|ms|, i requires 0 <= i < |ms| => ms[i].name)
  }

  /** The reply that lists the matched agents. */
  function DetailedReply(ms: seq<Agent>): string {
    ProcessPrefix + Join(NamesOf(ms), ", ") + " agent(s)." + "\n\nAgent details:" +
    DetailLines(ms) + "\n\nTo connect to an agent, mention it with @name."
  }

  /** The text of the delayed simulated reply for a message with the given
      mentions. */
  function SimulatedReply(agents: seq<Agent>, names: seq<string>): string {
    if names == [] then ReceivedReply
    else
      var ms := Mentioned(agents, names);
      if ms == [] then NotFoundReply else DetailedReply(ms)
  }

  /** The three replies are told apart by their text: the plain receipt
      exactly when nothing was mentioned, the not-found text exactly when
      mentions matched no agent, and otherwise the detailed reply. */
  lemma SimulatedReplyCases(agents: seq<Agent>, names: seq<string>)
    ensures SimulatedReply(agents, names) == ReceivedReply <==> names == []
    ensures SimulatedReply(agents, names) == NotFoundReply <==> names != [] && Mentioned(agents, names) == []
    ensures names != [] && Mentioned(agents, names) != [] ==>
              StartsWith(SimulatedReply(agents, names), ProcessPrefix)
  {
    RepliesDiffer();
    if names != [] {
      var ms := Mentioned(agents, names);
      if ms != [] {
        DetailedReplyOpens(ms);
        assert SimulatedReply(agents, names) == DetailedReply(ms);
      } else {
        assert SimulatedReply(agents, names) == NotFoundReply;
      }
    }
  }

  /** The receipt and the not-found text differ in their third character. */
  lemma RepliesDiffer()
    ensures ReceivedReply != NotFoundReply
  {
    assert ReceivedReply[1] == ' ' && NotFoundReply[1] == ' ';
    assert ReceivedReply[2] != NotFoundReply[2];
  }

  /** The detailed reply opens with the processing prefix, whose second
      character is an apostrophe. */
  lemma DetailedReplyOpens(ms: seq<Agent>)
    ensures StartsWith(DetailedReply(ms), ProcessPrefix)
    ensures DetailedReply(ms) != ReceivedReply && DetailedReply(ms) != NotFoundReply
  {
    var r := DetailedReply(ms);
    assert r[..|ProcessPrefix|] == ProcessPrefix;
    assert r[1] == ProcessPrefix[1] == '\'';
  }

  lemma {:induction false} DetailLinesContain(ms: seq<Agent>, i: nat)
    requires i < |ms|
    ensures Contains(DetailLines(ms), DetailLine(ms[i]))
  {
    var head := DetailLine(ms[0]);
    var tail := DetailLines(ms[1..]);
    assert DetailLines(ms) == head + tail;
    if i == 0 {
      ContainsStart(head, tail);
    } else {
      DetailLinesContain(ms[1..], i - 1);
      assert ms[1..][i - 1] == ms[i];
      ContainsAfter(head, tail, DetailLine(ms[i]));
    }
  }

  /** Text found in the middle part is found in the whole. */
  lemma ContainsInMiddle(pre: string, mid: string, post: string, needle: string)
    requires Contains(mid, needle)
    ensures Contains(pre + mid + post, needle)
  {
    var k: nat :| OccursAt(mid, needle, k);
    var whole := pre + mid + post;
    assert whole[|pre| + k..|pre| + k + |needle|] == mid[k..k + |needle|];
    assert OccursAt(whole, needle, |pre| + k);
  }

  /** Every named agent gets its detail line in the reply. */
  lemma ReplyListsEveryNamed(agents: seq<Agent>, names: seq<string>, a: Agent)
    requires names != [] && a in agents && a.name in names
    ensures Contains(SimulatedReply(agents, names), DetailLine(a))
  {
    var ms := Mentioned(agents, names);
    FilterMembership(agents, NameIn(names), a);
    var i :| 0 <= i < |ms| && ms[i] == a;
    DetailLinesContain(ms, i);
    var pre := ProcessPrefix + Join(NamesOf(ms), ", ") + " agent(s)." + "\n\nAgent details:";
    var post := "\n\nTo connect to an agent, mention it with @name.";
    ContainsInMiddle(pre, DetailLines(ms), post, DetailLine(a));
    assert SimulatedReply(agents, names) == pre + DetailLines(ms) + post;
  }

  /** `String(n)` of an integer. */
  function IntText(n: int): string {
    if n >= 0 then Decimal(n) else "-" + Decimal(-n)
  }

  /** `agents.find(a => a.id === id)`: the first agent with the id. */
  function FindById(agents: seq<Agent>, id: int): (r: Option<Agent>)
    ensures r.Some? ==> r.value in agents && r.value.id == id
    ensures r.Some? ==> exists i :: 0 <= i < |agents| && agents[i] == r.value && forall m :: 0 <= m < i ==> agents[m].id != id
    ensures r.None? ==> forall i :: 0 <= i < |agents| ==> agents[i].id != id
  {
    if agents == [] then None
    else if agents[0].id == id then Some(agents[0])
    else
      var r := FindById(agents[1..], id);
      assert forall i :: 1 <= i < |agents| ==> agents[i] == agents[1..][i - 1];
      r
  }

  /** The text after `Connected to `: the agent whose id is the number the
      socket was opened for, with its group, or `agent <number>`. */
  function ConnectedText(agents: seq<Agent>, socketId: int): string {
    match FindById(agents, socketId)
    case Some(a) => MentionLabel(a)
    case None => "agent " + IntText(socketId)
  }

  /** The socket is dialled with a file id but the greeting looks the
      number up among the agent ids, so it can greet a different agent. */
  lemma GreetingUsesAgentId()
    ensures var x := Agent(5, "x", "t", "c", None, None, true, None, 2);
            var y := Agent(2, "y", "t", "c", None, None, true, None, 7);
            ConnectedText([x, y], x.fileId) == "y"
  {
  }

  /** The text shown when a socket closes. */
  function CloseText(reason: string): (text: string)
    ensures reason == "" ==> text == "Disconnected from agent: Connection closed"
    ensures reason != "" ==> text == "Disconnected from agent: " + reason
  {
    "Disconnected from agent: " + (if reason == "" then "Connection closed" else reason)
  }

  /** What `JSON.parse` made of a frame: not JSON, or an object whose
      `message` field is the text given, if any. */
  datatype Parsed = NotJson | Json(message: Option<string>)

  datatype Frame = Frame(raw: string, parsed: Parsed)

  /** The content of the assistant message for an inbound frame. */
  function InboundContent(f: Frame): (content: string)
    ensures (f.parsed.Json? && Truthy(f.parsed.message)) ==> content == f.parsed.message.value
    ensures !(f.parsed.Json? && Truthy(f.parsed.message)) ==> content == f.raw
  {
    if f.parsed.Json? && Truthy(f.parsed.message) then f.parsed.message.value else f.raw
  }

  datatype Role = System | User | Assistant
  datatype Message = Message(role: Role, content: string)

  datatype Status = Disconnected | Connecting | Connected

  /** A socket, numbered in the order it was created, with the number it
      was dialled for. */
  datatype Socket = Socket(serial: nat, target: int)

  /** How `handleSendMessage` dealt with the input. */
  datatype Route = Ignored | Forwarded | AutoConnect(agent: Agent) | Simulated(reply: string)

  /** The routing rule of `handleSendMessage`, given whether an open
      socket exists and whether an agent is active. */
  function RouteFor(input: string, agents: seq<Agent>, open: bool, hasActive: bool): Route {
    if Trim(input) == "" then Ignored
    else if open then Forwarded
    else
      var names := MentionNames(input);
      var found := FirstNamed(agents, names);
      if names != [] && found.Some? && !hasActive then AutoConnect(found.value)
      else Simulated(SimulatedReply(agents, names))
  }

  /** Blank input is ignored; with an open socket the text is forwarded;
      otherwise the first known agent named by a mention is connected to
      when no agent is active, and in every remaining case a simulated
      reply is scheduled. */
  lemma RouteForCases(input: string, agents: seq<Agent>, open: bool, hasActive: bool)
    ensures RouteFor(input, agents, open, hasActive).Ignored? <==> Blank(input)
    ensures RouteFor(input, agents, open, hasActive).Forwarded? <==> !Blank(input) && open
    ensures RouteFor(input, agents, open, hasActive).AutoConnect? <==>
              !Blank(input) && !open && !hasActive && Mentioned(agents, MentionNames(input)) != []
    ensures RouteFor(input, agents, open, hasActive).AutoConnect? ==>
              RouteFor(input, agents, open, hasActive).agent == Mentioned(agents, MentionNames(input))[0]
  {
    TrimEmptyIff(input);
    FirstNamedIsFirstMentioned(agents, MentionNames(input));
    if MentionNames(input) == [] {
      FilterNone(agents, NameIn([]));
    }
  }

  /** Sent while disconnected and with no agent active, a message that opens
      with a mention of a known agent and mentions nothing else connects to
      the first agent of that name instead of scheduling a simulated
      reply. */
  lemma MentionStartsConnection(agents: seq<Agent>, n: string, rest: string, a: Agent)
    requires WellFormedName(n) && '@' !in rest
    requires a in agents && a.name == n
    ensures Mentioned(agents, [n]) != []
    ensures RouteFor("@" + n + " " + rest, agents, false, false) == AutoConnect(Mentioned(agents, [n])[0])
  {
    var input := "@" + n + " " + rest;
    MentionRoundTrip(n, rest);
    NoAtNoMentions(rest);
    assert MentionNames(input) == [n];
    FilterMembership(agents, NameIn([n]), a);
    assert !Blank(input) by { assert input[0] == '@'; }
    RouteForCases(input, agents, false, false);
  }

  /** `billing-bot` is a name the mention pattern matches in full, so
      `@billing-bot check status` sent while disconnected, with such an agent
      listed, dials it (an instance of `MentionStartsConnection`). */
  lemma BillingBotWellFormed()
    ensures WellFormedName("billing-bot")
  {
    var n := "billing-bot";
    WellFormedRun("bot");
    assert n[8..] == "bot";
    WellFormedJoin(n, 7);
  }

  /** The chat panel's state. The socket handle is set only once a socket
      opens; `dialed` records every socket created, `sent` every frame sent,
      `closed` every socket closed from this side, and `pending` the
      simulated replies whose timers have not fired yet. */
  class ChatSession {
    var messages: seq<Message>
    var input: string
    var activeAgent: Option<Agent>
    var connection: Option<Socket>
    var status: Status
    var agents: seq<Agent>
    var dialed: seq<int>
    var sent: seq<string>
    var closed: seq<Socket>
    var pending: seq<string>

    /** The log starts with the welcome message, a held socket is one this
        panel created, and holding a socket means being connected. */
    ghost predicate Valid()
      reads this
    {
      && |messages| >= 1 && messages[0] == Message(System, Welcome)
      && (connection.Some? ==> status == Connected)
      && (connection.Some? ==> connection.value.serial < |dialed| &&
                               dialed[connection.value.serial] == connection.value.target)
    }

    constructor (agents: seq<Agent>)
      ensures Valid()
      ensures messages == [Message(System, Welcome)] && input == ""
      ensures activeAgent.None? && connection.None? && status == Disconnected
      ensures this.agents == agents && dialed == [] && sent == [] && closed == [] && pending == []
    {
      messages := [Message(System, Welcome)];
      input := "";
      activeAgent := None;
      connection := None;
      status := Disconnected;
      this.agents := agents;
      dialed, sent, closed, pending := [], [], [], [];
    }

    /** Typing into the box. */
    method SetInput(text: string)
      modifies this`input
      ensures input == text
    {
      input := text;
    }

    /** The agent list fetched on mount. */
    method SetAgents(fetched: seq<Agent>)
      modifies this`agents
      ensures agents == fetched
    {
      agents := fetched;
    }

    /** `disconnectWebSocket`: with no socket nothing happens; otherwise the
        socket is closed and dropped, no agent is active and the status is
        disconnected. */
    method Disconnect()
      requires Valid()
      modifies this`connection, this`status, this`activeAgent, this`closed
      ensures Valid()
      ensures old(connection).None? ==>
                connection.None? && status == old(status) && activeAgent == old(activeAgent) && closed == old(closed)
      ensures old(connection).Some? ==>
                connection.None? && status == Disconnected && activeAgent.None? &&
                closed == old(closed) + [old(connection).value]
    {
      if connection.Some? {
        closed := closed + [connection.value];
        connection := None;
        status := Disconnected;
        activeAgent := None;
      }
    }

    /** `connectWebSocket(id)`: drop any held socket first, then create a
        socket for `id` and wait for it to open. */
    method Connect(id: int) returns (s: Socket)
      requires Valid()
      modifies this`connection, this`status, this`activeAgent, this`closed, this`dialed
      ensures Valid()
      ensures s == Socket(|old(dialed)|, id) && dialed == old(dialed) + [id]
      ensures status == Connecting && connection.None?
      ensures old(connection).None? ==> activeAgent == old(activeAgent) && closed == old(closed)
      ensures old(connection).Some? ==> activeAgent.None? && closed == old(closed) + [old(connection).value]
    {
      Disconnect();
      status := Connecting;
      s := Socket(|dialed|, id);
      dialed := dialed + [id];
    }

    /** `onopen`: the socket becomes the held one, the status connected,
        and one greeting naming the agent is appended. */
    method OnOpen(s: Socket)
      requires Valid()
      requires s.serial < |dialed| && dialed[s.serial] == s.target
      modifies this`connection, this`status, this`messages
      ensures Valid()
      ensures connection == Some(s) && status == Connected
      ensures messages == old(messages) + [Message(System, "Connected to " + ConnectedText(agents, s.target))]
    {
      connection := Some(s);
      status := Connected;
      messages := messages + [Message(System, "Connected to " + ConnectedText(agents, s.target))];
    }

    /** `onmessage`: one assistant message per frame. */
    method OnMessage(f: Frame)
      requires Valid()
      modifies this`messages
      ensures Valid()
      ensures messages == old(messages) + [Message(Assistant, InboundContent(f))]
    {
      messages := messages + [Message(Assistant, InboundContent(f))];
    }

    /** `onclose`: disconnected, no socket held, and one system message
        with the reason. */
    method OnClose(reason: string)
      requires Valid()
      modifies this`connection, this`status, this`messages
      ensures Valid()
      ensures connection.None? && status == Disconnected
      ensures messages == old(messages) + [Message(System, CloseText(reason))]
    {
      connection := None;
      status := Disconnected;
      messages := messages + [Message(System, CloseText(reason))];
    }

    /** The timer of a simulated reply fires: its text is appended as an
        assistant message. */
    method ReplyTimerFired()
      requires Valid() && pending != []
      modifies this`messages, this`pending
      ensures Valid()
      ensures messages == old(messages) + [Message(Assistant, old(pending)[0])]
      ensures pending == old(pending)[1..]
    {
      messages := messages + [Message(Assistant, pending[0])];
      pending := pending[1..];
    }

    /** `handleSendMessage`. Blank input changes nothing. Otherwise the
        untrimmed input is logged as a user message and then routed: sent
        over the held socket; or, when an agent is mentioned and none is
        active, the connection to it is started and announced, returning
        before the input is cleared; or a simulated reply is scheduled. */
    method SendMessage() returns (route: Route)
      requires Valid()
      modifies this`messages, this`input, this`sent, this`pending, this`activeAgent,
               this`connection, this`status, this`closed, this`dialed
      ensures Valid()
      ensures route == RouteFor(old(input), old(agents), old(connection).Some?, old(activeAgent).Some?)
      ensures agents == old(agents)
      ensures route.Ignored? ==>
                messages == old(messages) && input == old(input) && sent == old(sent) &&
                dialed == old(dialed) && pending == old(pending) && connection == old(connection) &&
                status == old(status) && activeAgent == old(activeAgent)
      ensures route.Forwarded? ==>
                messages == old(messages) + [Message(User, old(input))] && input == "" &&
                sent == old(sent) + [old(input)] && dialed == old(dialed) && pending == old(pending) &&
                connection == old(connection) && status == old(status) && activeAgent == old(activeAgent)
      ensures route.AutoConnect? ==>
                messages == old(messages) + [Message(User, old(input)),
                                             Message(System, "Connecting to agent: " + route.agent.name + "...")] &&
                input == old(input) && activeAgent == Some(route.agent) &&
                dialed == old(dialed) + [route.agent.fileId] && status == Connecting &&
                connection.None? && sent == old(sent) && pending == old(pending)
      ensures route.Simulated? ==>
                messages == old(messages) + [Message(User, old(input))] && input == "" &&
                pending == old(pending) + [route.reply] && sent == old(sent) && dialed == old(dialed) &&
                connection == old(connection) && status == old(status) && activeAgent == old(activeAgent)
    {
      route := RouteFor(input, agents, connection.Some?, activeAgent.Some?);
      match route
      case Ignored =>
      case Forwarded => ForwardInput();
      case AutoConnect(agent) => StartAutoConnect(agent);
      case Simulated(reply) => ScheduleReply(reply);
    }

    /** The forwarding route: the input is logged, sent and cleared. */
    method ForwardInput()
      requires Valid()
      modifies this`messages, this`sent, this`input
      ensures Valid()
      ensures messages == old(messages) + [Message(User, old(input))]
      ensures sent == old(sent) + [old(input)] && input == ""
    {
      messages := messages + [Message(User, input)];
      sent := sent + [input];
      input := "";
    }

    /** The auto-connect route: the input is logged, the agent made active,
        a socket dialled for its batch file and the attempt announced; the
        input is kept. */
    method StartAutoConnect(agent: Agent)
      requires Valid() && connection.None?
      modifies this`messages, this`activeAgent, this`connection, this`status, this`closed, this`dialed
      ensures Valid()
      ensures messages == old(messages) + [Message(User, input),
                                           Message(System, "Connecting to agent: " + agent.name + "...")]
      ensures activeAgent == Some(agent) && dialed == old(dialed) + [agent.fileId]
      ensures status == Connecting && connection.None?
    {
      messages := messages + [Message(User, input)];
      activeAgent := Some(agent);
      var _ := Connect(agent.fileId);
      messages := messages + [Message(System, "Connecting to agent: " + agent.name + "...")];
    }

    /** The simulated route: the input is logged, the reply scheduled and
        the input cleared. */
    method ScheduleReply(reply: string)
      requires Valid()
      modifies this`messages, this`pending, this`input
      ensures Valid()
      ensures messages == old(messages) + [Message(User, old(input))]
      ensures pending == old(pending) + [reply] && input == ""
    {
      messages := messages + [Message(User, input)];
      pending := pending + [reply];
      input := "";
    }
  }
}
