/**
 One chat connection, from the operator's messages to the stored history: the gateway's wait for a
 skill selection, the kernel's own choice of skills, and the history endpoint.

 Skill scoring is a parameter: each user message carries what the gateway offered for it (`None`
 when the user has no active skill, otherwise all active ones), and the kernel's matcher is a
 function of the text.
 */
module Gateway {
  import opened Basics
  import opened SkillContext
  import B = SkillBlocks
  import SseParser

  datatype Attachment = Attachment(source: string, content: string, task: Option<string>)

  datatype UserMessage = UserMessage(content: string, context: seq<Attachment>)

  datatype Inbound =
    | Typed(content: string, context: seq<Attachment>, matches: Option<Library>)
    | Selection(ids: seq<string>)
    | Cancel
    | ProxyResult
    | Unknown

  datatype ToKernel = Chat(message: UserMessage) | CancelTurn | Result

  datatype ToClient = SkillMatch | UnexpectedSelection | UnknownType

  datatype Pending = Pending(content: string, lib: Library)

  const SKILL_SELECTION_MARKER: string := "skill_selection"
  const SELECTED_SKILL_SOURCE: string := "selected_skill"
  const FORK_SUMMARY_SOURCE: string := "fork_summary"

  /** The message that goes out once the operator has picked. */
  function Picked(content: string, lib: Library, ids: seq<string>): (m: UserMessage)
  {
    var context := GatewayContext(lib, ids);
    UserMessage(if context.Some? then Inject(context.value, content) else content,
                [Attachment(SKILL_SELECTION_MARKER, "", None)])
  }

  datatype Handled = Handled(pending: Option<Pending>, kernel: Option<ToKernel>, client: Option<ToClient>)

  function Handle(pending: Option<Pending>, e: Inbound): (h: Handled)
  {
    match e
    case Typed(content, context, matches) =>
      if matches.Some? then Handled(Some(Pending(content, matches.value)), None, Some(SkillMatch))
      else Handled(pending, Some(Chat(UserMessage(content, context))), None)
    case Selection(ids) =>
      if pending.None? then Handled(pending, None, Some(UnexpectedSelection))
      else Handled(None, Some(Chat(Picked(pending.value.content, pending.value.lib, ids))), None)
    case Cancel => Handled(None, Some(CancelTurn), None)
    case ProxyResult => Handled(pending, Some(Result), None)
    case Unknown => Handled(pending, None, Some(UnknownType))
  }

  /** The receive loop of one connection. */
  class Connection {
    var pending: Option<Pending>
    var sent: seq<ToKernel>
    var replies: seq<ToClient>

    constructor ()
      ensures pending == None && sent == [] && replies == []
    {
      pending, sent, replies := None, [], [];
    }

    method Receive(e: Inbound)
      modifies this
      ensures
        var h := Handle(old(pending), e);
        && pending == h.pending
        && sent == old(sent) + (if h.kernel.Some? then [h.kernel.value] else [])
        && replies == old(replies) + (if h.client.Some? then [h.client.value] else [])
    {
      match e {
        case Typed(content, context, matches) =>
          if matches.Some? {
            replies := replies + [SkillMatch];
            pending := Some(Pending(content, matches.value));
            return;
          }
          sent := sent + [Chat(UserMessage(content, context))];
        case Selection(ids) =>
          if pending.None? {
            replies := replies + [UnexpectedSelection];
            return;
          }
          var original := pending.value.content;
          var context := BuildContextFromIds(pending.value.lib, ids);
          var content := original;
          if ids != [] {
            BlocksAreNotEmpty(AllGatewayLines(pending.value.lib, ids));
          }
          if context != "" { content := Inject(context, original); }
          sent := sent + [Chat(UserMessage(content, [Attachment(SKILL_SELECTION_MARKER, "", None)]))];
          pending := None;
        case Cancel =>
          pending := None;
          sent := sent + [CancelTurn];
        case ProxyResult =>
          sent := sent + [Result];
        case Unknown =>
          replies := replies + [UnknownType];
      }
    }
  }

  lemma BlocksAreNotEmpty(lines: seq<string>)
    ensures Context(lines) != ""
  {
    var all := [HEADER, ""] + lines + [END_MARKER];
    assert all[0] == HEADER && |all| > 1;
  }

  // ---------------------------------------------------------------- whole connections

  function PendingAfter(events: seq<Inbound>): (p: Option<Pending>)
  {
    if events == [] then None else Handle(PendingAfter(events[..|events| - 1]), events[|events| - 1]).pending
  }

  /** What event `j` sends to the kernel. */
  function SentAt(events: seq<Inbound>, j: nat): (k: Option<ToKernel>)
    requires j < |events|
  {
    Handle(PendingAfter(events[..j]), events[j]).kernel
  }

  /** Does this event end the wait of a message typed before it? */
  predicate EndsWait(e: Inbound)
  {
    e.Selection? || e.Cancel? || (e.Typed? && e.matches.Some?)
  }

  /** Message `i` still waits for a selection when `events` are over. */
  predicate Waits(events: seq<Inbound>, i: nat)
  {
    && i < |events|
    && events[i].Typed?
    && events[i].matches.Some?
    && forall k :: i < k < |events| ==> !EndsWait(events[k])
  }

  /** Message `i` leaves for the kernel at event `j`: at once if nothing matched it, otherwise at the
      first selection after it, unless a cancel or another matched message came in between. */
  predicate Leaves(events: seq<Inbound>, i: nat, j: nat)
  {
    && i <= j < |events|
    && events[i].Typed?
    && (if events[i].matches.None? then j == i else i < j && events[j].Selection? && Waits(events[..j], i))
  }

  /** The message as the gateway hands it over. */
  function HandedOver(typed: Inbound, at: Inbound): (m: UserMessage)
    requires typed.Typed? && (typed.matches.Some? ==> at.Selection?)
  {
    if typed.matches.None? then UserMessage(typed.content, typed.context)
    else Picked(typed.content, typed.matches.value, at.ids)
  }

  lemma WaitsAfter(events: seq<Inbound>, i: nat)
    requires i + 1 < |events|
    ensures Waits(events, i) <==> Waits(events[..|events| - 1], i) && !EndsWait(events[|events| - 1])
  {
    var init := events[..|events| - 1];
    assert forall k :: 0 <= k < |init| ==> init[k] == events[k];
  }

  /** The pending slot holds exactly the message that waits. */
  lemma {:induction false} PendingIsWaiting(events: seq<Inbound>)
    ensures PendingAfter(events).Some? <==> exists i: nat :: Waits(events, i)
    ensures forall i: nat :: Waits(events, i) ==>
      PendingAfter(events) == Some(Pending(events[i].content, events[i].matches.value))
  {
    if events != [] {
      var init, e := events[..|events| - 1], events[|events| - 1];
      PendingIsWaiting(init);
      forall i | 0 <= i < |init|
        ensures Waits(events, i) <==> Waits(init, i) && !EndsWait(e)
      {
        WaitsAfter(events, i);
      }
      if e.Typed? && e.matches.Some? {
        assert Waits(events, |init|);
      } else if PendingAfter(init).Some? && !EndsWait(e) {
        var i: nat :| Waits(init, i);
        assert Waits(events, i);
      }
    }
  }

  /** Which messages reach the kernel, when, and as what: event `j` sends a chat message exactly when
      some typed message leaves there, and then sends that one. */
  lemma SentExactly(events: seq<Inbound>, j: nat)
    requires j < |events|
    ensures SentAt(events, j).Some? && SentAt(events, j).value.Chat? <==> exists i: nat :: Leaves(events, i, j)
    ensures forall i: nat :: Leaves(events, i, j) ==> SentAt(events, j) == Some(Chat(HandedOver(events[i], events[j])))
  {
    PendingIsWaiting(events[..j]);
    if events[j].Typed? && events[j].matches.None? {
      assert Leaves(events, j, j);
    }
    if events[j].Selection? && PendingAfter(events[..j]).Some? {
      var i: nat :| Waits(events[..j], i);
      assert Leaves(events, i, j);
    }
  }

  lemma WaitsOnce(events: seq<Inbound>, i: nat, k: nat)
    requires Waits(events, i) && Waits(events, k)
    ensures i == k
  {
  }

  /** No message reaches the kernel twice, and no event hands over two messages. */
  lemma LeavesOnce(events: seq<Inbound>, i: nat, j: nat, k: nat, l: nat)
    requires Leaves(events, i, j) && Leaves(events, k, l)
    ensures i == k <==> j == l
  {
    if j == l && events[j].Selection? {
      WaitsOnce(events[..j], i, k);
    }
  }

  /** When order is kept: of two messages that both leave, the later one overtakes exactly when no
      skills were offered for it and the earlier one was still waiting for its selection. */
  lemma OvertakesIff(events: seq<Inbound>, i: nat, j: nat, k: nat, l: nat)
    requires Leaves(events, i, j) && Leaves(events, k, l) && i < k
    ensures l < j <==> events[k].matches.None? && k < j
  {
  }

  /** It happens: a message typed while no skill is active overtakes one typed while some were. */
  lemma UnofferedOvertakesWaiting(first: string, second: string, lib: Library, ids: seq<string>)
    ensures
      var events := [Typed(first, [], Some(lib)), Typed(second, [], None), Selection(ids)];
      Leaves(events, 1, 1) && Leaves(events, 0, 2)
  {
    var events := [Typed(first, [], Some(lib)), Typed(second, [], None), Selection(ids)];
    assert events[..2][0] == events[0] && events[..2][1] == events[1];
    assert Waits(events[..2], 0);
  }

  // ---------------------------------------------------------------- the kernel

  /** The kernel's skills and its own matcher. */
  datatype Engine = Engine(skills: seq<LoadedSkill>, matcher: string -> seq<string>)

  function ForkNote(a: Attachment): (note: string)
  {
    "[Fork report \U{2014} task: " + Or(a.task, "(no task description)") + "]\n" + a.content + "\n[End fork report]"
  }

  function ForkNotes(context: seq<Attachment>): (notes: seq<string>)
  {
    if context == [] then []
    else (if context[0].source == FORK_SUMMARY_SOURCE then [ForkNote(context[0])] else []) + ForkNotes(context[1..])
  }

  function UserText(m: UserMessage): (text: string)
  {
    var notes := ForkNotes(m.context);
    if notes == [] then m.content
    else if SseParser.Trim(m.content) == "" then Join(notes, "\n\n")
    else Join(notes, "\n\n") + "\n\n---\n\nOperator note:\n" + m.content
  }

  lemma {:induction false} ForkNotesAreTheForks(context: seq<Attachment>)
    ensures ForkNotes(context) == [] <==> forall a :: a in context ==> a.source != FORK_SUMMARY_SOURCE
  {
    if context != [] {
      ForkNotesAreTheForks(context[1..]);
      assert context == [context[0]] + context[1..];
    }
  }

  /** Fork reports go in front of what the operator typed: the typed text is all there is without a
      fork attachment, and otherwise ends the message unless it is blank. */
  lemma ForkReportsPrecedeText(m: UserMessage)
    ensures (forall a :: a in m.context ==> a.source != FORK_SUMMARY_SOURCE) ==> UserText(m) == m.content
    ensures
      var text := UserText(m);
      SseParser.Trim(m.content) != "" ==> |m.content| <= |text| && text[|text| - |m.content|..] == m.content
  {
    ForkNotesAreTheForks(m.context);
    var notes := ForkNotes(m.context);
    if notes != [] {
      var front := Join(notes, "\n\n") + "\n\n---\n\nOperator note:\n";
      assert (front + m.content)[|front|..] == m.content;
    } else {
      assert m.content[0..] == m.content;
    }
  }

  /** What every event sends besides chat messages, and what the operator is told. */
  lemma RepliesExactly(events: seq<Inbound>, j: nat)
    requires j < |events|
    ensures
      var h := Handle(PendingAfter(events[..j]), events[j]);
      && (h.kernel == Some(CancelTurn) <==> events[j].Cancel?)
      && (h.kernel == Some(Result) <==> events[j].ProxyResult?)
      && (h.client == Some(SkillMatch) <==> events[j].Typed? && events[j].matches.Some?)
      && (h.client == Some(UnexpectedSelection) <==>
            events[j].Selection? && !exists i: nat :: Waits(events[..j], i))
      && (h.client == Some(UnknownType) <==> events[j].Unknown?)
  {
    PendingIsWaiting(events[..j]);
  }

  /** Every fork report reaches the text of the turn: its task and its content both stand in it. */
  lemma ForkReportsReachText(m: UserMessage, k: nat)
    requires k < |m.context| && m.context[k].source == FORK_SUMMARY_SOURCE
    ensures
      var a := m.context[k];
      && Contains(UserText(m), a.content)
      && Contains(UserText(m), if a.task.Some? then a.task.value else "(no task description)")
  {
    var notes, a := ForkNotes(m.context), m.context[k];
    var i := ForkNoteOf(m.context, k);
    B.LineOccurs(notes, "\n\n", i);
    NoteHolds(a);
    var joined := Join(notes, "\n\n");
    ContainsThrough(joined, ForkNote(a), a.content);
    ContainsThrough(joined, ForkNote(a), Or(a.task, "(no task description)"));
    var tail := "\n\n---\n\nOperator note:\n" + m.content;
    assert SseParser.Trim(m.content) != "" ==> UserText(m) == joined + tail;
    ContainsInFront(joined, tail, a.content);
    ContainsInFront(joined, tail, Or(a.task, "(no task description)"));
  }

  lemma {:induction false} ForkNoteOf(context: seq<Attachment>, k: nat) returns (i: nat)
    requires k < |context| && context[k].source == FORK_SUMMARY_SOURCE
    ensures i < |ForkNotes(context)| && ForkNotes(context)[i] == ForkNote(context[k])
  {
    if k == 0 {
      i := 0;
    } else {
      var j := ForkNoteOf(context[1..], k - 1);
      i := if context[0].source == FORK_SUMMARY_SOURCE then j + 1 else j;
    }
  }

  lemma NoteHolds(a: Attachment)
    ensures Contains(ForkNote(a), a.content) && Contains(ForkNote(a), Or(a.task, "(no task description)"))
  {
    var task := Or(a.task, "(no task description)");
    var open, close := "[Fork report \U{2014} task: ", "\n[End fork report]";
    HoldsMiddle(open + task + "]\n", a.content, close);
    HoldsMiddle(open, task, "]\n" + a.content + close);
    assert open + task + ("]\n" + a.content + close) == ForkNote(a);
  }

  lemma HoldsMiddle(a: string, b: string, c: string)
    ensures Contains(a + b + c, b)
  {
    assert OccursAt(b, b, 0);
    OccursInConcat(a, b, b, 0);
    OccursInConcat(a + b, c, b, |a|);
  }

  lemma ContainsThrough(s: string, t: string, u: string)
    requires Contains(s, t) && Contains(t, u)
    ensures Contains(s, u)
  {
    var i :| OccursAt(s, t, i);
    var j :| OccursAt(t, u, j);
    var part := s[i..i + |t|];
    assert part == t;
    assert forall k :: 0 <= k < |u| ==> s[i + j + k] == part[j + k] && t[j..j + |u|][k] == u[k];
    assert s[i + j..i + j + |u|] == u;
    assert OccursAt(s, u, i + j);
  }

  lemma ContainsInFront(a: string, b: string, needle: string)
    requires Contains(a, needle)
    ensures Contains(a + b, needle)
  {
    var i :| OccursAt(a, needle, i);
    OccursInConcat(a, b, needle, i);
    assert OccursAt(a + b, needle, i);
  }

  /** With a selection marker the kernel takes exactly the ids of the selection rows, in their order. */
  lemma {:induction false} SelectedIdsAreTheRows(a: seq<Attachment>, b: seq<Attachment>)
    ensures SelectedIds(a + b) == SelectedIds(a) + SelectedIds(b)
    ensures |a| == 1 ==> SelectedIds(a) == if a[0].source == "selected_skill" then [a[0].content] else []
  {
    if a == [] {
      assert a + b == b;
    } else {
      assert (a + b)[1..] == a[1..] + b && (a + b)[0] == a[0];
      SelectedIdsAreTheRows(a[1..], b);
    }
  }

  /** A selection decides alone: with the marker, the kernel takes the known ones of the selected ids and
      nothing for none; without it, what its matcher finds for the text. */
  lemma SelectionOverridesMatcher(engine: Engine, m: UserMessage)
    ensures
      var selects := exists a :: a in m.context && a.source == "skill_selection";
      && (selects ==> forall id :: id in Matched(engine, m) <==>
            id in SelectedIds(m.context) && exists s :: s in engine.skills && s.id == id)
      && (selects && SelectedIds(m.context) == [] ==> Augmented(engine, m) == UserText(m))
      && (!selects ==> Matched(engine, m) == engine.matcher(UserText(m)))
  {
    forall id ensures id in SelectByIds(engine.skills, SelectedIds(m.context)) <==>
                      id in SelectedIds(m.context) && exists s :: s in engine.skills && s.id == id
    {
      SelectionIsKnown(engine.skills, SelectedIds(m.context), id);
      B.RenderedSkill(engine.skills, id);
    }
  }

  /** The turn's text holds the content of every skill the kernel matched for it. */
  lemma TurnHoldsSkills(engine: Engine, m: UserMessage, k: nat, j: nat)
    requires k < |Matched(engine, m)| && B.LastLoaded(engine.skills, j, Matched(engine, m)[k])
    ensures Contains(Augmented(engine, m), engine.skills[j].content)
  {
    B.BlockHoldsContent(engine.skills, Matched(engine, m), k, j);
    var block := Context(AllKernelLines(engine.skills, Matched(engine, m)));
    ConcatAssociative(block, SEPARATOR, UserText(m));
    ContainsInFront(block, SEPARATOR + UserText(m), engine.skills[j].content);
  }

  /** A message keeps its fork reports on the way to the kernel exactly when it has none or no skills
      were offered for it: a selection replaces the attachments it was typed with. */
  lemma ForkReportsKeptIff(events: seq<Inbound>, i: nat, j: nat)
    requires Leaves(events, i, j)
    ensures
      var sent := SentAt(events, j);
      && sent.Some? && sent.value.Chat?
      && (ForkNotes(sent.value.message.context) == ForkNotes(events[i].context)
          <==> ForkNotes(events[i].context) == [] || events[i].matches.None?)
  {
    SentExactly(events, j);
    if events[i].matches.Some? {
      var context := [Attachment(SKILL_SELECTION_MARKER, "", None)];
      SourcesDiffer();
      assert context[1..] == [];
      assert ForkNotes(context) == [];
    }
  }

  predicate HasSelectionMarker(m: UserMessage)
  {
    exists a :: a in m.context && a.source == SKILL_SELECTION_MARKER
  }

  function SelectedIds(context: seq<Attachment>): (ids: seq<string>)
  {
    if context == [] then []
    else (if context[0].source == SELECTED_SKILL_SOURCE then [context[0].content] else []) + SelectedIds(context[1..])
  }

  function Matched(engine: Engine, m: UserMessage): (ids: seq<string>)
  {
    if HasSelectionMarker(m) then SelectByIds(engine.skills, SelectedIds(m.context)) else engine.matcher(UserText(m))
  }

  /** The text the turn runs with. */
  function Augmented(engine: Engine, m: UserMessage): (text: string)
  {
    var ids := Matched(engine, m);
    if ids == [] then UserText(m) else Inject(Context(AllKernelLines(engine.skills, ids)), UserText(m))
  }

  /** What became of one operator message: its text and the lines of the one block before it, if any. */
  datatype Turn = Turn(text: string, lines: Option<seq<string>>)

  function Stored(t: Turn): (s: string)
  {
    if t.lines.Some? then Inject(Context(t.lines.value), t.text) else t.text
  }

  /** The turn a message leads to. */
  function TurnOf(engine: Engine, typed: Inbound, at: Inbound): (t: Turn)
    requires typed.Typed? && (typed.matches.Some? ==> at.Selection?)
  {
    if typed.matches.Some? then
      Turn(typed.content, if at.ids == [] then None else Some(AllGatewayLines(typed.matches.value, at.ids)))
    else
      var m := UserMessage(typed.content, typed.context);
      var ids := Matched(engine, m);
      Turn(UserText(m), if ids == [] then None else Some(AllKernelLines(engine.skills, ids)))
  }

  lemma PickedIsFinal(engine: Engine, content: string)
    ensures Augmented(engine, UserMessage(content, [Attachment(SKILL_SELECTION_MARKER, "", None)])) == content
  {
    var a := Attachment(SKILL_SELECTION_MARKER, "", None);
    var context := [a];
    SourcesDiffer();
    assert context[1..] == [];
    assert ForkNotes(context) == [] && SelectedIds(context) == [];
    assert a in context;
  }

  lemma SourcesDiffer()
    ensures SKILL_SELECTION_MARKER != SELECTED_SKILL_SOURCE && SKILL_SELECTION_MARKER != FORK_SUMMARY_SOURCE
  {
    assert SKILL_SELECTION_MARKER[0] == 's' && FORK_SUMMARY_SOURCE[0] == 'f';
    assert |SKILL_SELECTION_MARKER| != |SELECTED_SKILL_SOURCE|;
  }

  /** Gateway and kernel together put at most one block before a message: whichever of them prepends
      one, the other adds nothing, and what the turn runs with is that block, or none, and the text. */
  lemma AtMostOneBlock(engine: Engine, events: seq<Inbound>, i: nat, j: nat)
    requires Leaves(events, i, j)
    ensures
      var sent := SentAt(events, j);
      && sent.Some? && sent.value.Chat?
      && Augmented(engine, sent.value.message) == Stored(TurnOf(engine, events[i], events[j]))
  {
    SentExactly(events, j);
    var m := HandedOver(events[i], events[j]);
    if events[i].matches.Some? { PickedIsFinal(engine, m.content); }
  }

  // ---------------------------------------------------------------- the history endpoint

  datatype Message = Message(role: string, content: string)

  /** A stored message: its role and the visible texts among its blocks. */
  datatype StoredMessage = StoredMessage(role: string, texts: seq<string>)

  function OneIf<T>(x: Option<T>): (s: seq<T>)
  {
    if x.Some? then [x.value] else []
  }

  function Shown(s: StoredMessage): (m: Option<Message>)
  {
    var content := Join(s.texts, "\n");
    if content == "" then None
    else Some(Message(s.role, if s.role == "user" then Strip(content) else content))
  }

  function History(stored: seq<StoredMessage>): (messages: seq<Message>)
  {
    if stored == [] then []
    else
      var m := Shown(stored[|stored| - 1]);
      History(stored[..|stored| - 1]) + OneIf(m)
  }

  method SessionHistory(stored: seq<StoredMessage>) returns (messages: seq<Message>)
    ensures messages == History(stored)
  {
    messages := [];
    for k := 0 to |stored|
      invariant messages == History(stored[..k])
    {
      var content := Join(stored[k].texts, "\n");
      if content != "" {
        if stored[k].role == "user" && StartsWith(content, HEADER) {
          var end := FindFrom(content, END_MARKER, 0);
          if end.Some? {
            content := From(content, end.value + |END_MARKER| + |SEPARATOR|);
          }
        }
        messages := messages + [Message(stored[k].role, content)];
      }
      assert stored[..k + 1][..k] == stored[..k];
    }
    assert stored[..|stored|] == stored;
  }

  /** One step of a conversation: an operator turn, or any message of another role. */
  datatype Saying = Operator(turn: Turn) | Other(role: string, texts: seq<string>)

  function Record(s: Saying): (r: StoredMessage)
  {
    match s
    case Operator(turn) => StoredMessage("user", [Stored(turn)])
    case Other(role, texts) => StoredMessage(role, texts)
  }

  function Records(said: seq<Saying>): (rs: seq<StoredMessage>)
    ensures |rs| == |said| && forall k :: 0 <= k < |said| ==> rs[k] == Record(said[k])
  {
    seq(|said|, k requires 0 <= k < |said| => Record(said[k]))
  }

  /** What the reader should see: every operator text as it was before injection. */
  function Expected(s: Saying): (m: Option<Message>)
  {
    match s
    case Operator(turn) => Some(Message("user", turn.text))
    case Other(role, texts) => if Join(texts, "\n") == "" then None else Some(Message(role, Join(texts, "\n")))
  }

  function Transcript(said: seq<Saying>): (messages: seq<Message>)
  {
    if said == [] then [] else Transcript(said[..|said| - 1]) + OneIf(Expected(said[|said| - 1]))
  }

  /** When the history endpoint can give a turn's text back. */
  ghost predicate Recoverable(t: Turn)
  {
    if t.lines.Some? then MarkerFree(t.lines.value)
    else t.text != "" && !(StartsWith(t.text, HEADER) && Contains(t.text, END_MARKER))
  }

  ghost predicate AllRecoverable(said: seq<Saying>)
  {
    forall k :: 0 <= k < |said| && said[k].Operator? ==> Recoverable(said[k].turn)
  }

  /** One turn comes back exactly when it is recoverable. */
  lemma TurnComesBack(t: Turn)
    ensures Shown(Record(Operator(t))) == Some(Message("user", t.text)) <==> Recoverable(t)
  {
    var content := Stored(t);
    assert Join([content], "\n") == content;
    if t.lines.Some? {
      StripUndoesInjection(t.lines.value, t.text);
      BlocksAreNotEmpty(t.lines.value);
    } else {
      StripKeepsPlainText(t.text);
    }
  }

  /** Appending to a list that may have lost elements: equal only if both were equal before. */
  lemma AppendEqual<T>(a: seq<T>, b: seq<T>, x: Option<T>, y: Option<T>)
    requires |a| <= |b| && (y.None? ==> x.None?)
    ensures |a + OneIf(x)| <= |b + OneIf(y)|
    ensures a + OneIf(x) == b + OneIf(y) <==> a == b && x == y
  {
    if a + OneIf(x) == b + OneIf(y) {
      assert |a| == |b| && x.Some? == y.Some?;
      assert a == (a + OneIf(x))[..|a|] && b == (b + OneIf(y))[..|b|];
      if x.Some? {
        assert (a + OneIf(x))[|a|] == x.value && (b + OneIf(y))[|b|] == y.value;
      }
    }
  }

  lemma SayingComesBack(s: Saying)
    requires s.Other? ==> s.role != "user"
    ensures Expected(s).None? ==> Shown(Record(s)).None?
    ensures Shown(Record(s)) == Expected(s) <==> (s.Operator? ==> Recoverable(s.turn))
  {
    if s.Operator? { TurnComesBack(s.turn); }
  }

  /** The history endpoint returns the conversation as it was typed and said, nothing lost and nothing
      left over, exactly when every operator turn is recoverable. */
  lemma {:induction false} HistoryComesBack(said: seq<Saying>)
    requires forall k :: 0 <= k < |said| && said[k].Other? ==> said[k].role != "user"
    ensures |History(Records(said))| <= |Transcript(said)|
    ensures History(Records(said)) == Transcript(said) <==> AllRecoverable(said)
  {
    if said != [] {
      var init, last := said[..|said| - 1], said[|said| - 1];
      HistoryComesBack(init);
      assert Records(said)[..|init|] == Records(init);
      SayingComesBack(last);
      AppendEqual(History(Records(init)), Transcript(init), Shown(Record(last)), Expected(last));
      RecoverableAfter(said);
    }
  }

  lemma RecoverableAfter(said: seq<Saying>)
    requires said != []
    ensures
      var init, last := said[..|said| - 1], said[|said| - 1];
      AllRecoverable(said) <==> AllRecoverable(init) && (last.Operator? ==> Recoverable(last.turn))
  {
    var init := said[..|said| - 1];
    assert forall k :: 0 <= k < |init| ==> init[k] == said[k];
  }

  // ---------------------------------------------------------------- from traffic to history

  /** The message that waits when `events` are over, by its position. */
  function WaitingAt(events: seq<Inbound>): (i: Option<nat>)
  {
    if events == [] then None
    else
      var e := events[|events| - 1];
      if e.Typed? && e.matches.Some? then Some(|events| - 1)
      else if EndsWait(e) then None
      else WaitingAt(events[..|events| - 1])
  }

  lemma {:induction false} WaitingAtIsWaits(events: seq<Inbound>, i: nat)
    ensures WaitingAt(events) == Some(i) <==> Waits(events, i)
  {
    if events != [] {
      if i + 1 < |events| { WaitsAfter(events, i); }
      WaitingAtIsWaits(events[..|events| - 1], i);
    }
  }

  /** The message that leaves at event `j`, by its position. */
  function LeavingAt(events: seq<Inbound>, j: nat): (i: Option<nat>)
    requires j < |events|
  {
    match events[j]
    case Typed(_, _, matches) => if matches.None? then Some(j) else None
    case Selection(_) => WaitingAt(events[..j])
    case _ => None
  }

  lemma LeavingAtIsLeaves(events: seq<Inbound>, i: nat, j: nat)
    requires j < |events|
    ensures LeavingAt(events, j) == Some(i) <==> Leaves(events, i, j)
  {
    WaitingAtIsWaits(events[..j], i);
  }

  /** The turn that leaves at event `j`, if one does. */
  function TurnAt(engine: Engine, events: seq<Inbound>, j: nat): (turn: Option<Turn>)
    requires j < |events|
  {
    var i := LeavingAt(events, j);
    if i.Some? && Leaves(events, i.value, j) then Some(TurnOf(engine, events[i.value], events[j])) else None
  }

  /** The text event `j` makes a turn run with, if it sends a chat message. */
  function TextAt(engine: Engine, events: seq<Inbound>, j: nat): (text: Option<string>)
    requires j < |events|
  {
    var sent := SentAt(events, j);
    if sent.Some? && sent.value.Chat? then Some(Augmented(engine, sent.value.message)) else None
  }

  /** At each event the text gateway and kernel make is the stored form of the turn that leaves there. */
  lemma TextIsStoredTurn(engine: Engine, events: seq<Inbound>, j: nat)
    requires j < |events|
    ensures
      var turn, text := TurnAt(engine, events, j), TextAt(engine, events, j);
      text == if turn.Some? then Some(Stored(turn.value)) else None
  {
    var i := LeavingAt(events, j);
    if i.Some? {
      LeavingAtIsLeaves(events, i.value, j);
      AtMostOneBlock(engine, events, i.value, j);
    } else {
      NoneLeaves(events, j);
    }
  }

  lemma NoneLeaves(events: seq<Inbound>, j: nat)
    requires j < |events| && LeavingAt(events, j).None?
    ensures SentAt(events, j).Some? ==> !SentAt(events, j).value.Chat?
  {
    SentExactly(events, j);
    forall l: nat ensures !Leaves(events, l, j) {
      LeavingAtIsLeaves(events, l, j);
    }
  }

  /** The values there are, in order. */
  function Present<T>(xs: seq<Option<T>>): (ys: seq<T>)
  {
    if xs == [] then [] else Present(xs[..|xs| - 1]) + OneIf(xs[|xs| - 1])
  }

  /** The turns of a connection, in the order their messages leave the gateway. */
  function TurnsOf(engine: Engine, events: seq<Inbound>): (turns: seq<Turn>)
  {
    Present(seq(|events|, j requires 0 <= j < |events| => TurnAt(engine, events, j)))
  }

  /** The texts those turns run with, as gateway and kernel make them. */
  function TextsOf(engine: Engine, events: seq<Inbound>): (texts: seq<string>)
  {
    Present(seq(|events|, j requires 0 <= j < |events| => TextAt(engine, events, j)))
  }

  function AllStored(turns: seq<Turn>): (texts: seq<string>)
    ensures |texts| == |turns| && forall k :: 0 <= k < |turns| ==> texts[k] == Stored(turns[k])
  {
    seq(|turns|, k requires 0 <= k < |turns| => Stored(turns[k]))
  }

  lemma StoredAppend(turns: seq<Turn>, turn: Option<Turn>, text: Option<string>)
    requires text == if turn.Some? then Some(Stored(turn.value)) else None
    ensures AllStored(turns) + OneIf(text) == AllStored(turns + OneIf(turn))
  {
  }

  lemma {:induction false} PresentStored(turns: seq<Option<Turn>>, texts: seq<Option<string>>)
    requires |turns| == |texts|
    requires forall j :: 0 <= j < |turns| ==> texts[j] == if turns[j].Some? then Some(Stored(turns[j].value)) else None
    ensures Present(texts) == AllStored(Present(turns))
  {
    if turns != [] {
      var n := |turns| - 1;
      PresentStored(turns[..n], texts[..n]);
      StoredAppend(Present(turns[..n]), turns[n], texts[n]);
    }
  }

  lemma TextsAreStoredTurns(engine: Engine, events: seq<Inbound>)
    ensures TextsOf(engine, events) == AllStored(TurnsOf(engine, events))
  {
    forall j | 0 <= j < |events|
      ensures
        var turn, text := TurnAt(engine, events, j), TextAt(engine, events, j);
        text == if turn.Some? then Some(Stored(turn.value)) else None
    {
      TextIsStoredTurn(engine, events, j);
    }
    PresentStored(seq(|events|, j requires 0 <= j < |events| => TurnAt(engine, events, j)),
                  seq(|events|, j requires 0 <= j < |events| => TextAt(engine, events, j)));
  }

  lemma WithoutOne<T>(s: seq<T>, j: nat)
    requires j < |s|
    ensures multiset(s[..j] + s[j + 1..]) == multiset(s) - multiset{s[j]}
  {
    assert s == s[..j] + [s[j]] + s[j + 1..];
  }

  /** Taking the first element of one order out of another. */
  lemma TakeOut<T>(a: seq<T>, b: seq<T>) returns (j: nat)
    requires a != [] && multiset(a) == multiset(b)
    ensures j < |b| && b[j] == a[0] && multiset(a[1..]) == multiset(b[..j] + b[j + 1..])
  {
    assert a[0] in multiset(b);
    j :| 0 <= j < |b| && b[j] == a[0];
    WithoutOne(b, j);
    WithoutOne(a, 0);
    assert a[..0] + a[1..] == a[1..];
  }

  lemma StoredTakeOut(turns: seq<Turn>, j: nat)
    requires j < |turns|
    ensures multiset(AllStored(turns)) == multiset{Stored(turns[j])} + multiset(AllStored(turns[..j] + turns[j + 1..]))
  {
    var texts := AllStored(turns);
    assert texts == texts[..j] + [texts[j]] + texts[j + 1..];
    assert AllStored(turns[..j] + turns[j + 1..]) == texts[..j] + texts[j + 1..];
  }

  lemma StoredFirst(turns: seq<Turn>)
    requires turns != []
    ensures multiset(AllStored(turns)) == multiset{Stored(turns[0])} + multiset(AllStored(turns[1..]))
  {
    var texts := AllStored(turns);
    assert texts == [texts[0]] + texts[1..];
    assert AllStored(turns[1..]) == texts[1..];
  }

  lemma SameLength<T>(a: seq<T>, b: seq<T>)
    requires multiset(a) == multiset(b)
    ensures |a| == |b|
  {
    assert |multiset(a)| == |a| && |multiset(b)| == |b|;
  }

  /** The same turns in another order are stored as the same texts in another order. */
  lemma {:induction false} StoredPermutes(a: seq<Turn>, b: seq<Turn>)
    requires multiset(a) == multiset(b)
    ensures multiset(AllStored(a)) == multiset(AllStored(b))
    decreases |a|
  {
    if a == [] {
      SameLength(a, b);
    } else {
      var j := TakeOut(a, b);
      StoredPermutes(a[1..], b[..j] + b[j + 1..]);
      StoredTakeOut(b, j);
      StoredFirst(a);
    }
  }

  function UserRecords(texts: seq<string>): (rs: seq<StoredMessage>)
    ensures |rs| == |texts| && forall k :: 0 <= k < |texts| ==> rs[k] == StoredMessage("user", [texts[k]])
  {
    seq(|texts|, k requires 0 <= k < |texts| => StoredMessage("user", [texts[k]]))
  }

  function Operators(turns: seq<Turn>): (said: seq<Saying>)
    ensures |said| == |turns| && forall k :: 0 <= k < |turns| ==> said[k] == Operator(turns[k])
  {
    seq(|turns|, k requires 0 <= k < |turns| => Operator(turns[k]))
  }

  lemma {:induction false} TranscriptOfTurns(turns: seq<Turn>)
    ensures
      var said := Transcript(Operators(turns));
      |said| == |turns| && forall k :: 0 <= k < |turns| ==> said[k] == Message("user", turns[k].text)
  {
    if turns != [] {
      var init := turns[..|turns| - 1];
      TranscriptOfTurns(init);
      assert Operators(turns)[..|init|] == Operators(init);
    }
  }

  /** The messages show exactly the texts of these turns, in this order. */
  predicate ShowsTexts(shown: seq<Message>, turns: seq<Turn>)
  {
    |shown| == |turns| && forall k :: 0 <= k < |turns| ==> shown[k] == Message("user", turns[k].text)
  }

  lemma TurnsComeBack(turns: seq<Turn>)
    ensures ShowsTexts(History(UserRecords(AllStored(turns))), turns)
            <==> forall k :: 0 <= k < |turns| ==> Recoverable(turns[k])
  {
    var said := Operators(turns);
    assert UserRecords(AllStored(turns)) == Records(said);
    HistoryComesBack(said);
    TranscriptOfTurns(turns);
    assert AllRecoverable(said) <==> forall k :: 0 <= k < |turns| ==> Recoverable(turns[k]) by {
      assert forall k :: 0 <= k < |turns| ==> said[k].Operator? && said[k].turn == turns[k];
    }
    var shown := History(UserRecords(AllStored(turns)));
    assert shown == Transcript(said) <==> ShowsTexts(shown, turns);
  }

  /** From traffic to history.  The kernel handles each message in a task of its own, so the turns may
      run in any order.  Whatever arrives on a connection and whatever order its turns run in, they are
      stored as the texts gateway and kernel made, and their history shows exactly their texts, in the
      order they ran, if and only if every turn of the traffic is recoverable. */
  lemma TrafficComesBack(engine: Engine, events: seq<Inbound>, ran: seq<Turn>)
    requires multiset(ran) == multiset(TurnsOf(engine, events))
    ensures multiset(AllStored(ran)) == multiset(TextsOf(engine, events))
    ensures
      var turns := TurnsOf(engine, events);
      ShowsTexts(History(UserRecords(AllStored(ran))), ran)
      <==> forall k :: 0 <= k < |turns| ==> Recoverable(turns[k])
  {
    var turns := TurnsOf(engine, events);
    TextsAreStoredTurns(engine, events);
    StoredPermutes(ran, turns);
    TurnsComeBack(ran);
    forall k | 0 <= k < |turns| ensures turns[k] in ran { assert turns[k] in multiset(turns); }
    forall k | 0 <= k < |ran| ensures ran[k] in turns { assert ran[k] in multiset(ran); }
  }
}
