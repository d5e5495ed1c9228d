/**
 The skill-context block: how the gateway and the kernel render it, how it is put in front of a
 message, and how the history endpoint takes it off again.
 */
module SkillContext {
  import opened Basics

  const HEADER: string := "[Matched Diagnostic Skills]"
  const END_MARKER: string := "[End of Matched Skills]"
  const SEPARATOR: string := "\n\n---\n\n"

  /** The block around the rendered lines of the skills. */
  function Context(lines: seq<string>): (c: string)
  {
    Join([HEADER, ""] + lines + [END_MARKER], "\n")
  }

  function Inject(context: string, text: string): (s: string)
  {
    context + SEPARATOR + text
  }

  // ---------------------------------------------------------------- the gateway's rendering

  datatype DbSkill = DbSkill(name: Option<string>, category: Option<string>, description: Option<string>,
                             content: Option<string>)

  /** File skills carry their rendered text; database skills are rendered here. */
  datatype Library = Library(cases: map<string, string>, knowledge: map<string, string>, db: map<string, DbSkill>)

  function Or(value: Option<string>, fallback: string): (s: string)
  {
    if value.Some? then value.value else fallback
  }

  function GatewayLines(lib: Library, id: string): (lines: seq<string>)
  {
    if id in lib.cases then [lib.cases[id], ""]
    else if id in lib.knowledge then [lib.knowledge[id], ""]
    else if id in lib.db then
      var s := lib.db[id];
      ["## Skill: " + Or(s.name, id), "Category: " + Or(s.category, "general"),
       "Description: " + Or(s.description, ""), ""]
      + (if Or(s.content, "") != "" then [s.content.value] else []) + [""]
    else []
  }

  function AllGatewayLines(lib: Library, ids: seq<string>): (lines: seq<string>)
  {
    if ids == [] then [] else AllGatewayLines(lib, ids[..|ids| - 1]) + GatewayLines(lib, ids[|ids| - 1])
  }

  function GatewayContext(lib: Library, ids: seq<string>): (context: Option<string>)
  {
    if ids == [] then None else Some(Context(AllGatewayLines(lib, ids)))
  }

  method PushGatewaySkill(pushed: seq<string>, lib: Library, id: string) returns (lines: seq<string>)
    ensures lines == pushed + GatewayLines(lib, id)
  {
    lines := pushed;
    if id in lib.cases {
      lines := lines + [lib.cases[id]];
      lines := lines + [""];
    } else if id in lib.knowledge {
      lines := lines + [lib.knowledge[id]];
      lines := lines + [""];
    } else if id in lib.db {
      var s := lib.db[id];
      lines := lines + ["## Skill: " + Or(s.name, id)];
      lines := lines + ["Category: " + Or(s.category, "general")];
      lines := lines + ["Description: " + Or(s.description, "")];
      lines := lines + [""];
      if s.content.Some? && s.content.value != "" {
        lines := lines + [s.content.value];
      }
      lines := lines + [""];
    }
  }

  method BuildContextFromIds(lib: Library, ids: seq<string>) returns (context: string)
    ensures context == if ids == [] then "" else Context(AllGatewayLines(lib, ids))
  {
    if ids == [] { return ""; }
    var top := [HEADER, ""];
    var lines := top;
    for k := 0 to |ids|
      invariant lines == top + AllGatewayLines(lib, ids[..k])
    {
      lines := PushGatewaySkill(lines, lib, ids[k]);
      assert ids[..k + 1][..k] == ids[..k];
      ConcatAssociative(top, AllGatewayLines(lib, ids[..k]), GatewayLines(lib, ids[k]));
    }
    assert ids[..|ids|] == ids;
    lines := lines + [END_MARKER];
    context := Join(lines, "\n");
  }

  // ---------------------------------------------------------------- the kernel's rendering

  datatype Kind = Case | Knowledge

  datatype LoadedSkill = LoadedSkill(id: string, name: string, category: string, description: string, content: string,
                                     kind: Kind)

  /** The first loaded skill with this id: what selection picks. */
  function FirstWithId(skills: seq<LoadedSkill>, id: string): (s: Option<LoadedSkill>)
    ensures s.Some? ==> s.value in skills && s.value.id == id
    ensures s.None? ==> forall x :: x in skills ==> x.id != id
  {
    if skills == [] then None
    else if skills[0].id == id then Some(skills[0])
    else FirstWithId(skills[1..], id)
  }

  /** The last loaded skill with this id: what rendering looks up. */
  function LastWithId(skills: seq<LoadedSkill>, id: string): (s: Option<LoadedSkill>)
    ensures s.Some? ==> s.value in skills && s.value.id == id
    ensures s.None? ==> forall x :: x in skills ==> x.id != id
  {
    if skills == [] then None
    else if skills[|skills| - 1].id == id then Some(skills[|skills| - 1])
    else LastWithId(skills[..|skills| - 1], id)
  }

  /** The known ids among `ids`, in the caller's order. */
  function SelectByIds(skills: seq<LoadedSkill>, ids: seq<string>): (matched: seq<string>)
  {
    if ids == [] then []
    else
      SelectByIds(skills, ids[..|ids| - 1])
      + if FirstWithId(skills, ids[|ids| - 1]).Some? then [ids[|ids| - 1]] else []
  }

  /** Selection goes through the ids one by one, in order, repeats included. */
  lemma {:induction false} SelectionInOrder(skills: seq<LoadedSkill>, a: seq<string>, b: seq<string>)
    ensures SelectByIds(skills, a + b) == SelectByIds(skills, a) + SelectByIds(skills, b)
    ensures |b| == 1 ==> SelectByIds(skills, b) == if exists s :: s in skills && s.id == b[0] then b else []
  {
    if b == [] {
      assert a + b == a;
    } else {
      var init := b[..|b| - 1];
      assert (a + b)[..|a + b| - 1] == a + init;
      SelectionInOrder(skills, a, init);
      if |b| == 1 {
        assert init == [] && b == [b[0]];
        assert FirstWithId(skills, b[0]).Some? <==> exists s :: s in skills && s.id == b[0];
      }
    }
  }

  function Rendered(s: LoadedSkill): (lines: seq<string>)
  {
    match s.kind
    case Case =>
      ["## Skill: " + s.name, "Category: " + s.category]
      + (if s.description != "" then ["Description: " + s.description] else []) + ["", s.content, ""]
    case Knowledge =>
      ["### Knowledge: " + s.name] + (if s.description != "" then ["*" + s.description + "*"] else [])
      + ["", s.content, ""]
  }

  function KernelLines(skills: seq<LoadedSkill>, id: string): (lines: seq<string>)
  {
    var found := LastWithId(skills, id);
    if found.None? then [] else Rendered(found.value)
  }

  /** Selection keeps exactly the known ids, and each of them has something to render. */
  lemma {:induction false} SelectionIsKnown(skills: seq<LoadedSkill>, ids: seq<string>, id: string)
    ensures id in SelectByIds(skills, ids) <==> id in ids && KernelLines(skills, id) != []
  {
    var first, last := FirstWithId(skills, id), LastWithId(skills, id);
    assert first.Some? <==> last.Some?;
    if ids != [] {
      SelectionIsKnown(skills, ids[..|ids| - 1], id);
      assert ids == ids[..|ids| - 1] + [ids[|ids| - 1]];
    }
  }

  function AllKernelLines(skills: seq<LoadedSkill>, ids: seq<string>): (lines: seq<string>)
  {
    if ids == [] then [] else AllKernelLines(skills, ids[..|ids| - 1]) + KernelLines(skills, ids[|ids| - 1])
  }

  method PushKernelSkill(pushed: seq<string>, skills: seq<LoadedSkill>, id: string) returns (lines: seq<string>)
    ensures lines == pushed + KernelLines(skills, id)
  {
    lines := pushed;
    var found := LastWithId(skills, id);
    if found.None? { return; }
    var s := found.value;
    match s.kind {
      case Case =>
        lines := lines + ["## Skill: " + s.name];
        lines := lines + ["Category: " + s.category];
        if s.description != "" { lines := lines + ["Description: " + s.description]; }
      case Knowledge =>
        lines := lines + ["### Knowledge: " + s.name];
        if s.description != "" { lines := lines + ["*" + s.description + "*"]; }
    }
    lines := lines + [""];
    lines := lines + [s.content];
    lines := lines + [""];
  }

  method BuildContext(skills: seq<LoadedSkill>, matched: seq<string>) returns (context: string)
    ensures context == if matched == [] then "" else Context(AllKernelLines(skills, matched))
  {
    if matched == [] { return ""; }
    var top := [HEADER, ""];
    var lines := top;
    for k := 0 to |matched|
      invariant lines == top + AllKernelLines(skills, matched[..k])
    {
      lines := PushKernelSkill(lines, skills, matched[k]);
      assert matched[..k + 1][..k] == matched[..k];
      ConcatAssociative(top, AllKernelLines(skills, matched[..k]), KernelLines(skills, matched[k]));
    }
    assert matched[..|matched|] == matched;
    lines := lines + [END_MARKER];
    context := Join(lines, "\n");
  }

  // ---------------------------------------------------------------- taking it off again

  /** `content[from:]`, empty past the end. */
  function From(content: string, from: nat): (s: string)
  {
    if from <= |content| then content[from..] else ""
  }

  /** What the history endpoint shows of a user message. */
  function Strip(content: string): (s: string)
  {
    if !StartsWith(content, HEADER) then content
    else
      var end := FindFrom(content, END_MARKER, 0);
      if end.None? then content else From(content, end.value + |END_MARKER| + |SEPARATOR|)
  }

  ghost predicate Contains(s: string, needle: string)
  {
    exists i :: OccursAt(s, needle, i)
  }

  /** A needle without line breaks that starts before one also ends before it. */
  lemma NoStraddle(a: string, b: string, needle: string, i: nat)
    requires '\n' !in needle && i <= |a| && OccursAt(a + "\n" + b, needle, i)
    ensures needle != "" ==> OccursAt(a, needle, i)
  {
    var s, n := a + "\n" + b, |needle|;
    assert s[|a|] == '\n';
    forall p | i <= p < i + n ensures s[p] != '\n' {
      assert s[p] == s[i..i + n][p - i] == needle[p - i];
    }
    assert needle != "" ==> i + n <= |a| && a[i..i + n] == s[i..i + n];
  }

  lemma OccursInConcat(a: string, b: string, needle: string, i: nat)
    ensures OccursAt(a, needle, i) ==> OccursAt(a + b, needle, i)
    ensures OccursAt(b, needle, i) ==> OccursAt(a + b, needle, |a| + i)
    ensures OccursAt(a + b, needle, |a| + i) ==> OccursAt(b, needle, i)
  {
    var s, n := a + b, |needle|;
    if OccursAt(a, needle, i) { assert s[i..i + n] == a[i..i + n]; }
    if i + n <= |b| { assert s[|a| + i..|a| + i + n] == b[i..i + n]; }
  }

  /** A needle without line breaks never straddles one. */
  lemma ContainsAcrossBreak(a: string, b: string, needle: string)
    requires needle != "" && '\n' !in needle
    ensures Contains(a + "\n" + b, needle) <==> Contains(a, needle) || Contains(b, needle)
  {
    var s := a + "\n" + b;
    if Contains(s, needle) {
      var i :| OccursAt(s, needle, i);
      if i <= |a| {
        NoStraddle(a, b, needle, i);
      } else {
        OccursInConcat(a + "\n", b, needle, i - |a| - 1);
      }
    }
    if Contains(a, needle) {
      var i :| OccursAt(a, needle, i);
      ConcatAssociative(a, "\n", b);
      OccursInConcat(a, "\n" + b, needle, i);
    }
    if Contains(b, needle) {
      var i :| OccursAt(b, needle, i);
      OccursInConcat(a + "\n", b, needle, i);
    }
  }

  /** A joined text holds the needle exactly when one of its lines does. */
  lemma {:induction false} ContainsInLines(lines: seq<string>, needle: string)
    requires needle != "" && '\n' !in needle
    ensures Contains(Join(lines, "\n"), needle) <==> exists k :: 0 <= k < |lines| && Contains(lines[k], needle)
  {
    if |lines| > 1 {
      var rest := lines[1..];
      ContainsAcrossBreak(lines[0], Join(rest, "\n"), needle);
      ContainsInLines(rest, needle);
      if exists k :: 0 <= k < |rest| && Contains(rest[k], needle) {
        var k :| 0 <= k < |rest| && Contains(rest[k], needle);
        assert lines[k + 1] == rest[k];
      }
      forall k | 0 < k < |lines| && Contains(lines[k], needle) ensures Contains(rest[k - 1], needle) {
      }
    }
  }

  /** No rendered line holds the end marker. */
  ghost predicate MarkerFree(lines: seq<string>)
  {
    forall k :: 0 <= k < |lines| ==> !Contains(lines[k], END_MARKER)
  }

  /** Everything of the block before its own end marker. */
  function Head(lines: seq<string>): (h: string)
  {
    Join([HEADER, ""] + lines, "\n")
  }

  lemma HeadHoldsMarker(lines: seq<string>)
    ensures Contains(Head(lines), END_MARKER) <==> !MarkerFree(lines)
  {
    var all := [HEADER, ""] + lines;
    ContainsInLines(all, END_MARKER);
    HeaderIsNoMarker();
    forall k | 0 <= k < |lines| ensures all[k + 2] == lines[k] {
    }
    if Contains(Head(lines), END_MARKER) {
      var k :| 0 <= k < |all| && Contains(all[k], END_MARKER);
      assert k >= 2 && all[k] == lines[k - 2];
    }
  }

  lemma ContainsItsChars(s: string, needle: string, c: char)
    requires Contains(s, needle) && c in needle
    ensures c in s
  {
    var i :| OccursAt(s, needle, i);
    var k :| 0 <= k < |needle| && needle[k] == c;
    assert s[i + k] == s[i..i + |needle|][k];
  }

  lemma HeaderIsNoMarker()
    ensures !Contains(HEADER, END_MARKER) && !Contains("", END_MARKER)
  {
    assert END_MARKER[1] == 'E' && 'E' !in HEADER;
    if Contains(HEADER, END_MARKER) { ContainsItsChars(HEADER, END_MARKER, 'E'); }
    if Contains("", END_MARKER) { ContainsItsChars("", END_MARKER, 'E'); }
  }

  lemma InjectedShape(lines: seq<string>, text: string)
    ensures Inject(Context(lines), text) == Head(lines) + "\n" + (END_MARKER + SEPARATOR + text)
    ensures StartsWith(Inject(Context(lines), text), HEADER)
  {
    JoinConcat([HEADER, ""] + lines, [END_MARKER], "\n");
    var tail := ([HEADER, ""] + lines)[1..];
    assert Head(lines) == HEADER + "\n" + Join(tail, "\n");
  }

  lemma HeadText(lines: seq<string>)
    ensures Head(lines) + "\n"
            == "[Matched Diagnostic Skills]\n\n" + if lines == [] then "" else Join(lines, "\n") + "\n"
  {
    var top := [HEADER, ""];
    assert top[1..] == [""] && Join(top, "\n") == HEADER + "\n";
    if lines == [] {
      assert top + lines == top;
    } else {
      JoinConcat(top, lines, "\n");
    }
  }

  /** What an injected message looks like from outside: the header and an empty line, the lines of the
      block, the end marker on a line of its own, a rule between empty lines, and the text. */
  lemma InjectedLooksLike(lines: seq<string>, text: string)
    ensures
      var top := "[Matched Diagnostic Skills]\n\n" + if lines == [] then "" else Join(lines, "\n") + "\n";
      Inject(Context(lines), text) == top + ("[End of Matched Skills]" + "\n\n---\n\n" + text)
  {
    InjectedShape(lines, text);
    HeadText(lines);
  }

  lemma FirstMarker(head: string, marker: string, rest: string)
    requires marker != "" && '\n' !in marker
    ensures
      var r := FindFrom(head + "\n" + (marker + rest), marker, 0);
      r.Some? && if Contains(head, marker) then r.value + |marker| <= |head| else r.value == |head| + 1
  {
    var s := head + "\n" + (marker + rest);
    assert OccursAt(marker + rest, marker, 0);
    OccursInConcat(head + "\n", marker + rest, marker, 0);
    var r := FindFrom(s, marker, 0);
    if r.value <= |head| { NoStraddle(head, marker + rest, marker, r.value); }
    if Contains(head, marker) {
      var i :| OccursAt(head, marker, i);
      ConcatAssociative(head, "\n", marker + rest);
      OccursInConcat(head, "\n" + (marker + rest), marker, i);
    }
  }

  /** The history endpoint gives back the text before injection exactly when no rendered line of the
      block holds the end marker. */
  lemma StripUndoesInjection(lines: seq<string>, text: string)
    ensures Strip(Inject(Context(lines), text)) == text <==> MarkerFree(lines)
  {
    InjectedShape(lines, text);
    HeadHoldsMarker(lines);
    MarkerIsOneLine();
    ConcatAssociative(END_MARKER, SEPARATOR, text);
    var content := Inject(Context(lines), text);
    StripInjected(Head(lines), END_MARKER, SEPARATOR, text, content, FindFrom(content, END_MARKER, 0));
  }

  lemma MarkerIsOneLine()
    ensures END_MARKER != "" && '\n' !in END_MARKER
  {
  }

  /** Cutting after the first marker and the separator leaves the text exactly when the head holds no
      marker of its own. */
  lemma StripInjected(head: string, marker: string, separator: string, text: string, content: string, end: Option<nat>)
    requires marker != "" && '\n' !in marker
    requires content == head + "\n" + (marker + (separator + text)) && end == FindFrom(content, marker, 0)
    ensures end.Some? && (From(content, end.value + |marker| + |separator|) == text <==> !Contains(head, marker))
  {
    FirstMarker(head, marker, separator + text);
    StrippedAt(head, marker, separator, text, end.value, Contains(head, marker));
  }

  /** What is left after a cut at the block's own marker, or at one before it. */
  lemma StrippedAt(head: string, marker: string, separator: string, text: string, end: nat, early: bool)
    requires if early then end + |marker| <= |head| else end == |head| + 1
    ensures
      var content := head + "\n" + (marker + (separator + text));
      From(content, end + |marker| + |separator|) == text <==> !early
  {
    var content := head + "\n" + (marker + (separator + text));
    assert |content| == |head| + 1 + |marker| + |separator| + |text|;
    if early {
      CutTooEarly(content, end, |marker|, |separator|, |text|);
    } else {
      CutAfter(head + "\n", marker, separator, text);
    }
  }

  lemma CutTooEarly(content: string, p: nat, marker: nat, separator: nat, text: nat)
    requires p + marker + separator + text < |content|
    ensures |From(content, p + marker + separator)| > text
  {
  }

  lemma CutAfter(a: string, b: string, c: string, d: string)
    ensures From(a + (b + (c + d)), |a| + |b| + |c|) == d
  {
    ConcatAssociative(b, c, d);
    ConcatAssociative(a, b + c, d);
    var front := a + (b + c);
    assert (front + d)[|front|..] == d;
  }

  /** A message sent without a block comes back unchanged exactly when it does not itself start with
      the header and hold the end marker. */
  lemma StripKeepsPlainText(text: string)
    ensures Strip(text) == text <==> !(StartsWith(text, HEADER) && Contains(text, END_MARKER))
  {
    var end := FindFrom(text, END_MARKER, 0);
    if Contains(text, END_MARKER) {
      var i :| OccursAt(text, END_MARKER, i);
    }
    assert end.Some? <==> Contains(text, END_MARKER);
  }
}
