/** What a skill-context block holds of each skill it was built for. */
module SkillBlocks {
  import opened Basics
  import opened SkillContext

  function Flatten(parts: seq<seq<string>>): (lines: seq<string>)
  {
    if parts == [] then [] else Flatten(parts[..|parts| - 1]) + parts[|parts| - 1]
  }

  lemma {:induction false} FlattenHolds(parts: seq<seq<string>>, k: nat, line: string)
    requires k < |parts| && line in parts[k]
    ensures line in Flatten(parts)
  {
    if k < |parts| - 1 { FlattenHolds(parts[..|parts| - 1], k, line); }
  }

  // ---------------------------------------------------------------- the kernel's block

  /** Skill number `j` is the last one loaded under its id. */
  predicate LastLoaded(skills: seq<LoadedSkill>, j: int, id: string)
  {
    0 <= j < |skills| && skills[j].id == id && forall l :: j < l < |skills| ==> skills[l].id != id
  }

  /** The part opens with the skill's name under the heading of its kind, ends with its content, and
      holds its category if it is a case and its description if there is one. */
  predicate ShowsSkill(part: seq<string>, s: LoadedSkill)
  {
    && |part| >= 4
    && part[0] == (if s.kind.Case? then "## Skill: " else "### Knowledge: ") + s.name
    && part[|part| - 3..] == ["", s.content, ""]
    && (s.kind.Case? ==> "Category: " + s.category in part)
    && (s.description != "" && s.kind.Case? ==> "Description: " + s.description in part)
    && (s.description != "" && s.kind.Knowledge? ==> "*" + s.description + "*" in part)
  }

  ghost predicate KernelPart(part: seq<string>, skills: seq<LoadedSkill>, id: string)
  {
    if exists s :: s in skills && s.id == id then exists j :: LastLoaded(skills, j, id) && ShowsSkill(part, skills[j])
    else part == []
  }

  lemma {:induction false} FoundLast(skills: seq<LoadedSkill>, id: string) returns (j: nat)
    requires LastWithId(skills, id).Some?
    ensures LastLoaded(skills, j, id) && skills[j] == LastWithId(skills, id).value
  {
    if skills[|skills| - 1].id == id {
      j := |skills| - 1;
    } else {
      j := FoundLast(skills[..|skills| - 1], id);
    }
  }

  lemma RenderedSkill(skills: seq<LoadedSkill>, id: string)
    ensures KernelPart(KernelLines(skills, id), skills, id)
  {
    var found := LastWithId(skills, id);
    if found.Some? {
      var j := FoundLast(skills, id);
      assert skills[j] in skills;
      RenderedShows(found.value);
    }
  }

  lemma RenderedShows(s: LoadedSkill)
    ensures ShowsSkill(Rendered(s), s)
  {
    var lines := Rendered(s);
    var head := lines[..|lines| - 3];
    assert lines == head + ["", s.content, ""];
    assert forall line :: line in head ==> line in lines;
    if s.kind.Case? {
      assert head[1] == "Category: " + s.category;
      assert s.description != "" ==> head[2] == "Description: " + s.description;
    } else {
      assert s.description != "" ==> head[1] == "*" + s.description + "*";
    }
  }

  function KernelParts(skills: seq<LoadedSkill>, ids: seq<string>): (parts: seq<seq<string>>)
    ensures |parts| == |ids| && forall k :: 0 <= k < |ids| ==> parts[k] == KernelLines(skills, ids[k])
  {
    seq(|ids|, k requires 0 <= k < |ids| => KernelLines(skills, ids[k]))
  }

  lemma {:induction false} KernelPartsJoin(skills: seq<LoadedSkill>, ids: seq<string>)
    ensures Flatten(KernelParts(skills, ids)) == AllKernelLines(skills, ids)
  {
    if ids != [] {
      var n := |ids| - 1;
      KernelPartsJoin(skills, ids[..n]);
      assert KernelParts(skills, ids)[..n] == KernelParts(skills, ids[..n]);
    }
  }

  /** The kernel's block has one part per matched id, in their order: for an id that is loaded, the name,
      content, category and description of the last skill loaded under it, and for any other id nothing. */
  lemma KernelBlockHolds(skills: seq<LoadedSkill>, ids: seq<string>) returns (parts: seq<seq<string>>)
    ensures |parts| == |ids| && Flatten(parts) == AllKernelLines(skills, ids)
    ensures forall k :: 0 <= k < |ids| ==> KernelPart(parts[k], skills, ids[k])
  {
    parts := KernelParts(skills, ids);
    KernelPartsJoin(skills, ids);
    forall k | 0 <= k < |ids| ensures KernelPart(parts[k], skills, ids[k]) { RenderedSkill(skills, ids[k]); }
  }

  // ---------------------------------------------------------------- the gateway's block

  /** File cases win over file knowledge, and files over the database; a database skill falls back to its
      id for a name, to "general" for a category and to nothing for a description or a content. */
  predicate GatewayPart(part: seq<string>, lib: Library, id: string)
  {
    if id in lib.cases then part == [lib.cases[id], ""]
    else if id in lib.knowledge then part == [lib.knowledge[id], ""]
    else if id in lib.db then ShowsDbSkill(part, lib.db[id], id)
    else part == []
  }

  predicate ShowsDbSkill(part: seq<string>, s: DbSkill, id: string)
  {
    && |part| >= 5 && part[|part| - 1] == ""
    && part[0] == "## Skill: " + (if s.name.Some? then s.name.value else id)
    && part[1] == "Category: " + (if s.category.Some? then s.category.value else "general")
    && part[2] == "Description: " + (if s.description.Some? then s.description.value else "")
    && part[3] == ""
    && part[4..|part| - 1] == if s.content.Some? && s.content.value != "" then [s.content.value] else []
  }

  lemma RenderedForGateway(lib: Library, id: string)
    ensures GatewayPart(GatewayLines(lib, id), lib, id)
  {
    if id !in lib.cases && id !in lib.knowledge && id in lib.db {
      var s, part := lib.db[id], GatewayLines(lib, id);
      var body := if Or(s.content, "") != "" then [s.content.value] else [];
      var head := part[..4];
      assert part == head + body + [""];
      assert part[4..|part| - 1] == body;
    }
  }

  function GatewayParts(lib: Library, ids: seq<string>): (parts: seq<seq<string>>)
    ensures |parts| == |ids| && forall k :: 0 <= k < |ids| ==> parts[k] == GatewayLines(lib, ids[k])
  {
    seq(|ids|, k requires 0 <= k < |ids| => GatewayLines(lib, ids[k]))
  }

  lemma {:induction false} GatewayPartsJoin(lib: Library, ids: seq<string>)
    ensures Flatten(GatewayParts(lib, ids)) == AllGatewayLines(lib, ids)
  {
    if ids != [] {
      var n := |ids| - 1;
      GatewayPartsJoin(lib, ids[..n]);
      assert GatewayParts(lib, ids)[..n] == GatewayParts(lib, ids[..n]);
    }
  }

  /** The gateway's block has one part per selected id, in their order. */
  lemma GatewayBlockHolds(lib: Library, ids: seq<string>) returns (parts: seq<seq<string>>)
    ensures |parts| == |ids| && Flatten(parts) == AllGatewayLines(lib, ids)
    ensures forall k :: 0 <= k < |ids| ==> GatewayPart(parts[k], lib, ids[k])
  {
    parts := GatewayParts(lib, ids);
    GatewayPartsJoin(lib, ids);
    forall k | 0 <= k < |ids| ensures GatewayPart(parts[k], lib, ids[k]) { RenderedForGateway(lib, ids[k]); }
  }

  // ---------------------------------------------------------------- the text

  /** A line of a joined text occurs in it. */
  lemma {:induction false} LineOccurs(lines: seq<string>, sep: string, k: nat)
    requires k < |lines|
    ensures Contains(Join(lines, sep), lines[k])
  {
    var s := Join(lines, sep);
    if |lines| == 1 {
      assert OccursAt(s, lines[0], 0);
    } else if k == 0 {
      assert OccursAt(lines[0], lines[0], 0);
      ConcatAssociative(lines[0], sep, Join(lines[1..], sep));
      OccursInConcat(lines[0], sep + Join(lines[1..], sep), lines[0], 0);
    } else {
      LineOccurs(lines[1..], sep, k - 1);
      var i :| OccursAt(Join(lines[1..], sep), lines[k], i);
      OccursInConcat(lines[0] + sep, Join(lines[1..], sep), lines[k], i);
    }
  }

  lemma BlockTextHolds(lines: seq<string>, line: string)
    requires line in lines
    ensures Contains(Context(lines), line)
  {
    var all := [HEADER, ""] + lines + [END_MARKER];
    var k :| 0 <= k < |lines| && lines[k] == line;
    assert all[k + 2] == line;
    LineOccurs(all, "\n", k + 2);
  }

  /** So the text of the block holds the content of the last skill loaded under each matched id. */
  lemma BlockHoldsContent(skills: seq<LoadedSkill>, ids: seq<string>, k: nat, j: nat)
    requires k < |ids| && LastLoaded(skills, j, ids[k])
    ensures Contains(Context(AllKernelLines(skills, ids)), skills[j].content)
  {
    var parts := KernelBlockHolds(skills, ids);
    assert skills[j] in skills;
    var l :| LastLoaded(skills, l, ids[k]) && ShowsSkill(parts[k], skills[l]);
    assert l == j;
    var part := parts[k];
    assert part[|part| - 3..][1] == skills[j].content;
    assert part[|part| - 2] in part;
    FlattenHolds(parts, k, skills[j].content);
    BlockTextHolds(AllKernelLines(skills, ids), skills[j].content);
  }
}
