/**
 * The chat transcript app.py builds from an orchestrator's result: the
 * fields it reads (with Python's failures when a field is missing or of the
 * wrong kind) and the ordered (speaker, markdown) turns for each workflow.
 */
module Transcript {
  import opened Wrappers
  import opened PyJson
  import Text

  datatype Speaker = Assistant | User

  datatype Turn = Turn(speaker: Speaker, content: string)

  /** One table row: str() of a candidate's title, score and rationale. */
  datatype Row = Row(title: string, score: string, rationale: string)

  /** The Workflow A fields as the turns print them. */
  datatype FieldsA = FieldsA(rows: seq<Row>, recommendation: string, why: string, acceptance: seq<string>)

  /** The Workflow B fields; critiques pairs each role with its printed critique. */
  datatype FieldsB = FieldsB(initial: string, critiques: seq<(string, string)>, improved: string)

  // ---------------------------------------------------------------------
  // Reading the result. None stands for the KeyError or TypeError Python
  // raises; it is not caught, so the run ends without showing any turn.
  // ---------------------------------------------------------------------

  /** f"|{c['title']}|{c['score']}|{c['rationale']}|" needs c to be a dict
      holding the three keys with values str() can print. */
  function ReadRow(c: Json): (r: Option<Row>)
    ensures r.Some? <==>
              && c.JObj?
              && Subscript(c, "title").Some? && Str(Subscript(c, "title").value).Some?
              && Subscript(c, "score").Some? && Str(Subscript(c, "score").value).Some?
              && Subscript(c, "rationale").Some? && Str(Subscript(c, "rationale").value).Some?
    ensures r.Some? ==>
              && Some(r.value.title) == Str(Subscript(c, "title").value)
              && Some(r.value.score) == Str(Subscript(c, "score").value)
              && Some(r.value.rationale) == Str(Subscript(c, "rationale").value)
  {
    var t := Subscript(c, "title");
    var s := Subscript(c, "score");
    var q := Subscript(c, "rationale");
    if t.None? || s.None? || q.None? then None
    else
      var ts := Str(t.value);
      var ss := Str(s.value);
      var qs := Str(q.value);
      if ts.None? || ss.None? || qs.None? then None
      else Some(Row(ts.value, ss.value, qs.value))
  }

  /** One row per candidate, in candidate order; fails if any candidate does. */
  function ReadRows(cs: seq<Json>): (r: Option<seq<Row>>)
    ensures r.Some? <==> forall i :: 0 <= i < |cs| ==> ReadRow(cs[i]).Some?
    ensures r.Some? ==> |r.value| == |cs| && forall i :: 0 <= i < |cs| ==> Some(r.value[i]) == ReadRow(cs[i])
  {
    if cs == [] then Some([])
    else
      assert forall i :: 0 <= i < |cs| - 1 ==> cs[1..][i] == cs[i + 1];
      match (ReadRow(cs[0]), ReadRows(cs[1..]))
      case (Some(row), Some(rows)) => Some([row] + rows)
      case _ => None
  }

  /** str() of every item, in order; fails if any item is a list or dict. */
  function StrAll(xs: seq<Json>): (r: Option<seq<string>>)
    ensures r.Some? <==> forall i :: 0 <= i < |xs| ==> Str(xs[i]).Some?
    ensures r.Some? ==> |r.value| == |xs| && forall i :: 0 <= i < |xs| ==> Some(r.value[i]) == Str(xs[i])
  {
    if xs == [] then Some([])
    else
      assert forall i :: 0 <= i < |xs| - 1 ==> xs[1..][i] == xs[i + 1];
      match (Str(xs[0]), StrAll(xs[1..]))
      case (Some(x), Some(rest)) => Some([x] + rest)
      case _ => None
  }

  /** The fields the Workflow A turns read: the candidates iterated in order,
      the recommendation and why printed, the acceptance items iterated. */
  function ReadA(result: Dict): (r: Option<FieldsA>)
    ensures r.Some? <==>
              && Lookup(result, "candidates").Some?
              && Iterate(Lookup(result, "candidates").value).Some?
              && ReadRows(Iterate(Lookup(result, "candidates").value).value).Some?
              && Lookup(result, "recommendation").Some?
              && Str(Lookup(result, "recommendation").value).Some?
              && Lookup(result, "why").Some?
              && Str(Lookup(result, "why").value).Some?
              && Lookup(result, "acceptance").Some?
              && Iterate(Lookup(result, "acceptance").value).Some?
              && StrAll(Iterate(Lookup(result, "acceptance").value).value).Some?
    ensures r.Some? ==>
              && Lookup(result, "candidates").Some?
              && Iterate(Lookup(result, "candidates").value).Some?
              && Some(r.value.rows) == ReadRows(Iterate(Lookup(result, "candidates").value).value)
              && Lookup(result, "recommendation").Some?
              && Some(r.value.recommendation) == Str(Lookup(result, "recommendation").value)
              && Lookup(result, "why").Some?
              && Some(r.value.why) == Str(Lookup(result, "why").value)
              && Lookup(result, "acceptance").Some?
              && Iterate(Lookup(result, "acceptance").value).Some?
              && Some(r.value.acceptance) == StrAll(Iterate(Lookup(result, "acceptance").value).value)
  {
    var cs := Lookup(result, "candidates");
    var rec := Lookup(result, "recommendation");
    var why := Lookup(result, "why");
    var acc := Lookup(result, "acceptance");
    if cs.None? || rec.None? || why.None? || acc.None? then None
    else
      var items := Iterate(cs.value);
      var accItems := Iterate(acc.value);
      if items.None? || accItems.None? then None
      else
        var rows := ReadRows(items.value);
        var recText := Str(rec.value);
        var whyText := Str(why.value);
        var accTexts := StrAll(accItems.value);
        if rows.None? || recText.None? || whyText.None? || accTexts.None? then None
        else Some(FieldsA(rows.value, recText.value, whyText.value, accTexts.value))
  }

  /** result['critique'][role] printed, for each role in the order given. */
  function ReadCritiques(critique: Json, roles: seq<string>): (r: Option<seq<(string, string)>>)
    ensures r.Some? <==>
              forall i :: 0 <= i < |roles| ==>
                Subscript(critique, roles[i]).Some? && Str(Subscript(critique, roles[i]).value).Some?
    ensures r.Some? ==>
              && |r.value| == |roles|
              && forall i :: 0 <= i < |roles| ==>
                   r.value[i].0 == roles[i] && Some(r.value[i].1) == Str(Subscript(critique, roles[i]).value)
  {
    if roles == [] then Some([])
    else
      var v := Subscript(critique, roles[0]);
      var text := if v.Some? then Str(v.value) else None;
      match (text, ReadCritiques(critique, roles[1..]))
      case (Some(t), Some(rest)) => Some([(roles[0], t)] + rest)
      case _ => None
  }

  /** The fields the Workflow B turns read. The two templates are appended to
      a heading with +, so they must be strings. */
  function ReadB(result: Dict, roles: seq<string>): (r: Option<FieldsB>)
    ensures r.Some? <==>
              && Lookup(result, "template_initial").Some? && Lookup(result, "template_initial").value.JStr?
              && Lookup(result, "template_improved").Some? && Lookup(result, "template_improved").value.JStr?
              && Lookup(result, "critique").Some?
              && ReadCritiques(Lookup(result, "critique").value, roles).Some?
    ensures r.Some? ==>
              && Lookup(result, "template_initial") == Some(JStr(r.value.initial))
              && Lookup(result, "template_improved") == Some(JStr(r.value.improved))
              && Lookup(result, "critique").Some?
              && Some(r.value.critiques) == ReadCritiques(Lookup(result, "critique").value, roles)
  {
    var initial := Lookup(result, "template_initial");
    var critique := Lookup(result, "critique");
    var improved := Lookup(result, "template_improved");
    if initial.None? || critique.None? || improved.None? then None
    else if !initial.value.JStr? || !improved.value.JStr? then None
    else
      match ReadCritiques(critique.value, roles)
      case Some(cs) => Some(FieldsB(initial.value.s, cs, improved.value.s))
      case None => None
  }

  // ---------------------------------------------------------------------
  // The turns
  // ---------------------------------------------------------------------

  const HeaderLine1: string := "|Solution|Score|Rationale|"
  const HeaderLine2: string := "|---|---|---|"
  const TableHeader: string := HeaderLine1 + "\n" + HeaderLine2 + "\n"
  const CandidatesHeading: string := "**Candidates & scores**\n\n"
  const RecommendQuestion: string := "Which solution do you recommend and why?"
  const AcceptanceHeading: string := "**Next steps / acceptance criteria**:"
  const InitialHeading: string := "**Initial template**\n\n"
  const CritiquePrefix: string := "Critique as: "
  const ImproveRequest: string := "Improve the template based on your critique."
  const ImprovedHeading: string := "**Improved template**\n\n"

  function RowLine(row: Row): string
  {
    "|" + row.title + "|" + row.score + "|" + row.rationale + "|"
  }

  function RowLines(rows: seq<Row>): (r: seq<string>)
    ensures |r| == |rows| && forall i :: 0 <= i < |rows| ==> r[i] == RowLine(rows[i])
  {
    seq(|rows|, i requires 0 <= i < |rows| => RowLine(rows[i]))
  }

  /** The table rows in the order the loop appends them. */
  function Rows(rows: seq<Row>): string
  {
    if rows == [] then "" else Rows(rows[..|rows| - 1]) + RowLine(rows[|rows| - 1]) + "\n"
  }

  function Table(rows: seq<Row>): string
  {
    TableHeader + Rows(rows)
  }

  function Bullets(items: seq<string>): (r: seq<string>)
    ensures |r| == |items| && forall i :: 0 <= i < |items| ==> r[i] == "- " + items[i]
  {
    seq(|items|, i requires 0 <= i < |items| => "- " + items[i])
  }

  function RecommendationText(f: FieldsA): string
  {
    "**Recommendation**: " + f.recommendation + "\n\n"
    + "**Why**: " + f.why + "\n\n"
    + AcceptanceHeading + "\n" + Text.Join("\n", Bullets(f.acceptance))
  }

  function TurnsA(f: FieldsA): seq<Turn>
  {
    [ Turn(Assistant, CandidatesHeading + Table(f.rows)),
      Turn(User, RecommendQuestion),
      Turn(Assistant, RecommendationText(f)) ]
  }

  function Block(critique: (string, string)): string
  {
    "**" + critique.0 + "**:\n" + critique.1
  }

  function Blocks(critiques: seq<(string, string)>): (r: seq<string>)
    ensures |r| == |critiques| && forall i :: 0 <= i < |critiques| ==> r[i] == Block(critiques[i])
  {
    seq(|critiques|, i requires 0 <= i < |critiques| => Block(critiques[i]))
  }

  function TurnsB(f: FieldsB, roles: seq<string>): seq<Turn>
  {
    [ Turn(Assistant, InitialHeading + f.initial),
      Turn(User, CritiquePrefix + Text.Join(", ", roles)),
      Turn(Assistant, Text.Join("\n\n", Blocks(f.critiques))),
      Turn(User, ImproveRequest),
      Turn(Assistant, ImprovedHeading + f.improved) ]
  }

  /** The Workflow A turns, appended one after another; the table is
      accumulated one row per candidate. */
  method BuildTurnsA(f: FieldsA) returns (turns: seq<Turn>)
    ensures turns == TurnsA(f)
  {
    turns := [];
    var table := TableHeader;
    for i := 0 to |f.rows|
      invariant table == TableHeader + Rows(f.rows[..i])
    {
      assert f.rows[..i + 1][..i] == f.rows[..i];
      table := table + RowLine(f.rows[i]) + "\n";
    }
    assert f.rows[..|f.rows|] == f.rows;
    turns := turns + [Turn(Assistant, CandidatesHeading + table)];
    turns := turns + [Turn(User, RecommendQuestion)];
    var bullets := Text.Join("\n", Bullets(f.acceptance));
    var rec := "**Recommendation**: " + f.recommendation + "\n\n"
      + "**Why**: " + f.why + "\n\n"
      + AcceptanceHeading + "\n" + bullets;
    turns := turns + [Turn(Assistant, rec)];
  }

  /** The Workflow B turns, appended one after another. */
  method BuildTurnsB(f: FieldsB, roles: seq<string>) returns (turns: seq<Turn>)
    ensures turns == TurnsB(f, roles)
  {
    turns := [];
    turns := turns + [Turn(Assistant, InitialHeading + f.initial)];
    turns := turns + [Turn(User, CritiquePrefix + Text.Join(", ", roles))];
    var critiqueMd := Text.Join("\n\n", Blocks(f.critiques));
    turns := turns + [Turn(Assistant, critiqueMd)];
    turns := turns + [Turn(User, ImproveRequest)];
    turns := turns + [Turn(Assistant, ImprovedHeading + f.improved)];
  }

  // ---------------------------------------------------------------------
  // What the turns look like
  // ---------------------------------------------------------------------

  predicate OneLine(s: string)
  {
    '\n' !in s
  }

  predicate OneLineRows(rows: seq<Row>)
  {
    forall i :: 0 <= i < |rows| ==>
      OneLine(rows[i].title) && OneLine(rows[i].score) && OneLine(rows[i].rationale)
  }

  lemma {:induction false} RowsTerminated(rows: seq<Row>)
    ensures Rows(rows) == Text.Terminated(RowLines(rows), '\n')
  {
    if rows != [] {
      var init := rows[..|rows| - 1];
      RowsTerminated(init);
      assert RowLines(rows) == RowLines(init) + [RowLine(rows[|rows| - 1])];
      Text.TerminatedAppend(RowLines(init), [RowLine(rows[|rows| - 1])], '\n');
    }
  }

  /** Split into lines, the table is the two header lines, then one line per
      candidate in candidate order, then the empty text after the last
      newline, provided no cell holds a newline. */
  lemma TableLines(rows: seq<Row>)
    requires OneLineRows(rows)
    ensures Text.Split(Table(rows), '\n') == [HeaderLine1, HeaderLine2] + RowLines(rows) + [""]
  {
    TableJoin(rows);
    TableOneLine(rows);
    Text.SplitJoin([HeaderLine1, HeaderLine2] + RowLines(rows) + [""], '\n');
  }

  /** The table is its header lines and row lines, joined with newlines and
      ending in a newline. */
  lemma TableJoin(rows: seq<Row>)
    ensures Text.Join("\n", [HeaderLine1, HeaderLine2] + RowLines(rows) + [""]) == Table(rows)
  {
    RowsTerminated(rows);
    Text.TerminatedAppend([HeaderLine1, HeaderLine2], RowLines(rows), '\n');
    assert Text.Terminated([HeaderLine1, HeaderLine2], '\n') == TableHeader;
    Text.JoinTerminated([HeaderLine1, HeaderLine2] + RowLines(rows), '\n');
  }

  /** No line of the table holds a newline when no cell does. */
  lemma TableOneLine(rows: seq<Row>)
    requires OneLineRows(rows)
    ensures forall i :: 0 <= i < |[HeaderLine1, HeaderLine2] + RowLines(rows) + [""]| ==>
              '\n' !in ([HeaderLine1, HeaderLine2] + RowLines(rows) + [""])[i]
  {
    var lines := [HeaderLine1, HeaderLine2] + RowLines(rows) + [""];
    forall i | 0 <= i < |lines| ensures '\n' !in lines[i] {
      if 2 <= i < |lines| - 1 {
        assert lines[i] == RowLine(rows[i - 2]);
      }
    }
  }

  /** The lines of the recommendation turn: the recommendation, a blank
      line, the why, a blank line, the acceptance heading, then one "- x"
      line per acceptance item in order (or one empty line when there is
      none). */
  function RecommendationLineList(f: FieldsA): seq<string>
  {
    ["**Recommendation**: " + f.recommendation, "", "**Why**: " + f.why, "", AcceptanceHeading]
    + (if f.acceptance == [] then [""] else Bullets(f.acceptance))
  }

  /** Split into lines, the final Workflow A turn is RecommendationLineList,
      provided none of its texts holds a newline. */
  lemma RecommendationLines(f: FieldsA)
    requires OneLine(f.recommendation) && OneLine(f.why)
    requires forall i :: 0 <= i < |f.acceptance| ==> OneLine(f.acceptance[i])
    ensures Text.Split(RecommendationText(f), '\n')
            == ["**Recommendation**: " + f.recommendation, "",
                "**Why**: " + f.why, "", AcceptanceHeading]
               + (if f.acceptance == [] then [""] else Bullets(f.acceptance))
  {
    RecommendationJoin(f);
    RecommendationOneLine(f);
    Text.SplitJoin(RecommendationLineList(f), '\n');
  }

  /** The recommendation turn is its lines joined with newlines. */
  lemma RecommendationJoin(f: FieldsA)
    ensures Text.Join("\n", RecommendationLineList(f)) == RecommendationText(f)
  {
    var head := ["**Recommendation**: " + f.recommendation, "", "**Why**: " + f.why, "", AcceptanceHeading];
    var tail := if f.acceptance == [] then [""] else Bullets(f.acceptance);
    assert RecommendationLineList(f) == head + tail;
    assert Text.Join("\n", tail) == Text.Join("\n", Bullets(f.acceptance));
    Text.JoinAppend("\n", head, tail);
    HeadJoin(head);
    Regroup(f.recommendation, f.why, Text.Join("\n", tail));
  }

  /** Five lines joined with newlines, as the join nests them. */
  lemma HeadJoin(head: seq<string>)
    requires |head| == 5
    ensures Text.Join("\n", head)
            == head[0] + "\n" + (head[1] + "\n" + (head[2] + "\n" + (head[3] + "\n" + head[4])))
  {
    assert Text.Join("\n", [head[4]]) == head[4];
    assert head[3..] == [head[3], head[4]] && [head[3], head[4]][1..] == [head[4]];
    assert Text.Join("\n", head[3..]) == head[3] + "\n" + head[4];
    assert head[2..][0] == head[2] && head[2..][1..] == head[3..];
    assert Text.Join("\n", head[2..]) == head[2] + "\n" + Text.Join("\n", head[3..]);
    assert head[1..][0] == head[1] && head[1..][1..] == head[2..];
    assert Text.Join("\n", head[1..]) == head[1] + "\n" + Text.Join("\n", head[2..]);
    assert Text.Join("\n", head) == head[0] + "\n" + Text.Join("\n", head[1..]);
  }

  /** Only regroups: the nested join of the five head lines, a newline and
      the bullets, regrouped as the turn's text is written. */
  lemma Regroup(r: string, w: string, d: string)
    ensures ("**Recommendation**: " + r) + "\n"
            + ("" + "\n" + (("**Why**: " + w) + "\n" + ("" + "\n" + AcceptanceHeading)))
            + "\n" + d
            == "**Recommendation**: " + r + "\n\n" + "**Why**: " + w + "\n\n"
               + AcceptanceHeading + "\n" + d
  {
  }

  /** No line of the recommendation turn holds a newline. */
  lemma RecommendationOneLine(f: FieldsA)
    requires OneLine(f.recommendation) && OneLine(f.why)
    requires forall i :: 0 <= i < |f.acceptance| ==> OneLine(f.acceptance[i])
    ensures forall i :: 0 <= i < |RecommendationLineList(f)| ==> '\n' !in RecommendationLineList(f)[i]
  {
    var lines := RecommendationLineList(f);
    forall i | 0 <= i < |lines| ensures '\n' !in lines[i] {
      if i >= 5 && f.acceptance != [] {
        assert lines[i] == "- " + f.acceptance[i - 5];
      }
    }
  }

  /** Workflow A: three turns, assistant, user, assistant; the first is the
      candidates table, the second the fixed question, the third the
      recommendation text. */
  lemma TurnsAShape(f: FieldsA)
    ensures |TurnsA(f)| == 3
    ensures TurnsA(f)[0].speaker == Assistant && TurnsA(f)[1].speaker == User
            && TurnsA(f)[2].speaker == Assistant
    ensures TurnsA(f)[0].content == CandidatesHeading + Table(f.rows)
    ensures OneLineRows(f.rows) ==>
              Text.Split(TurnsA(f)[0].content, '\n')
              == ["**Candidates & scores**", "", HeaderLine1, HeaderLine2] + RowLines(f.rows) + [""]
  {
    if OneLineRows(f.rows) {
      CandidatesLines(f.rows);
    }
  }

  /** Split into lines, the first Workflow A turn is the heading, a blank
      line, then the table's lines. */
  lemma CandidatesLines(rows: seq<Row>)
    requires OneLineRows(rows)
    ensures Text.Split(CandidatesHeading + Table(rows), '\n')
            == ["**Candidates & scores**", "", HeaderLine1, HeaderLine2] + RowLines(rows) + [""]
  {
    var t := Table(rows);
    TableLines(rows);
    HeadingLines(t);
    Text.SplitAt("**Candidates & scores**", "" + "\n" + t, '\n');
    Text.SplitAt("", t, '\n');
    LinesRegroup("**Candidates & scores**", "", HeaderLine1, HeaderLine2, RowLines(rows), "");
  }

  /** Only regroups: the candidates heading and its blank line, as two
      newline-ended lines. */
  lemma HeadingLines(t: string)
    ensures CandidatesHeading + t == "**Candidates & scores**" + "\n" + ("" + "\n" + t)
  {
  }

  /** Only regroups a list of lines built by prepending one line at a time. */
  lemma LinesRegroup(a: string, b: string, c: string, d: string, mid: seq<string>, e: string)
    ensures [a] + ([b] + ([c, d] + mid + [e])) == [a, b, c, d] + mid + [e]
  {
  }

  /** Workflow B: five turns alternating assistant and user, starting and
      ending with the assistant; the second names the roles in order; with
      three roles the third is their three critique blocks in role order,
      separated by blank lines. */
  lemma TurnsBShape(f: FieldsB, roles: seq<string>)
    ensures |TurnsB(f, roles)| == 5
    ensures forall i :: 0 <= i < 5 ==> TurnsB(f, roles)[i].speaker == if i % 2 == 0 then Assistant else User
    ensures TurnsB(f, roles)[1].content == CritiquePrefix + Text.Join(", ", roles)
    ensures |f.critiques| == 3 ==>
              TurnsB(f, roles)[2].content
              == Block(f.critiques[0]) + "\n\n" + Block(f.critiques[1]) + "\n\n" + Block(f.critiques[2])
  {
    if |f.critiques| == 3 {
      var bs := Blocks(f.critiques);
      assert bs[1..][1..] == [bs[2]];
      assert Text.Join("\n\n", bs[1..]) == bs[1] + "\n\n" + bs[2];
      assert Text.Join("\n\n", bs) == bs[0] + "\n\n" + (bs[1] + "\n\n" + bs[2]);
    }
  }

  /** Three critiques the object holds, one per role, are read in role
      order. */
  lemma CritiquesInRoleOrder(critique: Json, roles: seq<string>, texts: seq<string>)
    requires |roles| == 3 && |texts| == 3
    requires forall i :: 0 <= i < 3 ==>
               Subscript(critique, roles[i]).Some? && Str(Subscript(critique, roles[i]).value) == Some(texts[i])
    ensures ReadCritiques(critique, roles)
            == Some([(roles[0], texts[0]), (roles[1], texts[1]), (roles[2], texts[2])])
  {
    var cs := ReadCritiques(critique, roles).value;
    assert cs[0] == (roles[0], texts[0]);
    assert cs[1] == (roles[1], texts[1]);
    assert cs[2] == (roles[2], texts[2]);
    assert cs == [(roles[0], texts[0]), (roles[1], texts[1]), (roles[2], texts[2])];
  }

  /** The critique turn of three critiques: each role's heading and text,
      separated by blank lines. */
  lemma ThreeCritiqueBlocks(f: FieldsB, roles: seq<string>, texts: seq<string>)
    requires |roles| == 3 && |texts| == 3
    requires f.critiques == [(roles[0], texts[0]), (roles[1], texts[1]), (roles[2], texts[2])]
    ensures TurnsB(f, roles)[2].content
            == "**" + roles[0] + "**:\n" + texts[0] + "\n\n"
               + "**" + roles[1] + "**:\n" + texts[1] + "\n\n"
               + "**" + roles[2] + "**:\n" + texts[2]
  {
    TurnsBShape(f, roles);
    var bs := Blocks(f.critiques);
    assert bs[0] == "**" + roles[0] + "**:\n" + texts[0];
    assert bs[1] == "**" + roles[1] + "**:\n" + texts[1];
    assert bs[2] == "**" + roles[2] + "**:\n" + texts[2];
  }

  /** Whatever order the critique object lists its keys in, the critique
      turn follows the order in which the roles were submitted, each role's
      heading followed by str() of its critique. */
  lemma CritiqueTurnInRoleOrder(result: Dict, roles: seq<string>, texts: seq<Json>)
    requires |roles| == 3 && |texts| == 3
    requires Lookup(result, "template_initial").Some? && Lookup(result, "template_initial").value.JStr?
    requires Lookup(result, "template_improved").Some? && Lookup(result, "template_improved").value.JStr?
    requires Lookup(result, "critique").Some? && Lookup(result, "critique").value.JObj?
    requires forall i :: 0 <= i < 3 ==>
               Lookup(Lookup(result, "critique").value.entries, roles[i]) == Some(texts[i])
               && Str(texts[i]).Some?
    ensures ReadB(result, roles).Some?
    ensures TurnsB(ReadB(result, roles).value, roles)[2].content
            == "**" + roles[0] + "**:\n" + Str(texts[0]).value + "\n\n"
               + "**" + roles[1] + "**:\n" + Str(texts[1]).value + "\n\n"
               + "**" + roles[2] + "**:\n" + Str(texts[2]).value
  {
    var critique := Lookup(result, "critique").value;
    var strs := seq(3, i requires 0 <= i < 3 => Str(texts[i]).value);
    forall i | 0 <= i < 3
      ensures Subscript(critique, roles[i]) == Some(texts[i])
      ensures Str(Subscript(critique, roles[i]).value) == Some(strs[i])
    {
      assert Subscript(critique, roles[i]) == Some(texts[i]);
    }
    CritiquesInRoleOrder(critique, roles, strs);
    var f := ReadB(result, roles).value;
    ThreeCritiqueBlocks(f, roles, strs);
  }

  // ---------------------------------------------------------------------
  // A reply that follows the documented Workflow A schema
  // ---------------------------------------------------------------------

  datatype Candidate = Candidate(title: string, score: int, rationale: string)

  datatype ResultA = ResultA(candidates: seq<Candidate>, recommendation: string, why: string, acceptance: seq<string>)

  function EncodeCandidate(c: Candidate): Json
  {
    JObj([("title", JStr(c.title)), ("score", JInt(c.score)), ("rationale", JStr(c.rationale))])
  }

  function EncodeCandidates(cs: seq<Candidate>): (r: seq<Json>)
    ensures |r| == |cs| && forall i :: 0 <= i < |cs| ==> r[i] == EncodeCandidate(cs[i])
  {
    seq(|cs|, i requires 0 <= i < |cs| => EncodeCandidate(cs[i]))
  }

  function EncodeStrings(xs: seq<string>): (r: seq<Json>)
    ensures |r| == |xs| && forall i :: 0 <= i < |xs| ==> r[i] == JStr(xs[i])
  {
    seq(|xs|, i requires 0 <= i < |xs| => JStr(xs[i]))
  }

  /** The reply as the Workflow A instruction asks for it. */
  function EncodeA(a: ResultA): Dict
  {
    [ ("candidates", JArr(EncodeCandidates(a.candidates))),
      ("recommendation", JStr(a.recommendation)),
      ("why", JStr(a.why)),
      ("acceptance", JArr(EncodeStrings(a.acceptance))) ]
  }

  function ExpectedRow(c: Candidate): Row
  {
    Row(c.title, Text.IntToString(c.score), c.rationale)
  }

  function ExpectedRows(cs: seq<Candidate>): (r: seq<Row>)
    ensures |r| == |cs| && forall i :: 0 <= i < |cs| ==> r[i] == ExpectedRow(cs[i])
  {
    seq(|cs|, i requires 0 <= i < |cs| => ExpectedRow(cs[i]))
  }

  /** A reply in the documented schema, with "task" merged in, renders one
      row per candidate (title, decimal score, rationale) in candidate order,
      and the recommendation, why and acceptance items unchanged. */
  lemma DocumentedReplyA(prompt: string, a: ResultA)
    ensures ReadA(Merge(prompt, EncodeA(a)))
            == Some(FieldsA(ExpectedRows(a.candidates), a.recommendation, a.why, a.acceptance))
  {
    EncodedLookups(prompt, a);
    ReadEncodedA(Merge(prompt, EncodeA(a)), a);
  }

  /** A dict whose four documented keys find the encoded fields of a yields
      a's rows and fields, whatever else it holds. */
  lemma ReadEncodedA(m: Dict, a: ResultA)
    requires Lookup(m, "candidates") == Some(JArr(EncodeCandidates(a.candidates)))
    requires Lookup(m, "recommendation") == Some(JStr(a.recommendation))
    requires Lookup(m, "why") == Some(JStr(a.why))
    requires Lookup(m, "acceptance") == Some(JArr(EncodeStrings(a.acceptance)))
    ensures ReadA(m) == Some(FieldsA(ExpectedRows(a.candidates), a.recommendation, a.why, a.acceptance))
  {
    var cs, acc := EncodeCandidates(a.candidates), EncodeStrings(a.acceptance);
    assert ReadRows(cs) == Some(ExpectedRows(a.candidates)) by {
      DocumentedRows(a.candidates);
    }
    assert StrAll(acc) == Some(a.acceptance) by {
      DocumentedAcceptance(a.acceptance);
    }
    ReadAFrom(m, cs, JStr(a.recommendation), JStr(a.why), acc);
  }

  /** After the merge, each documented key still finds its encoded value. */
  lemma EncodedLookups(prompt: string, a: ResultA)
    ensures Lookup(Merge(prompt, EncodeA(a)), "candidates") == Some(JArr(EncodeCandidates(a.candidates)))
    ensures Lookup(Merge(prompt, EncodeA(a)), "recommendation") == Some(JStr(a.recommendation))
    ensures Lookup(Merge(prompt, EncodeA(a)), "why") == Some(JStr(a.why))
    ensures Lookup(Merge(prompt, EncodeA(a)), "acceptance") == Some(JArr(EncodeStrings(a.acceptance)))
  {
    var d := EncodeA(a);
    assert DistinctKeys(d);
    LookupDistinct(d, 0);
    LookupDistinct(d, 1);
    LookupDistinct(d, 2);
    LookupDistinct(d, 3);
    MergeSpec(prompt, d);
  }

  lemma ReadAFrom(result: Dict, cs: seq<Json>, rec: Json, why: Json, acc: seq<Json>)
    requires Lookup(result, "candidates") == Some(JArr(cs))
    requires Lookup(result, "recommendation") == Some(rec) && Str(rec).Some?
    requires Lookup(result, "why") == Some(why) && Str(why).Some?
    requires Lookup(result, "acceptance") == Some(JArr(acc))
    requires ReadRows(cs).Some? && StrAll(acc).Some?
    ensures ReadA(result) == Some(FieldsA(ReadRows(cs).value, Str(rec).value, Str(why).value, StrAll(acc).value))
  {
  }

  lemma DocumentedRows(cs: seq<Candidate>)
    ensures ReadRows(EncodeCandidates(cs)) == Some(ExpectedRows(cs))
  {
    var js := EncodeCandidates(cs);
    forall i | 0 <= i < |cs| ensures ReadRow(js[i]) == Some(ExpectedRows(cs)[i]) {
      DocumentedRow(cs[i]);
    }
    var r := ReadRows(js);
    assert r.Some?;
    assert r.value == ExpectedRows(cs);
  }

  lemma DocumentedRow(c: Candidate)
    ensures ReadRow(EncodeCandidate(c)) == Some(ExpectedRow(c))
  {
    var e := EncodeCandidate(c).entries;
    assert DistinctKeys(e);
    LookupDistinct(e, 0);
    LookupDistinct(e, 1);
    LookupDistinct(e, 2);
  }

  lemma DocumentedAcceptance(xs: seq<string>)
    ensures StrAll(EncodeStrings(xs)) == Some(xs)
  {
    var js := EncodeStrings(xs);
    assert forall i :: 0 <= i < |js| ==> Str(js[i]) == Some(xs[i]);
    var r := StrAll(js);
    assert r.Some?;
    assert r.value == xs;
  }
}
