/**
 * The Streamlit page of app.py, one script run at a time: the input check,
 * the call into the chosen workflow, the transcript turns built from its
 * result, and the step-by-step reveal. The session state that survives
 * between runs (the reveal cursor) is a field of Session; the requests sent
 * to the model are kept in a ghost log.
 */
module App {
  import opened Wrappers
  import opened PyJson
  import opened CotTemplates
  import opened Transcript
  import opened Reveal
  import Text

  datatype Workflow = WorkflowA | WorkflowB

  /** Whether a run goes ahead, or stops with a warning. */
  datatype Verdict = Proceed | Warn(message: string)

  const PromptWarning: string := "Please enter a prompt."
  const RolesWarning: string := "Provide three unique, non-empty critique roles."

  /** The roles handed to Workflow B: the three inputs, stripped. Workflow A
      has none. */
  function RolesFor(workflow: Workflow, role1: string, role2: string, role3: string): seq<string>
  {
    if workflow == WorkflowB then [Text.Strip(role1), Text.Strip(role2), Text.Strip(role3)] else []
  }

  predicate PairwiseDistinct3(roles: seq<string>)
    requires |roles| == 3
  {
    roles[0] != roles[1] && roles[0] != roles[2] && roles[1] != roles[2]
  }

  /** A list of three strings makes a three-element set exactly when its
      entries are pairwise distinct. */
  lemma SetOfThree(roles: seq<string>)
    ensures |roles| == 3 ==> (|set r | r in roles| == 3 <==> PairwiseDistinct3(roles))
  {
    if |roles| == 3 {
      var a, b, c := roles[0], roles[1], roles[2];
      assert (set r | r in roles) == {a, b, c};
      if a == b {
        assert {a, b, c} == {a, c};
      } else if a == c {
        assert {a, b, c} == {a, b};
      } else if b == c {
        assert {a, b, c} == {a, b};
      }
    }
  }

  /** The check made before any model call: a prompt that is empty after
      stripping is refused first; Workflow B then needs its roles to form
      a set of three with no empty entry. */
  function ValidateRun(workflow: Workflow, prompt: string, roles: seq<string>): (v: Verdict)
    ensures v == Warn(PromptWarning) <==> Text.AllSpace(prompt)
    ensures v == Proceed || v == Warn(PromptWarning) || v == Warn(RolesWarning)
    ensures workflow == WorkflowA ==> (v == Proceed <==> !Text.AllSpace(prompt))
    ensures workflow == WorkflowB && |roles| == 3 ==>
              (v == Proceed <==>
                 !Text.AllSpace(prompt) && "" !in roles && PairwiseDistinct3(roles))
  {
    SetOfThree(roles);
    if Text.Strip(prompt) == "" then Warn(PromptWarning)
    else if workflow == WorkflowB && (|set r | r in roles| != 3 || "" in roles) then Warn(RolesWarning)
    else Proceed
  }

  /** A stripped role is empty exactly when the role is all whitespace. */
  lemma EmptyAfterStrip(role1: string, role2: string, role3: string)
    ensures "" in [Text.Strip(role1), Text.Strip(role2), Text.Strip(role3)]
            <==> Text.AllSpace(role1) || Text.AllSpace(role2) || Text.AllSpace(role3)
  {
    var roles := [Text.Strip(role1), Text.Strip(role2), Text.Strip(role3)];
    assert "" in roles <==> roles[0] == [] || roles[1] == [] || roles[2] == [];
  }

  /** Roles are compared after stripping: Workflow B goes ahead exactly when
      the prompt and every role have a non-space character and no two roles
      agree once their surrounding whitespace is removed. */
  lemma RolesCompareStripped(prompt: string, role1: string, role2: string, role3: string)
    ensures ValidateRun(WorkflowB, prompt, RolesFor(WorkflowB, role1, role2, role3)) == Proceed
            <==> !Text.AllSpace(prompt)
                 && !Text.AllSpace(role1) && !Text.AllSpace(role2) && !Text.AllSpace(role3)
                 && Text.Strip(role1) != Text.Strip(role2)
                 && Text.Strip(role1) != Text.Strip(role3)
                 && Text.Strip(role2) != Text.Strip(role3)
  {
    EmptyAfterStrip(role1, role2, role3);
    ProceedWithThree(prompt, Text.Strip(role1), Text.Strip(role2), Text.Strip(role3));
  }

  /** Workflow B with three given roles goes ahead exactly when the prompt is
      not all whitespace and the roles are non-empty and pairwise distinct. */
  lemma ProceedWithThree(prompt: string, a: string, b: string, c: string)
    ensures ValidateRun(WorkflowB, prompt, [a, b, c]) == Proceed
            <==> !Text.AllSpace(prompt) && !("" in [a, b, c]) && a != b && a != c && b != c
  {
    assert PairwiseDistinct3([a, b, c]) <==> a != b && a != c && b != c;
  }

  /** The request the chosen workflow sends. */
  function RequestFor(workflow: Workflow, prompt: string, roles: seq<string>, model: Option<string>): Request
  {
    if workflow == WorkflowA then RequestA(prompt, model) else RequestB(prompt, roles, model)
  }

  /** The chosen workflow's result, or the text of the exception it raised. */
  function Orchestrate(workflow: Workflow, prompt: string, roles: seq<string>, model: Option<string>,
                       llm: Llm, parse: Parser): Result<Dict, string>
  {
    if workflow == WorkflowA then RunWorkflowA(prompt, model, llm, parse)
    else RunWorkflowB(prompt, roles, model, llm, parse)
  }

  /** The turns built from a result, or None where building them raises. */
  function TurnsFor(workflow: Workflow, result: Dict, roles: seq<string>): Option<seq<Turn>>
  {
    if workflow == WorkflowA then
      match ReadA(result)
      case None => None
      case Some(f) => Some(TurnsA(f))
    else
      match ReadB(result, roles)
      case None => None
      case Some(f) => Some(TurnsB(f, roles))
  }

  /** Builds the turns of a result with the workflow's builder; None where
      reading the result raises. */
  method BuildTurns(workflow: Workflow, result: Dict, roles: seq<string>) returns (turns: Option<seq<Turn>>)
    ensures turns == TurnsFor(workflow, result, roles)
  {
    if workflow == WorkflowA {
      var fields := ReadA(result);
      if fields.None? {
        return None;
      }
      var built := BuildTurnsA(fields.value);
      turns := Some(built);
    } else {
      var fields := ReadB(result, roles);
      if fields.None? {
        return None;
      }
      var built := BuildTurnsB(fields.value, roles);
      turns := Some(built);
    }
  }

  /** How one click of "Run COT" ends. */
  datatype Outcome =
    | Warned(message: string)
    | Errored(message: string)
    | Crashed
    | Rendered(shown: seq<Turn>, offered: Nav)

  class Session {
    /** The reveal cursor kept in the session state; None until first set. */
    var step: Option<int>
    /** Every request sent to the model in this session, oldest first. */
    ghost var outbound: seq<Request>

    constructor()
      ensures step == None && outbound == []
    {
      step := None;
      outbound := [];
    }

    /** Sets the cursor for a transcript of count turns. */
    method InitCursor(stepMode: bool, count: nat)
      modifies this
      ensures step == Some(InitialCursor(stepMode, old(step), count))
      ensures outbound == old(outbound)
    {
      if stepMode {
        if step.None? {
          step := Some(0);
        }
      } else {
        step := Some(count - 1);
      }
    }

    /** Offers the navigation action for the current cursor and applies it
        when clicked. */
    method Navigate(stepMode: bool, count: nat, clicked: bool) returns (nav: Nav)
      requires step.Some?
      modifies this
      ensures nav == Offer(stepMode, old(step).value, count)
      ensures step == Some(AfterClick(nav, old(step).value, clicked))
      ensures outbound == old(outbound)
    {
      var cursor := step.value;
      if stepMode && cursor < count - 1 {
        nav := NextStep;
        if clicked {
          step := Some(cursor + 1);
        }
      } else if stepMode && cursor == count - 1 {
        nav := RestartSteps;
        if clicked {
          step := Some(0);
        }
      } else {
        nav := NoNav;
      }
    }

    /** One click of "Run COT": validation, the workflow call, the turns,
        the cursor, the visible turns and the navigation action. A warning
        sends nothing; an error or a failure while building the turns leaves
        the cursor as it was. */
    method Run(workflow: Workflow, stepMode: bool, prompt: string,
               role1: string, role2: string, role3: string,
               model: Option<string>, llm: Llm, parse: Parser, clicked: bool)
      returns (outcome: Outcome)
      modifies this
      ensures
        var roles := RolesFor(workflow, role1, role2, role3);
        var verdict := ValidateRun(workflow, prompt, roles);
        var result := Orchestrate(workflow, prompt, roles, model, llm, parse);
        && (verdict.Warn? ==>
              outcome == Warned(verdict.message) && step == old(step) && outbound == old(outbound))
        && (verdict == Proceed ==>
              outbound == old(outbound) + [RequestFor(workflow, prompt, roles, model)])
        && (verdict == Proceed && result.Failure? ==>
              outcome == Errored("Error: " + result.error) && step == old(step))
        && (verdict == Proceed && result.Success? && TurnsFor(workflow, result.value, roles).None? ==>
              outcome == Crashed && step == old(step))
        && (verdict == Proceed && result.Success? && TurnsFor(workflow, result.value, roles).Some? ==>
              var turns := TurnsFor(workflow, result.value, roles).value;
              var cursor := InitialCursor(stepMode, old(step), |turns|);
              var nav := Offer(stepMode, cursor, |turns|);
              && outcome == Rendered(turns[..ShownCount(cursor, |turns|)], nav)
              && step == Some(AfterClick(nav, cursor, clicked)))
    {
      var roles := RolesFor(workflow, role1, role2, role3);
      var verdict := ValidateRun(workflow, prompt, roles);
      if verdict.Warn? {
        return Warned(verdict.message);
      }
      outbound := outbound + [RequestFor(workflow, prompt, roles, model)];
      var result := Orchestrate(workflow, prompt, roles, model, llm, parse);
      if result.Failure? {
        return Errored("Error: " + result.error);
      }
      var turns := BuildTurns(workflow, result.value, roles);
      if turns.None? {
        return Crashed;
      }
      outcome := Render(turns.value, stepMode, clicked);
    }

    /** The rendering part of a run that produced its turns: the cursor is
        set up, the turns up to it are shown and the navigation action is
        offered and applied. */
    method Render(turns: seq<Turn>, stepMode: bool, clicked: bool) returns (outcome: Outcome)
      modifies this
      ensures
        var cursor := InitialCursor(stepMode, old(step), |turns|);
        var nav := Offer(stepMode, cursor, |turns|);
        && outcome == Rendered(turns[..ShownCount(cursor, |turns|)], nav)
        && step == Some(AfterClick(nav, cursor, clicked))
      ensures outbound == old(outbound)
    {
      InitCursor(stepMode, |turns|);
      var shown := VisibleTurns(turns, step.value);
      var nav := Navigate(stepMode, |turns|, clicked);
      outcome := Rendered(shown, nav);
    }
  }

  /** The request of a run is the two-message request of its workflow,
      whose user message is the prompt as typed. */
  lemma RequestCarriesPrompt(workflow: Workflow, prompt: string, roles: seq<string>, model: Option<string>)
    ensures |RequestFor(workflow, prompt, roles, model).messages| == 2
    ensures RequestFor(workflow, prompt, roles, model).messages[1] == Message("user", prompt)
    ensures RequestFor(workflow, prompt, roles, model).model == model
  {
    TwoMessages(prompt, roles);
  }
}
