/**
 * The two workflow orchestrators of cot_templates.py: the fixed system
 * instructions, the role-keyed critique fragment spliced into Workflow B's
 * instruction, the two-message conversation sent to the chat-completion
 * adapter, and the wrapping of its reply.
 *
 * The adapter (chat_completion) and the JSON parser (json.loads) are not
 * modelled; they are parameters. The adapter maps a request to the reply
 * text or to the text of the exception it raised; the parser maps text to a
 * value or to the text of its JSONDecodeError.
 */
module CotTemplates {
  import opened Wrappers
  import opened PyJson
  import Text

  datatype Message = Message(role: string, content: string)

  /** One call of chat_completion: the conversation and the model override. */
  datatype Request = Request(messages: seq<Message>, model: Option<string>)

  type Llm = Request -> Result<string, string>

  type Parser = string -> Result<Json, string>

  /** WORKFLOW_A_SYS. */
  const WorkflowASys: string :=
    "You are an expert software architect. Follow the user prompt to analyze a code issue. "
    + "Generate exactly three candidate solutions. Score each on a 1-10 scale (higher is better) "
    + "and give a concise rationale. Then pick the best candidate and explain why. "
    + "Reply ONLY in JSON with this schema:\n"
    + "{\n"
    + "  \"candidates\": [\n"
    + "    {\"title\": \"str\", \"score\": int, \"rationale\": \"str\"}\n"
    + "  ],\n"
    + "  \"recommendation\": \"str\",\n"
    + "  \"why\": \"str\",\n"
    + "  \"acceptance\": [\"str\"]\n"
    + "}"

  /** WORKFLOW_B_SYS_BASE is WorkflowBSysHead, then the placeholder, then
      WorkflowBSysTail. The text is cut into short literals only so that the
      verifier can see which characters it holds. */
  const WorkflowBSysHead: string :=
    HeadLine1 + HeadLine2 + HeadLine3 + HeadLine4 + "{\n" + "  \"template_initial\": " + "\"str\",\n"
    + "  \"critique\": "

  const HeadLine1: string :=
    "You are a senior product " + "consultant. The user will " + "provide a development " + "task prompt "
  const HeadLine2: string :=
    "and three distinct " + "critique roles. First, " + "draft a concise " + "user-requirements " + "template. "
  const HeadLine3: string :=
    "Then critique that " + "template from each role. " + "Finally, output an " + "improved template. "
  const HeadLine4: string :=
    "Respond ONLY in JSON with " + "this schema:\n"

  const CritiquePlaceholder: string := "{critique_schema}"

  const WorkflowBSysTail: string :=
    ",\n"
    + "  \"template_improved\": \"str\"\n"
    + "}"

  const WorkflowBSysBase: string := WorkflowBSysHead + CritiquePlaceholder + WorkflowBSysTail

  /** The two pieces of one critique item around the role name: a backslash
      and a quote before it, and backslash-escaped quotes after it. */
  const ItemOpen: string := "\\\""
  const ItemClose: string := "\\\": \\\"str\\\""

  function CritiqueItem(role: string): string
  {
    ItemOpen + role + ItemClose
  }

  function Items(roles: seq<string>): (r: seq<string>)
    ensures |r| == |roles|
    ensures forall i :: 0 <= i < |r| ==> r[i] == CritiqueItem(roles[i])
  {
    if roles == [] then [] else [CritiqueItem(roles[0])] + Items(roles[1..])
  }

  /** The critique schema fragment: "{" + ", ".join(items) + "}". Roles are
      used as given, without validation or deduplication. */
  function CritiqueSchema(roles: seq<string>): string
  {
    "{" + Text.Join(", ", Items(roles)) + "}"
  }

  /** Index of the first c in s, or |s| when there is none. */
  function IndexOf(s: string, c: char): (n: nat)
    ensures n <= |s| && c !in s[..n]
    ensures n < |s| ==> s[n] == c
  {
    if s == [] || s[0] == c then 0
    else
      var n := 1 + IndexOf(s[1..], c);
      assert s[..n] == [s[0]] + s[1..][..n - 1];
      n
  }

  lemma {:induction false} IndexOfAfter(a: string, b: string, c: char)
    requires c !in a && b != [] && b[0] == c
    ensures IndexOf(a + b, c) == |a|
  {
    if a != [] {
      assert (a + b)[1..] == a[1..] + b;
      IndexOfAfter(a[1..], b, c);
    }
  }

  /** Reads role names back out of a sequence of items joined by ", ". */
  function ItemRoles(s: string): Option<seq<string>>
    decreases |s|
  {
    if s == [] then Some([])
    else if !(ItemOpen <= s) then None
    else
      var body := s[|ItemOpen|..];
      var n := IndexOf(body, '\\');
      var rest := body[n..];
      if !(ItemClose <= rest) then None
      else
        var after := rest[|ItemClose|..];
        if after == [] then Some([body[..n]])
        else if |after| > 2 && after[..2] == ", " then
          match ItemRoles(after[2..])
          case Some(more) => Some([body[..n]] + more)
          case None => None
        else None
  }

  /** Reads role names back out of a critique fragment. */
  function SchemaRoles(s: string): Option<seq<string>>
  {
    if |s| >= 2 && s[0] == '{' && s[|s| - 1] == '}' then ItemRoles(s[1..|s| - 1]) else None
  }

  /** How ItemRoles takes apart the first item of ItemOpen + r + ItemClose + tail. */
  lemma FirstItem(r: string, tail: string)
    requires '\\' !in r
    ensures var s := ItemOpen + r + ItemClose + tail;
            var body := s[|ItemOpen|..];
            && ItemOpen <= s
            && body == r + (ItemClose + tail)
            && IndexOf(body, '\\') == |r|
            && body[..|r|] == r
            && ItemClose <= body[|r|..]
            && body[|r|..][|ItemClose|..] == tail
  {
    var s := ItemOpen + r + ItemClose + tail;
    assert s[..|ItemOpen|] == ItemOpen;
    var body := s[|ItemOpen|..];
    assert body == r + (ItemClose + tail);
    IndexOfAfter(r, ItemClose + tail, '\\');
    assert body[|r|..] == ItemClose + tail;
    assert (ItemClose + tail)[..|ItemClose|] == ItemClose;
  }

  lemma ItemRolesLast(r: string)
    requires '\\' !in r
    ensures ItemRoles(ItemOpen + r + ItemClose) == Some([r])
  {
    FirstItem(r, []);
    assert ItemOpen + r + ItemClose + [] == ItemOpen + r + ItemClose;
  }

  lemma ItemRolesNext(r: string, j: string, more: seq<string>)
    requires '\\' !in r && j != [] && ItemRoles(j) == Some(more)
    ensures ItemRoles(ItemOpen + r + ItemClose + (", " + j)) == Some([r] + more)
  {
    FirstItem(r, ", " + j);
    var tail := ", " + j;
    assert tail[..2] == ", " && tail[2..] == j;
  }

  lemma JoinItemsStartsWithOpen(roles: seq<string>)
    requires roles != []
    ensures |Text.Join(", ", Items(roles))| >= |ItemOpen|
    ensures Text.Join(", ", Items(roles))[..|ItemOpen|] == ItemOpen
  {
    var items := Items(roles);
    if |roles| > 1 {
      assert Text.Join(", ", items) == items[0] + ", " + Text.Join(", ", items[1..]);
    }
  }

  lemma JoinItemsSingle(roles: seq<string>)
    requires |roles| == 1
    ensures Text.Join(", ", Items(roles)) == ItemOpen + roles[0] + ItemClose
  {
    assert Items(roles) == [CritiqueItem(roles[0])];
  }

  lemma JoinItemsCons(roles: seq<string>)
    requires |roles| > 1
    ensures Text.Join(", ", Items(roles))
            == ItemOpen + roles[0] + ItemClose + (", " + Text.Join(", ", Items(roles[1..])))
  {
    assert Items(roles)[1..] == Items(roles[1..]);
  }

  lemma {:induction false} ItemRolesJoin(roles: seq<string>)
    requires forall i :: 0 <= i < |roles| ==> '\\' !in roles[i]
    ensures ItemRoles(Text.Join(", ", Items(roles))) == Some(roles)
  {
    if |roles| == 1 {
      JoinItemsSingle(roles);
      ItemRolesLast(roles[0]);
      assert roles == [roles[0]];
    } else if |roles| > 1 {
      JoinItemsCons(roles);
      JoinItemsStartsWithOpen(roles[1..]);
      ItemRolesJoin(roles[1..]);
      ItemRolesNext(roles[0], Text.Join(", ", Items(roles[1..])), roles[1..]);
      assert [roles[0]] + roles[1..] == roles;
    }
  }

  /** The fragment names each role once, in the order given: reading the
      role names back yields exactly the input, duplicates and empty names
      included, provided no name contains a backslash. */
  lemma CritiqueSchemaRoundTrip(roles: seq<string>)
    requires forall i :: 0 <= i < |roles| ==> '\\' !in roles[i]
    ensures SchemaRoles(CritiqueSchema(roles)) == Some(roles)
  {
    var s := CritiqueSchema(roles);
    ItemRolesJoin(roles);
    assert s[1..|s| - 1] == Text.Join(", ", Items(roles));
  }

  /** WORKFLOW_B_SYS_BASE.replace("{critique_schema}", critique_schema). */
  function SystemPromptB(roles: seq<string>): string
  {
    Text.Replace(WorkflowBSysBase, CritiquePlaceholder, CritiqueSchema(roles))
  }

  /** The placeholder occurs once in the base instruction, so the Workflow B
      instruction is the base with that one occurrence replaced by the
      fragment and every other character unchanged. */
  lemma SystemPromptBSplice(roles: seq<string>)
    ensures SystemPromptB(roles) == WorkflowBSysHead + CritiqueSchema(roles) + WorkflowBSysTail
  {
    HeadHasNoCloseBrace();
    PlaceholderClosesOnce();
    TailHasNoOpenBrace();
    Text.ReplaceOnce(WorkflowBSysHead, CritiquePlaceholder, WorkflowBSysTail, CritiqueSchema(roles));
  }

  lemma HeadHasNoCloseBrace()
    ensures '}' !in WorkflowBSysHead
  {
    HeadLine1HasNoCloseBrace();
    HeadLine2HasNoCloseBrace();
    HeadLine3HasNoCloseBrace();
    HeadLine4HasNoCloseBrace();
  }

  lemma HeadLine1HasNoCloseBrace() ensures '}' !in HeadLine1 { }
  lemma HeadLine2HasNoCloseBrace() ensures '}' !in HeadLine2 { }
  lemma HeadLine3HasNoCloseBrace() ensures '}' !in HeadLine3 { }
  lemma HeadLine4HasNoCloseBrace() ensures '}' !in HeadLine4 { }

  lemma PlaceholderClosesOnce()
    ensures '}' !in CritiquePlaceholder[..|CritiquePlaceholder| - 1]
  {
  }

  lemma TailHasNoOpenBrace()
    ensures '{' !in WorkflowBSysTail
  {
  }

  function MessagesA(prompt: string): seq<Message>
  {
    [Message("system", WorkflowASys), Message("user", prompt)]
  }

  function MessagesB(prompt: string, roles: seq<string>): seq<Message>
  {
    [Message("system", SystemPromptB(roles)), Message("user", prompt)]
  }

  /** Each workflow sends exactly two messages, the system instruction and
      then the prompt verbatim; Workflow A's instruction is the constant,
      Workflow B's is the base with the fragment for these roles spliced in. */
  lemma TwoMessages(prompt: string, roles: seq<string>)
    ensures |MessagesA(prompt)| == 2 && |MessagesB(prompt, roles)| == 2
    ensures MessagesA(prompt)[0] == Message("system", WorkflowASys)
    ensures MessagesB(prompt, roles)[0]
            == Message("system", WorkflowBSysHead + CritiqueSchema(roles) + WorkflowBSysTail)
    ensures MessagesA(prompt)[1] == Message("user", prompt)
    ensures MessagesB(prompt, roles)[1] == Message("user", prompt)
  {
    SystemPromptBSplice(roles);
  }

  const InvalidJsonPrefix: string := "Invalid JSON from LLM: "

  /** json.loads(raw) followed by {"task": prompt, **data}. A decode error
      becomes a ValueError whose text starts with InvalidJsonPrefix and ends
      with the whole raw reply; a decoded value that is not a dict makes the
      dict display raise a TypeError; a decoded dict gains "task" as its
      first key, holding the prompt unless the dict had its own "task". */
  function Decode(prompt: string, raw: string, parse: Parser): (r: Result<Dict, string>)
    ensures parse(raw).Failure? ==>
              r.Failure? && InvalidJsonPrefix <= r.error
              && |raw| <= |r.error| && r.error[|r.error| - |raw|..] == raw
              && parse(raw).error <= r.error[|InvalidJsonPrefix|..]
    ensures parse(raw).Success? ==> (r.Success? <==> parse(raw).value.JObj?)
    ensures parse(raw).Success? && parse(raw).value.JObj? ==>
              var d := parse(raw).value.entries;
              && |r.value| >= 1 && r.value[0].0 == "task"
              && Lookup(r.value, "task")
                 == (if HasKey(d, "task") then Lookup(d, "task") else Some(JStr(prompt)))
              && forall k :: k != "task" ==> Lookup(r.value, k) == Lookup(d, k)
  {
    match parse(raw)
    case Failure(e) => Failure(InvalidJsonPrefix + e + "\nRaw: " + raw)
    case Success(JObj(d)) =>
      MergeSpec(prompt, d);
      Success(Merge(prompt, d))
    case Success(j) => Failure("'" + TypeName(j) + "' object is not a mapping")
  }

  function RequestA(prompt: string, model: Option<string>): Request
  {
    Request(MessagesA(prompt), model)
  }

  function RequestB(prompt: string, roles: seq<string>, model: Option<string>): Request
  {
    Request(MessagesB(prompt, roles), model)
  }

  /** run_workflow_a: one adapter call; its exception passes through
      unchanged, otherwise its reply is decoded. */
  function RunWorkflowA(prompt: string, model: Option<string>, llm: Llm, parse: Parser)
    : (r: Result<Dict, string>)
    ensures llm(RequestA(prompt, model)).Failure? ==> r == Failure(llm(RequestA(prompt, model)).error)
    ensures llm(RequestA(prompt, model)).Success? ==>
              r == Decode(prompt, llm(RequestA(prompt, model)).value, parse)
  {
    match llm(RequestA(prompt, model))
    case Failure(e) => Failure(e)
    case Success(raw) => Decode(prompt, raw, parse)
  }

  /** run_workflow_b: as run_workflow_a, with the role-specific instruction. */
  function RunWorkflowB(prompt: string, roles: seq<string>, model: Option<string>, llm: Llm, parse: Parser)
    : (r: Result<Dict, string>)
    ensures llm(RequestB(prompt, roles, model)).Failure? ==>
              r == Failure(llm(RequestB(prompt, roles, model)).error)
    ensures llm(RequestB(prompt, roles, model)).Success? ==>
              r == Decode(prompt, llm(RequestB(prompt, roles, model)).value, parse)
  {
    match llm(RequestB(prompt, roles, model))
    case Failure(e) => Failure(e)
    case Success(raw) => Decode(prompt, raw, parse)
  }
}
