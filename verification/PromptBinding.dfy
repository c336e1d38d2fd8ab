/** Finding the prompt nodes of a ComfyUI workflow graph, and rewriting their texts. */
module PromptBinding {
  import opened CapacityTypes

  type Id = string

  /** A JSON object: keys in insertion order, each once. */
  datatype Dict<V> = Dict(keys: seq<string>, values: map<string, V>)
  {
    predicate Valid() {
      && (forall k :: k in keys ==> k in values) && (forall k :: k in values ==> k in keys)
      && (forall i, j :: 0 <= i < j < |keys| ==> keys[i] != keys[j])
    }
  }

  /** An input: a text, a link (the id a list starts with or a dict names, as text; absent in an empty list), or else. */
  datatype Value = Str(text: string) | Link(id: Option<Id>) | OtherValue

  /** A workflow entry. `inputs` is absent when it is not an object. */
  datatype Node = NotANode | Node(classType: string, typeName: string, inputs: Option<Dict<Value>>)

  type Nodes = Dict<Node>

  predicate ValidNode(node: Node) { node.Node? && node.inputs.Some? ==> node.inputs.value.Valid() }

  ghost predicate ValidNodes(nodes: Nodes) {
    nodes.Valid() && forall id :: id in nodes.values ==> ValidNode(nodes.values[id])
  }

  function LinkOf(value: Value): Id {
    if value.Link? && value.id.Some? then value.id.value else ""
  }

  predicate HasText(node: Node) {
    && node.Node? && node.inputs.Some? && "text" in node.inputs.value.values
    && node.inputs.value.values["text"].Str?
  }

  function TextOf(node: Node): string
    requires HasText(node)
  {
    node.inputs.value.values["text"].text
  }

  function WithText(node: Node, text: string): Node
    requires HasText(node)
  {
    var inputs := node.inputs.value;
    node.(inputs := Some(inputs.(values := inputs.values["text" := Str(text)])))
  }

  /** The node holds this text now, and is otherwise as it was. */
  predicate Holds(before: Node, after: Node, text: string) {
    && before.Node? && before.inputs.Some?
    && after.Node? && after.classType == before.classType && after.typeName == before.typeName
    && after.inputs.Some? && after.inputs.value.keys == before.inputs.value.keys
    && after.inputs.value.values.Keys == before.inputs.value.values.Keys
    && "text" in after.inputs.value.values && after.inputs.value.values["text"] == Str(text)
    && forall k :: k in before.inputs.value.values && k != "text" ==>
         after.inputs.value.values[k] == before.inputs.value.values[k]
  }

  lemma WithTextHolds(node: Node, text: string)
    requires HasText(node)
    ensures forall after :: after == WithText(node, text) <==> Holds(node, after, text)
  {
    forall after | Holds(node, after, text)
      ensures after == WithText(node, text)
    {
      assert after.inputs.value.values == node.inputs.value.values["text" := Str(text)];
    }
  }

  // ----- reachability -----

  predicate TextNode(nodes: Nodes, id: Id) { id in nodes.values && HasText(nodes.values[id]) }

  /** Some input of `a` links to `b`. */
  predicate Linked(nodes: Nodes, a: Id, b: Id) {
    && a in nodes.values && nodes.values[a].Node? && nodes.values[a].inputs.Some? && b != ""
    && exists k :: k in nodes.values[a].inputs.value.values && LinkOf(nodes.values[a].inputs.value.values[k]) == b
  }

  predicate IsPath(nodes: Nodes, path: seq<Id>) {
    |path| > 0 && forall i :: 0 <= i < |path| - 1 ==> Linked(nodes, path[i], path[i + 1])
  }

  predicate Leads(nodes: Nodes, start: Id, path: seq<Id>, id: Id) {
    IsPath(nodes, path) && path[0] == start && path[|path| - 1] == id
  }

  ghost predicate Reachable(nodes: Nodes, start: Id, id: Id) { exists path :: Leads(nodes, start, path, id) }

  /** What the traversal from `start` is to find. */
  ghost predicate Upstream(nodes: Nodes, start: Id, id: Id) {
    start != "" && TextNode(nodes, id) && Reachable(nodes, start, id)
  }

  lemma ReachableStep(nodes: Nodes, start: Id, a: Id, b: Id)
    requires Reachable(nodes, start, a) && Linked(nodes, a, b)
    ensures Reachable(nodes, start, b)
  {
    var path :| Leads(nodes, start, path, a);
    var longer := path + [b];
    assert forall i :: 0 <= i < |path| ==> longer[i] == path[i];
    assert Leads(nodes, start, longer, b);
  }

  lemma ReachableStart(nodes: Nodes, start: Id)
    ensures Reachable(nodes, start, start)
  {
    assert Leads(nodes, start, [start], start);
  }

  /** A set of ids that holds the start and is closed under links holds everything reachable. */
  lemma {:induction false} ClosedHoldsPath(nodes: Nodes, visited: set<Id>, path: seq<Id>)
    requires IsPath(nodes, path) && path[0] in visited
    requires forall a, b :: a in visited && Linked(nodes, a, b) ==> b in visited
    ensures path[|path| - 1] in visited
  {
    if |path| > 1 {
      ClosedHoldsPath(nodes, visited, path[..|path| - 1]);
      assert Linked(nodes, path[|path| - 2], path[|path| - 1]);
    }
  }

  /** Every id the traversal can come across. */
  ghost function Universe(nodes: Nodes, start: Id): set<Id> {
    {start} + set a, k | a in nodes.values && nodes.values[a].Node? && nodes.values[a].inputs.Some?
                         && k in nodes.values[a].inputs.value.values
                       :: LinkOf(nodes.values[a].inputs.value.values[k])
  }

  // ----- the traversal -----

  /** Push the unvisited links of one node's inputs, in their order. */
  method PushLinks(ghost nodes: Nodes, ghost id: Id, inputs: Dict<Value>, visited: set<Id>, stack: seq<Id>)
    returns (pushed: seq<Id>)
    requires inputs.Valid() && id in nodes.values && nodes.values[id].Node? && nodes.values[id].inputs == Some(inputs)
    ensures stack <= pushed
    ensures forall b :: b in pushed[|stack|..] <==> Linked(nodes, id, b) && b !in visited
  {
    pushed := stack;
    for i := 0 to |inputs.keys|
      invariant stack <= pushed
      invariant forall b :: b in pushed[|stack|..] <==>
                  b != "" && b !in visited && exists j :: 0 <= j < i && LinkOf(inputs.values[inputs.keys[j]]) == b
    {
      var linked := LinkOf(inputs.values[inputs.keys[i]]);
      if linked != "" && linked !in visited {
        assert (pushed + [linked])[|stack|..] == pushed[|stack|..] + [linked];
        pushed := pushed + [linked];
      }
    }
    assert forall k :: k in inputs.values ==> exists j :: 0 <= j < |inputs.keys| && inputs.keys[j] == k;
    assert forall j :: 0 <= j < |inputs.keys| ==> inputs.keys[j] in inputs.values;
  }

  /** Exactly the text nodes reachable upstream of `start`, each once, cycles and dangling links included. */
  method CollectUpstreamTextNodeIds(nodes: Nodes, start: Id) returns (ids: seq<Id>)
    requires ValidNodes(nodes)
    ensures forall id :: id in ids <==> Upstream(nodes, start, id)
    ensures forall i, j :: 0 <= i < j < |ids| ==> ids[i] != ids[j]
  {
    hide Reachable, Linked, HasText, Universe, TextNode;
    StartInUniverse(nodes, start);
    if start == "" {
      return [];
    }
    ids := [];
    var visited: set<Id> := {};
    var stack := [start];
    ReachableStart(nodes, start);
    while stack != []
      invariant start in visited || start in stack
      invariant forall id :: id in visited || id in stack ==> Reachable(nodes, start, id)
      invariant forall id :: id in visited || id in stack ==> id in Universe(nodes, start)
      invariant forall a, b :: a in visited && Linked(nodes, a, b) ==> b in visited || b in stack
      invariant forall id :: id in ids <==> id in visited && TextNode(nodes, id)
      invariant forall i, j :: 0 <= i < j < |ids| ==> ids[i] != ids[j]
      decreases Universe(nodes, start) - visited, |stack|
    {
      var id := stack[|stack| - 1];
      ghost var before := stack;
      stack := stack[..|stack| - 1];
      assert before == stack + [id];
      if id in visited {
        continue;
      }
      visited := visited + {id};
      if id !in nodes.values || nodes.values[id].NotANode? {
        NoLinks(nodes, id);
        continue;
      }
      var node := nodes.values[id];
      assert TextNode(nodes, id) <==> HasText(node) by { TextNodeIs(nodes, id); }
      if HasText(node) {
        ids := ids + [id];
      }
      if node.inputs.None? {
        NoLinks(nodes, id);
        continue;
      }
      ghost var rest := stack;
      stack := PushLinks(nodes, id, node.inputs.value, visited, stack);
      assert stack == rest + stack[|rest|..];
      forall b | b in stack[|rest|..]
        ensures Reachable(nodes, start, b) && b in Universe(nodes, start)
      {
        ReachableStep(nodes, start, id, b);
        LinksInUniverse(nodes, start, id, b);
      }
    }
    forall id
      ensures Reachable(nodes, start, id) <==> id in visited
    {
      VisitedIsReachable(nodes, start, visited, id);
    }
  }

  lemma StartInUniverse(nodes: Nodes, start: Id)
    ensures start in Universe(nodes, start)
  {
  }

  lemma TextNodeIs(nodes: Nodes, id: Id)
    requires id in nodes.values
    ensures TextNode(nodes, id) <==> HasText(nodes.values[id])
  {
  }

  lemma NoLinks(nodes: Nodes, id: Id)
    requires id !in nodes.values || nodes.values[id].NotANode? || nodes.values[id].inputs.None?
    ensures !TextNode(nodes, id) && forall b :: !Linked(nodes, id, b)
  {
  }

  lemma LinksInUniverse(nodes: Nodes, start: Id, a: Id, b: Id)
    requires Linked(nodes, a, b)
    ensures b in Universe(nodes, start)
  {
    var k :| k in nodes.values[a].inputs.value.values && LinkOf(nodes.values[a].inputs.value.values[k]) == b;
  }

  lemma VisitedIsReachable(nodes: Nodes, start: Id, visited: set<Id>, id: Id)
    requires start in visited && forall x :: x in visited ==> Reachable(nodes, start, x)
    requires forall a, b :: a in visited && Linked(nodes, a, b) ==> b in visited
    ensures Reachable(nodes, start, id) <==> id in visited
  {
    if Reachable(nodes, start, id) {
      var path :| Leads(nodes, start, path, id);
      ClosedHoldsPath(nodes, visited, path);
    }
  }

  // ----- prompt roles -----

  datatype Role = Positive | Negative

  /** Lower case as far as the ASCII names looked for can tell. Beside the ASCII letters only the Kelvin sign lowers to an
      ASCII letter of its own; the dotted capital I lowers to a letter and a combining dot, which no name contains. */
  function LowerChar(c: char): char {
    if 'A' <= c <= 'Z' then (c as int + 32) as char else if c == '\U{212A}' then 'k' else c
  }

  function Lower(s: string): string { seq(|s|, i requires 0 <= i < |s| => LowerChar(s[i])) }

  predicate Contains(s: string, part: string) {
    |part| <= |s| && (s[..|part|] == part || (|s| > 0 && Contains(s[1..], part)))
  }

  predicate Sampler(node: Node) {
    node.Node? && Contains(Lower(if node.classType != "" then node.classType else node.typeName), "ksampler")
  }

  /** The id one role of a sampler is linked to; empty when there is none. */
  function RoleStart(node: Node, role: Role): Id {
    var name := if role == Positive then "positive" else "negative";
    if node.NotANode? || node.inputs.None? || name !in node.inputs.value.values then ""
    else LinkOf(node.inputs.value.values[name])
  }

  /** `id` is a text node upstream of some sampler's input for this role. */
  ghost predicate HasRole(nodes: Nodes, role: Role, id: Id) {
    exists k :: k in nodes.values && Sampler(nodes.values[k]) && Upstream(nodes, RoleStart(nodes.values[k], role), id)
  }

  /** Add one sampler's upstream text nodes to a role, each once. */
  method AddUpstream(nodes: Nodes, start: Id, ids: seq<Id>, seen: set<Id>) returns (more: seq<Id>, known: set<Id>)
    requires ValidNodes(nodes) && (forall id :: id in ids <==> id in seen)
    requires forall i, j :: 0 <= i < j < |ids| ==> ids[i] != ids[j]
    ensures (forall id :: id in more <==> id in known)
    ensures forall id :: id in more <==> id in ids || Upstream(nodes, start, id)
    ensures forall i, j :: 0 <= i < j < |more| ==> more[i] != more[j]
  {
    hide Upstream, ValidNodes;
    more, known := ids, seen;
    var upstream := CollectUpstreamTextNodeIds(nodes, start);
    for i := 0 to |upstream|
      invariant forall id :: id in more <==> id in known
      invariant forall id :: id in more <==> id in ids || id in upstream[..i]
      invariant forall j, k :: 0 <= j < k < |more| ==> more[j] != more[k]
    {
      assert upstream[..i + 1] == upstream[..i] + [upstream[i]];
      if upstream[i] !in known {
        more, known := more + [upstream[i]], known + {upstream[i]};
      }
    }
    assert upstream[..|upstream|] == upstream;
  }

  ghost predicate HasRoleAmong(nodes: Nodes, keys: seq<Id>, role: Role, id: Id) {
    exists i :: 0 <= i < |keys| && keys[i] in nodes.values && Sampler(nodes.values[keys[i]])
                && Upstream(nodes, RoleStart(nodes.values[keys[i]], role), id)
  }

  /** The text nodes of each role, each once. */
  method InferWorkflowPromptNodeIds(nodes: Nodes) returns (positive: seq<Id>, negative: seq<Id>)
    requires ValidNodes(nodes)
    ensures forall id :: id in positive <==> HasRole(nodes, Positive, id)
    ensures forall id :: id in negative <==> HasRole(nodes, Negative, id)
    ensures forall i, j :: 0 <= i < j < |positive| ==> positive[i] != positive[j]
    ensures forall i, j :: 0 <= i < j < |negative| ==> negative[i] != negative[j]
  {
    hide Upstream, Sampler, ValidNodes, HasRoleAmong, HasRole, RoleStart;
    positive, negative := [], [];
    var seenPositive, seenNegative: set<Id> := {}, {};
    NoRoles(nodes);
    for i := 0 to |nodes.keys|
      invariant forall id :: id in positive <==> id in seenPositive
      invariant forall id :: id in negative <==> id in seenNegative
      invariant forall id :: id in positive <==> HasRoleAmong(nodes, nodes.keys[..i], Positive, id)
      invariant forall id :: id in negative <==> HasRoleAmong(nodes, nodes.keys[..i], Negative, id)
      invariant forall j, k :: 0 <= j < k < |positive| ==> positive[j] != positive[k]
      invariant forall j, k :: 0 <= j < k < |negative| ==> negative[j] != negative[k]
    {
      KeyPresent(nodes, i);
      var node := nodes.values[nodes.keys[i]];
      RolesGrow(nodes, i, Positive);
      RolesGrow(nodes, i, Negative);
      if Sampler(node) {
        positive, seenPositive := AddUpstream(nodes, RoleStart(node, Positive), positive, seenPositive);
        negative, seenNegative := AddUpstream(nodes, RoleStart(node, Negative), negative, seenNegative);
      }
    }
    AllRoles(nodes);
  }

  lemma NoRoles(nodes: Nodes)
    ensures forall role, id :: !HasRoleAmong(nodes, nodes.keys[..0], role, id)
  {
  }

  lemma KeyPresent(nodes: Nodes, i: nat)
    requires ValidNodes(nodes) && i < |nodes.keys|
    ensures nodes.keys[i] in nodes.values
  {
  }

  lemma RolesGrow(nodes: Nodes, i: nat, role: Role)
    requires ValidNodes(nodes) && i < |nodes.keys| && nodes.keys[i] in nodes.values
    ensures
      var node := nodes.values[nodes.keys[i]];
      forall id :: HasRoleAmong(nodes, nodes.keys[..i + 1], role, id)
                   <==> HasRoleAmong(nodes, nodes.keys[..i], role, id)
                        || (Sampler(node) && Upstream(nodes, RoleStart(node, role), id))
  {
    hide Upstream, Sampler, RoleStart;
    var shorter, longer := nodes.keys[..i], nodes.keys[..i + 1];
    assert longer == shorter + [nodes.keys[i]];
    forall id
      ensures HasRoleAmong(nodes, longer, role, id)
              <==> HasRoleAmong(nodes, shorter, role, id)
                   || (Sampler(nodes.values[nodes.keys[i]])
                       && Upstream(nodes, RoleStart(nodes.values[nodes.keys[i]], role), id))
    {
      if HasRoleAmong(nodes, shorter, role, id) {
        var j :| 0 <= j < i && shorter[j] in nodes.values && Sampler(nodes.values[shorter[j]])
                 && Upstream(nodes, RoleStart(nodes.values[shorter[j]], role), id);
        assert longer[j] == shorter[j];
      }
      assert longer[i] == nodes.keys[i];
    }
  }

  lemma AllRoles(nodes: Nodes)
    requires ValidNodes(nodes)
    ensures forall role, id :: HasRoleAmong(nodes, nodes.keys[..|nodes.keys|], role, id) <==> HasRole(nodes, role, id)
  {
    hide Upstream, Sampler, RoleStart;
    assert nodes.keys[..|nodes.keys|] == nodes.keys;
    forall role, id
      ensures HasRoleAmong(nodes, nodes.keys, role, id) <==> HasRole(nodes, role, id)
    {
      if HasRole(nodes, role, id) {
        var k :| k in nodes.values && Sampler(nodes.values[k]) && Upstream(nodes, RoleStart(nodes.values[k], role), id);
        var i :| 0 <= i < |nodes.keys| && nodes.keys[i] == k;
      }
    }
  }

  // ----- rewriting -----

  ghost predicate AllText(nodes: Nodes, texts: map<Id, string>) { forall id :: id in texts ==> TextNode(nodes, id) }

  /** One entry after the listed text nodes are given their texts. */
  function NewNode(nodes: Nodes, texts: map<Id, string>, id: Id): Node
    requires AllText(nodes, texts) && id in nodes.values
  {
    if id in texts then
      assert TextNode(nodes, id);
      WithText(nodes.values[id], texts[id])
    else nodes.values[id]
  }

  /** Give each listed text node its new text; nothing else changes. */
  function Retext(nodes: Nodes, texts: map<Id, string>): Nodes
    requires AllText(nodes, texts)
  {
    nodes.(values := map id | id in nodes.values :: NewNode(nodes, texts, id))
  }

  lemma NewNodeIsText(nodes: Nodes, texts: map<Id, string>, id: Id)
    requires AllText(nodes, texts) && id in nodes.values
    ensures HasText(NewNode(nodes, texts, id)) <==> HasText(nodes.values[id])
    ensures ValidNode(nodes.values[id]) ==> ValidNode(NewNode(nodes, texts, id))
  {
  }

  lemma RetextKeepsNodes(nodes: Nodes, texts: map<Id, string>)
    requires AllText(nodes, texts)
    ensures ValidNodes(nodes) ==> ValidNodes(Retext(nodes, texts))
    ensures forall id :: TextNode(Retext(nodes, texts), id) <==> TextNode(nodes, id)
  {
    hide NewNode, HasText, ValidNode, AllText;
    forall id | id in nodes.values
      ensures HasText(NewNode(nodes, texts, id)) <==> HasText(nodes.values[id])
      ensures ValidNode(nodes.values[id]) ==> ValidNode(NewNode(nodes, texts, id))
    {
      NewNodeIsText(nodes, texts, id);
    }
  }

  lemma RetextThen(nodes: Nodes, texts: map<Id, string>, id: Id, text: string)
    requires AllText(nodes, texts) && TextNode(nodes, id)
    ensures AllText(Retext(nodes, texts), map[id := text]) && AllText(nodes, texts[id := text])
    ensures Retext(Retext(nodes, texts), map[id := text]) == Retext(nodes, texts[id := text])
  {
    RetextKeepsNodes(nodes, texts);
    hide NewNode, HasText;
    var once := Retext(nodes, texts);
    forall x | x in nodes.values
      ensures NewNode(once, map[id := text], x) == NewNode(nodes, texts[id := text], x)
    {
      NewNodeThen(nodes, texts, id, text, x);
    }
    assert Retext(once, map[id := text]).values == Retext(nodes, texts[id := text]).values;
  }

  lemma NewNodeThen(nodes: Nodes, texts: map<Id, string>, id: Id, text: string, x: Id)
    requires AllText(nodes, texts) && TextNode(nodes, id) && x in nodes.values
    requires AllText(Retext(nodes, texts), map[id := text]) && AllText(nodes, texts[id := text])
    ensures NewNode(Retext(nodes, texts), map[id := text], x) == NewNode(nodes, texts[id := text], x)
  {
    hide HasText, WithText;
    if x == id && id in texts {
      assert TextNode(nodes, id);
      WithTextTwice(nodes.values[id], texts[id], text);
    }
  }

  lemma WithTextTwice(node: Node, first: string, second: string)
    requires HasText(node)
    ensures HasText(WithText(node, first)) && WithText(WithText(node, first), second) == WithText(node, second)
  {
    var values := node.inputs.value.values;
    assert values["text" := Str(first)]["text" := Str(second)] == values["text" := Str(second)];
  }

  /** New texts leave every link, class and role as it was. */
  lemma RetextKeepsLinks(nodes: Nodes, texts: map<Id, string>, a: Id, b: Id)
    requires AllText(nodes, texts)
    ensures Linked(Retext(nodes, texts), a, b) <==> Linked(nodes, a, b)
  {
    if a in texts {
      var before := nodes.values[a].inputs.value.values;
      var after := Retext(nodes, texts).values[a].inputs.value.values;
      assert forall k :: k in before ==> LinkOf(after[k]) == LinkOf(before[k]);
      assert after.Keys == before.Keys;
    }
  }

  lemma RetextKeepsUpstream(nodes: Nodes, texts: map<Id, string>, start: Id, id: Id)
    requires ValidNodes(nodes) && AllText(nodes, texts)
    ensures Upstream(Retext(nodes, texts), start, id) <==> Upstream(nodes, start, id)
  {
    hide TextNode, Linked, ValidNodes, Retext;
    var after := Retext(nodes, texts);
    RetextKeepsNodes(nodes, texts);
    forall a, b
      ensures Linked(after, a, b) <==> Linked(nodes, a, b)
    {
      RetextKeepsLinks(nodes, texts, a, b);
    }
    forall path
      ensures Leads(after, start, path, id) <==> Leads(nodes, start, path, id)
    {
    }
  }

  lemma RetextKeepsRoles(nodes: Nodes, texts: map<Id, string>, role: Role, id: Id)
    requires ValidNodes(nodes) && AllText(nodes, texts)
    ensures HasRole(Retext(nodes, texts), role, id) <==> HasRole(nodes, role, id)
  {
    hide Upstream, ValidNodes, Retext, TextNode;
    var after := Retext(nodes, texts);
    RetextKeepsSamplers(nodes, texts);
    forall start
      ensures Upstream(after, start, id) <==> Upstream(nodes, start, id)
    {
      RetextKeepsUpstream(nodes, texts, start, id);
    }
  }

  lemma RetextKeepsSamplers(nodes: Nodes, texts: map<Id, string>)
    requires AllText(nodes, texts)
    ensures Retext(nodes, texts).values.Keys == nodes.values.Keys
    ensures forall k :: k in nodes.values ==> Sampler(Retext(nodes, texts).values[k]) == Sampler(nodes.values[k])
    ensures forall k, role :: k in nodes.values ==>
              RoleStart(Retext(nodes, texts).values[k], role) == RoleStart(nodes.values[k], role)
  {
    hide Contains, Lower;
  }

  datatype Prompts = Prompts(positive: string, negative: string)

  ghost function RoleSet(nodes: Nodes, role: Role): set<Id> { set id | id in nodes.values && HasRole(nodes, role, id) }

  /** The texts the roles are given: negative where a node has that role, positive where it has only the other. */
  ghost function RoleTexts(nodes: Nodes, current: Prompts): map<Id, string> {
    map id | id in RoleSet(nodes, Positive) + RoleSet(nodes, Negative) ::
      if id in RoleSet(nodes, Negative) then current.negative else current.positive
  }

  lemma RolesAreTexts(nodes: Nodes)
    ensures forall role, id :: HasRole(nodes, role, id) ==> id in nodes.values && TextNode(nodes, id)
  {
  }

  /** The workflow with both roles rewritten. */
  ghost function Rewritten(nodes: Nodes, current: Prompts): Nodes {
    RoleTextsAreTexts(nodes, current);
    Retext(nodes, RoleTexts(nodes, current))
  }

  /** The negative text in every node with the negative role, the positive text in every node with only the positive
      one, and nothing else changed. */
  lemma RewriteIsExact(nodes: Nodes, current: Prompts, id: Id)
    requires ValidNodes(nodes) && id in nodes.values
    ensures Rewritten(nodes, current).keys == nodes.keys && id in Rewritten(nodes, current).values
    ensures
      var before := nodes.values[id];
      var after := Rewritten(nodes, current).values[id];
      if HasRole(nodes, Negative, id) then Holds(before, after, current.negative)
      else if HasRole(nodes, Positive, id) then Holds(before, after, current.positive)
      else after == before
  {
    hide HasRole, WithText, HasText, Holds;
    RolesAreTexts(nodes);
    if HasText(nodes.values[id]) {
      WithTextHolds(nodes.values[id], current.negative);
      WithTextHolds(nodes.values[id], current.positive);
    }
    RoleTextsAreTexts(nodes, current);
  }

  /** Rewriting preserves the inferred roles. */
  lemma RewriteKeepsRoles(nodes: Nodes, current: Prompts, role: Role)
    requires ValidNodes(nodes)
    ensures RoleSet(Rewritten(nodes, current), role) == RoleSet(nodes, role)
  {
    hide HasRole, TextNode, ValidNodes, RoleTexts;
    RoleTextsAreTexts(nodes, current);
    forall id
      ensures HasRole(Rewritten(nodes, current), role, id) <==> HasRole(nodes, role, id)
    {
      RetextKeepsRoles(nodes, RoleTexts(nodes, current), role, id);
    }
  }

  /** Rewriting twice with the same prompts is rewriting once. */
  lemma RewriteIsIdempotent(nodes: Nodes, current: Prompts)
    requires ValidNodes(nodes)
    ensures Rewritten(Rewritten(nodes, current), current) == Rewritten(nodes, current)
  {
    var once := Rewritten(nodes, current);
    RewriteKeepsRoles(nodes, current, Positive);
    RewriteKeepsRoles(nodes, current, Negative);
    RolesAreTexts(nodes);
    var texts := RoleTexts(nodes, current);
    hide HasRole, ValidNodes, NewNode, HasText, RoleTexts;
    assert RoleTexts(once, current) == texts by { RoleTextsFromSets(nodes, once, current); }
    assert AllText(nodes, texts) by { RoleTextsAreTexts(nodes, current); }
    RetextKeepsNodes(nodes, texts);
    forall id | id in nodes.values
      ensures NewNode(once, texts, id) == NewNode(nodes, texts, id)
    {
      NewNodeTwice(nodes, texts, id);
    }
    assert Retext(once, texts).values == once.values;
  }

  lemma RoleTextsFromSets(nodes: Nodes, other: Nodes, current: Prompts)
    requires RoleSet(nodes, Positive) == RoleSet(other, Positive) && RoleSet(nodes, Negative) == RoleSet(other, Negative)
    ensures RoleTexts(nodes, current) == RoleTexts(other, current)
  {
    hide RoleSet;
  }

  lemma RoleTextsAreTexts(nodes: Nodes, current: Prompts)
    ensures AllText(nodes, RoleTexts(nodes, current))
  {
    hide TextNode, HasRole;
    RolesAreTexts(nodes);
  }

  lemma NewNodeTwice(nodes: Nodes, texts: map<Id, string>, id: Id)
    requires AllText(nodes, texts) && id in nodes.values && AllText(Retext(nodes, texts), texts)
    ensures NewNode(Retext(nodes, texts), texts, id) == NewNode(nodes, texts, id)
  {
    hide HasText, WithText;
    if id in texts {
      assert TextNode(nodes, id);
      WithTextTwice(nodes.values[id], texts[id], texts[id]);
    }
  }

  // ----- the assignment method and its fallback -----

  predicate ClipNode(nodes: Nodes, id: Id) {
    TextNode(nodes, id) && Contains(nodes.values[id].classType, "CLIPTextEncode")
  }

  /** The CLIP text nodes, in the workflow's order. */
  function Clips(nodes: Nodes, n: nat): (clips: seq<Id>)
    requires n <= |nodes.keys|
    ensures forall id :: id in clips ==> ClipNode(nodes, id) && id in nodes.keys[..n]
  {
    if n == 0 then []
    else
      assert nodes.keys[..n] == nodes.keys[..n - 1] + [nodes.keys[n - 1]];
      Clips(nodes, n - 1) + (if ClipNode(nodes, nodes.keys[n - 1]) then [nodes.keys[n - 1]] else [])
  }

  lemma {:induction false} ClipsAreDistinct(nodes: Nodes, n: nat)
    requires nodes.Valid() && n <= |nodes.keys|
    ensures forall i, j :: 0 <= i < j < |Clips(nodes, n)| ==> Clips(nodes, n)[i] != Clips(nodes, n)[j]
  {
    hide ClipNode;
    if n > 0 {
      ClipsAreDistinct(nodes, n - 1);
      assert nodes.keys[n - 1] !in nodes.keys[..n - 1];
    }
  }

  /** The first place at or after `i` holding this text, passing over `skip`. */
  function FirstMatch(texts: seq<string>, wanted: string, skip: Option<nat>, i: nat): (found: Option<nat>)
    requires i <= |texts|
    ensures found.Some? ==>
              && i <= found.value < |texts| && texts[found.value] == wanted && skip != found
              && forall j :: i <= j < found.value ==> texts[j] != wanted || skip == Some(j)
    ensures found.None? ==> forall j :: i <= j < |texts| ==> texts[j] != wanted || skip == Some(j)
    decreases |texts| - i
  {
    if i == |texts| then None
    else if texts[i] == wanted && skip != Some(i) then Some(i)
    else FirstMatch(texts, wanted, skip, i + 1)
  }

  function Mark(texts: map<Id, string>, clips: seq<Id>, at: Option<nat>, text: string): map<Id, string>
    requires at.Some? ==> at.value < |clips|
  {
    if at.None? then texts else texts[clips[at.value] := text]
  }

  function Count(at: Option<nat>): nat { if at.Some? then 1 else 0 }

  /** What the fallback chooses among the CLIP nodes: the first whose text is the imported positive, the first other one
      whose text is the imported negative, or the only one there is. */
  datatype Choice = Choice(positive: Option<nat>, negative: Option<nat>, only: Option<nat>)

  function Choose(texts: seq<string>, imported: Prompts, hasPositive: bool, hasNegative: bool): (c: Choice)
    ensures c.positive.Some? ==> c.positive.value < |texts|
    ensures c.negative.Some? ==> c.negative.value < |texts| && c.negative != c.positive
    ensures c.only.Some? ==> c.only.value < |texts|
  {
    var p := if hasPositive || imported.positive == "" then None else FirstMatch(texts, imported.positive, None, 0);
    var n := if hasNegative || imported.negative == "" then None else FirstMatch(texts, imported.negative, p, 0);
    Choice(p, n, if !hasPositive && !hasNegative && p.None? && n.None? && |texts| == 1 then Some(0) else None)
  }

  /** The texts of these nodes once the roles are rewritten. */
  ghost function RewrittenTexts(nodes: Nodes, current: Prompts, ids: seq<Id>): (texts: seq<string>)
    requires forall id :: id in ids ==> TextNode(nodes, id)
    ensures |texts| == |ids|
  {
    RoleTextsAreTexts(nodes, current);
    RetextKeepsNodes(nodes, RoleTexts(nodes, current));
    seq(|ids|, i requires 0 <= i < |ids| =>
      assert ids[i] in ids; assert TextNode(Rewritten(nodes, current), ids[i]);
      TextOf(Rewritten(nodes, current).values[ids[i]]))
  }

  /** Every text the rewrite assigns: roles first; the fallback only while a role has no node. */
  ghost function Assigned(nodes: Nodes, current: Prompts, imported: Prompts): map<Id, string> {
    var base := RoleTexts(nodes, current);
    if RoleSet(nodes, Positive) != {} && RoleSet(nodes, Negative) != {} then base
    else
      var clips := Clips(nodes, |nodes.keys|);
      var c := Choose(RewrittenTexts(nodes, current, clips), imported,
                      RoleSet(nodes, Positive) != {}, RoleSet(nodes, Negative) != {});
      Mark(Mark(Mark(base, clips, c.positive, current.positive), clips, c.negative, current.negative),
           clips, c.only, current.positive)
  }

  /** The number of assignments: a node with both roles counts twice. */
  ghost function Assignments(nodes: Nodes, current: Prompts, imported: Prompts): nat {
    var roles := |RoleSet(nodes, Positive)| + |RoleSet(nodes, Negative)|;
    if RoleSet(nodes, Positive) != {} && RoleSet(nodes, Negative) != {} then roles
    else
      var clips := Clips(nodes, |nodes.keys|);
      var c := Choose(RewrittenTexts(nodes, current, clips), imported,
                      RoleSet(nodes, Positive) != {}, RoleSet(nodes, Negative) != {});
      roles + Count(c.positive) + Count(c.negative) + Count(c.only)
  }

  /** Beyond the roles the fallback gives a text to at most one node for each role without one, and only to a CLIP node
      that holds the imported text, or to the only CLIP node there is. */
  lemma FallbackIsConfined(nodes: Nodes, current: Prompts, imported: Prompts, id: Id)
    requires ValidNodes(nodes) && id in Assigned(nodes, current, imported) && id !in RoleTexts(nodes, current)
    ensures ClipNode(nodes, id)
    ensures
      var text := TextOf(nodes.values[id]);
      || (RoleSet(nodes, Positive) == {} && text == imported.positive && Assigned(nodes, current, imported)[id] == current.positive)
      || (RoleSet(nodes, Negative) == {} && text == imported.negative && Assigned(nodes, current, imported)[id] == current.negative)
      || (Clips(nodes, |nodes.keys|) == [id] && Assigned(nodes, current, imported)[id] == current.positive)
  {
    hide RoleSet, RoleTexts, HasText, ClipNode, Choose, RewrittenTexts, TextOf, Clips;
    var clips := Clips(nodes, |nodes.keys|);
    ClipsAreTexts(nodes);
    var texts := RewrittenTexts(nodes, current, clips);
    ChoiceMeans(texts, imported, RoleSet(nodes, Positive) != {}, RoleSet(nodes, Negative) != {});
    forall i | 0 <= i < |clips| && clips[i] == id
      ensures ClipNode(nodes, id) && TextNode(nodes, id) && texts[i] == TextOf(nodes.values[id])
    {
      assert clips[i] in clips;
      UntouchedText(nodes, current, clips, i);
    }
  }

  lemma ChoiceMeans(texts: seq<string>, imported: Prompts, hasPositive: bool, hasNegative: bool)
    ensures
      var c := Choose(texts, imported, hasPositive, hasNegative);
      && (c.positive.Some? ==> !hasPositive && texts[c.positive.value] == imported.positive)
      && (c.negative.Some? ==> !hasNegative && texts[c.negative.value] == imported.negative)
      && (c.only.Some? ==> |texts| == 1 && c.only.value == 0 && c.positive.None? && c.negative.None?)
  {
  }

  lemma UntouchedText(nodes: Nodes, current: Prompts, ids: seq<Id>, i: nat)
    requires i < |ids| && (forall id :: id in ids ==> TextNode(nodes, id)) && TextNode(nodes, ids[i])
    requires ids[i] !in RoleTexts(nodes, current)
    ensures RewrittenTexts(nodes, current, ids)[i] == TextOf(nodes.values[ids[i]])
  {
    hide RoleTexts, HasText, AllText;
    RoleTextsAreTexts(nodes, current);
  }

  class Workflow {
    var nodes: Option<Nodes>

    ghost predicate Valid()
      reads this
    {
      nodes.Some? ==> ValidNodes(nodes.value)
    }

    constructor (nodes: Option<Nodes>)
      requires nodes.Some? ==> ValidNodes(nodes.value)
      ensures this.nodes == nodes && Valid()
    {
      this.nodes := nodes;
    }

    /** One assignment, on top of those already made to the workflow `was`. */
    method Assign(ghost was: Nodes, ghost texts: map<Id, string>, id: Id, text: string)
      requires AllText(was, texts) && TextNode(was, id)
      requires nodes == Some(Retext(was, texts))
      modifies this
      ensures AllText(was, texts[id := text]) && nodes == Some(Retext(was, texts[id := text]))
    {
      RetextKeepsNodes(was, texts);
      RetextThen(was, texts, id, text);
      nodes := Some(Retext(nodes.value, map[id := text]));
    }

    /** Give every listed text node of a role the role's text. */
    method AssignRole(ghost was: Nodes, ghost before: map<Id, string>, ids: seq<Id>, text: string)
      returns (count: nat, ghost texts: map<Id, string>)
      requires AllText(was, before) && nodes == Some(Retext(was, before))
      requires forall id :: id in ids ==> TextNode(was, id)
      modifies this
      ensures AllText(was, texts) && nodes == Some(Retext(was, texts)) && count == |ids|
      ensures texts == before + GivenAll(ids, text)
    {
      hide Retext, TextNode, AllText;
      count, texts := 0, before;
      for i := 0 to |ids|
        invariant AllText(was, texts) && nodes == Some(Retext(was, texts)) && count == i
        invariant texts == before + GivenAll(ids[..i], text)
      {
        assert ids[i] in ids;
        OneMoreText(before, ids, i, text);
        Assign(was, texts, ids[i], text);
        texts, count := texts[ids[i] := text], count + 1;
      }
      assert ids[..|ids|] == ids;
    }

    /** Infer both roles and give every node of each its text. */
    method AssignRoles(current: Prompts) returns (hasPositive: bool, hasNegative: bool, count: nat)
      requires nodes.Some? && ValidNodes(nodes.value)
      modifies this
      ensures AllText(old(nodes).value, RoleTexts(old(nodes).value, current))
      ensures nodes == Some(Rewritten(old(nodes).value, current))
      ensures hasPositive <==> RoleSet(old(nodes).value, Positive) != {}
      ensures hasNegative <==> RoleSet(old(nodes).value, Negative) != {}
      ensures count == |RoleSet(old(nodes).value, Positive)| + |RoleSet(old(nodes).value, Negative)|
    {
      hide Retext, TextNode, AllText, HasRole, ValidNodes, RoleSet, RoleTexts, HasText;
      var was := nodes.value;
      var positive, negative := InferWorkflowPromptNodeIds(was);
      NothingRetexted(was);
      RolesAreTexts(was);
      var first, texts := AssignRole(was, map[], positive, current.positive);
      var second, all := AssignRole(was, texts, negative, current.negative);
      RolesAssigned(was, current, positive, negative, all);
      RoleTextsAreTexts(was, current);
      ListIsSet(positive, RoleSet(was, Positive));
      ListIsSet(negative, RoleSet(was, Negative));
      hasPositive, hasNegative, count := positive != [], negative != [], first + second;
    }

    /** Rewrite the prompt texts in place; returns the number of assignments made. */
    method ReplaceClipTextPrompts(current: Prompts, imported: Prompts) returns (replacements: nat)
      requires Valid()
      modifies this
      ensures Valid() && (nodes.Some? <==> old(nodes).Some?)
      ensures nodes.None? ==> replacements == 0
      ensures nodes.Some? ==>
                && AllText(old(nodes).value, Assigned(old(nodes).value, current, imported))
                && nodes.value == Retext(old(nodes).value, Assigned(old(nodes).value, current, imported))
                && replacements == Assignments(old(nodes).value, current, imported)
    {
      hide Retext, AllText, Assigned, Assignments, ValidNodes, RoleSet, RoleTexts, Choose, Mark, RewrittenTexts, Clips, Count;
      if nodes.None? {
        return 0;
      }
      var was := nodes.value;
      var hasPositive, hasNegative, count := AssignRoles(current);
      replacements := count;
      if hasPositive && hasNegative {
        NoFallback(was, current, imported);
      } else {
        FallbackApplies(was, current, imported);
        var more := Fallback(was, current, imported, hasPositive, hasNegative, replacements);
        replacements := replacements + more;
      }
      RetextKeepsNodes(was, Assigned(was, current, imported));
    }

    /** The CLIP text nodes, in order; assignments made before do not matter. */
    method CollectClips(ghost was: Nodes, ghost base: map<Id, string>) returns (clips: seq<Id>)
      requires AllText(was, base) && nodes == Some(Retext(was, base))
      ensures clips == Clips(was, |was.keys|)
    {
      hide Retext, AllText, ClipNode;
      RetextedKeys(was, base);
      clips := [];
      for i := 0 to |nodes.value.keys|
        invariant clips == Clips(was, i)
      {
        ClipStays(was, base, i);
        if ClipNode(nodes.value, nodes.value.keys[i]) {
          clips := clips + [nodes.value.keys[i]];
        }
      }
    }

    /** Match the remaining CLIP texts against the imported prompts. */
    method Fallback(ghost was: Nodes, current: Prompts, imported: Prompts, hasPositive: bool, hasNegative: bool, soFar: nat)
      returns (more: nat)
      requires ValidNodes(was) && AllText(was, RoleTexts(was, current))
      requires nodes == Some(Rewritten(was, current))
      requires (soFar == 0 <==> !hasPositive && !hasNegative)
      modifies this
      ensures
        var clips := Clips(was, |was.keys|);
        var c := Choose(RewrittenTexts(was, current, clips), imported, hasPositive, hasNegative);
        var texts := Mark(Mark(Mark(RoleTexts(was, current), clips, c.positive, current.positive),
                               clips, c.negative, current.negative), clips, c.only, current.positive);
        && AllText(was, texts) && nodes == Some(Retext(was, texts))
        && more == Count(c.positive) + Count(c.negative) + Count(c.only)
    {
      hide Retext, TextNode, AllText, HasRole, ValidNodes, RoleSet, RoleTexts, HasText, ClipNode, Choose, TextOf,
        RewrittenTexts, Contains, FirstMatch, Clips, Mark, MarkedTo;
      ghost var base := RoleTexts(was, current);
      var clips := CollectClips(was, base);
      ClipsAreTexts(was);
      ghost var texts := RewrittenTexts(was, current, clips);
      ghost var c := Choose(texts, imported, hasPositive, hasNegative);
      OnlyChosen(texts, imported, hasPositive, hasNegative);
      MarkedEnds(base, clips, c, current);
      var foundPositive, foundNegative := hasPositive, hasNegative;
      ghost var now := base;
      more := 0;
      for i := 0 to |clips|
        invariant AllText(was, now) && nodes == Some(Retext(was, now))
        invariant now == MarkedTo(base, clips, c, current, i)
        invariant foundPositive == (hasPositive || Upto(c.positive, i).Some?)
        invariant foundNegative == (hasNegative || Upto(c.negative, i).Some?)
        invariant more == Count(Upto(c.positive, i)) + Count(Upto(c.negative, i))
      {
        ClipText(was, current, clips, c, i, now);
        ChoiceAt(texts, imported, hasPositive, hasNegative, i);
        MarkedNext(base, clips, c, current, i);
        var text := TextOf(nodes.value.values[clips[i]]);
        if !foundPositive && imported.positive != "" && text == imported.positive {
          Assign(was, now, clips[i], current.positive);
          now, foundPositive, more := now[clips[i] := current.positive], true, more + 1;
        } else if !foundNegative && imported.negative != "" && text == imported.negative {
          Assign(was, now, clips[i], current.negative);
          now, foundNegative, more := now[clips[i] := current.negative], true, more + 1;
        }
      }
      if !foundPositive && soFar + more == 0 && |clips| == 1 {
        Assign(was, now, clips[0], current.positive);
        more := more + 1;
      }
    }
  }

  /** The same text for every listed node. */
  function GivenAll(ids: seq<Id>, text: string): map<Id, string> { map id | id in ids :: text }

  lemma OneMoreText(before: map<Id, string>, ids: seq<Id>, i: nat, text: string)
    requires i < |ids|
    ensures (before + GivenAll(ids[..i], text))[ids[i] := text] == before + GivenAll(ids[..i + 1], text)
  {
    assert ids[..i + 1] == ids[..i] + [ids[i]];
  }

  function Upto(at: Option<nat>, i: nat): Option<nat> { if at.Some? && at.value < i then at else None }

  /** The texts assigned once the first `i` CLIP nodes have been looked at. */
  function MarkedTo(base: map<Id, string>, clips: seq<Id>, c: Choice, current: Prompts, i: nat): map<Id, string>
    requires i <= |clips|
  {
    Mark(Mark(base, clips, Upto(c.positive, i), current.positive), clips, Upto(c.negative, i), current.negative)
  }

  lemma MarkedNext(base: map<Id, string>, clips: seq<Id>, c: Choice, current: Prompts, i: nat)
    requires i < |clips| && (forall j, k :: 0 <= j < k < |clips| ==> clips[j] != clips[k])
    requires c.positive.None? || c.positive != c.negative
    ensures
      var now := MarkedTo(base, clips, c, current, i);
      MarkedTo(base, clips, c, current, i + 1)
      == if c.positive == Some(i) then now[clips[i] := current.positive]
         else if c.negative == Some(i) then now[clips[i] := current.negative] else now
  {
    if c.positive == Some(i) && Upto(c.negative, i).Some? {
      var j := c.negative.value;
      assert clips[j] != clips[i];
      assert base[clips[i] := current.positive][clips[j] := current.negative]
             == base[clips[j] := current.negative][clips[i] := current.positive];
    }
  }

  /** What the loop sees at place `i` is what the choice was made on. */
  lemma ChoiceAt(texts: seq<string>, imported: Prompts, hasPositive: bool, hasNegative: bool, i: nat)
    requires i < |texts|
    ensures
      var c := Choose(texts, imported, hasPositive, hasNegative);
      && (c.positive == Some(i) <==>
            !(hasPositive || Upto(c.positive, i).Some?) && imported.positive != "" && texts[i] == imported.positive)
      && (c.positive != Some(i) ==>
            (c.negative == Some(i) <==>
               !(hasNegative || Upto(c.negative, i).Some?) && imported.negative != "" && texts[i] == imported.negative))
  {
  }

  lemma MarkedEnds(base: map<Id, string>, clips: seq<Id>, c: Choice, current: Prompts)
    requires Upto(c.positive, |clips|) == c.positive && Upto(c.negative, |clips|) == c.negative
    ensures MarkedTo(base, clips, c, current, 0) == base
    ensures MarkedTo(base, clips, c, current, |clips|)
            == Mark(Mark(base, clips, c.positive, current.positive), clips, c.negative, current.negative)
    ensures forall m: map<Id, string> :: |clips| == 1 ==>
              Mark(m, clips, Some(0), current.positive) == m[clips[0] := current.positive]
    ensures forall m: map<Id, string> :: Mark(m, clips, None, current.positive) == m
  {
  }

  lemma OnlyChosen(texts: seq<string>, imported: Prompts, hasPositive: bool, hasNegative: bool)
    ensures
      var c := Choose(texts, imported, hasPositive, hasNegative);
      && Upto(c.positive, |texts|) == c.positive && Upto(c.negative, |texts|) == c.negative
      && (c.only.Some? <==> !hasPositive && !hasNegative && c.positive.None? && c.negative.None? && |texts| == 1)
      && (c.only.Some? ==> c.only.value == 0)
  {
  }

  lemma RetextedKeys(nodes: Nodes, texts: map<Id, string>)
    requires AllText(nodes, texts)
    ensures Retext(nodes, texts).keys == nodes.keys
  {
  }

  lemma ClipStays(nodes: Nodes, texts: map<Id, string>, i: nat)
    requires AllText(nodes, texts) && i < |nodes.keys|
    ensures ClipNode(Retext(nodes, texts), nodes.keys[i]) <==> ClipNode(nodes, nodes.keys[i])
    ensures nodes.keys[..i + 1] == nodes.keys[..i] + [nodes.keys[i]]
  {
    hide Contains;
  }

  lemma ClipsAreTexts(nodes: Nodes)
    requires ValidNodes(nodes)
    ensures
      var clips := Clips(nodes, |nodes.keys|);
      && (forall id :: id in clips ==> TextNode(nodes, id))
      && (forall i, j :: 0 <= i < j < |clips| ==> clips[i] != clips[j])
      && forall i :: 0 <= i < |clips| ==> TextNode(nodes, clips[i])
  {
    ClipsAreDistinct(nodes, |nodes.keys|);
    hide TextNode;
    forall i | 0 <= i < |Clips(nodes, |nodes.keys|)|
      ensures TextNode(nodes, Clips(nodes, |nodes.keys|)[i])
    {
      assert Clips(nodes, |nodes.keys|)[i] in Clips(nodes, |nodes.keys|);
    }
  }

  /** A CLIP node not yet looked at still has the text the roles left it. */
  lemma ClipText(nodes: Nodes, current: Prompts, clips: seq<Id>, c: Choice, i: nat, now: map<Id, string>)
    requires i < |clips| && AllText(nodes, now) && AllText(nodes, RoleTexts(nodes, current))
    requires (forall id :: id in clips ==> TextNode(nodes, id)) && (forall j, k :: 0 <= j < k < |clips| ==> clips[j] != clips[k])
    requires now == MarkedTo(RoleTexts(nodes, current), clips, c, current, i)
    ensures TextNode(nodes, clips[i]) && clips[i] in Retext(nodes, now).values && HasText(Retext(nodes, now).values[clips[i]])
    ensures TextOf(Retext(nodes, now).values[clips[i]]) == RewrittenTexts(nodes, current, clips)[i]
  {
    hide RoleTexts, AllText, HasText, WithText;
    RetextKeepsNodes(nodes, now);
    RetextKeepsNodes(nodes, RoleTexts(nodes, current));
    assert clips[i] in clips;
    var base := RoleTexts(nodes, current);
    assert clips[i] in now <==> clips[i] in base;
    assert clips[i] in now ==> now[clips[i]] == base[clips[i]];
  }

  lemma NothingRetexted(nodes: Nodes)
    ensures AllText(nodes, map[]) && Retext(nodes, map[]) == nodes
  {
    assert Retext(nodes, map[]).values == nodes.values;
  }

  lemma RolesAssigned(nodes: Nodes, current: Prompts, positive: seq<Id>, negative: seq<Id>, texts: map<Id, string>)
    requires forall id :: id in positive <==> HasRole(nodes, Positive, id)
    requires forall id :: id in negative <==> HasRole(nodes, Negative, id)
    requires texts == map[] + (map id | id in positive :: current.positive) + map id | id in negative :: current.negative
    ensures texts == RoleTexts(nodes, current)
    ensures forall id :: id in positive <==> id in RoleSet(nodes, Positive)
    ensures forall id :: id in negative <==> id in RoleSet(nodes, Negative)
  {
    hide HasRole;
    RolesAreTexts(nodes);
  }

  lemma {:induction false} ListIsSet(ids: seq<Id>, all: set<Id>)
    requires forall i, j :: 0 <= i < j < |ids| ==> ids[i] != ids[j]
    requires forall id :: id in ids <==> id in all
    ensures |ids| == |all|
  {
    if ids != [] {
      var n := |ids| - 1;
      assert ids == ids[..n] + [ids[n]];
      ListIsSet(ids[..n], all - {ids[n]});
    }
  }

  lemma FallbackApplies(nodes: Nodes, current: Prompts, imported: Prompts)
    requires RoleSet(nodes, Positive) == {} || RoleSet(nodes, Negative) == {}
    ensures
      var clips := Clips(nodes, |nodes.keys|);
      var c := Choose(RewrittenTexts(nodes, current, clips), imported,
                      RoleSet(nodes, Positive) != {}, RoleSet(nodes, Negative) != {});
      && Assigned(nodes, current, imported)
         == Mark(Mark(Mark(RoleTexts(nodes, current), clips, c.positive, current.positive),
                      clips, c.negative, current.negative), clips, c.only, current.positive)
      && Assignments(nodes, current, imported)
         == |RoleSet(nodes, Positive)| + |RoleSet(nodes, Negative)| + Count(c.positive) + Count(c.negative) + Count(c.only)
  {
    hide RoleSet, RoleTexts, RewrittenTexts, Choose, Mark;
  }

  lemma NoFallback(nodes: Nodes, current: Prompts, imported: Prompts)
    requires RoleSet(nodes, Positive) != {} && RoleSet(nodes, Negative) != {}
    ensures Assigned(nodes, current, imported) == RoleTexts(nodes, current)
    ensures Assignments(nodes, current, imported) == |RoleSet(nodes, Positive)| + |RoleSet(nodes, Negative)|
  {
    hide RoleSet, RoleTexts, RewrittenTexts, Choose, Mark;
  }

  // ----- the roles and the rewrite, read off the workflow -----

  /** A character that lowers to this ASCII letter. */
  predicate LowersTo(c: char, letter: char)
    requires 'a' <= letter <= 'z'
  {
    c == letter || c as int + 32 == letter as int || (letter == 'k' && c == '\U{212A}')
  }

  /** The name holds "ksampler", in whatever case, at this place. */
  predicate SamplerAt(name: string, i: nat) {
    i + 8 <= |name| && forall j :: 0 <= j < 8 ==> LowersTo(name[i + j], "ksampler"[j])
  }

  /** The input of this name links to node `b`. */
  predicate InputLinks(nodes: Nodes, a: Id, key: string, b: Id) {
    && a in nodes.values && nodes.values[a].Node? && nodes.values[a].inputs.Some?
    && key in nodes.values[a].inputs.value.values
    && nodes.values[a].inputs.value.values[key] == Link(Some(b)) && b != ""
  }

  /** A node whose class name, or type name if that is empty, is a sampler's. */
  ghost predicate SamplerNode(nodes: Nodes, k: Id) {
    && k in nodes.values && nodes.values[k].Node?
    && NamesSampler(if nodes.values[k].classType == "" then nodes.values[k].typeName else nodes.values[k].classType)
  }

  ghost predicate NamesSampler(name: string) { exists i: nat :: SamplerAt(name, i) }

  /** Some input of `a` links to node `b`. */
  ghost predicate Feeds(nodes: Nodes, a: Id, b: Id) { exists key :: InputLinks(nodes, a, key, b) }

  /** A chain of links from the sampler's input of this name down to node `id`. */
  ghost predicate Fed(nodes: Nodes, k: Id, input: string, path: seq<Id>, id: Id) {
    && SamplerNode(nodes, k) && |path| > 0 && InputLinks(nodes, k, input, path[0])
    && (forall i :: 0 <= i < |path| - 1 ==> Feeds(nodes, path[i], path[i + 1]))
    && path[|path| - 1] == id
  }

  lemma LowerMeans(c: char, letter: char)
    requires 'a' <= letter <= 'z'
    ensures LowerChar(c) == letter <==> LowersTo(c, letter)
  {
  }

  predicate PartAt(s: string, part: string, i: nat) { i + |part| <= |s| && s[i..i + |part|] == part }

  lemma {:induction false} ContainsAt(s: string, part: string)
    ensures Contains(s, part) <==> exists i: nat :: PartAt(s, part, i)
  {
    if Contains(s, part) {
      if s[..|part|] == part {
        assert PartAt(s, part, 0);
      } else {
        ContainsAt(s[1..], part);
        var i: nat :| PartAt(s[1..], part, i);
        assert s[i + 1..i + 1 + |part|] == s[1..][i..i + |part|];
        assert PartAt(s, part, i + 1);
      }
    }
    if i: nat :| PartAt(s, part, i) {
      if i == 0 {
        assert s[..|part|] == s[0..0 + |part|];
      } else {
        assert s[1..][i - 1..i - 1 + |part|] == s[i..i + |part|];
        assert PartAt(s[1..], part, i - 1);
        ContainsAt(s[1..], part);
      }
    }
  }

  lemma SamplerPlace(name: string, i: nat)
    ensures SamplerAt(name, i) <==> PartAt(Lower(name), "ksampler", i)
  {
    if i + 8 <= |name| {
      var part := Lower(name)[i..i + 8];
      assert forall j :: 0 <= j < 8 ==> part[j] == LowerChar(name[i + j]);
      forall j | 0 <= j < 8
        ensures part[j] == "ksampler"[j] <==> LowersTo(name[i + j], "ksampler"[j])
      {
        LowerMeans(name[i + j], "ksampler"[j]);
      }
      assert part == "ksampler" <==> forall j :: 0 <= j < 8 ==> part[j] == "ksampler"[j];
    }
  }

  lemma SamplerExactly(nodes: Nodes, k: Id)
    requires k in nodes.values
    ensures Sampler(nodes.values[k]) <==> SamplerNode(nodes, k)
  {
    if nodes.values[k].Node? {
      var name := if nodes.values[k].classType != "" then nodes.values[k].classType else nodes.values[k].typeName;
      ContainsAt(Lower(name), "ksampler");
      forall i: nat
        ensures SamplerAt(name, i) <==> PartAt(Lower(name), "ksampler", i)
      {
        SamplerPlace(name, i);
      }
      hide Contains, SamplerAt, PartAt;
    }
  }

  lemma LinkedExactly(nodes: Nodes, a: Id, b: Id)
    ensures Linked(nodes, a, b) <==> Feeds(nodes, a, b)
  {
    if Linked(nodes, a, b) {
      var k :| k in nodes.values[a].inputs.value.values && LinkOf(nodes.values[a].inputs.value.values[k]) == b;
      assert InputLinks(nodes, a, k, b);
    }
    if key :| InputLinks(nodes, a, key, b) {
      assert LinkOf(nodes.values[a].inputs.value.values[key]) == b;
    }
  }

  function InputOf(role: Role): string { match role case Positive => "positive" case Negative => "negative" }

  lemma StartExactly(nodes: Nodes, k: Id, role: Role, start: Id)
    requires k in nodes.values
    ensures RoleStart(nodes.values[k], role) == start && start != "" <==> InputLinks(nodes, k, InputOf(role), start)
  {
  }

  /** A node has a role exactly if it holds a text and a chain of links feeds it to a sampler's input of that name. */
  lemma RolesExactly(nodes: Nodes, role: Role, id: Id)
    ensures HasRole(nodes, role, id) <==> TextNode(nodes, id) && exists k, path :: Fed(nodes, k, InputOf(role), path, id)
  {
    hide TextNode, Sampler, SamplerNode, RoleStart, InputLinks, Linked, Feeds;
    forall a, b
      ensures Linked(nodes, a, b) <==> Feeds(nodes, a, b)
    {
      LinkedExactly(nodes, a, b);
    }
    if HasRole(nodes, role, id) {
      var k :| k in nodes.values && Sampler(nodes.values[k]) && Upstream(nodes, RoleStart(nodes.values[k], role), id);
      var path :| Leads(nodes, RoleStart(nodes.values[k], role), path, id);
      SamplerExactly(nodes, k);
      StartExactly(nodes, k, role, path[0]);
      assert Fed(nodes, k, InputOf(role), path, id);
    }
    if TextNode(nodes, id) && exists k, path :: Fed(nodes, k, InputOf(role), path, id) {
      var k, path :| Fed(nodes, k, InputOf(role), path, id);
      SamplerIsNode(nodes, k);
      SamplerExactly(nodes, k);
      StartExactly(nodes, k, role, path[0]);
      assert Leads(nodes, RoleStart(nodes.values[k], role), path, id);
    }
  }

  lemma SamplerIsNode(nodes: Nodes, k: Id)
    requires SamplerNode(nodes, k)
    ensures k in nodes.values
  {
    hide NamesSampler;
  }

  ghost predicate RoleFound(nodes: Nodes, role: Role) { exists id :: HasRole(nodes, role, id) }

  /** A text node whose class name holds "CLIPTextEncode". */
  ghost predicate Clip(nodes: Nodes, id: Id) {
    TextNode(nodes, id) && exists i: nat :: PartAt(nodes.values[id].classType, "CLIPTextEncode", i)
  }

  /** The text of a node once the roles are given theirs. */
  ghost function TextNow(nodes: Nodes, current: Prompts, id: Id): string
    requires TextNode(nodes, id)
  {
    if HasRole(nodes, Negative, id) then current.negative
    else if HasRole(nodes, Positive, id) then current.positive
    else TextOf(nodes.values[id])
  }

  /** `a` stands before `b` in the workflow. */
  predicate StandsBefore(nodes: Nodes, a: Id, b: Id) { InOrder(nodes.keys, a, b) }

  predicate InOrder(keys: seq<Id>, a: Id, b: Id) {
    exists i, j :: 0 <= i < j < |keys| && keys[i] == a && keys[j] == b
  }

  ghost predicate ClipHolds(nodes: Nodes, current: Prompts, wanted: string, id: Id) {
    Clip(nodes, id) && TextNow(nodes, current, id) == wanted
  }

  /** The first CLIP node that holds the imported positive prompt, while no node has the positive role. */
  ghost predicate PositivePick(nodes: Nodes, current: Prompts, imported: Prompts, id: Id) {
    && !RoleFound(nodes, Positive) && imported.positive != "" && ClipHolds(nodes, current, imported.positive, id)
    && forall other :: StandsBefore(nodes, other, id) ==> !ClipHolds(nodes, current, imported.positive, other)
  }

  /** The first CLIP node but that one that holds the imported negative prompt, while no node has the negative role. */
  ghost predicate NegativePick(nodes: Nodes, current: Prompts, imported: Prompts, id: Id) {
    && !RoleFound(nodes, Negative) && imported.negative != "" && ClipHolds(nodes, current, imported.negative, id)
    && !PositivePick(nodes, current, imported, id)
    && forall other :: StandsBefore(nodes, other, id) && ClipHolds(nodes, current, imported.negative, other) ==>
         PositivePick(nodes, current, imported, other)
  }

  /** The only CLIP node, while neither role has a node and no imported prompt is found. */
  ghost predicate OnlyPick(nodes: Nodes, current: Prompts, imported: Prompts, id: Id) {
    && !RoleFound(nodes, Positive) && !RoleFound(nodes, Negative)
    && (forall other :: !PositivePick(nodes, current, imported, other) && !NegativePick(nodes, current, imported, other))
    && Clip(nodes, id) && forall other :: Clip(nodes, other) ==> other == id
  }

  lemma ClipExactly(nodes: Nodes, id: Id)
    ensures Clip(nodes, id) <==> ClipNode(nodes, id)
  {
    if TextNode(nodes, id) {
      ContainsAt(nodes.values[id].classType, "CLIPTextEncode");
    }
  }

  /** The CLIP nodes are listed in the workflow's order, and all of them. */
  lemma {:induction false} ClipsInOrder(nodes: Nodes, n: nat)
    requires n <= |nodes.keys|
    ensures forall i, j :: 0 <= i < j < |Clips(nodes, n)| ==>
              InOrder(nodes.keys[..n], Clips(nodes, n)[i], Clips(nodes, n)[j])
    ensures forall p :: 0 <= p < n && ClipNode(nodes, nodes.keys[p]) ==> nodes.keys[p] in Clips(nodes, n)
  {
    hide ClipNode, InOrder;
    if n > 0 {
      ClipsInOrder(nodes, n - 1);
      var shorter, longer := Clips(nodes, n - 1), Clips(nodes, n);
      forall i, j | 0 <= i < j < |longer|
        ensures InOrder(nodes.keys[..n], longer[i], longer[j])
      {
        assert longer[i] == shorter[i] && longer[i] in nodes.keys[..n - 1];
        if j < |shorter| {
          assert InOrder(nodes.keys[..n - 1], shorter[i], shorter[j]);
          InLongerOrder(nodes.keys, n, shorter[i], shorter[j]);
        } else {
          LastInOrder(nodes.keys, n, shorter[i]);
        }
      }
    }
  }

  lemma InLongerOrder(keys: seq<Id>, n: nat, a: Id, b: Id)
    requires 0 < n <= |keys| && InOrder(keys[..n - 1], a, b)
    ensures InOrder(keys[..n], a, b)
  {
    var i, j :| 0 <= i < j < n - 1 && keys[..n - 1][i] == a && keys[..n - 1][j] == b;
    assert keys[..n][i] == a && keys[..n][j] == b;
  }

  lemma LastInOrder(keys: seq<Id>, n: nat, a: Id)
    requires 0 < n <= |keys| && a in keys[..n - 1]
    ensures InOrder(keys[..n], a, keys[n - 1])
  {
    var i :| 0 <= i < n - 1 && keys[..n - 1][i] == a;
    assert keys[..n][i] == a && keys[..n][n - 1] == keys[n - 1];
  }

  /** For two listed nodes the places in the list tell which stands before which. */
  lemma ClipPlaces(nodes: Nodes, i: nat, j: nat)
    requires nodes.Valid() && i < |Clips(nodes, |nodes.keys|)| && j < |Clips(nodes, |nodes.keys|)|
    ensures StandsBefore(nodes, Clips(nodes, |nodes.keys|)[i], Clips(nodes, |nodes.keys|)[j]) <==> i < j
  {
    var clips := Clips(nodes, |nodes.keys|);
    ClipsInOrder(nodes, |nodes.keys|);
    assert nodes.keys[..|nodes.keys|] == nodes.keys;
    OrderIsOne(nodes, clips[i], clips[j]);
  }

  lemma OrderIsOne(nodes: Nodes, a: Id, b: Id)
    requires nodes.Valid()
    ensures !(InOrder(nodes.keys, a, b) && (InOrder(nodes.keys, b, a) || a == b))
  {
  }

  lemma ClipListed(nodes: Nodes, id: Id) returns (i: nat)
    requires nodes.Valid() && Clip(nodes, id)
    ensures i < |Clips(nodes, |nodes.keys|)| && Clips(nodes, |nodes.keys|)[i] == id
  {
    ClipExactly(nodes, id);
    ClipsInOrder(nodes, |nodes.keys|);
    hide Clips, ClipNode;
    assert id in nodes.keys;
    var p :| 0 <= p < |nodes.keys| && nodes.keys[p] == id;
    i :| 0 <= i < |Clips(nodes, |nodes.keys|)| && Clips(nodes, |nodes.keys|)[i] == id;
  }

  /** The texts the fallback looks at. */
  lemma TextsNow(nodes: Nodes, current: Prompts, i: nat)
    requires ValidNodes(nodes) && i < |Clips(nodes, |nodes.keys|)|
    ensures var clips := Clips(nodes, |nodes.keys|);
            && (forall id :: id in clips ==> TextNode(nodes, id)) && Clip(nodes, clips[i]) && TextNode(nodes, clips[i])
            && RewrittenTexts(nodes, current, clips)[i] == TextNow(nodes, current, clips[i])
  {
    var clips := Clips(nodes, |nodes.keys|);
    ClipsAreTexts(nodes);
    assert clips[i] in clips;
    ClipExactly(nodes, clips[i]);
    RewriteIsExact(nodes, current, clips[i]);
    hide Clips, HasRole, ValidNodes, Rewritten;
  }

  ghost predicate RolesTold(nodes: Nodes) {
    forall role :: RoleSet(nodes, role) != {} <==> RoleFound(nodes, role)
  }

  lemma RoleSetsTell(nodes: Nodes)
    ensures RolesTold(nodes)
  {
    hide HasRole;
    RolesAreTexts(nodes);
    forall role
      ensures RoleSet(nodes, role) != {} <==> RoleFound(nodes, role)
    {
      if id :| HasRole(nodes, role, id) {
        assert id in RoleSet(nodes, role);
      }
    }
  }

  ghost function Listed(nodes: Nodes): seq<Id> { Clips(nodes, |nodes.keys|) }

  /** What the fallback decides on: the texts of the listed nodes, as they are by then. */
  ghost predicate TextsTold(nodes: Nodes, current: Prompts, texts: seq<string>) {
    && |texts| == |Listed(nodes)|
    && (forall i :: 0 <= i < |texts| ==>
          forall wanted :: ClipHolds(nodes, current, wanted, Listed(nodes)[i]) <==> texts[i] == wanted)
    && (forall id :: Clip(nodes, id) ==> id in Listed(nodes))
    && forall i, j :: 0 <= i < |texts| && 0 <= j < |texts| ==>
         (StandsBefore(nodes, Listed(nodes)[i], Listed(nodes)[j]) <==> i < j)
  }

  lemma ListedTold(nodes: Nodes, current: Prompts)
    requires ValidNodes(nodes)
    ensures forall id :: id in Listed(nodes) ==> TextNode(nodes, id)
    ensures TextsTold(nodes, current, RewrittenTexts(nodes, current, Listed(nodes)))
    ensures forall i, j :: 0 <= i < j < |Listed(nodes)| ==> Listed(nodes)[i] != Listed(nodes)[j]
  {
    ClipsAreTexts(nodes);
    var texts := RewrittenTexts(nodes, current, Listed(nodes));
    forall i, wanted | 0 <= i < |texts|
      ensures ClipHolds(nodes, current, wanted, Listed(nodes)[i]) <==> texts[i] == wanted
    {
      TextsNow(nodes, current, i);
      hide Clip, RewrittenTexts, Clips, TextNow;
    }
    forall id | Clip(nodes, id)
      ensures id in Listed(nodes)
    {
      var i := ClipListed(nodes, id);
      hide Clip;
    }
    forall i, j | 0 <= i < |texts| && 0 <= j < |texts|
      ensures StandsBefore(nodes, Listed(nodes)[i], Listed(nodes)[j]) <==> i < j
    {
      ClipPlaces(nodes, i, j);
      hide StandsBefore;
    }
  }

  /** The first match is the pick for the positive prompt. */
  lemma PositiveExactly(nodes: Nodes, current: Prompts, imported: Prompts, texts: seq<string>, id: Id)
    requires TextsTold(nodes, current, texts)
    ensures
      var c := Choose(texts, imported, RoleFound(nodes, Positive), RoleFound(nodes, Negative));
      PositivePick(nodes, current, imported, id) <==> c.positive.Some? && Listed(nodes)[c.positive.value] == id
  {
    hide RoleFound, StandsBefore, Listed;
    var c := Choose(texts, imported, RoleFound(nodes, Positive), RoleFound(nodes, Negative));
    if PositivePick(nodes, current, imported, id) {
      HolderListed(nodes, current, imported.positive, id);
      var i :| 0 <= i < |texts| && Listed(nodes)[i] == id;
      assert texts[i] == imported.positive;
      forall j | 0 <= j < i
        ensures texts[j] != imported.positive
      {
        assert StandsBefore(nodes, Listed(nodes)[j], id);
        assert !ClipHolds(nodes, current, imported.positive, Listed(nodes)[j]);
      }
      FirstIs(texts, imported.positive, None, i);
    }
    if c.positive.Some? && Listed(nodes)[c.positive.value] == id {
      forall other | StandsBefore(nodes, other, id)
        ensures !ClipHolds(nodes, current, imported.positive, other)
      {
        HolderListed(nodes, current, imported.positive, other);
        if other in Listed(nodes) {
          var j :| 0 <= j < |texts| && Listed(nodes)[j] == other;
          assert j < c.positive.value && texts[j] != imported.positive;
        }
      }
    }
  }

  lemma FirstIs(texts: seq<string>, wanted: string, skip: Option<nat>, i: nat)
    requires i < |texts| && texts[i] == wanted && skip != Some(i)
    requires forall j :: 0 <= j < i ==> texts[j] != wanted || skip == Some(j)
    ensures FirstMatch(texts, wanted, skip, 0) == Some(i)
  {
    var found := FirstMatch(texts, wanted, skip, 0);
    if found.Some? {
      assert !(found.value < i) && !(i < found.value);
    }
  }

  lemma HolderListed(nodes: Nodes, current: Prompts, wanted: string, id: Id)
    requires forall x :: Clip(nodes, x) ==> x in Listed(nodes)
    ensures ClipHolds(nodes, current, wanted, id) ==> id in Listed(nodes)
  {
    hide Clip, Listed;
  }

  /** And the first match but that one is the pick for the negative prompt. */
  lemma NegativeExactly(nodes: Nodes, current: Prompts, imported: Prompts, texts: seq<string>, id: Id)
    requires TextsTold(nodes, current, texts)
    requires forall i, j :: 0 <= i < j < |Listed(nodes)| ==> Listed(nodes)[i] != Listed(nodes)[j]
    ensures
      var c := Choose(texts, imported, RoleFound(nodes, Positive), RoleFound(nodes, Negative));
      NegativePick(nodes, current, imported, id) <==> c.negative.Some? && Listed(nodes)[c.negative.value] == id
  {
    hide RoleFound, StandsBefore, Listed, PositivePick;
    var c := Choose(texts, imported, RoleFound(nodes, Positive), RoleFound(nodes, Negative));
    forall x
      ensures PositivePick(nodes, current, imported, x) <==> c.positive.Some? && Listed(nodes)[c.positive.value] == x
    {
      PositiveExactly(nodes, current, imported, texts, x);
    }
    if NegativePick(nodes, current, imported, id) {
      HolderListed(nodes, current, imported.negative, id);
      var i :| 0 <= i < |texts| && Listed(nodes)[i] == id;
      assert texts[i] == imported.negative && c.positive != Some(i);
      forall j | 0 <= j < i && texts[j] == imported.negative
        ensures c.positive == Some(j)
      {
        assert StandsBefore(nodes, Listed(nodes)[j], id) && ClipHolds(nodes, current, imported.negative, Listed(nodes)[j]);
        assert PositivePick(nodes, current, imported, Listed(nodes)[j]);
        DifferentPlaces(Listed(nodes), c.positive.value, j);
      }
      FirstIs(texts, imported.negative, c.positive, i);
    }
    if c.negative.Some? && Listed(nodes)[c.negative.value] == id {
      var at := c.negative.value;
      if c.positive.Some? {
        DifferentPlaces(Listed(nodes), c.positive.value, at);
      }
      forall other | StandsBefore(nodes, other, id) && ClipHolds(nodes, current, imported.negative, other)
        ensures PositivePick(nodes, current, imported, other)
      {
        HolderListed(nodes, current, imported.negative, other);
        var j :| 0 <= j < |texts| && Listed(nodes)[j] == other;
        assert texts[j] == imported.negative && j < at;
      }
    }
  }

  lemma DifferentPlaces(ids: seq<Id>, i: nat, j: nat)
    requires i < |ids| && j < |ids| && forall p, q :: 0 <= p < q < |ids| ==> ids[p] != ids[q]
    ensures ids[i] == ids[j] <==> i == j
  {
    assert i < j || j < i || i == j;
  }

  lemma OnlyOne(ids: seq<Id>, id: Id)
    requires id in ids && (forall i :: 0 <= i < |ids| ==> ids[i] == id)
    requires |ids| > 1 ==> ids[0] != ids[1]
    ensures ids == [id]
  {
  }

  lemma OnlyExactly(nodes: Nodes, current: Prompts, imported: Prompts, texts: seq<string>, id: Id)
    requires TextsTold(nodes, current, texts) && forall x :: x in Listed(nodes) ==> Clip(nodes, x)
    requires forall i, j :: 0 <= i < j < |Listed(nodes)| ==> Listed(nodes)[i] != Listed(nodes)[j]
    ensures
      var c := Choose(texts, imported, RoleFound(nodes, Positive), RoleFound(nodes, Negative));
      OnlyPick(nodes, current, imported, id) <==> c.only.Some? && Listed(nodes)[c.only.value] == id
  {
    hide RoleFound, StandsBefore, Listed, PositivePick, NegativePick, Clip;
    var c := Choose(texts, imported, RoleFound(nodes, Positive), RoleFound(nodes, Negative));
    forall x
      ensures PositivePick(nodes, current, imported, x) <==> c.positive.Some? && Listed(nodes)[c.positive.value] == x
      ensures NegativePick(nodes, current, imported, x) <==> c.negative.Some? && Listed(nodes)[c.negative.value] == x
    {
      PositiveExactly(nodes, current, imported, texts, x);
      NegativeExactly(nodes, current, imported, texts, x);
    }
    assert c.positive.Some? ==> PositivePick(nodes, current, imported, Listed(nodes)[c.positive.value]);
    assert c.negative.Some? ==> NegativePick(nodes, current, imported, Listed(nodes)[c.negative.value]);
    if OnlyPick(nodes, current, imported, id) {
      assert id in Listed(nodes);
      assert forall i :: 0 <= i < |texts| ==> Listed(nodes)[i] in Listed(nodes) && Listed(nodes)[i] == id;
      OnlyOne(Listed(nodes), id);
    }
    if c.only.Some? && Listed(nodes)[c.only.value] == id {
      assert id in Listed(nodes) && Listed(nodes) == [id];
    }
  }

  /** Every node's text after the call: the pick of a role without nodes gets that role's prompt, a node with a role gets
      the role's, and every other node is as it was. */
  lemma ReplacedExactly(nodes: Nodes, current: Prompts, imported: Prompts, id: Id)
    requires ValidNodes(nodes) && id in nodes.values
    ensures AllText(nodes, Assigned(nodes, current, imported))
    ensures
      var node := nodes.values[id];
      var after := Retext(nodes, Assigned(nodes, current, imported)).values[id];
      if PositivePick(nodes, current, imported, id) || OnlyPick(nodes, current, imported, id) then
        Holds(node, after, current.positive)
      else if NegativePick(nodes, current, imported, id) then Holds(node, after, current.negative)
      else after == Rewritten(nodes, current).values[id]
  {
    if HasText(nodes.values[id]) {
      WithTextHolds(nodes.values[id], current.negative);
      WithTextHolds(nodes.values[id], current.positive);
    }
    ListedTold(nodes, current);
    RoleSetsTell(nodes);
    RoleTextsAreTexts(nodes, current);
    ListedAreClips(nodes);
    var texts := RewrittenTexts(nodes, current, Listed(nodes));
    PositiveExactly(nodes, current, imported, texts, id);
    NegativeExactly(nodes, current, imported, texts, id);
    OnlyExactly(nodes, current, imported, texts, id);
    var c := Choose(texts, imported, RoleFound(nodes, Positive), RoleFound(nodes, Negative));
    AssignedByChoice(nodes, current, imported);
    ChoiceMeans(texts, imported, RoleFound(nodes, Positive), RoleFound(nodes, Negative));
    hide RoleFound, PositivePick, NegativePick, OnlyPick, RoleTexts, TextsTold, Choose, HasText, WithText, RewrittenTexts,
      ValidNodes, Clip, Assigned, RolesTold, Holds;
    MarkedAt(nodes, RoleTexts(nodes, current), Listed(nodes), c, current, id);
  }

  lemma ListedAreClips(nodes: Nodes)
    ensures forall x :: x in Listed(nodes) ==> Clip(nodes, x)
  {
    hide Clip, ClipNode;
    forall x | x in Listed(nodes)
      ensures Clip(nodes, x)
    {
      ClipExactly(nodes, x);
    }
  }

  function MarkAll(base: map<Id, string>, clips: seq<Id>, c: Choice, current: Prompts): map<Id, string>
    requires (c.positive.Some? ==> c.positive.value < |clips|) && (c.negative.Some? ==> c.negative.value < |clips|)
    requires c.only.Some? ==> c.only.value < |clips|
  {
    Mark(Mark(Mark(base, clips, c.positive, current.positive), clips, c.negative, current.negative),
         clips, c.only, current.positive)
  }

  lemma AssignedByChoice(nodes: Nodes, current: Prompts, imported: Prompts)
    requires RolesTold(nodes) && forall id :: id in Listed(nodes) ==> TextNode(nodes, id)
    ensures
      var texts := RewrittenTexts(nodes, current, Listed(nodes));
      Assigned(nodes, current, imported)
      == MarkAll(RoleTexts(nodes, current), Listed(nodes),
                 Choose(texts, imported, RoleFound(nodes, Positive), RoleFound(nodes, Negative)), current)
  {
    hide RoleSet, RoleTexts, RoleFound, RewrittenTexts, Clips;
  }

  /** What the marks make of one entry. */
  lemma MarkedAt(nodes: Nodes, base: map<Id, string>, clips: seq<Id>, c: Choice, current: Prompts, id: Id)
    requires AllText(nodes, base) && id in nodes.values && forall x :: x in clips ==> TextNode(nodes, x)
    requires forall i, j :: 0 <= i < j < |clips| ==> clips[i] != clips[j]
    requires (c.positive.Some? ==> c.positive.value < |clips|) && (c.negative.Some? ==> c.negative.value < |clips|)
    requires c.only.Some? ==> c.only.value < |clips| && c.positive.None? && c.negative.None?
    requires c.positive.Some? ==> c.negative != c.positive
    ensures AllText(nodes, MarkAll(base, clips, c, current))
    ensures
      var node := nodes.values[id];
      var after := Retext(nodes, MarkAll(base, clips, c, current)).values[id];
      if (c.positive.Some? && clips[c.positive.value] == id) || (c.only.Some? && clips[c.only.value] == id) then
        HasText(node) && after == WithText(node, current.positive)
      else if c.negative.Some? && clips[c.negative.value] == id then HasText(node) && after == WithText(node, current.negative)
      else after == Retext(nodes, base).values[id]
  {
    hide HasText, WithText;
    if c.positive.Some? && c.negative.Some? {
      DifferentPlaces(clips, c.positive.value, c.negative.value);
    }
    assert id in clips ==> TextNode(nodes, id);
  }

  /** The answer: one for each node of each role, a node of both counting twice, and one for each pick. */
  lemma CountExactly(nodes: Nodes, current: Prompts, imported: Prompts)
    requires ValidNodes(nodes)
    ensures Assignments(nodes, current, imported)
            == |set id | id in nodes.values && HasRole(nodes, Positive, id)|
               + |set id | id in nodes.values && HasRole(nodes, Negative, id)|
               + (if exists id :: PositivePick(nodes, current, imported, id) then 1 else 0)
               + (if exists id :: NegativePick(nodes, current, imported, id) then 1 else 0)
               + (if exists id :: OnlyPick(nodes, current, imported, id) then 1 else 0)
  {
    ListedTold(nodes, current);
    RoleSetsTell(nodes);
    ListedAreClips(nodes);
    var texts := RewrittenTexts(nodes, current, Listed(nodes));
    var c := Choose(texts, imported, RoleFound(nodes, Positive), RoleFound(nodes, Negative));
    forall id
      ensures PositivePick(nodes, current, imported, id) <==> c.positive.Some? && Listed(nodes)[c.positive.value] == id
      ensures NegativePick(nodes, current, imported, id) <==> c.negative.Some? && Listed(nodes)[c.negative.value] == id
      ensures OnlyPick(nodes, current, imported, id) <==> c.only.Some? && Listed(nodes)[c.only.value] == id
    {
      PositiveExactly(nodes, current, imported, texts, id);
      NegativeExactly(nodes, current, imported, texts, id);
      OnlyExactly(nodes, current, imported, texts, id);
    }
    CountByChoice(nodes, current, imported);
    hide PositivePick, NegativePick, OnlyPick, Choose, RoleFound, Listed, RewrittenTexts, HasRole, ValidNodes, TextsTold, Clip,
      Assignments, RolesTold;
    assert c.positive.Some? ==> PositivePick(nodes, current, imported, Listed(nodes)[c.positive.value]);
    assert c.negative.Some? ==> NegativePick(nodes, current, imported, Listed(nodes)[c.negative.value]);
    assert c.only.Some? ==> OnlyPick(nodes, current, imported, Listed(nodes)[c.only.value]);
  }

  lemma CountByChoice(nodes: Nodes, current: Prompts, imported: Prompts)
    requires RolesTold(nodes) && forall id :: id in Listed(nodes) ==> TextNode(nodes, id)
    ensures
      var c := Choose(RewrittenTexts(nodes, current, Listed(nodes)), imported,
                      RoleFound(nodes, Positive), RoleFound(nodes, Negative));
      Assignments(nodes, current, imported)
      == |RoleSet(nodes, Positive)| + |RoleSet(nodes, Negative)| + Count(c.positive) + Count(c.negative) + Count(c.only)
  {
    hide RoleSet, RoleFound, RewrittenTexts, Clips;
  }
}
