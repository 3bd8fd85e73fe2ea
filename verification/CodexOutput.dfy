/**
 Finding the assistant's message in one line of a Codex runtime's JSON output.
 */
module CodexOutput {
  import opened Prelude

  datatype Json =
    | Null
    | Bool(truth: bool)
    | Number(amount: real)
    | Str(text: string)
    | Arr(items: seq<Json>)
    | Obj(members: map<string, Json>)

  /** `TypeError` is raised by looking up an unhashable value in a set. */
  datatype Outcome = Nothing | Message(text: string) | TypeError

  /** What `strip` removes. */
  predicate IsSpace(c: char) {
    var n := c as int;
    || 0x09 <= n <= 0x0D || 0x1C <= n <= 0x20 || n == 0x85 || n == 0xA0 || n == 0x1680
    || 0x2000 <= n <= 0x200A || n == 0x2028 || n == 0x2029 || n == 0x202F || n == 0x205F || n == 0x3000
  }

  predicate Blank(s: string) {
    forall i :: 0 <= i < |s| ==> IsSpace(s[i])
  }

  predicate IsText(j: Json) {
    j.Str? && !Blank(j.text)
  }

  /** The first of the keys that holds text. */
  function FirstText(members: map<string, Json>, keys: seq<string>): Option<string> {
    if keys == [] then None
    else if keys[0] in members && IsText(members[keys[0]]) then Some(members[keys[0]].text)
    else FirstText(members, keys[1..])
  }

  // ---------------------------------------------------------- content text

  function Joined(chunks: seq<string>): string {
    if chunks == [] then ""
    else if |chunks| == 1 then chunks[0]
    else Joined(chunks[..|chunks| - 1]) + "\n" + chunks[|chunks| - 1]
  }

  function Chunks(items: seq<Json>): seq<string>
    decreases items
  {
    if items == [] then []
    else
      var before := Chunks(items[..|items| - 1]);
      var text := ContentText(items[|items| - 1]);
      if text.Some? && text.value != "" then before + [text.value] else before
  }

  function ContentText(content: Json): Option<string>
    decreases content
  {
    match content
    case Str(text) => if Blank(text) then None else Some(text)
    case Obj(members) => FirstText(members, ["text", "output_text", "content"])
    case Arr(items) => var chunks := Chunks(items); if chunks == [] then None else Some(Joined(chunks))
    case _ => None
  }

  method ExtractContentText(content: Json) returns (result: Option<string>)
    ensures result == ContentText(content)
    decreases content
  {
    match content {
      case Str(text) => result := if Blank(text) then None else Some(text);
      case Obj(members) => result := FirstText(members, ["text", "output_text", "content"]);
      case Arr(items) =>
        var chunks := [];
        for i := 0 to |items|
          invariant chunks == Chunks(items[..i])
        {
          assert items[..i + 1][..i] == items[..i];
          var text := ExtractContentText(items[i]);
          if text.Some? && text.value != "" {
            chunks := chunks + [text.value];
          }
        }
        assert items[..|items|] == items;
        result := if chunks == [] then None else Some(Joined(chunks));
      case _ => result := None;
    }
  }

  // ------------------------------------------------------------ extraction

  const SAID := ["assistant_message", "assistant", "final_answer", "output_text"]
  const TYPED := ["message", "text"]
  const WRAPPERS := ["message", "msg", "item", "delta", "event"]

  /** What a node says by itself, wrappers aside. */
  function Direct(node: Json): Outcome
    requires node.Obj?
  {
    var o := node.members;
    var said := FirstText(o, SAID);
    var content := if "content" in o then ContentText(o["content"]) else None;
    if said.Some? then Message(said.value)
    else if "role" in o && o["role"] == Str("assistant") && content.Some? && content.value != "" then Message(content.value)
    else if "type" in o && (o["type"].Arr? || o["type"].Obj?) then TypeError
    else if "type" in o && (o["type"] == Str("assistant_message") || o["type"] == Str("agent_message")) then
      var text := FirstText(o, TYPED);
      if text.Some? then Message(text.value) else Nothing
    else Nothing
  }

  function Child(node: Json, k: nat): (c: Option<Json>)
    requires node.Obj? && k < |WRAPPERS|
    ensures c.Some? ==> c.value.Obj? && c.value < node
  {
    if WRAPPERS[k] in node.members && node.members[WRAPPERS[k]].Obj? then Some(node.members[WRAPPERS[k]]) else None
  }

  function ExtractAssistantMessage(node: Json): Outcome
    requires node.Obj?
    decreases node, |WRAPPERS| + 1
  {
    var direct := Direct(node);
    if direct.Nothing? then FromWrapper(node, 0) else direct
  }

  function FromWrapper(node: Json, k: nat): Outcome
    requires node.Obj? && k <= |WRAPPERS|
    decreases node, |WRAPPERS| - k
  {
    if k == |WRAPPERS| then Nothing
    else
      match Child(node, k)
      case None => FromWrapper(node, k + 1)
      case Some(child) =>
        var found := ExtractAssistantMessage(child);
        if found.Nothing? || found == Message("") then FromWrapper(node, k + 1) else found
  }

  // ------------------------------------------------------- only real text

  lemma {:induction false} FirstTextIsText(members: map<string, Json>, keys: seq<string>)
    ensures FirstText(members, keys).Some? ==> !Blank(FirstText(members, keys).value)
  {
    if keys != [] {
      FirstTextIsText(members, keys[1..]);
    }
  }

  lemma {:induction false} JoinedIsText(chunks: seq<string>)
    requires chunks != [] && !Blank(chunks[0])
    ensures !Blank(Joined(chunks))
  {
    if |chunks| > 1 {
      var before := Joined(chunks[..|chunks| - 1]);
      JoinedIsText(chunks[..|chunks| - 1]);
      var i :| 0 <= i < |before| && !IsSpace(before[i]);
      assert Joined(chunks)[i] == before[i];
    }
  }

  lemma {:induction false} ChunksAreText(items: seq<Json>)
    ensures forall k :: 0 <= k < |Chunks(items)| ==> !Blank(Chunks(items)[k])
    decreases items
  {
    if items != [] {
      ChunksAreText(items[..|items| - 1]);
      ContentIsText(items[|items| - 1]);
    }
  }

  lemma {:induction false} ContentIsText(content: Json)
    ensures ContentText(content).Some? ==> !Blank(ContentText(content).value)
    decreases content
  {
    match content {
      case Obj(members) => FirstTextIsText(members, ["text", "output_text", "content"]);
      case Arr(items) =>
        ChunksAreText(items);
        if Chunks(items) != [] {
          JoinedIsText(Chunks(items));
        }
      case _ =>
    }
  }

  lemma {:induction false} DirectIsText(node: Json)
    requires node.Obj?
    ensures Direct(node).Message? ==> !Blank(Direct(node).text)
  {
    FirstTextIsText(node.members, SAID);
    FirstTextIsText(node.members, TYPED);
    if "content" in node.members {
      ContentIsText(node.members["content"]);
    }
  }

  // --------------------------------------------------- what one node says

  predicate HasText(members: map<string, Json>, key: string) {
    key in members && IsText(members[key])
  }

  predicate FirstWith(members: map<string, Json>, keys: seq<string>, k: nat) {
    k < |keys| && HasText(members, keys[k]) && forall j :: 0 <= j < k ==> !HasText(members, keys[j])
  }

  predicate NoneWith(members: map<string, Json>, keys: seq<string>) {
    forall j :: 0 <= j < |keys| ==> !HasText(members, keys[j])
  }

  lemma {:induction false} FirstTextIsFirst(members: map<string, Json>, keys: seq<string>, k: nat)
    ensures FirstWith(members, keys, k) ==> FirstText(members, keys) == Some(members[keys[k]].text)
    ensures FirstText(members, keys).None? <==> NoneWith(members, keys)
    decreases |keys|
  {
    if keys != [] {
      FirstTextIsFirst(members, keys[1..], if k > 0 then k - 1 else 0);
      assert forall j :: 1 <= j < |keys| ==> keys[j] == keys[1..][j - 1];
      if NoneWith(members, keys[1..]) && !HasText(members, keys[0]) {
        assert NoneWith(members, keys);
      }
    }
  }

  predicate IsAssistant(members: map<string, Json>) {
    "role" in members && members["role"] == Str("assistant") && "content" in members
    && ContentText(members["content"]).Some?
  }

  predicate Unhashable(members: map<string, Json>) {
    "type" in members && (members["type"].Arr? || members["type"].Obj?)
  }

  predicate IsTyped(members: map<string, Json>) {
    "type" in members && (members["type"] == Str("assistant_message") || members["type"] == Str("agent_message"))
  }

  /** The four ways a node can speak, each only if the ones before it fail. */
  lemma WhatANodeSays(node: Json, k: nat)
    requires node.Obj?
    ensures var o := node.members;
      && (FirstWith(o, SAID, k) ==> Direct(node) == Message(o[SAID[k]].text))
      && (NoneWith(o, SAID) && IsAssistant(o) ==> Direct(node) == Message(ContentText(o["content"]).value))
      && (Direct(node).TypeError? <==> NoneWith(o, SAID) && !IsAssistant(o) && Unhashable(o))
      && (NoneWith(o, SAID) && !IsAssistant(o) && IsTyped(o) && FirstWith(o, TYPED, k) ==>
            Direct(node) == Message(o[TYPED[k]].text))
      && (Direct(node).Nothing? <==>
            && NoneWith(o, SAID) && !IsAssistant(o) && !Unhashable(o)
            && (IsTyped(o) ==> NoneWith(o, TYPED)))
  {
    FirstTextIsFirst(node.members, SAID, k);
    FirstTextIsFirst(node.members, TYPED, k);
    if "content" in node.members {
      ContentIsText(node.members["content"]);
    }
  }

  predicate NoDirectText(o: map<string, Json>) {
    !HasText(o, "assistant_message") && !HasText(o, "assistant") && !HasText(o, "final_answer") && !HasText(o, "output_text")
  }

  /** The direct keys by name, in their order, before anything else is looked at. */
  lemma {:induction false} DirectKeysInOrder(node: Json)
    requires node.Obj?
    ensures var o := node.members;
      && (HasText(o, "assistant_message") ==> Direct(node) == Message(o["assistant_message"].text))
      && (!HasText(o, "assistant_message") && HasText(o, "assistant") ==> Direct(node) == Message(o["assistant"].text))
      && (!HasText(o, "assistant_message") && !HasText(o, "assistant") && HasText(o, "final_answer") ==>
            Direct(node) == Message(o["final_answer"].text))
      && (!HasText(o, "assistant_message") && !HasText(o, "assistant") && !HasText(o, "final_answer") && HasText(o, "output_text") ==>
            Direct(node) == Message(o["output_text"].text))
      && (NoDirectText(o) && IsAssistant(o) ==> Direct(node) == Message(ContentText(o["content"]).value))
      && (NoDirectText(o) && !IsAssistant(o) && Unhashable(o) ==> Direct(node) == TypeError)
  {
    var keys := ["assistant_message", "assistant", "final_answer", "output_text"];
    assert SAID == keys;
    assert FirstWith(node.members, keys, 0) <==> HasText(node.members, "assistant_message");
    WhatANodeSays(node, 0);
    WhatANodeSays(node, 1);
    WhatANodeSays(node, 2);
    WhatANodeSays(node, 3);
  }

  /** And the two keys of a node typed as a message. */
  lemma {:induction false} TypedKeysInOrder(node: Json)
    requires node.Obj? && NoDirectText(node.members) && !IsAssistant(node.members) && IsTyped(node.members)
    ensures var o := node.members;
      Direct(node) == if HasText(o, "message") then Message(o["message"].text)
                      else if HasText(o, "text") then Message(o["text"].text) else Nothing
  {
    assert TYPED == ["message", "text"] && SAID == ["assistant_message", "assistant", "final_answer", "output_text"];
    WhatANodeSays(node, 0);
    WhatANodeSays(node, 1);
  }

  /** The keys of an object as content; text stands for itself, other values for
      nothing. */
  lemma {:induction false} ContentByKind(content: Json)
    ensures content.Obj? ==>
      var o := content.members;
      ContentText(content) == if HasText(o, "text") then Some(o["text"].text)
                              else if HasText(o, "output_text") then Some(o["output_text"].text)
                              else if HasText(o, "content") then Some(o["content"].text) else None
    ensures content.Str? ==> ContentText(content) == if Blank(content.text) then None else Some(content.text)
    ensures !content.Obj? && !content.Str? && !content.Arr? ==> ContentText(content) == None
  {
    if content.Obj? {
      var keys := ["text", "output_text", "content"];
      FirstTextIsFirst(content.members, keys, 0);
      FirstTextIsFirst(content.members, keys, 1);
      FirstTextIsFirst(content.members, keys, 2);
    }
  }

  /** A list of two texts is the two on lines of their own; blank items leave no line. */
  lemma {:induction false} ContentOfLists(a: string, b: string)
    requires !Blank(a)
    ensures ContentText(Arr([])) == None && ContentText(Arr([Str(a)])) == Some(a)
    ensures ContentText(Arr([Str(a)] + [Str(b)])) == Some(if Blank(b) then a else a + "\n" + b)
  {
    OneItem(a);
    OneItem(b);
    ChunksConcat([Str(a)], [Str(b)]);
    if !Blank(b) {
      JoinedConcat([a], [b]);
    } else {
      assert [a] + [] == [a];
    }
  }

  lemma {:induction false} OneItem(a: string)
    ensures Chunks([Str(a)]) == if Blank(a) then [] else [a]
  {
    assert [Str(a)][..0] == [];
  }

  // --------------------------------------------------------- nested lists

  lemma {:induction false} ChunksConcat(a: seq<Json>, b: seq<Json>)
    ensures Chunks(a + b) == Chunks(a) + Chunks(b)
    decreases |b|
  {
    if b == [] {
      assert a + b == a;
    } else {
      assert (a + b)[..|a + b| - 1] == a + b[..|b| - 1];
      ChunksConcat(a, b[..|b| - 1]);
    }
  }

  lemma {:induction false} JoinedConcat(a: seq<string>, b: seq<string>)
    requires a != [] && b != []
    ensures Joined(a + b) == Joined(a) + "\n" + Joined(b)
    decreases |b|
  {
    assert (a + b)[..|a + b| - 1] == a + b[..|b| - 1];
    if |b| == 1 {
      assert a + b[..0] == a;
    } else {
      JoinedConcat(a, b[..|b| - 1]);
      assert Joined(a) + "\n" + Joined(b[..|b| - 1]) + "\n" + b[|b| - 1]
          == Joined(a) + "\n" + (Joined(b[..|b| - 1]) + "\n" + b[|b| - 1]);
    }
  }

  /** Joining the middle first changes nothing. */
  lemma {:induction false} JoinedNests(a: seq<string>, b: seq<string>, c: seq<string>)
    requires b != []
    ensures Joined(a + [Joined(b)] + c) == Joined(a + b + c)
  {
    var inner := [Joined(b)];
    if a == [] {
      assert a + inner == inner && a + b == b;
    } else {
      JoinedConcat(a, inner);
      JoinedConcat(a, b);
    }
    if c == [] {
      assert a + inner + c == a + inner && a + b + c == a + b;
    } else {
      JoinedConcat(a + inner, c);
      JoinedConcat(a + b, c);
    }
  }

  /** A list inside a list counts as its items: nesting does not change the text. */
  lemma {:induction false} NestedListsFlatten(a: seq<Json>, b: seq<Json>, c: seq<Json>)
    ensures ContentText(Arr(a + [Arr(b)] + c)) == ContentText(Arr(a + b + c))
  {
    var inner := [Arr(b)];
    ChunksConcat(a + inner, c);
    ChunksConcat(a, inner);
    ChunksConcat(a + b, c);
    ChunksConcat(a, b);
    OneList(b);
    if Chunks(b) == [] {
      assert Chunks(a) + [] == Chunks(a);
    } else {
      JoinedNests(Chunks(a), Chunks(b), Chunks(c));
    }
  }

  lemma {:induction false} OneList(items: seq<Json>)
    ensures Chunks([Arr(items)]) == if Chunks(items) == [] then [] else [Joined(Chunks(items))]
  {
    ContentIsText(Arr(items));
    assert [Arr(items)][..0] == [];
  }

  // ------------------------------------------------- the first in key order

  /** A way down through wrapper keys, as positions in their order. */
  type Path = seq<nat>

  function At(node: Json, path: Path): (n: Option<Json>)
    requires node.Obj?
    ensures n.Some? ==> n.value.Obj?
    decreases |path|
  {
    if path == [] then Some(node)
    else if path[0] >= |WRAPPERS| || Child(node, path[0]).None? then None
    else At(Child(node, path[0]).value, path[1..])
  }

  /** Depth first: a node before what it wraps, earlier keys before later ones. */
  predicate Precedes(p: Path, q: Path)
    decreases |p|
  {
    q != [] && (p == [] || p[0] < q[0] || (p[0] == q[0] && Precedes(p[1..], q[1..])))
  }

  ghost predicate Says(node: Json, path: Path)
    requires node.Obj?
  {
    At(node, path).Some? && !Direct(At(node, path).value).Nothing?
  }

  /** The first place in the order that says anything. */
  ghost predicate SaysFirst(node: Json, path: Path)
    requires node.Obj?
  {
    Says(node, path) && forall earlier :: Precedes(earlier, path) ==> !Says(node, earlier)
  }

  lemma {:induction false} AtBelow(node: Json, k: nat, path: Path)
    requires node.Obj? && k < |WRAPPERS| && Child(node, k).Some?
    ensures At(node, [k] + path) == At(Child(node, k).value, path)
  {
    assert ([k] + path)[1..] == path;
  }

  /** Where the extractor's answer stands. */
  lemma {:induction false} Finds(node: Json) returns (path: Path)
    requires node.Obj? && !ExtractAssistantMessage(node).Nothing?
    ensures SaysFirst(node, path) && ExtractAssistantMessage(node) == Direct(At(node, path).value)
    decreases node, |WRAPPERS| + 1
  {
    if Direct(node).Nothing? {
      path := FindsBelow(node, 0);
    } else {
      path := [];
    }
  }

  lemma {:induction false} FindsBelow(node: Json, k: nat) returns (path: Path)
    requires node.Obj? && k <= |WRAPPERS| && !FromWrapper(node, k).Nothing?
    requires Direct(node).Nothing?
    requires forall earlier: Path :: earlier != [] && earlier[0] < k ==> !Says(node, earlier)
    ensures SaysFirst(node, path) && FromWrapper(node, k) == Direct(At(node, path).value)
    decreases node, |WRAPPERS| - k
  {
    var child := Child(node, k);
    if child.Some? && !ExtractAssistantMessage(child.value).Nothing? {
      var below := Finds(child.value);
      path := [k] + below;
      AtBelow(node, k, below);
      DirectIsText(At(node, path).value);
      assert path[1..] == below;
      forall earlier | Precedes(earlier, path) ensures !Says(node, earlier) {
        SaysBelow(node, earlier);
      }
    } else {
      forall earlier: Path | earlier != [] && earlier[0] == k ensures !Says(node, earlier) {
        SaysBelow(node, earlier);
        if child.Some? {
          SilentBelow(child.value, earlier[1..]);
        }
      }
      path := FindsBelow(node, k + 1);
    }
  }

  lemma SaysBelow(node: Json, path: Path)
    requires node.Obj?
    ensures path != [] ==>
      (Says(node, path) <==> path[0] < |WRAPPERS| && Child(node, path[0]).Some? && Says(Child(node, path[0]).value, path[1..]))
  {
  }

  lemma {:induction false} SilentBelow(node: Json, path: Path)
    requires node.Obj? && ExtractAssistantMessage(node).Nothing?
    ensures !Says(node, path)
    decreases node, |WRAPPERS| + 1
  {
    if path != [] && path[0] < |WRAPPERS| && Child(node, path[0]).Some? {
      NoWrapperAnswers(node, 0, path[0]);
      SilentBelow(Child(node, path[0]).value, path[1..]);
    }
  }

  lemma {:induction false} NoWrapperAnswers(node: Json, from: nat, k: nat)
    requires node.Obj? && from <= k < |WRAPPERS| && FromWrapper(node, from).Nothing? && Child(node, k).Some?
    ensures ExtractAssistantMessage(Child(node, k).value).Nothing?
    decreases node, k - from
  {
    if from < k {
      NoWrapperAnswers(node, from + 1, k);
    } else {
      EmptyIsNeverFound(Child(node, k).value);
    }
  }

  lemma {:induction false} EmptyIsNeverFound(node: Json)
    requires node.Obj?
    ensures ExtractAssistantMessage(node) != Message("")
    decreases node, |WRAPPERS| + 2
  {
    if ExtractAssistantMessage(node) == Message("") {
      var path := Finds(node);
      DirectIsText(At(node, path).value);
      assert false;
    }
  }

  lemma {:induction false} FirstIsUnique(node: Json, p: Path, q: Path)
    requires node.Obj? && SaysFirst(node, p) && SaysFirst(node, q)
    ensures p == q
  {
    if p != q {
      TotalOrder(p, q);
    }
  }

  lemma {:induction false} TotalOrder(p: Path, q: Path)
    ensures p == q || Precedes(p, q) || Precedes(q, p)
    decreases |p|
  {
    if p != [] && q != [] && p[0] == q[0] {
      TotalOrder(p[1..], q[1..]);
      assert p == [p[0]] + p[1..] && q == [q[0]] + q[1..];
    }
  }

  // ---------------------------------------------------------- main results

  /** On every value the extractor answers with what the first speaking node in
      depth-first key order says, and with nothing if and only if no node that the
      wrapper keys reach says anything. */
  lemma {:induction false} ExtractsTheFirst(node: Json, path: Path)
    requires node.Obj?
    ensures SaysFirst(node, path) ==> ExtractAssistantMessage(node) == Direct(At(node, path).value)
    ensures ExtractAssistantMessage(node).Nothing? <==> forall p :: !Says(node, p)
    ensures !ExtractAssistantMessage(node).Nothing? ==> exists p :: SaysFirst(node, p)
  {
    if ExtractAssistantMessage(node).Nothing? {
      forall p ensures !Says(node, p) {
        SilentBelow(node, p);
      }
    } else {
      var p := Finds(node);
      assert Says(node, p) && SaysFirst(node, p);
      if SaysFirst(node, path) {
        FirstIsUnique(node, p, path);
      }
    }
  }

  lemma {:induction false} OnlyTextIsReturned(node: Json)
    requires node.Obj?
    ensures ExtractAssistantMessage(node).Message? ==> !Blank(ExtractAssistantMessage(node).text)
  {
    if ExtractAssistantMessage(node).Message? {
      var path := Finds(node);
      DirectIsText(At(node, path).value);
    }
  }

  /** What the object under a wrapper key answers. */
  function Under(node: Json, key: string): Outcome
    requires node.Obj?
  {
    if key in node.members && node.members[key].Obj? then ExtractAssistantMessage(node.members[key]) else Nothing
  }

  /** An object that says nothing itself answers with the first answer from under its
      wrapper keys, by name and in their order. */
  lemma {:induction false} WrapperKeysInOrder(node: Json)
    requires node.Obj? && Direct(node).Nothing?
    ensures ExtractAssistantMessage(node)
            == if !Under(node, "message").Nothing? then Under(node, "message")
               else if !Under(node, "msg").Nothing? then Under(node, "msg")
               else if !Under(node, "item").Nothing? then Under(node, "item")
               else if !Under(node, "delta").Nothing? then Under(node, "delta")
               else Under(node, "event")
  {
    assert WRAPPERS == ["message", "msg", "item", "delta", "event"];
    FromWrapperUnfolds(node, 0);
    FromWrapperUnfolds(node, 1);
    FromWrapperUnfolds(node, 2);
    FromWrapperUnfolds(node, 3);
    FromWrapperUnfolds(node, 4);
    assert FromWrapper(node, 5).Nothing?;
  }

  lemma {:induction false} FromWrapperUnfolds(node: Json, k: nat)
    requires node.Obj? && k < |WRAPPERS|
    ensures FromWrapper(node, k) == if Under(node, WRAPPERS[k]).Nothing? then FromWrapper(node, k + 1) else Under(node, WRAPPERS[k])
  {
    var child := Child(node, k);
    if child.Some? {
      EmptyIsNeverFound(child.value);
    }
  }

  /** It raises exactly when the first node to say anything has an array or an object
      for its "type", and neither text of its own nor assistant content. */
  lemma {:induction false} RaisesExactlyWhen(node: Json)
    requires node.Obj?
    ensures ExtractAssistantMessage(node).TypeError?
            <==> exists p :: SaysFirst(node, p)
                             && var o := At(node, p).value.members;
                             NoneWith(o, SAID) && !IsAssistant(o) && Unhashable(o)
  {
    if ExtractAssistantMessage(node).TypeError? {
      var p := Finds(node);
      WhatANodeSays(At(node, p).value, 0);
      assert SaysFirst(node, p);
    }
    if p :| SaysFirst(node, p) && var o := At(node, p).value.members; NoneWith(o, SAID) && !IsAssistant(o) && Unhashable(o) {
      ExtractsTheFirst(node, p);
      WhatANodeSays(At(node, p).value, 0);
    }
  }

  /** So it cannot raise unless some reachable node has such a "type". */
  lemma {:induction false} HashableTypesNeverRaise(node: Json)
    requires node.Obj?
    requires forall p :: At(node, p).Some? && "type" in At(node, p).value.members ==>
      !At(node, p).value.members["type"].Arr? && !At(node, p).value.members["type"].Obj?
    ensures !ExtractAssistantMessage(node).TypeError?
  {
    if ExtractAssistantMessage(node).TypeError? {
      var path := Finds(node);
      assert false;
    }
  }

  /** Such a node hides whatever it wraps. */
  lemma UnhashableTypeHidesTheMessage(text: string, items: seq<Json>)
    requires !Blank(text)
    ensures var said := Obj(map["output_text" := Str(text)]);
      && ExtractAssistantMessage(said) == Message(text)
      && ExtractAssistantMessage(Obj(map["type" := Arr(items), "message" := said])) == TypeError
  {
    var said := Obj(map["output_text" := Str(text)]);
    var node := Obj(map["type" := Arr(items), "message" := said]);
    assert FirstWith(said.members, SAID, 3) && NoneWith(node.members, SAID);
    WhatANodeSays(said, 3);
    WhatANodeSays(node, 0);
  }
}
