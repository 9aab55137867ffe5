/**
  Tasks on the heap, their validation, and their deep copies: messages and artifacts with
  slices of parts, data and metadata maps, and a status message behind a pointer. A copy
  shows the same as the original and hangs on new objects only, so that neither side can
  change what the other shows. Each predicate and function takes the set of objects that a
  value may hang on, because that is what it reads.
 */
module Tasks {
  import opened Wrappers
  import opened Text
  import opened Heap

  datatype TaskState =
    | Unspecified | Submitted | Working | InputRequired | Completed | Failed | Canceled
    | OtherState(name: string)

  datatype Role = User | Agent | OtherRole(name: string)

  datatype Part = Part(text: string, data: GoMap?<string>, raw: string, url: string)

  datatype Message = Message(id: string, role: Role, parts: Slice<Part>, references: Slice<string>, metadata: GoMap?<string>)

  /** An artifact is like a message whose role does not matter and that refers to nothing. */
  type Artifact = Message

  /** What the pointer in a status points to. */
  class MessageBox {
    var message: Message

    constructor (message: Message)
      ensures this.message == message
    {
      this.message := message;
    }
  }

  datatype Task = Task(
    id: string,
    contextID: string,
    state: TaskState,
    message: MessageBox?,
    artifacts: Slice<Artifact>,
    history: Slice<Message>,
    metadata: GoMap?<string>)

  // ----- What they show -----

  datatype PartShown = PartShown(text: string, data: Option<map<string, string>>, raw: string, url: string)

  datatype MessageShown = MessageShown(
    id: string,
    role: Role,
    parts: seq<PartShown>,
    references: seq<string>,
    metadata: Option<map<string, string>>)

  datatype TaskShown = TaskShown(
    id: string,
    contextID: string,
    state: TaskState,
    message: Option<MessageShown>,
    artifacts: seq<MessageShown>,
    history: seq<MessageShown>,
    metadata: Option<map<string, string>>)

  function ShowMap(m: GoMap?<string>): Option<map<string, string>>
    reads m
  {
    if m == null then None else Some(m.entries)
  }

  // ----- The objects they hang on -----

  /** A map is one of the objects, or missing. */
  ghost predicate MapIn(m: GoMap?<string>, objects: set<object>) {
    m != null ==> m in objects
  }

  ghost predicate PartsIn(parts: seq<Part>, objects: set<object>) {
    forall i :: 0 <= i < |parts| ==> MapIn(parts[i].data, objects)
  }

  ghost predicate MessageIn(m: Message, objects: set<object>)
    reads objects
  {
    && m.parts.Fits() && m.references.Fits()
    && m.parts.cells in objects && m.references.cells in objects && MapIn(m.metadata, objects)
    && PartsIn(m.parts.Elements(), objects)
  }

  function ShowPart(p: Part): PartShown
    reads p.data
  {
    PartShown(p.text, ShowMap(p.data), p.raw, p.url)
  }

  ghost function ShowParts(parts: seq<Part>, objects: set<object>): (shown: seq<PartShown>)
    requires PartsIn(parts, objects)
    reads objects
    ensures |shown| == |parts|
    ensures forall i :: 0 <= i < |parts| ==> shown[i] == ShowPart(parts[i])
  {
    seq(|parts|, i requires 0 <= i < |parts| && MapIn(parts[i].data, objects) reads objects => ShowPart(parts[i]))
  }

  ghost function ShowMessage(m: Message, objects: set<object>): MessageShown
    requires MessageIn(m, objects)
    reads objects
  {
    MessageShown(m.id, m.role, ShowParts(m.parts.Elements(), objects), m.references.Elements(), ShowMap(m.metadata))
  }

  /** What a message shows does not depend on what else there is. */
  lemma MoreObjects(m: Message, objects: set<object>, more: set<object>)
    requires MessageIn(m, objects) && objects <= more
    ensures MessageIn(m, more) && ShowMessage(m, more) == ShowMessage(m, objects)
  {
    var parts := m.parts.Elements();
    forall i | 0 <= i < |parts| ensures MapIn(parts[i].data, more) {
      assert MapIn(parts[i].data, objects);
    }
    assert ShowParts(parts, more) == ShowParts(parts, objects);
  }

  // ----- Copying messages -----

  method CloneMetadata(m: GoMap?<string>) returns (copy: GoMap?<string>, ghost new': set<object>)
    ensures fresh(new') && MapIn(copy, new') && ShowMap(copy) == old(ShowMap(m))
  {
    if m == null {
      return null, {};
    }
    copy := new GoMap(m.entries);
    new' := {copy};
  }

  method CloneParts(parts: seq<Part>, ghost objects: set<object>) returns (copies: seq<Part>, ghost new': set<object>)
    requires PartsIn(parts, objects)
    ensures fresh(new') && PartsIn(copies, new') && ShowParts(copies, new') == old(ShowParts(parts, objects))
  {
    copies, new' := [], {};
    for i := 0 to |parts|
      invariant |copies| == i && fresh(new') && PartsIn(copies, new')
      invariant forall k :: 0 <= k < i ==> ShowPart(copies[k]) == old(ShowPart(parts[k]))
    {
      assert MapIn(parts[i].data, objects);
      var data, one := CloneMetadata(parts[i].data);
      copies, new' := copies + [parts[i].(data := data)], new' + one;
    }
  }

  method CloneMessage(m: Message, ghost objects: set<object>) returns (copy: Message, ghost new': set<object>)
    requires MessageIn(m, objects)
    ensures fresh(new') && MessageIn(copy, new') && ShowMessage(copy, new') == old(ShowMessage(m, objects))
  {
    ghost var was := ShowMessage(m, objects);
    var parts, inner := CloneParts(m.parts.Elements(), objects);
    ghost var shown := ShowParts(parts, inner);
    assert shown == was.parts;
    var references := CloneSlice(m.references);
    var metadata, outer := CloneMetadata(m.metadata);
    var cells := new Part[|parts|](i requires 0 <= i < |parts| => parts[i]);
    copy := Message(m.id, m.role, Slice(cells, |parts|), references, metadata);
    new' := inner + outer + {cells, references.cells};
    assert cells[..|parts|] == parts;
    assert ShowParts(parts, inner) == shown;
  }

  // ----- Lists of messages, and tasks -----

  ghost predicate MessagesIn(ms: seq<Message>, objects: set<object>)
    reads objects
  {
    forall i :: 0 <= i < |ms| ==> MessageIn(ms[i], objects)
  }

  ghost function ShowMessages(ms: seq<Message>, objects: set<object>): (shown: seq<MessageShown>)
    requires MessagesIn(ms, objects)
    reads objects
    ensures |shown| == |ms|
    ensures forall i :: 0 <= i < |ms| ==> shown[i] == ShowMessage(ms[i], objects)
  {
    seq(|ms|, i requires 0 <= i < |ms| && MessageIn(ms[i], objects) reads objects => ShowMessage(ms[i], objects))
  }

  lemma MoreObjectsForAll(ms: seq<Message>, objects: set<object>, more: set<object>)
    requires MessagesIn(ms, objects) && objects <= more
    ensures MessagesIn(ms, more) && ShowMessages(ms, more) == ShowMessages(ms, objects)
  {
    forall i | 0 <= i < |ms| ensures MessageIn(ms[i], more) && ShowMessage(ms[i], more) == ShowMessage(ms[i], objects) {
      assert MessageIn(ms[i], objects);
      MoreObjects(ms[i], objects, more);
    }
  }

  ghost predicate ListIn(s: Slice<Message>, objects: set<object>)
    reads objects
  {
    s.Fits() && s.cells in objects && MessagesIn(s.Elements(), objects)
  }

  ghost predicate BoxIn(box: MessageBox?, objects: set<object>)
    reads objects
  {
    box != null ==> box in objects && MessageIn(box.message, objects)
  }

  ghost predicate TaskIn(t: Task, objects: set<object>)
    reads objects
  {
    BoxIn(t.message, objects) && ListIn(t.artifacts, objects) && ListIn(t.history, objects) && MapIn(t.metadata, objects)
  }

  ghost function ShowBox(box: MessageBox?, objects: set<object>): Option<MessageShown>
    requires BoxIn(box, objects)
    reads objects
  {
    if box == null then None else Some(ShowMessage(box.message, objects))
  }

  ghost function ShowTask(t: Task, objects: set<object>): TaskShown
    requires TaskIn(t, objects)
    reads objects
  {
    TaskShown(t.id, t.contextID, t.state, ShowBox(t.message, objects), ShowMessages(t.artifacts.Elements(), objects),
              ShowMessages(t.history.Elements(), objects), ShowMap(t.metadata))
  }

  /** What is shown of a message is everything there is, with the entries of its maps. */
  lemma MessageShowsAll(m: Message, objects: set<object>)
    requires MessageIn(m, objects)
    ensures var s, parts := ShowMessage(m, objects), m.parts.Elements();
            && s.id == m.id && s.role == m.role && s.references == m.references.Elements() && |s.parts| == |parts|
            && (if m.metadata == null then s.metadata == None else s.metadata == Some(m.metadata.entries))
            && forall i :: 0 <= i < |parts| ==>
                             && s.parts[i].text == parts[i].text && s.parts[i].raw == parts[i].raw && s.parts[i].url == parts[i].url
                             && (if parts[i].data == null then s.parts[i].data == None
                                 else s.parts[i].data == Some(parts[i].data.entries))
  {
  }

  lemma TaskShowsAll(t: Task, objects: set<object>)
    requires TaskIn(t, objects)
    ensures var s, artifacts, history := ShowTask(t, objects), t.artifacts.Elements(), t.history.Elements();
            && s.id == t.id && s.contextID == t.contextID && s.state == t.state
            && (if t.message == null then s.message == None else s.message == Some(ShowMessage(t.message.message, objects)))
            && |s.artifacts| == |artifacts| && (forall i :: 0 <= i < |artifacts| ==> s.artifacts[i] == ShowMessage(artifacts[i], objects))
            && |s.history| == |history| && (forall i :: 0 <= i < |history| ==> s.history[i] == ShowMessage(history[i], objects))
            && (if t.metadata == null then s.metadata == None else s.metadata == Some(t.metadata.entries))
  {
  }

  lemma MoreObjectsForTask(t: Task, objects: set<object>, more: set<object>)
    requires TaskIn(t, objects) && objects <= more
    ensures TaskIn(t, more) && ShowTask(t, more) == ShowTask(t, objects)
  {
    MoreObjectsForAll(t.artifacts.Elements(), objects, more);
    MoreObjectsForAll(t.history.Elements(), objects, more);
    if t.message != null {
      MoreObjects(t.message.message, objects, more);
    }
  }

  // ----- Copying tasks -----

  lemma AppendCopy(copies: seq<Message>, objects: set<object>, copy: Message, one: set<object>)
    requires MessagesIn(copies, objects) && MessageIn(copy, one)
    ensures MessagesIn(copies + [copy], objects + one)
    ensures ShowMessages(copies + [copy], objects + one) == ShowMessages(copies, objects) + [ShowMessage(copy, one)]
  {
    MoreObjectsForAll(copies, objects, objects + one);
    MoreObjects(copy, one, objects + one);
  }

  method CloneMessages(ms: seq<Message>, ghost objects: set<object>) returns (copies: seq<Message>, ghost new': set<object>)
    requires MessagesIn(ms, objects)
    ensures fresh(new') && MessagesIn(copies, new') && ShowMessages(copies, new') == old(ShowMessages(ms, objects))
  {
    copies, new' := [], {};
    ghost var shown := ShowMessages(ms, objects);
    for i := 0 to |ms|
      invariant |copies| == i && fresh(new') && MessagesIn(copies, new')
      invariant MessagesIn(ms, objects) && ShowMessages(ms, objects) == shown
      invariant ShowMessages(copies, new') == shown[..i]
    {
      assert MessageIn(ms[i], objects) && shown[i] == ShowMessage(ms[i], objects);
      ghost var before := new';
      var copy, one := CloneMessage(ms[i], objects);
      assert MessagesIn(copies, before) && ShowMessages(copies, before) == shown[..i];
      AppendCopy(copies, before, copy, one);
      copies, new' := copies + [copy], before + one;
    }
  }

  method CloneList(s: Slice<Message>, ghost objects: set<object>) returns (copy: Slice<Message>, ghost new': set<object>)
    requires ListIn(s, objects)
    ensures fresh(new') && ListIn(copy, new') && ShowMessages(copy.Elements(), new') == old(ShowMessages(s.Elements(), objects))
  {
    var copies, inner := CloneMessages(s.Elements(), objects);
    ghost var shown := ShowMessages(copies, inner);
    var cells := new Message[|copies|](i requires 0 <= i < |copies| => copies[i]);
    copy := Slice(cells, |copies|);
    assert MessagesIn(copies, inner) && ShowMessages(copies, inner) == shown;
    new' := inner + {cells};
    MoreObjectsForAll(copies, inner, new');
    assert cells[..|copies|] == copies;
  }

  /** The status message is copied behind a new pointer; a missing one stays missing. */
  method CloneStatus(box: MessageBox?, ghost objects: set<object>) returns (copy: MessageBox?, ghost new': set<object>)
    requires BoxIn(box, objects)
    ensures fresh(new') && BoxIn(copy, new') && ShowBox(copy, new') == old(ShowBox(box, objects))
  {
    if box == null {
      return null, {};
    }
    var message, inner := CloneMessage(box.message, objects);
    ghost var shown := ShowMessage(message, inner);
    copy := new MessageBox(message);
    assert MessageIn(message, inner) && ShowMessage(message, inner) == shown;
    new' := inner + {copy};
    MoreObjects(message, inner, new');
  }

  method CloneLists(artifacts: Slice<Artifact>, history: Slice<Message>, ghost objects: set<object>)
    returns (artifacts': Slice<Artifact>, history': Slice<Message>, ghost new': set<object>)
    requires ListIn(artifacts, objects) && ListIn(history, objects)
    ensures fresh(new') && ListIn(artifacts', new') && ListIn(history', new')
    ensures ShowMessages(artifacts'.Elements(), new') == old(ShowMessages(artifacts.Elements(), objects))
    ensures ShowMessages(history'.Elements(), new') == old(ShowMessages(history.Elements(), objects))
  {
    ghost var was := ShowMessages(history.Elements(), objects);
    ghost var one, two;
    artifacts', one := CloneList(artifacts, objects);
    ghost var shown := ShowMessages(artifacts'.Elements(), one);
    assert ListIn(history, objects) && ShowMessages(history.Elements(), objects) == was;
    history', two := CloneList(history, objects);
    assert ListIn(artifacts', one) && ShowMessages(artifacts'.Elements(), one) == shown;
    new' := one + two;
    MoreObjectsForAll(artifacts'.Elements(), one, new');
    MoreObjectsForAll(history'.Elements(), two, new');
  }

  method CloneRest(box: MessageBox?, metadata: GoMap?<string>, ghost objects: set<object>)
    returns (box': MessageBox?, metadata': GoMap?<string>, ghost new': set<object>)
    requires BoxIn(box, objects) && MapIn(metadata, objects)
    ensures fresh(new') && BoxIn(box', new') && MapIn(metadata', new')
    ensures ShowBox(box', new') == old(ShowBox(box, objects)) && ShowMap(metadata') == old(ShowMap(metadata))
  {
    ghost var was := ShowMap(metadata);
    ghost var one, two;
    box', one := CloneStatus(box, objects);
    ghost var shown := ShowBox(box', one);
    assert ShowMap(metadata) == was;
    metadata', two := CloneMetadata(metadata);
    assert BoxIn(box', one) && ShowBox(box', one) == shown;
    new' := one + two;
    if box' != null {
      MoreObjects(box'.message, one, new');
    }
  }

  lemma MoreObjectsForBox(box: MessageBox?, objects: set<object>, more: set<object>)
    requires BoxIn(box, objects) && objects <= more
    ensures BoxIn(box, more) && ShowBox(box, more) == ShowBox(box, objects)
  {
    if box != null {
      MoreObjects(box.message, objects, more);
    }
  }

  /** The copy of a task shows the same and hangs on new objects only. */
  method CloneTask(t: Task, ghost objects: set<object>) returns (copy: Task, ghost new': set<object>)
    requires TaskIn(t, objects)
    ensures fresh(new') && TaskIn(copy, new') && ShowTask(copy, new') == old(ShowTask(t, objects))
  {
    ghost var was := ShowTask(t, objects);
    var artifacts, history, lists := CloneLists(t.artifacts, t.history, objects);
    ghost var shown, shown' := ShowMessages(artifacts.Elements(), lists), ShowMessages(history.Elements(), lists);
    assert shown == was.artifacts && shown' == was.history;
    assert BoxIn(t.message, objects) && ShowBox(t.message, objects) == was.message && ShowMap(t.metadata) == was.metadata;
    var message, metadata, rest := CloneRest(t.message, t.metadata, objects);
    assert ListIn(artifacts, lists) && ShowMessages(artifacts.Elements(), lists) == shown;
    assert ListIn(history, lists) && ShowMessages(history.Elements(), lists) == shown';
    new' := lists + rest;
    MoreObjectsForAll(artifacts.Elements(), lists, new');
    MoreObjectsForAll(history.Elements(), lists, new');
    MoreObjectsForBox(message, rest, new');
    copy := Task(t.id, t.contextID, t.state, message, artifacts, history, metadata);
  }

  // ----- Decoding: new objects that show a received value -----

  method MakeMap(shown: Option<map<string, string>>) returns (m: GoMap?<string>, ghost new': set<object>)
    ensures fresh(new') && MapIn(m, new') && ShowMap(m) == shown
  {
    if shown.None? {
      return null, {};
    }
    m := new GoMap(shown.value);
    new' := {m};
  }

  method MakeParts(shown: seq<PartShown>) returns (parts: seq<Part>, ghost new': set<object>)
    ensures fresh(new') && PartsIn(parts, new') && ShowParts(parts, new') == shown
  {
    parts, new' := [], {};
    for i := 0 to |shown|
      invariant |parts| == i && fresh(new') && PartsIn(parts, new')
      invariant forall k :: 0 <= k < i ==> ShowPart(parts[k]) == shown[k]
    {
      var data, one := MakeMap(shown[i].data);
      parts, new' := parts + [Part(shown[i].text, data, shown[i].raw, shown[i].url)], new' + one;
    }
  }

  method MakeMessage(shown: MessageShown) returns (m: Message, ghost new': set<object>)
    ensures fresh(new') && MessageIn(m, new') && ShowMessage(m, new') == shown
  {
    var parts, inner := MakeParts(shown.parts);
    var metadata, outer := MakeMap(shown.metadata);
    var cells := new Part[|parts|](i requires 0 <= i < |parts| => parts[i]);
    var references := new string[|shown.references|](i requires 0 <= i < |shown.references| => shown.references[i]);
    m := Message(shown.id, shown.role, Slice(cells, |parts|), Slice(references, |shown.references|), metadata);
    new' := inner + outer + {cells, references};
    assert cells[..|parts|] == parts && references[..|shown.references|] == shown.references;
    assert ShowParts(parts, inner) == shown.parts;
  }

  method MakeList(shown: seq<MessageShown>) returns (s: Slice<Message>, ghost new': set<object>)
    ensures fresh(new') && ListIn(s, new') && ShowMessages(s.Elements(), new') == shown
  {
    var ms: seq<Message>;
    ghost var inner: set<object>;
    ms, inner := [], {};
    for i := 0 to |shown|
      invariant |ms| == i && fresh(inner) && MessagesIn(ms, inner) && ShowMessages(ms, inner) == shown[..i]
    {
      ghost var before := inner;
      var m, one := MakeMessage(shown[i]);
      assert MessagesIn(ms, before) && ShowMessages(ms, before) == shown[..i];
      AppendCopy(ms, before, m, one);
      ms, inner := ms + [m], before + one;
    }
    var cells := new Message[|ms|](i requires 0 <= i < |ms| => ms[i]);
    assert MessagesIn(ms, inner) && ShowMessages(ms, inner) == shown;
    s, new' := Slice(cells, |ms|), inner + {cells};
    MoreObjectsForAll(ms, inner, new');
    assert cells[..|ms|] == ms;
  }

  method MakeBox(shown: Option<MessageShown>) returns (box: MessageBox?, ghost new': set<object>)
    ensures fresh(new') && BoxIn(box, new') && ShowBox(box, new') == shown
  {
    if shown.None? {
      return null, {};
    }
    var message, inner := MakeMessage(shown.value);
    box := new MessageBox(message);
    assert MessageIn(message, inner) && ShowMessage(message, inner) == shown.value;
    new' := inner + {box};
    MoreObjects(message, inner, new');
  }

  method MakeTask(shown: TaskShown) returns (t: Task, ghost new': set<object>)
    ensures fresh(new') && TaskIn(t, new') && ShowTask(t, new') == shown
  {
    var artifacts, one := MakeList(shown.artifacts);
    var history, two := MakeList(shown.history);
    assert ListIn(artifacts, one) && ShowMessages(artifacts.Elements(), one) == shown.artifacts;
    var message, three := MakeBox(shown.message);
    var metadata, four := MakeMap(shown.metadata);
    assert ListIn(artifacts, one) && ShowMessages(artifacts.Elements(), one) == shown.artifacts;
    assert ListIn(history, two) && ShowMessages(history.Elements(), two) == shown.history;
    assert BoxIn(message, three) && ShowBox(message, three) == shown.message;
    new' := one + two + three + four;
    MoreObjectsForAll(artifacts.Elements(), one, new');
    MoreObjectsForAll(history.Elements(), two, new');
    MoreObjectsForBox(message, three, new');
    t := Task(shown.id, shown.contextID, shown.state, message, artifacts, history, metadata);
  }

  // ----- Validation -----

  function Payloads(p: PartShown): nat {
    (if Blank(p.text) then 0 else 1)
    + (if p.data.Some? && |p.data.value| > 0 then 1 else 0)
    + (if Blank(p.raw) then 0 else 1)
    + (if Blank(p.url) then 0 else 1)
  }

  predicate PartIsValid(p: PartShown) {
    Payloads(p) == 1
  }

  /** Exactly one of text, data, raw bytes and URL is there. */
  lemma PartHasOnePayload(p: PartShown)
    ensures var text, data, raw, url := !Blank(p.text), p.data.Some? && p.data.value != map[], !Blank(p.raw), !Blank(p.url);
            PartIsValid(p) <==>
              || (text && !data && !raw && !url) || (!text && data && !raw && !url)
              || (!text && !data && raw && !url) || (!text && !data && !raw && url)
  {
    assert p.data.Some? ==> (|p.data.value| > 0 <==> p.data.value != map[]);
  }

  predicate ArtifactIsValid(m: MessageShown) {
    forall i :: 0 <= i < |m.parts| ==> PartIsValid(m.parts[i])
  }

  predicate MessageIsValid(m: MessageShown) {
    !m.role.OtherRole? && m.parts != [] && ArtifactIsValid(m)
  }

  predicate StatusIsValid(state: TaskState, message: Option<MessageShown>) {
    !state.OtherState? && (message.Some? ==> MessageIsValid(message.value))
  }

  predicate TaskIsValid(t: TaskShown) {
    && !Blank(t.id) && StatusIsValid(t.state, t.message)
    && (forall i :: 0 <= i < |t.history| ==> MessageIsValid(t.history[i]))
    && (forall i :: 0 <= i < |t.artifacts| ==> ArtifactIsValid(t.artifacts[i]))
  }

  /** A valid task has an ID and a known state, and every message of it a known role and valid parts. */
  lemma ValidTaskHas(t: TaskShown)
    ensures TaskIsValid(t) <==>
              && !Blank(t.id) && t.state in {Unspecified, Submitted, Working, InputRequired, Completed, Failed, Canceled}
              && (t.message.Some? ==> t.message.value.role in {User, Agent} && t.message.value.parts != []
                                      && forall p <- t.message.value.parts :: PartIsValid(p))
              && (forall m <- t.history :: m.role in {User, Agent} && m.parts != [] && forall p <- m.parts :: PartIsValid(p))
              && (forall m <- t.artifacts :: forall p <- m.parts :: PartIsValid(p))
  {
  }

  /** A part has exactly one payload: text, data, raw bytes or a URL. */
  method ValidatePart(p: Part) returns (ok: bool)
    ensures ok <==> PartIsValid(ShowPart(p))
  {
    var count := 0;
    if !Blank(p.text) {
      count := count + 1;
    }
    if p.data != null && |p.data.entries| > 0 {
      count := count + 1;
    }
    if !Blank(p.raw) {
      count := count + 1;
    }
    if !Blank(p.url) {
      count := count + 1;
    }
    ok := count == 1;
  }

  method ValidateArtifact(m: Artifact, ghost objects: set<object>) returns (ok: bool)
    requires MessageIn(m, objects)
    ensures ok <==> ArtifactIsValid(ShowMessage(m, objects))
  {
    var parts := m.parts.Elements();
    ghost var shown := ShowMessage(m, objects).parts;
    for i := 0 to |parts|
      invariant forall k :: 0 <= k < i ==> PartIsValid(shown[k])
    {
      assert MapIn(parts[i].data, objects) && shown[i] == ShowPart(parts[i]);
      ok := ValidatePart(parts[i]);
      if !ok {
        return;
      }
    }
    ok := true;
  }

  method ValidateMessage(m: Message, ghost objects: set<object>) returns (ok: bool)
    requires MessageIn(m, objects)
    ensures ok <==> MessageIsValid(ShowMessage(m, objects))
  {
    if m.role.OtherRole? || m.parts.len == 0 {
      return false;
    }
    ok := ValidateArtifact(m, objects);
  }

  method ValidateStatus(state: TaskState, message: MessageBox?, ghost objects: set<object>) returns (ok: bool)
    requires BoxIn(message, objects)
    ensures ok <==> StatusIsValid(state, ShowBox(message, objects))
  {
    if state.OtherState? {
      return false;
    }
    if message == null {
      return true;
    }
    ok := ValidateMessage(message.message, objects);
  }

  method ValidateHistory(ms: seq<Message>, ghost objects: set<object>) returns (ok: bool)
    requires MessagesIn(ms, objects)
    ensures ok <==> forall i :: 0 <= i < |ms| ==> MessageIsValid(ShowMessages(ms, objects)[i])
  {
    for i := 0 to |ms|
      invariant forall k :: 0 <= k < i ==> MessageIsValid(ShowMessages(ms, objects)[k])
    {
      assert MessageIn(ms[i], objects);
      ok := ValidateMessage(ms[i], objects);
      if !ok {
        assert !MessageIsValid(ShowMessages(ms, objects)[i]);
        return;
      }
    }
    ok := true;
  }

  method ValidateArtifacts(ms: seq<Artifact>, ghost objects: set<object>) returns (ok: bool)
    requires MessagesIn(ms, objects)
    ensures ok <==> forall i :: 0 <= i < |ms| ==> ArtifactIsValid(ShowMessages(ms, objects)[i])
  {
    for i := 0 to |ms|
      invariant forall k :: 0 <= k < i ==> ArtifactIsValid(ShowMessages(ms, objects)[k])
    {
      assert MessageIn(ms[i], objects);
      ok := ValidateArtifact(ms[i], objects);
      if !ok {
        assert !ArtifactIsValid(ShowMessages(ms, objects)[i]);
        return;
      }
    }
    ok := true;
  }

  /** Checks a task where it lies: its ID, its status, every message of its history and every artifact. */
  method ValidateTask(t: Task, ghost objects: set<object>) returns (ok: bool)
    requires TaskIn(t, objects)
    ensures ok <==> TaskIsValid(ShowTask(t, objects))
  {
    if Blank(t.id) {
      return false;
    }
    ok := ValidateStatus(t.state, t.message, objects);
    if !ok {
      return;
    }
    ok := ValidateHistory(t.history.Elements(), objects);
    if !ok {
      return;
    }
    ok := ValidateArtifacts(t.artifacts.Elements(), objects);
  }

  // ----- Tasks by ID -----

  ghost predicate ShownAs(entries: map<string, Task>, objects: set<object>, shown: map<string, TaskShown>, id: string)
    reads objects
  {
    && (id in entries <==> id in shown)
    && (id in entries ==> TaskIn(entries[id], objects) && ShowTask(entries[id], objects) == shown[id])
  }

  /** The tasks hang on the objects and show this. */
  ghost predicate AllShownAs(entries: map<string, Task>, objects: set<object>, shown: map<string, TaskShown>)
    reads objects
  {
    forall id :: ShownAs(entries, objects, shown, id)
  }

  lemma PutOne(entries: map<string, Task>, objects: set<object>, shown: map<string, TaskShown>, key: string, t: Task, its: set<object>)
    requires AllShownAs(entries, objects, shown) && TaskIn(t, its)
    ensures AllShownAs(entries[key := t], objects + its, shown[key := ShowTask(t, its)])
  {
    var all, entries', shown' := objects + its, entries[key := t], shown[key := ShowTask(t, its)];
    MoreObjectsForTask(t, its, all);
    forall id ensures ShownAs(entries', all, shown', id) {
      assert ShownAs(entries, objects, shown, id);
      if id in entries {
        MoreObjectsForTask(entries[id], objects, all);
      }
    }
  }

  lemma SameKeys(entries: map<string, Task>, objects: set<object>, shown: map<string, TaskShown>)
    requires AllShownAs(entries, objects, shown)
    ensures entries.Keys == shown.Keys
  {
    forall id ensures id in entries <==> id in shown {
      assert ShownAs(entries, objects, shown, id);
    }
  }

  /** A map of tasks, with the objects that its tasks hang on and what they show. */
  class TaskMap {
    var entries: map<string, Task>
    ghost var objects: set<object>
    ghost var shown: map<string, TaskShown>

    ghost predicate Valid()
      reads this, objects
    {
      this !in objects && AllShownAs(entries, objects, shown)
    }

    constructor ()
      ensures Valid() && entries == map[] && shown == map[] && objects == {}
    {
      entries, objects, shown := map[], {}, map[];
    }

    /** Stores the task itself, without copying what it hangs on. */
    method Put(key: string, t: Task, ghost its: set<object>)
      requires Valid() && TaskIn(t, its) && this !in its
      modifies this
      ensures Valid() && objects == old(objects) + its
      ensures entries == old(entries)[key := t] && shown == old(shown)[key := old(ShowTask(t, its))]
    {
      PutOne(entries, objects, shown, key, t, its);
      ghost var after, sight := objects + its, shown[key := ShowTask(t, its)];
      entries := entries[key := t];
      objects, shown := after, sight;
    }
  }

  method CloneEntry(m: TaskMap, copy: TaskMap, id: string)
    requires m.Valid() && copy.Valid() && id in m.entries
    modifies copy
    ensures copy.Valid() && fresh(copy.objects - old(copy.objects))
    ensures id in old(m.shown) && copy.shown == old(copy.shown)[id := old(m.shown)[id]]
  {
    assert ShownAs(m.entries, m.objects, m.shown, id);
    ghost var was := m.shown[id];
    var task, its := CloneTask(m.entries[id], m.objects);
    assert copy.Valid();
    copy.Put(id, task, its);
  }

  /** Copies the map and every task in it. */
  method CloneTasks(m: TaskMap) returns (copy: TaskMap)
    requires m.Valid()
    ensures fresh(copy) && fresh(copy.objects) && copy.Valid() && copy.shown == old(m.shown)
  {
    copy := new TaskMap();
    SameKeys(m.entries, m.objects, m.shown);
    ghost var was := m.shown;
    var todo := m.entries.Keys;
    while todo != {}
      invariant todo <= was.Keys == m.entries.Keys && m.Valid() && m.shown == was
      invariant fresh(copy) && fresh(copy.objects) && copy.Valid()
      invariant copy.shown.Keys == was.Keys - todo && forall id <- copy.shown :: copy.shown[id] == was[id]
      decreases todo
    {
      var id :| id in todo;
      CloneEntry(m, copy, id);
      todo := todo - {id};
    }
  }
}
