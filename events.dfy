/** The events the orchestrator emits and the server relays to every browser
    (`{type, data}` messages), and their JSON form on the wire. */
module Events {
  import opened Js

  datatype TimelineStatus = Pending | Accepted | Revised | Rejected

  /** One `{type, data}` message. The `content` of an artifact update is the value the
      orchestrator serialises with `JSON.stringify(x, null, 2)`. */
  datatype Event =
    | Timeline(agent: string, action: string, status: TimelineStatus)
    | ArtifactUpdate(id: string, title: string, content: Value, version: nat, isOpen: bool)
    | Contention(id: string, title: string, parties: seq<string>, resolved: bool,
                 statementA: Value, statementB: string, outcome: string)
    | Clarification(question: Value)
    | Completion(blueprint: Value, previewUrl: Option<string>, error: bool)

  /** The events that end a run: a question for the user or the completion. */
  predicate Terminal(e: Event)
  {
    e.Clarification? || e.Completion?
  }

  /** No event of `es` ends a run. */
  predicate Progress(es: seq<Event>)
  {
    forall i :: 0 <= i < |es| ==> !Terminal(es[i])
  }

  function StatusName(s: TimelineStatus): string
  {
    match s
    case Pending => "pending"
    case Accepted => "accepted"
    case Revised => "revised"
    case Rejected => "rejected"
  }

  function TypeName(e: Event): string
  {
    match e
    case Timeline(_, _, _) => "timeline_event"
    case ArtifactUpdate(_, _, _, _, _) => "artifact_update"
    case Contention(_, _, _, _, _, _, _) => "contention"
    case Clarification(_) => "clarification"
    case Completion(_, _, _) => "completion"
  }

  function Strings(ss: seq<string>): (r: seq<Value>)
    ensures |r| == |ss| && forall i :: 0 <= i < |ss| ==> r[i] == Str(ss[i])
  {
    if ss == [] then [] else [Str(ss[0])] + Strings(ss[1..])
  }

  /** The `data` object of an event, before serialisation. `JSON.stringify(undefined, null, 2)`
      is `undefined`, so a missing artifact entry leaves `content` undefined. */
  function Payload(e: Event, stringify: Value -> string): (v: Value)
    ensures v.Obj?
    ensures e.ArtifactUpdate? ==>
      UniqueKeys(v.fields)
      && (Get(v.fields, "content").Str? <==> !e.content.Undefined?)
      && (e.content.Undefined? ==> Get(v.fields, "content") == Undefined)
      && (!e.content.Undefined? ==> Get(v.fields, "content") == Str(stringify(e.content)))
    ensures e.Completion? ==>
      ("previewUrl" in Keys(v.fields) <==> e.previewUrl.Some?) && ("error" in Keys(v.fields) <==> e.error)
  {
    match e
    case Timeline(agent, action, status) =>
      Obj([("agent", Str(agent)), ("action", Str(action)), ("status", Str(StatusName(status)))])
    case ArtifactUpdate(id, title, content, version, isOpen) =>
      Obj(ArtifactData(id, title, if content.Undefined? then Undefined else Str(stringify(content)), version, isOpen))
    case Contention(id, title, parties, resolved, a, b, outcome) =>
      Obj([("id", Str(id)), ("title", Str(title)), ("agents", Arr(Strings(parties))),
           ("status", Str(if resolved then "resolved" else "open")),
           ("statementA", a), ("statementB", Str(b)), ("outcome", Str(outcome))])
    case Clarification(question) => Obj([("question", question)])
    case Completion(blueprint, previewUrl, error) => Obj(CompletionData(blueprint, previewUrl, error))
  }

  /** The entries of an `artifact_update` payload, `content` already stringified. */
  function ArtifactData(id: string, title: string, content: Value, version: nat, isOpen: bool): (fields: seq<(string, Value)>)
    ensures UniqueKeys(fields)
    ensures Get(fields, "content") == content
  {
    var fields := [("id", Str(id)), ("title", Str(title)), ("content", content), ("version", Num(version)), ("isOpen", Bool(isOpen))];
    assert "content"[0] != "version"[0];
    assert fields[2..] == [("content", content)] + fields[3..];
    fields
  }

  /** The entries of a `complete` payload: `previewUrl` and `error` appear only when set. */
  function CompletionData(blueprint: Value, previewUrl: Option<string>, error: bool): (fields: seq<(string, Value)>)
    ensures "previewUrl" in Keys(fields) <==> previewUrl.Some?
    ensures "error" in Keys(fields) <==> error
  {
    var fields := [("blueprint", blueprint)]
        + (if previewUrl.Some? then [("previewUrl", Str(previewUrl.value))] else [])
        + (if error then [("error", Bool(true))] else []);
    assert Keys(fields) == ["blueprint"] + (if previewUrl.Some? then ["previewUrl"] else [])
        + (if error then ["error"] else []);
    fields
  }

  /** The `{type, data}` object the orchestrator hands to its event callback. */
  function Message(e: Event, stringify: Value -> string): (v: Value)
    ensures v.Obj? && |v.fields| == 2 && v.fields[0] == ("type", Str(TypeName(e)))
  {
    Obj([("type", Str(TypeName(e))), ("data", Payload(e, stringify))])
  }

  /** What a browser parses out of `data: ${JSON.stringify(event)}`: the message object after
      one trip through JSON. `stringify` is `JSON.stringify(x, null, 2)`. */
  function Wire(e: Event, stringify: Value -> string): (v: Value)
    ensures v.Obj? && JsonClean(v)
    ensures Prop(v, "type") == Returned(Str(TypeName(e)))
  {
    var message := Message(e, stringify);
    var fields := message.fields;
    assert fields[..1] == [("type", Str(TypeName(e)))] && fields[..1][..0] == [];
    assert CopyFields(message, fields[..1]) == [("type", Str(TypeName(e)))];
    assert CopyFields(message, fields)[0] == ("type", Str(TypeName(e)));
    JsonCopy(message)
  }

  /** On the wire an artifact update carries its content as a string, or, when the entry
      was undefined, has no `content` key at all. */
  lemma WireArtifactContent(e: Event, stringify: Value -> string)
    requires e.ArtifactUpdate?
    ensures var data := Get(Wire(e, stringify).fields, "data");
      data.Obj? && ("content" in Keys(data.fields) <==> !e.content.Undefined?)
      && Get(data.fields, "content") == (if e.content.Undefined? then Undefined else Str(stringify(e.content)))
  {
    var payload := Payload(e, stringify);
    WireData(e, stringify);
    CopyFieldsGet(payload, payload.fields, "content");
  }

  /** The `data` entry of the message after one JSON trip. */
  lemma WireData(e: Event, stringify: Value -> string)
    ensures Get(Wire(e, stringify).fields, "data") == JsonCopy(Payload(e, stringify))
  {
    var message, payload := Message(e, stringify), Payload(e, stringify);
    assert Wire(e, stringify) == JsonCopy(message);
    assert message.fields == [("type", Str(TypeName(e))), ("data", payload)];
    assert "type"[0] != "data"[0];
    assert Get(message.fields[1..], "data") == payload;
    CopyFieldsGet(message, message.fields, "data");
  }
}
